/** The byte-position scanner and the snapshot's field check, step by step as they run. */
module SnapshotSchema {
  import opened Wrappers
  import opened JsonText
  import opened JsonScan
  import opened JsonVisit

  // ----- scanning -----

  method SkipJSONSpace(data: string, start: nat) returns (position: nat)
    requires start <= |data|
    ensures position <= |data| && data[position..] == Skip(data[start..]) && position >= start
  {
    position := start;
    while position < |data| && IsSpace(data[position])
      invariant start <= position <= |data| && Skip(data[position..]) == Skip(data[start..])
    {
      SkipOne(data[position..]);
      assert data[position..][1..] == data[position + 1..];
      position := position + 1;
    }
    assert position < |data| ==> data[position..][0] == data[position];
    assert Skip(data[position..]) == data[position..];
  }

  lemma SkipOne(s: string)
    requires s != "" && IsSpace(s[0])
    ensures Skip(s) == Skip(s[1..])
  {
  }

  /** Behind a backslash one character is passed over whatever it is. */
  ghost function EscapedEnd(s: string): Option<nat> {
    if s == "" then None else Plus(1, StringEnd(s[1..]))
  }

  ghost function StringEndFrom(s: string, escaped: bool): Option<nat> {
    if escaped then EscapedEnd(s) else StringEnd(s)
  }

  method ScanJSONString(data: string, start: nat) returns (end: nat, ok: bool)
    ensures ok <==> start < |data| && data[start] == '"' && StringEnd(data[start + 1..]).Some?
    ensures ok ==> end == start + 1 + StringEnd(data[start + 1..]).value
    ensures !ok ==> end == if start < |data| && data[start] == '"' then |data| else start
  {
    if start >= |data| || data[start] != '"' {
      return start, false;
    }
    var escaped, position := false, start + 1;
    while position < |data|
      invariant start + 1 <= position <= |data|
      invariant StringEnd(data[start + 1..]) == Plus(position - (start + 1), StringEndFrom(data[position..], escaped))
    {
      StringStep(data[position..]);
      assert data[position..][1..] == data[position + 1..];
      if escaped {
        escaped := false;
      } else if data[position] == '\\' {
        escaped := true;
      } else if data[position] == '"' {
        return position + 1, true;
      }
      position := position + 1;
    }
    return |data|, false;
  }

  lemma BackslashStep(s: string)
    requires s != "" && s[0] == '\\'
    ensures StringEnd(s) == Plus(1, EscapedEnd(s[1..]))
  {
    assert |s| > 1 ==> s[1..][1..] == s[2..];
  }

  lemma StringStep(s: string)
    requires s != ""
    ensures EscapedEnd(s) == Plus(1, StringEnd(s[1..]))
    ensures s[0] == '\\' ==> StringEnd(s) == Plus(1, EscapedEnd(s[1..]))
    ensures s[0] == '"' ==> StringEnd(s) == Some(1)
    ensures s[0] != '\\' && s[0] != '"' ==> StringEnd(s) == Plus(1, StringEnd(s[1..]))
  {
    if s[0] == '\\' {
      BackslashStep(s);
    }
  }

  method ScanScalar(data: string, start: nat) returns (position: nat)
    requires start < |data|
    ensures start <= position <= |data| && position == start + ScalarCount(data[start..])
  {
    position := start;
    while position < |data|
      invariant start <= position <= |data|
      invariant ScalarCount(data[start..]) == position - start + ScalarCount(data[position..])
    {
      if EndsScalar(data[position]) {
        return;
      }
      assert data[position..][1..] == data[position + 1..];
      position := position + 1;
    }
  }

  lemma NestedStep(s: string, depth: nat)
    requires s != "" && depth >= 1
    ensures s[0] == '{' || s[0] == '[' ==> NestedEnd(s, depth) == Plus(1, NestedEnd(s[1..], depth + 1))
    ensures s[0] == '}' || s[0] == ']' ==>
              NestedEnd(s, depth) == if depth == 1 then Some(1) else Plus(1, NestedEnd(s[1..], depth - 1))
    ensures Plain(s[0]) ==> NestedEnd(s, depth) == Plus(1, NestedEnd(s[1..], depth))
  {
  }

  /** What one character, or one whole string, does to the depth. */
  method ScanNestedStep(data: string, position: nat, depth: nat) returns (next: nat, depthNow: nat, ok: bool)
    requires position < |data| && depth >= 1
    ensures !ok ==> NestedEnd(data[position..], depth).None?
    ensures ok ==> position < next <= |data|
    ensures ok && depthNow == 0 ==> NestedEnd(data[position..], depth) == Some(next - position)
    ensures ok && depthNow >= 1 ==>
              NestedEnd(data[position..], depth) == Plus(next - position, NestedEnd(data[next..], depthNow))
  {
    ghost var rest := data[position..];
    NestedStep(rest, depth);
    assert rest[1..] == data[position + 1..];
    if data[position] == '"' {
      next, ok := ScanJSONString(data, position);
      assert ok ==> rest[next - position..] == data[next..];
      return next, depth, ok;
    }
    next, ok := position + 1, true;
    depthNow := if data[position] == '{' || data[position] == '[' then depth + 1
                else if data[position] == '}' || data[position] == ']' then depth - 1
                else depth;
  }

  method ScanNested(data: string, start: nat) returns (end: nat, ok: bool)
    requires start < |data|
    ensures ok <==> NestedEnd(data[start + 1..], 1).Some?
    ensures ok ==> end == start + 1 + NestedEnd(data[start + 1..], 1).value
  {
    var depth: nat, position := 1, start + 1;
    while position < |data|
      invariant start + 1 <= position <= |data| && depth >= 1
      invariant NestedEnd(data[start + 1..], 1) == Plus(position - (start + 1), NestedEnd(data[position..], depth))
    {
      var next, depthNow, scanned := ScanNestedStep(data, position, depth);
      if !scanned {
        return position, false;
      }
      if depthNow == 0 {
        return next, true;
      }
      position, depth := next, depthNow;
    }
    return |data|, false;
  }

  method ScanJSONValue(data: string, start: nat) returns (end: nat, ok: bool)
    requires start <= |data|
    ensures ok <==> ValueEnd(data[start..]).Some?
    ensures ok ==> end == start + ValueEnd(data[start..]).value
  {
    if start >= |data| {
      return start, false;
    }
    assert data[start..][1..] == data[start + 1..];
    if data[start] == '"' {
      end, ok := ScanJSONString(data, start);
    } else if data[start] != '{' && data[start] != '[' {
      end := ScanScalar(data, start);
      ok := end > start;
    } else {
      end, ok := ScanNested(data, start);
    }
  }

  // ----- visiting -----

  method BehindCommaAt(data: string, start: nat) returns (position: nat, more: bool)
    requires start <= |data|
    ensures more <==> BehindComma(data[start..]).Some?
    ensures more ==> start < position <= |data| && data[position..] == BehindComma(data[start..]).value
  {
    position := SkipJSONSpace(data, start);
    if position >= |data| || data[position] == '}' || data[position] != ',' {
      return position, false;
    }
    assert data[position..][1..] == data[position + 1..];
    return position + 1, true;
  }

  lemma SliceOfRest(data: string, position: nat, from: nat, to: nat)
    requires position <= from <= to <= |data|
    ensures data[position..][from - position..to - position] == data[from..to]
    ensures data[position..][to - position..] == data[to..]
  {
  }

  method ReadKey(data: string, position: nat, unescape: string -> Option<string>) returns (name: Option<string>, end: nat)
    requires position < |data| && data[position] == '"'
    ensures name.None? <==> KeyIn(data[position..], unescape).None?
    ensures name.Some? ==>
              position < end <= |data| && KeyIn(data[position..], unescape) == Some(Key(name.value, data[end..]))
  {
    assert data[position..][1..] == data[position + 1..];
    var keyEnd, ok := ScanJSONString(data, position);
    if !ok {
      return None, position;
    }
    SliceOfRest(data, position, position + 1, keyEnd - 1);
    SliceOfRest(data, position, keyEnd, keyEnd);
    var raw := data[position + 1..keyEnd - 1];
    return if '\\' in raw then unescape(raw) else Some(raw), keyEnd;
  }

  method ScanKey(data: string, start: nat, unescape: string -> Option<string>) returns (name: Option<string>, end: nat)
    requires start <= |data|
    ensures name.None? <==> NextKey(data[start..], unescape).None?
    ensures name.Some? ==>
              start < end <= |data| && NextKey(data[start..], unescape) == Some(Key(name.value, data[end..]))
  {
    var position := SkipJSONSpace(data, start);
    if position >= |data| || data[position] == '}' || data[position] != '"' {
      return None, position;
    }
    name, end := ReadKey(data, position, unescape);
  }

  /** One member: its name and value, and where the next one starts. */
  method VisitMember(data: string, start: nat, unescape: string -> Option<string>)
    returns (step: Step<Visit>, next: nat)
    requires start <= |data|
    ensures step == NextMember(data[start..], unescape)
    ensures step.Next? && step.rest.Some? ==> start < next <= |data| && data[next..] == step.rest.value
  {
    var name, keyEnd := ScanKey(data, start, unescape);
    if name.None? {
      return Stop, start;
    }
    step, next := VisitColon(data, keyEnd, name.value);
  }

  method VisitColon(data: string, start: nat, name: string) returns (step: Step<Visit>, next: nat)
    requires start <= |data|
    ensures step == MemberColon(data[start..], name)
    ensures step.Next? && step.rest.Some? ==> start < next <= |data| && data[next..] == step.rest.value
  {
    var position := SkipJSONSpace(data, start);
    if position >= |data| || data[position] != ':' {
      return Stop, start;
    }
    assert data[position..][1..] == data[position + 1..];
    step, next := VisitValue(data, position + 1, name);
  }

  method VisitValue(data: string, start: nat, name: string) returns (step: Step<Visit>, next: nat)
    requires start <= |data|
    ensures step == MemberValue(data[start..], name)
    ensures step.Next? && step.rest.Some? ==> start < next <= |data| && data[next..] == step.rest.value
  {
    var valueStart := SkipJSONSpace(data, start);
    var valueEnd, ok := ScanJSONValue(data, valueStart);
    if !ok {
      return Stop, start;
    }
    var value := data[valueStart..valueEnd];
    SliceOfRest(data, valueStart, valueStart, valueEnd);
    var behind, more := BehindCommaAt(data, valueEnd);
    return Next(Visit(name, value), if more then Some(data[behind..]) else None), behind;
  }

  /** The position behind an opening bracket, if the text starts with it. */
  method BehindBracket(data: string, open: char) returns (position: nat, found: bool)
    ensures found <==> Skip(data) != "" && Skip(data)[0] == open
    ensures found ==> position <= |data| && data[position..] == Skip(data)[1..]
  {
    var start := SkipJSONSpace(data, 0);
    assert data[0..] == data;
    if start >= |data| || data[start] != open {
      return start, false;
    }
    assert data[start..][1..] == data[start + 1..];
    return start + 1, true;
  }

  lemma OneMoreVisit<T>(visited: seq<T>, v: T, rest: seq<T>)
    ensures (visited + [v]) + rest == visited + ([v] + rest)
  {
  }

  method VisitJSONObject(data: string, unescape: string -> Option<string>) returns (visited: seq<Visit>)
    ensures visited == ObjectVisits(data, unescape)
  {
    visited := [];
    var position, found := BehindBracket(data, '{');
    if !found {
      return;
    }
    ghost var all := ObjectVisits(data, unescape);
    while true
      invariant position <= |data|
      invariant visited + MemberVisits(data[position..], unescape) == all
      decreases |data| - position
    {
      var step, next := VisitMember(data, position, unescape);
      if step.Stop? {
        return;
      }
      OneMoreVisit(visited, step.visit, if step.rest.Some? then MemberVisits(step.rest.value, unescape) else []);
      visited := visited + [step.visit];
      if step.rest.None? {
        return;
      }
      position := next;
    }
  }

  method VisitJSONArray(data: string) returns (visited: seq<string>)
    ensures visited == ArrayVisits(data)
  {
    visited := [];
    var position, found := BehindBracket(data, '[');
    if !found {
      return;
    }
    ghost var all := ArrayVisits(data);
    while true
      invariant position <= |data|
      invariant visited + ElementVisits(data[position..]) == all
      decreases |data| - position
    {
      var step, next := VisitElement(data, position);
      if step.Stop? {
        return;
      }
      OneMoreVisit(visited, step.visit, if step.rest.Some? then ElementVisits(step.rest.value) else []);
      visited := visited + [step.visit];
      if step.rest.None? {
        return;
      }
      position := next;
    }
  }

  method VisitElement(data: string, start: nat) returns (step: Step<string>, next: nat)
    requires start <= |data|
    ensures step == NextElement(data[start..])
    ensures step.Next? && step.rest.Some? ==> start < next <= |data| && data[next..] == step.rest.value
  {
    next := start;
    var position := SkipJSONSpace(data, start);
    if position >= |data| || data[position] == ']' {
      return Stop, next;
    }
    var valueEnd, ok := ScanJSONValue(data, position);
    if !ok {
      return Stop, next;
    }
    var value := data[position..valueEnd];
    SliceOfRest(data, position, position, valueEnd);
    var behind, more := BehindCommaAt(data, valueEnd);
    return Next(value, if more then Some(data[behind..]) else None), behind;
  }
}
