/**
 The byte scanner as functions of what is left to read: how far a string, a nested value or any
 value goes. None means that the text ends too early.
 */
module JsonScan {
  import opened Wrappers
  import opened JsonText

  function Plus(n: nat, r: Option<nat>): Option<nat> {
    if r.None? then None else Some(n + r.value)
  }

  function SpaceCount(s: string): (n: nat)
    ensures n <= |s| && AllSpace(s[..n]) && (n < |s| ==> !IsSpace(s[n]))
  {
    if s == "" || !IsSpace(s[0]) then 0
    else
      var n := 1 + SpaceCount(s[1..]);
      assert s[..n] == [s[0]] + s[1..][..n - 1];
      n
  }

  function Skip(s: string): string {
    s[SpaceCount(s)..]
  }

  /** From behind the opening quote to behind the closing one. */
  function StringEnd(s: string): (r: Option<nat>)
    ensures r.Some? ==> 1 <= r.value <= |s|
  {
    if s == "" then None
    else if s[0] == '\\' then if |s| == 1 then None else Plus(2, StringEnd(s[2..]))
    else if s[0] == '"' then Some(1)
    else Plus(1, StringEnd(s[1..]))
  }

  /** To behind the bracket that closes `depth` open ones. */
  function NestedEnd(s: string, depth: nat): (r: Option<nat>)
    requires depth >= 1
    ensures r.Some? ==> 1 <= r.value <= |s|
    decreases |s|
  {
    if s == "" then None
    else if s[0] == '"' then
      var n := StringEnd(s[1..]);
      if n.None? then None else Plus(1 + n.value, NestedEnd(s[1 + n.value..], depth))
    else if s[0] == '{' || s[0] == '[' then Plus(1, NestedEnd(s[1..], depth + 1))
    else if s[0] == '}' || s[0] == ']' then if depth == 1 then Some(1) else Plus(1, NestedEnd(s[1..], depth - 1))
    else Plus(1, NestedEnd(s[1..], depth))
  }

  predicate EndsScalar(c: char) {
    c == ',' || c == '}' || c == ']' || IsSpace(c)
  }

  function ScalarCount(s: string): (n: nat)
    ensures n <= |s|
  {
    if s == "" || EndsScalar(s[0]) then 0 else 1 + ScalarCount(s[1..])
  }

  function ValueEnd(s: string): (r: Option<nat>)
    ensures r.Some? ==> 1 <= r.value <= |s|
  {
    if s == "" then None
    else if s[0] == '"' then Plus(1, StringEnd(s[1..]))
    else if s[0] == '{' || s[0] == '[' then Plus(1, NestedEnd(s[1..], 1))
    else if ScalarCount(s) > 0 then Some(ScalarCount(s))
    else None
  }

  // ----- skipping space -----

  lemma {:induction false} SkipSpace(space: string, rest: string)
    requires AllSpace(space) && (rest != "" ==> !IsSpace(rest[0]))
    ensures Skip(space + rest) == rest
  {
    if space == "" {
      assert space + rest == rest;
    } else {
      SkipSpace(space[1..], rest);
      assert (space + rest)[1..] == space[1..] + rest;
    }
  }

  // ----- strings -----

  /** A valid string body has no quote of its own: the scanner stops at the closing one. */
  lemma {:induction false} StringEndsAtQuote(body: string, rest: string)
    requires ValidBody(body)
    ensures StringEnd(body + "\"" + rest) == Some(|body| + 1)
    decreases |body|
  {
    var s := body + "\"" + rest;
    if body == "" {
      assert s == "\"" + rest;
    } else if body[0] != '\\' {
      assert s[1..] == body[1..] + "\"" + rest;
      StringEndsAtQuote(body[1..], rest);
    } else {
      assert s[2..] == body[2..] + "\"" + rest;
      if body[1] != 'u' {
        StringEndsAtQuote(body[2..], rest);
      } else {
        HexThenQuote(body[2..], rest);
      }
    }
  }

  lemma OrdinaryChar(c: char, s: string)
    requires c != '"' && c != '\\'
    ensures StringEnd([c] + s) == Plus(1, StringEnd(s))
  {
    assert ([c] + s)[1..] == s;
  }

  /** Four hexadecimal digits are ordinary characters to the scanner. */
  lemma {:induction false} HexThenQuote(tail: string, rest: string)
    requires |tail| >= 4 && (forall k :: 0 <= k < 4 ==> IsHex(tail[k])) && ValidBody(tail[4..])
    ensures StringEnd(tail + "\"" + rest) == Some(|tail| + 1)
    decreases |tail|
  {
    StringEndsAtQuote(tail[4..], rest);
    var end := tail[4..] + "\"" + rest;
    assert tail + "\"" + rest == [tail[0]] + ([tail[1]] + ([tail[2]] + ([tail[3]] + end)));
    OrdinaryChar(tail[3], end);
    OrdinaryChar(tail[2], [tail[3]] + end);
    OrdinaryChar(tail[1], [tail[2]] + ([tail[3]] + end));
    OrdinaryChar(tail[0], [tail[1]] + ([tail[2]] + ([tail[3]] + end)));
  }

  // ----- nested values -----

  /** Characters that neither open, close nor quote anything leave the depth alone. */
  predicate Plain(c: char) {
    c != '"' && c != '{' && c != '[' && c != '}' && c != ']'
  }

  lemma {:induction false} NestedOverPlain(p: string, rest: string, depth: nat)
    requires depth >= 1 && forall c <- p :: Plain(c)
    ensures NestedEnd(p + rest, depth) == Plus(|p|, NestedEnd(rest, depth))
  {
    if p == "" {
      assert p + rest == rest;
    } else {
      NestedOverPlain(p[1..], rest, depth);
      assert (p + rest)[1..] == p[1..] + rest;
      assert (p + rest)[0] == p[0] && p[0] in p;
    }
  }

  lemma NestedOverString(body: string, rest: string, depth: nat)
    requires depth >= 1 && ValidBody(body)
    ensures NestedEnd(Quoted(body) + rest, depth) == Plus(|body| + 2, NestedEnd(rest, depth))
  {
    var s := Quoted(body) + rest;
    assert s[1..] == body + "\"" + rest;
    StringEndsAtQuote(body, rest);
    assert s[1 + (|body| + 1)..] == rest;
  }

  lemma NestedOpens(c: char, inner: string, depth: nat)
    requires depth >= 1 && (c == '[' || c == '{')
    ensures NestedEnd([c] + inner, depth) == Plus(1, NestedEnd(inner, depth + 1))
  {
    assert ([c] + inner)[1..] == inner;
  }

  lemma NestedCloses(c: char, rest: string, depth: nat)
    requires depth >= 1 && (c == ']' || c == '}')
    ensures NestedEnd([c] + rest, depth) == if depth == 1 then Some(1) else Plus(1, NestedEnd(rest, depth - 1))
  {
    assert ([c] + rest)[1..] == rest;
  }

  lemma Assoc(a: string, b: string, c: string)
    ensures (a + b) + c == a + (b + c)
  {
  }

  lemma AssocFour(a: string, b: string, c: string, d: string, rest: string)
    ensures a + b + c + d + rest == a + (b + (c + (d + rest)))
  {
    Assoc(a + b + c, d, rest);
    Assoc(a + b, c, d + rest);
    Assoc(a, b, c + (d + rest));
  }

  lemma AssocFive(a: string, b: string, c: string, d: string, e: string, rest: string)
    ensures a + b + c + d + e + rest == a + (b + (c + (d + (e + rest))))
  {
    Assoc(a + b + c + d, e, rest);
    AssocFour(a, b, c, d, e + rest);
  }

  lemma SpaceToBracket(close: string, end: char, rest: string, depth: nat)
    requires depth >= 1 && (end == ']' || end == '}') && AllSpace(close)
    ensures NestedEnd(close + ([end] + rest), depth)
         == Plus(|close|, if depth == 1 then Some(1) else Plus(1, NestedEnd(rest, depth - 1)))
  {
    NestedOverPlain(close, [end] + rest, depth);
    NestedCloses(end, rest, depth);
  }

  /** Brackets around a content that keeps the depth keep it too. */
  lemma NestedOverBrackets(open: char, content: string, close: string, end: char, rest: string, depth: nat)
    requires depth >= 1 && (open == '[' || open == '{') && (end == ']' || end == '}') && AllSpace(close)
    requires NestedEnd(content + (close + ([end] + rest)), depth + 1)
          == Plus(|content|, NestedEnd(close + ([end] + rest), depth + 1))
    ensures NestedEnd([open] + content + close + [end] + rest, depth)
         == Plus(|content| + |close| + 2, NestedEnd(rest, depth))
  {
    AssocFour([open], content, close, [end], rest);
    SpaceToBracket(close, end, rest, depth + 1);
    NestedOpens(open, content + (close + ([end] + rest)), depth);
  }

  lemma {:induction false} NestedOverArray(elements: seq<Element>, close: string, rest: string, depth: nat)
    requires depth >= 1 && AllSpace(close) && forall e <- elements :: GoodElement(e)
    ensures var text := "[" + RenderElements(elements) + close + "]";
            NestedEnd(text + rest, depth) == Plus(|text|, NestedEnd(rest, depth))
    decreases elements, 1
  {
    NestedOverElements(elements, close + ("]" + rest), depth + 1);
    NestedOverBrackets('[', RenderElements(elements), close, ']', rest, depth);
  }

  lemma {:induction false} NestedOverObject(members: seq<Member>, close: string, rest: string, depth: nat)
    requires depth >= 1 && AllSpace(close) && forall m <- members :: GoodMember(m)
    ensures var text := "{" + RenderMembers(members) + close + "}";
            NestedEnd(text + rest, depth) == Plus(|text|, NestedEnd(rest, depth))
    decreases members, 1
  {
    NestedOverMembers(members, close + ("}" + rest), depth + 1);
    NestedOverBrackets('{', RenderMembers(members), close, '}', rest, depth);
  }

  /** A whole value passes without changing the depth. */
  lemma {:induction false} NestedOverValue(j: Json, rest: string, depth: nat)
    requires depth >= 1 && WellFormed(j)
    ensures NestedEnd(Render(j) + rest, depth) == Plus(|Render(j)|, NestedEnd(rest, depth))
    decreases j, 1
  {
    match j
    case Scalar(text) =>
      NestedOverPlain(text, rest, depth);
    case Text(body) =>
      NestedOverString(body, rest, depth);
    case Array(elements, close) =>
      NestedOverArray(elements, close, rest, depth);
    case Object(members, close) =>
      NestedOverObject(members, close, rest, depth);
  }

  lemma {:induction false} NestedOverElement(e: Element, rest: string, depth: nat)
    requires depth >= 1 && GoodElement(e)
    ensures NestedEnd(RenderElement(e) + rest, depth) == Plus(|RenderElement(e)|, NestedEnd(rest, depth))
    decreases e, 0
  {
    assert RenderElement(e) + rest == e.lead + (Render(e.value) + (e.trail + rest));
    NestedOverPlain(e.lead, Render(e.value) + (e.trail + rest), depth);
    NestedOverValue(e.value, e.trail + rest, depth);
    NestedOverPlain(e.trail, rest, depth);
  }

  lemma {:induction false} NestedOverElements(es: seq<Element>, rest: string, depth: nat)
    requires depth >= 1 && forall e <- es :: GoodElement(e)
    ensures NestedEnd(RenderElements(es) + rest, depth) == Plus(|RenderElements(es)|, NestedEnd(rest, depth))
    decreases es, 0
  {
    if es == [] {
      assert RenderElements(es) + rest == rest;
    } else if |es| == 1 {
      assert RenderElements(es) == RenderElement(es[0]);
      NestedOverElement(es[0], rest, depth);
    } else {
      assert RenderElements(es) + rest == RenderElement(es[0]) + ("," + (RenderElements(es[1..]) + rest));
      NestedOverElement(es[0], "," + (RenderElements(es[1..]) + rest), depth);
      NestedOverPlain(",", RenderElements(es[1..]) + rest, depth);
      NestedOverElements(es[1..], rest, depth);
    }
  }

  lemma NestedOverName(lead: string, key: string, middle: string, rest: string, depth: nat)
    requires depth >= 1 && ValidBody(key) && (forall c <- lead :: Plain(c)) && forall c <- middle :: Plain(c)
    ensures NestedEnd(lead + (Quoted(key) + (middle + rest)), depth)
         == Plus(|lead| + |Quoted(key)| + |middle|, NestedEnd(rest, depth))
  {
    NestedOverPlain(lead, Quoted(key) + (middle + rest), depth);
    NestedOverString(key, middle + rest, depth);
    NestedOverPlain(middle, rest, depth);
  }

  lemma {:induction false} NestedOverMember(m: Member, rest: string, depth: nat)
    requires depth >= 1 && GoodMember(m)
    ensures NestedEnd(RenderMember(m) + rest, depth) == Plus(|RenderMember(m)|, NestedEnd(rest, depth))
    decreases m, 0
  {
    var middle := m.afterKey + ":" + m.beforeValue;
    AssocFive(m.lead, Quoted(m.key), middle, Render(m.value), m.trail, rest);
    NestedOverName(m.lead, m.key, middle, Render(m.value) + (m.trail + rest), depth);
    NestedOverValue(m.value, m.trail + rest, depth);
    NestedOverPlain(m.trail, rest, depth);
  }

  lemma {:induction false} NestedOverMembers(ms: seq<Member>, rest: string, depth: nat)
    requires depth >= 1 && forall m <- ms :: GoodMember(m)
    ensures NestedEnd(RenderMembers(ms) + rest, depth) == Plus(|RenderMembers(ms)|, NestedEnd(rest, depth))
    decreases ms, 0
  {
    if ms == [] {
      assert RenderMembers(ms) + rest == rest;
    } else if |ms| == 1 {
      assert RenderMembers(ms) == RenderMember(ms[0]);
      NestedOverMember(ms[0], rest, depth);
    } else {
      assert RenderMembers(ms) + rest == RenderMember(ms[0]) + ("," + (RenderMembers(ms[1..]) + rest));
      NestedOverMember(ms[0], "," + (RenderMembers(ms[1..]) + rest), depth);
      NestedOverPlain(",", RenderMembers(ms[1..]) + rest, depth);
      NestedOverMembers(ms[1..], rest, depth);
    }
  }

  // ----- whole values -----

  lemma {:induction false} ScalarEnds(text: string, rest: string)
    requires (forall c <- text :: ScalarChar(c)) && (rest == "" || EndsScalar(rest[0]))
    ensures ScalarCount(text + rest) == |text|
  {
    if text == "" {
      assert text + rest == rest;
    } else {
      ScalarEnds(text[1..], rest);
      assert (text + rest)[1..] == text[1..] + rest;
      assert (text + rest)[0] == text[0] && text[0] in text;
    }
  }

  lemma ValueOpens(open: char, inner: string)
    requires open == '[' || open == '{'
    ensures ValueEnd([open] + inner) == Plus(1, NestedEnd(inner, 1))
  {
    assert ([open] + inner)[1..] == inner;
  }

  lemma ArrayEnds(elements: seq<Element>, close: string, rest: string)
    requires AllSpace(close) && forall e <- elements :: GoodElement(e)
    ensures var text := "[" + RenderElements(elements) + close + "]"; ValueEnd(text + rest) == Some(|text|)
  {
    NestedOverElements(elements, close + ("]" + rest), 1);
    SpaceToBracket(close, ']', rest, 1);
    ValueOpens('[', RenderElements(elements) + (close + ("]" + rest)));
    AssocFour("[", RenderElements(elements), close, "]", rest);
  }

  lemma ObjectEnds(members: seq<Member>, close: string, rest: string)
    requires AllSpace(close) && forall m <- members :: GoodMember(m)
    ensures var text := "{" + RenderMembers(members) + close + "}"; ValueEnd(text + rest) == Some(|text|)
  {
    NestedOverMembers(members, close + ("}" + rest), 1);
    SpaceToBracket(close, '}', rest, 1);
    ValueOpens('{', RenderMembers(members) + (close + ("}" + rest)));
    AssocFour("{", RenderMembers(members), close, "}", rest);
  }

  lemma TextEnds(body: string, rest: string)
    requires ValidBody(body)
    ensures ValueEnd(Quoted(body) + rest) == Some(|Quoted(body)|)
  {
    assert (Quoted(body) + rest)[1..] == body + "\"" + rest;
    StringEndsAtQuote(body, rest);
  }

  lemma ScalarEndsExactly(text: string, rest: string)
    requires text != "" && (forall c <- text :: ScalarChar(c)) && (rest == "" || EndsScalar(rest[0]))
    ensures ValueEnd(text + rest) == Some(|text|)
  {
    ScalarEnds(text, rest);
    assert text[0] in text && (text + rest)[0] == text[0];
  }

  /** A value that is followed by a delimiter, or by nothing, is scanned exactly to its end. */
  lemma {:induction false} ValueEndsExactly(j: Json, rest: string)
    requires WellFormed(j) && (rest == "" || EndsScalar(rest[0]))
    ensures ValueEnd(Render(j) + rest) == Some(|Render(j)|)
  {
    match j
    case Scalar(text) =>
      ScalarEndsExactly(text, rest);
    case Text(body) =>
      TextEnds(body, rest);
    case Array(elements, close) =>
      ArrayEnds(elements, close, rest);
    case Object(members, close) =>
      ObjectEnds(members, close, rest);
  }
}
