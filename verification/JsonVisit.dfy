/** The visitors as functions of the text: which members and elements they report, in order. */
module JsonVisit {
  import opened Wrappers
  import opened JsonText
  import opened JsonScan

  datatype Visit = Visit(name: string, value: string)

  /** One report, and what is left to visit behind a comma. */
  datatype Step<T> = Stop | Next(visit: T, rest: Option<string>)

  /** A name without escapes stands for itself; any other is decoded, and may turn out undecodable. */
  function NameOf(raw: string, unescape: string -> Option<string>): Option<string> {
    if '\\' in raw then unescape(raw) else Some(raw)
  }

  function BehindComma(s: string): (r: Option<string>)
    ensures r.Some? ==> |r.value| < |s|
  {
    var t := Skip(s);
    if t != "" && t[0] == ',' then Some(t[1..]) else None
  }

  function MemberValue(s: string, name: string): (r: Step<Visit>)
    ensures r.Next? && r.rest.Some? ==> |r.rest.value| < |s|
  {
    var v := Skip(s);
    var n := ValueEnd(v);
    if n.None? then Stop else Next(Visit(name, v[..n.value]), BehindComma(v[n.value..]))
  }

  function MemberColon(s: string, name: string): (r: Step<Visit>)
    ensures r.Next? && r.rest.Some? ==> |r.rest.value| < |s|
  {
    var t := Skip(s);
    if t == "" || t[0] != ':' then Stop else MemberValue(t[1..], name)
  }

  /** The name of a member and what follows its closing quote. */
  datatype Key = Key(name: string, rest: string)

  function KeyIn(t: string, unescape: string -> Option<string>): (r: Option<Key>)
    requires t != "" && t[0] == '"'
    ensures r.Some? ==> |r.value.rest| < |t|
  {
    var n := StringEnd(t[1..]);
    if n.None? then None
    else
      var name := NameOf(t[1..n.value], unescape);
      if name.None? then None else Some(Key(name.value, t[1 + n.value..]))
  }

  function NextKey(s: string, unescape: string -> Option<string>): (r: Option<Key>)
    ensures r.Some? ==> |r.value.rest| < |s|
  {
    var t := Skip(s);
    if t == "" || t[0] != '"' then None else KeyIn(t, unescape)
  }

  function NextMember(s: string, unescape: string -> Option<string>): (r: Step<Visit>)
    ensures r.Next? && r.rest.Some? ==> |r.rest.value| < |s|
  {
    var key := NextKey(s, unescape);
    if key.None? then Stop else MemberColon(key.value.rest, key.value.name)
  }

  function MemberVisits(s: string, unescape: string -> Option<string>): seq<Visit>
    decreases |s|
  {
    match NextMember(s, unescape)
    case Stop => []
    case Next(visit, rest) => [visit] + if rest.Some? then MemberVisits(rest.value, unescape) else []
  }

  function ObjectVisits(s: string, unescape: string -> Option<string>): seq<Visit> {
    var t := Skip(s);
    if t == "" || t[0] != '{' then [] else MemberVisits(t[1..], unescape)
  }

  function NextElement(s: string): (r: Step<string>)
    ensures r.Next? && r.rest.Some? ==> |r.rest.value| < |s|
  {
    var t := Skip(s);
    if t == "" || t[0] == ']' then Stop
    else
      var n := ValueEnd(t);
      if n.None? then Stop else Next(t[..n.value], BehindComma(t[n.value..]))
  }

  function ElementVisits(s: string): seq<string>
    decreases |s|
  {
    match NextElement(s)
    case Stop => []
    case Next(visit, rest) => [visit] + if rest.Some? then ElementVisits(rest.value) else []
  }

  function ArrayVisits(s: string): seq<string> {
    var t := Skip(s);
    if t == "" || t[0] != '[' then [] else ElementVisits(t[1..])
  }

  // ----- one member -----

  /** What follows a member or element: space, then a comma or a closing bracket. */
  ghost predicate Delimited(space: string, next: string) {
    AllSpace(space) && next != "" && (next[0] == ',' || next[0] == '}' || next[0] == ']')
  }

  ghost function RestOf(next: string): Option<string>
    requires next != ""
  {
    if next[0] == ',' then Some(next[1..]) else None
  }

  lemma CommaBehindSpace(space: string, next: string)
    requires Delimited(space, next)
    ensures BehindComma(space + next) == RestOf(next)
  {
    SkipSpace(space, next);
  }

  lemma DelimiterAhead(trail: string, space: string, next: string)
    requires AllSpace(trail) && Delimited(space, next)
    ensures Delimited(trail + space, next) && trail + (space + next) == (trail + space) + next
    ensures EndsScalar((trail + (space + next))[0])
  {
    var all := (trail + space) + next;
    if trail + space != "" {
      assert all[0] == (trail + space)[0] && (trail + space)[0] in trail + space;
    }
  }

  lemma ValueStartsVisibly(j: Json, rest: string)
    requires WellFormed(j)
    ensures Render(j) + rest != "" && !IsSpace((Render(j) + rest)[0]) && (Render(j) + rest)[0] != ']'
  {
    match j
    case Scalar(text) =>
      assert text[0] in text;
    case Text(body) =>
    case Array(elements, close) =>
    case Object(members, close) =>
  }

  lemma ValueIsVisited(before: string, j: Json, trail: string, space: string, next: string, name: string)
    requires AllSpace(before) && WellFormed(j) && AllSpace(trail) && Delimited(space, next)
    ensures MemberValue(before + (Render(j) + (trail + (space + next))), name) == Next(Visit(name, Render(j)), RestOf(next))
  {
    var tail := trail + (space + next);
    DelimiterAhead(trail, space, next);
    ValueStartsVisibly(j, tail);
    SkipSpace(before, Render(j) + tail);
    ValueEndsExactly(j, tail);
    assert (Render(j) + tail)[..|Render(j)|] == Render(j) && (Render(j) + tail)[|Render(j)|..] == tail;
    CommaBehindSpace(trail + space, next);
  }

  lemma ColonIsPassed(afterKey: string, rest: string, name: string)
    requires AllSpace(afterKey)
    ensures MemberColon(afterKey + (":" + rest), name) == MemberValue(rest, name)
  {
    SkipSpace(afterKey, ":" + rest);
    assert (":" + rest)[1..] == rest;
  }

  lemma QuotedParts(key: string, rest: string)
    ensures (Quoted(key) + rest)[1..] == key + "\"" + rest
    ensures (Quoted(key) + rest)[1..|key| + 1] == key && (Quoted(key) + rest)[|key| + 2..] == rest
  {
  }

  lemma KeyIsPassed(lead: string, key: string, rest: string, unescape: string -> Option<string>)
    requires AllSpace(lead) && ValidBody(key) && NameOf(key, unescape).Some?
    ensures NextMember(lead + (Quoted(key) + rest), unescape) == MemberColon(rest, NameOf(key, unescape).value)
  {
    SkipSpace(lead, Quoted(key) + rest);
    QuotedParts(key, rest);
    StringEndsAtQuote(key, rest);
  }

  /** A member is reported with its name and exactly its value. */
  lemma MemberIsVisited(m: Member, space: string, next: string, unescape: string -> Option<string>)
    requires GoodMember(m) && Delimited(space, next) && NameOf(m.key, unescape).Some?
    ensures NextMember(RenderMember(m) + (space + next), unescape)
         == Next(Visit(NameOf(m.key, unescape).value, Render(m.value)), RestOf(next))
  {
    var middle, tail := m.afterKey + ":" + m.beforeValue, m.trail + (space + next);
    var name := NameOf(m.key, unescape).value;
    AssocFive(m.lead, Quoted(m.key), middle, Render(m.value), m.trail, space + next);
    KeyIsPassed(m.lead, m.key, middle + (Render(m.value) + tail), unescape);
    MiddleAssoc(m.afterKey, m.beforeValue, Render(m.value) + tail);
    ColonIsPassed(m.afterKey, m.beforeValue + (Render(m.value) + tail), name);
    ValueIsVisited(m.beforeValue, m.value, m.trail, space, next, name);
  }

  lemma MiddleAssoc(a: string, b: string, rest: string)
    ensures (a + ":" + b) + rest == a + (":" + (b + rest))
  {
    Assoc(a + ":", b, rest);
    Assoc(a, ":", b + rest);
  }

  lemma ElementIsVisited(e: Element, space: string, next: string)
    requires GoodElement(e) && Delimited(space, next)
    ensures NextElement(RenderElement(e) + (space + next)) == Next(Render(e.value), RestOf(next))
  {
    var tail := e.trail + (space + next);
    var t := Render(e.value) + tail;
    Assoc(e.lead + Render(e.value), e.trail, space + next);
    Assoc(e.lead, Render(e.value), tail);
    DelimiterAhead(e.trail, space, next);
    ValueStartsVisibly(e.value, tail);
    SkipSpace(e.lead, t);
    ValueEndsExactly(e.value, tail);
    assert t[..|Render(e.value)|] == Render(e.value) && t[|Render(e.value)|..] == tail;
    CommaBehindSpace(e.trail + space, next);
  }

  // ----- whole objects and arrays -----

  ghost function MembersOf(ms: seq<Member>, unescape: string -> Option<string>): seq<Visit> {
    if ms == [] then []
    else
      var name := NameOf(ms[0].key, unescape);
      [Visit(if name.Some? then name.value else "", Render(ms[0].value))] + MembersOf(ms[1..], unescape)
  }

  ghost function ElementsOf(es: seq<Element>): seq<string> {
    if es == [] then [] else [Render(es[0].value)] + ElementsOf(es[1..])
  }

  ghost predicate Decodable(ms: seq<Member>, unescape: string -> Option<string>) {
    forall m <- ms :: NameOf(m.key, unescape).Some?
  }

  lemma NothingToVisit(close: string, rest: string, unescape: string -> Option<string>)
    requires AllSpace(close)
    ensures MemberVisits(close + ("}" + rest), unescape) == [] && ElementVisits(close + ("]" + rest)) == []
  {
    SkipSpace(close, "}" + rest);
    SkipSpace(close, "]" + rest);
  }

  lemma {:induction false} MembersVisited(ms: seq<Member>, close: string, rest: string, unescape: string -> Option<string>)
    requires AllSpace(close) && (forall m <- ms :: GoodMember(m)) && Decodable(ms, unescape)
    ensures MemberVisits(RenderMembers(ms) + (close + ("}" + rest)), unescape) == MembersOf(ms, unescape)
  {
    var end := close + ("}" + rest);
    if ms == [] {
      assert RenderMembers(ms) + end == end;
      NothingToVisit(close, rest, unescape);
    } else if |ms| == 1 {
      assert RenderMembers(ms) == RenderMember(ms[0]);
      MemberIsVisited(ms[0], close, "}" + rest, unescape);
    } else {
      MembersVisited(ms[1..], close, rest, unescape);
      Assoc(RenderMember(ms[0]), "," + RenderMembers(ms[1..]), end);
      Assoc(",", RenderMembers(ms[1..]), end);
      var next := "," + (RenderMembers(ms[1..]) + end);
      assert "" + next == next && next[1..] == RenderMembers(ms[1..]) + end;
      MemberIsVisited(ms[0], "", next, unescape);
    }
  }

  lemma {:induction false} ElementsVisited(es: seq<Element>, close: string, rest: string, unescape: string -> Option<string>)
    requires AllSpace(close) && forall e <- es :: GoodElement(e)
    ensures ElementVisits(RenderElements(es) + (close + ("]" + rest))) == ElementsOf(es)
  {
    var end := close + ("]" + rest);
    if es == [] {
      assert RenderElements(es) + end == end;
      NothingToVisit(close, rest, unescape);
    } else if |es| == 1 {
      assert RenderElements(es) == RenderElement(es[0]);
      ElementIsVisited(es[0], close, "]" + rest);
    } else {
      ElementsVisited(es[1..], close, rest, unescape);
      Assoc(RenderElement(es[0]), "," + RenderElements(es[1..]), end);
      Assoc(",", RenderElements(es[1..]), end);
      var next := "," + (RenderElements(es[1..]) + end);
      assert "" + next == next && next[1..] == RenderElements(es[1..]) + end;
      ElementIsVisited(es[0], "", next);
    }
  }

  /** Visiting an object's text reports exactly its members: names decoded, values cut out whole, in order. */
  lemma ObjectVisitsExactly(lead: string, ms: seq<Member>, close: string, rest: string, unescape: string -> Option<string>)
    requires AllSpace(lead) && WellFormed(Object(ms, close)) && Decodable(ms, unescape)
    ensures ObjectVisits(lead + (Render(Object(ms, close)) + rest), unescape) == MembersOf(ms, unescape)
  {
    var text := Render(Object(ms, close)) + rest;
    AssocFour("{", RenderMembers(ms), close, "}", rest);
    SkipSpace(lead, text);
    assert text[1..] == RenderMembers(ms) + (close + ("}" + rest));
    MembersVisited(ms, close, rest, unescape);
  }

  /** Visiting an array's text reports exactly its elements, in order. */
  lemma ArrayVisitsExactly(lead: string, es: seq<Element>, close: string, rest: string)
    requires AllSpace(lead) && WellFormed(Array(es, close))
    ensures ArrayVisits(lead + (Render(Array(es, close)) + rest)) == ElementsOf(es)
  {
    var text := Render(Array(es, close)) + rest;
    AssocFour("[", RenderElements(es), close, "]", rest);
    SkipSpace(lead, text);
    assert text[1..] == RenderElements(es) + (close + ("]" + rest));
    ElementsVisited(es, close, rest, s => None);
  }
}
