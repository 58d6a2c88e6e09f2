/** JSON texts in the grammar of RFC 8259, with any layout, as trees that render to text. */
module JsonText {

  predicate IsSpace(c: char) {
    c == ' ' || c == '\t' || c == '\r' || c == '\n'
  }

  predicate AllSpace(s: string) {
    forall c <- s :: IsSpace(c)
  }

  predicate IsHex(c: char) {
    '0' <= c <= '9' || 'a' <= c <= 'f' || 'A' <= c <= 'F'
  }

  /** What may stand between the quotes of a string: section 7 of RFC 8259. */
  ghost predicate ValidBody(s: string) {
    || s == ""
    || (s[0] != '"' && s[0] != '\\' && s[0] >= ' ' && ValidBody(s[1..]))
    || (|s| >= 2 && s[0] == '\\' && s[1] in "\"\\/bfnrt" && ValidBody(s[2..]))
    || (|s| >= 6 && s[0] == '\\' && s[1] == 'u' && (forall k :: 2 <= k < 6 ==> IsHex(s[k])) && ValidBody(s[6..]))
  }

  /** The characters of true, false, null and numbers. */
  predicate ScalarChar(c: char) {
    'a' <= c <= 'z' || 'A' <= c <= 'Z' || '0' <= c <= '9' || c == '+' || c == '-' || c == '.'
  }

  datatype Json =
    | Scalar(text: string)
    | Text(body: string)
    | Array(elements: seq<Element>, close: string)
    | Object(members: seq<Member>, close: string)

  /** A value with the space around it. */
  datatype Element = Element(lead: string, value: Json, trail: string)

  /** A name and a value with the space around both; `key` is the body of the name. */
  datatype Member = Member(lead: string, key: string, afterKey: string, beforeValue: string, value: Json, trail: string)

  ghost predicate WellFormed(j: Json) {
    match j
    case Scalar(text) => text != "" && forall c <- text :: ScalarChar(c)
    case Text(body) => ValidBody(body)
    case Array(elements, close) => AllSpace(close) && forall e <- elements :: GoodElement(e)
    case Object(members, close) => AllSpace(close) && forall m <- members :: GoodMember(m)
  }

  ghost predicate GoodElement(e: Element) {
    AllSpace(e.lead) && AllSpace(e.trail) && WellFormed(e.value)
  }

  ghost predicate GoodMember(m: Member) {
    && AllSpace(m.lead) && AllSpace(m.afterKey) && AllSpace(m.beforeValue) && AllSpace(m.trail)
    && ValidBody(m.key) && WellFormed(m.value)
  }

  ghost function Render(j: Json): (s: string)
    ensures WellFormed(j) ==> s != ""
  {
    match j
    case Scalar(text) => text
    case Text(body) => Quoted(body)
    case Array(elements, close) => "[" + RenderElements(elements) + close + "]"
    case Object(members, close) => "{" + RenderMembers(members) + close + "}"
  }

  ghost function RenderElement(e: Element): string {
    e.lead + Render(e.value) + e.trail
  }

  ghost function Quoted(body: string): string {
    "\"" + body + "\""
  }

  ghost function RenderMember(m: Member): string {
    m.lead + Quoted(m.key) + (m.afterKey + ":" + m.beforeValue) + Render(m.value) + m.trail
  }

  ghost function RenderElements(es: seq<Element>): string {
    if es == [] then ""
    else RenderElement(es[0]) + if |es| == 1 then "" else "," + RenderElements(es[1..])
  }

  ghost function RenderMembers(ms: seq<Member>): string {
    if ms == [] then ""
    else RenderMember(ms[0]) + if |ms| == 1 then "" else "," + RenderMembers(ms[1..])
  }
}
