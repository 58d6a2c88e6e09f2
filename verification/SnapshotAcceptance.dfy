/**
 Which snapshot texts the field check accepts, said on trees: every name at the top is known, and so is
 every name in a section and in each chunk. What is not an object is not looked into.
 */
module SnapshotAcceptance {
  import opened Wrappers
  import opened JsonText
  import opened JsonScan
  import opened JsonVisit
  import opened SnapshotFields

  ghost predicate NameKnown(m: Member, schema: Schema, unescape: string -> Option<string>) {
    NameOf(m.key, unescape).Some? && NameOf(m.key, unescape).value in Fields(schema)
  }

  ghost predicate ValueKnown(j: Json, schema: Schema, unescape: string -> Option<string>) {
    j.Object? ==> forall m <- j.members :: NameKnown(m, schema, unescape)
  }

  ghost predicate ChunksKnown(j: Json, unescape: string -> Option<string>) {
    j.Array? ==> forall e <- j.elements :: ValueKnown(e.value, ChunkSchema, unescape)
  }

  ghost predicate FieldKnown(m: Member, unescape: string -> Option<string>)
  {
    && NameOf(m.key, unescape).Some?
    && match Lookup(NameOf(m.key, unescape).value, TOP_FIELDS)
       case Chunks => ChunksKnown(m.value, unescape)
       case PreScan => ValueKnown(m.value, PreScanSchema, unescape)
       case Section(schema) => ValueKnown(m.value, schema, unescape)
       case Plain => true
       case Unknown => false
  }

  /** Every name down to the sections and chunks can be decoded. */
  ghost predicate NamesDecode(j: Json, unescape: string -> Option<string>) {
    j.Object? ==> Decodable(j.members, unescape)
  }

  ghost predicate AllNamesDecode(m: Member, unescape: string -> Option<string>) {
    && NameOf(m.key, unescape).Some? && NamesDecode(m.value, unescape)
    && (m.value.Array? ==> forall e <- m.value.elements :: NamesDecode(e.value, unescape))
  }

  // ----- one value -----

  lemma {:induction false} KnownIff(ms: seq<Member>, schema: Schema, unescape: string -> Option<string>)
    requires Decodable(ms, unescape)
    ensures KnownFields(MembersOf(ms, unescape), schema) <==> forall m <- ms :: NameKnown(m, schema, unescape)
  {
    if ms != [] {
      assert ms[0] in ms && forall m <- ms[1..] :: m in ms;
      KnownIff(ms[1..], schema, unescape);
      assert ms == [ms[0]] + ms[1..];
      assert MembersOf(ms, unescape)[1..] == MembersOf(ms[1..], unescape);
    }
  }

  /** The text of a value starts and ends with a character that is not trimmed. */
  lemma EndsVisibly(j: Json)
    requires WellFormed(j)
    ensures var text := Render(j); text != "" && !IsTrimmed(text[0]) && !IsTrimmed(text[|text| - 1])
    ensures Render(j)[0] == '{' <==> j.Object?
    ensures Render(j)[0] == '[' <==> j.Array?
  {
    match j
    case Scalar(text) =>
      assert text[0] in text && text[|text| - 1] in text;
    case Text(body) =>
    case Array(elements, close) =>
    case Object(members, close) =>
  }

  lemma NothingVisited(text: string, unescape: string -> Option<string>)
    requires text != "" && !IsSpace(text[0])
    ensures text[0] != '{' ==> ObjectVisits(text, unescape) == []
    ensures text[0] != '[' ==> ArrayVisits(text) == []
  {
    SkipSpace("", text);
    assert "" + text == text;
  }

  lemma ObjectOkIff(ms: seq<Member>, close: string, schema: Schema, unescape: string -> Option<string>)
    requires WellFormed(Object(ms, close)) && Decodable(ms, unescape)
    ensures ObjectOk(Render(Object(ms, close)), schema, unescape) <==> forall m <- ms :: NameKnown(m, schema, unescape)
  {
    var text := Render(Object(ms, close));
    EndsVisibly(Object(ms, close));
    TrimKeeps(text);
    ObjectVisitsExactly("", ms, close, "", unescape);
    assert "" + (text + "") == text;
    KnownIff(ms, schema, unescape);
  }

  lemma ValueOkIff(j: Json, schema: Schema, unescape: string -> Option<string>)
    requires WellFormed(j) && NamesDecode(j, unescape)
    ensures ObjectOk(Render(j), schema, unescape) <==> ValueKnown(j, schema, unescape)
  {
    if j.Object? {
      ObjectOkIff(j.members, j.close, schema, unescape);
    } else {
      EndsVisibly(j);
      TrimKeeps(Render(j));
      NothingVisited(Render(j), unescape);
    }
  }

  // ----- the chunk list -----

  lemma SplitElements(es: seq<Element>, unescape: string -> Option<string>)
    requires es != []
    ensures (forall e <- es :: ValueKnown(e.value, ChunkSchema, unescape)) <==>
            ValueKnown(es[0].value, ChunkSchema, unescape)
            && forall e <- es[1..] :: ValueKnown(e.value, ChunkSchema, unescape)
  {
    assert es == [es[0]] + es[1..];
  }

  lemma {:induction false} ElementsOkIff(es: seq<Element>, unescape: string -> Option<string>)
    requires forall e <- es :: GoodElement(e) && NamesDecode(e.value, unescape)
    ensures ChunksOk(ElementsOf(es), unescape) <==> forall e <- es :: ValueKnown(e.value, ChunkSchema, unescape)
  {
    if es != [] {
      assert es[0] in es && forall e <- es[1..] :: e in es;
      ElementsOkIff(es[1..], unescape);
      ValueOkIff(es[0].value, ChunkSchema, unescape);
      SplitElements(es, unescape);
      assert ElementsOf(es)[1..] == ElementsOf(es[1..]);
    }
  }

  lemma ChunksOkIff(j: Json, unescape: string -> Option<string>)
    requires WellFormed(j) && (j.Array? ==> forall e <- j.elements :: NamesDecode(e.value, unescape))
    ensures ChunksOk(ArrayVisits(Render(j)), unescape) <==> ChunksKnown(j, unescape)
  {
    if j.Array? {
      ArrayVisitsExactly("", j.elements, j.close, "");
      assert "" + (Render(j) + "") == Render(j);
      ElementsOkIff(j.elements, unescape);
    } else {
      EndsVisibly(j);
      NothingVisited(Render(j), unescape);
    }
  }

  // ----- the whole text -----

  lemma FieldOkIff(m: Member, unescape: string -> Option<string>)
    requires GoodMember(m) && AllNamesDecode(m, unescape)
    ensures FieldOk(Visit(NameOf(m.key, unescape).value, Render(m.value)), unescape) <==> FieldKnown(m, unescape)
  {
    match Lookup(NameOf(m.key, unescape).value, TOP_FIELDS)
    case Chunks => ChunksOkIff(m.value, unescape);
    case PreScan => ValueOkIff(m.value, PreScanSchema, unescape);
    case Section(schema) => ValueOkIff(m.value, schema, unescape);
    case Plain =>
    case Unknown =>
  }

  lemma {:induction false} FieldsOkIff(ms: seq<Member>, unescape: string -> Option<string>)
    requires forall m <- ms :: GoodMember(m) && AllNamesDecode(m, unescape)
    ensures FieldsOk(MembersOf(ms, unescape), unescape) <==> forall m <- ms :: FieldKnown(m, unescape)
  {
    if ms != [] {
      assert ms[0] in ms && forall m <- ms[1..] :: m in ms;
      FieldsOkIff(ms[1..], unescape);
      FieldOkIff(ms[0], unescape);
      assert ms == [ms[0]] + ms[1..];
      assert MembersOf(ms, unescape)[1..] == MembersOf(ms[1..], unescape);
    }
  }

  /**
   For every well-formed object text, in any layout and with any text behind it: the check accepts if
   and only if every top-level name is known and every section and chunk has known names only.
   */
  lemma AcceptedIffKnown(lead: string, ms: seq<Member>, close: string, rest: string, unescape: string -> Option<string>)
    requires AllSpace(lead) && WellFormed(Object(ms, close))
    requires forall m <- ms :: AllNamesDecode(m, unescape)
    ensures FieldsOk(ObjectVisits(lead + (Render(Object(ms, close)) + rest), unescape), unescape)
       <==> forall m <- ms :: FieldKnown(m, unescape)
  {
    ObjectVisitsExactly(lead, ms, close, rest, unescape);
    FieldsOkIff(ms, unescape);
  }

  /** The check itself, on the text of a tree. */
  method ValidateTree(lead: string, ghost ms: seq<Member>, ghost close: string, ghost rest: string, data: string,
                      unescape: string -> Option<string>)
    returns (unknown: Option<string>)
    requires AllSpace(lead) && WellFormed(Object(ms, close)) && data == lead + (Render(Object(ms, close)) + rest)
    requires forall m <- ms :: AllNamesDecode(m, unescape)
    ensures unknown.None? <==> forall m <- ms :: FieldKnown(m, unescape)
  {
    AcceptedIffKnown(lead, ms, close, rest, unescape);
    var shape;
    shape, unknown := ValidateSnapshotSchema(data, unescape);
  }
}
