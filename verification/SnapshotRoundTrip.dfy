/**
 The scanner inverts the printer's structure: for every snapshot, and for any escaping that gives
 valid JSON strings, the field check accepts what the printer writes and reports its true shape.
 */
module SnapshotRoundTrip {
  import opened Wrappers
  import opened Decimal
  import opened JsonText
  import opened JsonScan
  import opened JsonVisit
  import opened SnapshotFields
  import opened SnapshotEncoder

  ghost predicate Escapes(escape: string -> string) {
    forall s :: ValidBody(escape(s))
  }

  predicate IsNameChar(c: char) {
    'a' <= c <= 'z' || '0' <= c <= '9' || c == '_'
  }

  predicate IsName(s: string) {
    forall c <- s :: IsNameChar(c)
  }

  /** A field name needs no escapes, and stands for itself. */
  lemma {:induction false} NameIsPlain(s: string, unescape: string -> Option<string>)
    requires IsName(s)
    ensures ValidBody(s) && NameOf(s, unescape) == Some(s)
  {
    if s != "" {
      assert s[0] in s && forall c <- s[1..] :: c in s;
      NameIsPlain(s[1..], unescape);
    }
  }

  // ----- the trees are well formed -----

  lemma {:induction false} DigitsAreScalar(n: nat)
    ensures WellFormed(Scalar(Digits(n)))
  {
    assert forall c <- Digits(n) :: IsDigit(c);
  }

  lemma NumberIsScalar(n: int)
    ensures WellFormed(NumberTree(n))
  {
    DigitsAreScalar(if n < 0 then -n else n);
  }

  lemma StringsWellFormed(values: Option<seq<string>>, indentation: string, escape: string -> string)
    requires Escapes(escape) && |indentation| >= 2 && AllSpace(indentation)
    ensures WellFormed(StringsTree(values, indentation, escape))
  {
    if values.Some? {
      assert AllSpace("\n" + indentation) && AllSpace("\n" + indentation[..|indentation| - 2]);
      forall e <- StringElements(values.value, indentation, escape) ensures GoodElement(e) {
      }
    }
  }

  lemma ChunkValuesWellFormed(c: ChunkRecord, escape: string -> string)
    requires Escapes(escape)
    ensures forall v <- ChunkValues(c, escape) :: WellFormed(v)
  {
    StringsWellFormed(c.ports, "        ", escape);
    NumberIsScalar(c.nextIndex);
    NumberIsScalar(c.scannedCount);
    NumberIsScalar(c.totalCount);
  }

  lemma PreScanValuesWellFormed(p: PreScanPing)
    ensures forall v <- PreScanValues(p) :: WellFormed(v)
  {
    NumberIsScalar(p.timeoutMS);
    forall e <- NumberElements(p.unreachable) ensures GoodElement(e) {
      var k :| 0 <= k < |p.unreachable| && NumberElements(p.unreachable)[k] == e;
      DigitsAreScalar(p.unreachable[k]);
    }
  }

  ghost predicate KnownNames(names: seq<string>, schema: Schema) {
    forall name <- names :: IsName(name) && name in Fields(schema)
  }

  lemma SameNames(names: seq<string>, schema: Schema)
    requires names == Fields(schema) && forall name <- names :: IsName(name)
    ensures KnownNames(names, schema)
  {
  }

  lemma ChunkNamesAreNames()
    ensures forall k :: 0 <= k < |CHUNK_NAMES| ==> IsName(CHUNK_NAMES[k])
  {
    assert IsName("cidr") && IsName("cidr_name") && IsName("ports");
    assert IsName("next_index") && IsName("scanned_count") && IsName("total_count") && IsName("status");
  }

  lemma PreScanNamesAreNames()
    ensures forall k :: 0 <= k < |PRE_SCAN_NAMES| ==> IsName(PRE_SCAN_NAMES[k])
  {
    assert IsName("enabled") && IsName("timeout_ms") && IsName("unreachable_ipv4_u32");
  }

  lemma SectionNamesAreNames()
    ensures forall k :: 0 <= k < |OUTPUT_NAMES| ==> IsName(OUTPUT_NAMES[k])
    ensures forall k :: 0 <= k < |EXPANSION_NAMES| ==> IsName(EXPANSION_NAMES[k])
  {
    assert IsName("scan_path") && IsName("open_path");
    assert IsName("candidate_count") && IsName("candidate_limit") && IsName("memory_limit_gb");
  }

  /** The names that the printer writes are names that the schema knows. */
  lemma WrittenNamesAreKnown()
    ensures KnownNames(CHUNK_NAMES, ChunkSchema) && KnownNames(PRE_SCAN_NAMES, PreScanSchema)
    ensures KnownNames(OUTPUT_NAMES, OutputSchema) && KnownNames(EXPANSION_NAMES, ExpansionSchema)
  {
    ChunkNamesAreNames();
    PreScanNamesAreNames();
    SectionNamesAreNames();
    SameNames(CHUNK_NAMES, ChunkSchema);
    SameNames(PRE_SCAN_NAMES, PreScanSchema);
    SameNames(OUTPUT_NAMES, OutputSchema);
    SameNames(EXPANSION_NAMES, ExpansionSchema);
  }

  lemma ZipIsGood(lead: string, names: seq<string>, values: seq<Json>)
    requires |values| <= |names| && AllSpace(lead)
    requires (forall name <- names :: IsName(name)) && forall v <- values :: WellFormed(v)
    ensures forall m <- Zip(lead, names, values) :: GoodMember(m)
  {
    forall m <- Zip(lead, names, values) ensures GoodMember(m) {
      var k :| 0 <= k < |values| && Zip(lead, names, values)[k] == m;
      assert names[k] in names && values[k] in values;
      NameIsPlain(names[k], s => None);
    }
  }

  // ----- sections pass the check -----

  ghost predicate NamedIn(ms: seq<Member>, schema: Schema) {
    forall m <- ms :: IsName(m.key) && m.key in Fields(schema)
  }

  lemma FirstVisit(ms: seq<Member>, unescape: string -> Option<string>)
    requires ms != [] && IsName(ms[0].key)
    ensures MembersOf(ms, unescape) == [Visit(ms[0].key, Render(ms[0].value))] + MembersOf(ms[1..], unescape)
    ensures NameOf(ms[0].key, unescape).Some?
  {
    NameIsPlain(ms[0].key, unescape);
  }

  lemma {:induction false} NamedIsKnown(ms: seq<Member>, schema: Schema, unescape: string -> Option<string>)
    requires NamedIn(ms, schema)
    ensures Decodable(ms, unescape) && KnownFields(MembersOf(ms, unescape), schema)
  {
    if ms != [] {
      assert ms[0] in ms && forall m <- ms[1..] :: m in ms;
      NamedIsKnown(ms[1..], schema, unescape);
      FirstVisit(ms, unescape);
      assert ms == [ms[0]] + ms[1..];
    }
  }

  lemma ObjectPasses(ms: seq<Member>, close: string, schema: Schema, unescape: string -> Option<string>)
    requires WellFormed(Object(ms, close)) && NamedIn(ms, schema)
    ensures ObjectOk(Render(Object(ms, close)), schema, unescape)
  {
    var text := Render(Object(ms, close));
    assert text[0] == '{' && text[|text| - 1] == '}';
    TrimKeeps(text);
    NamedIsKnown(ms, schema, unescape);
    ObjectVisitsExactly("", ms, close, "", unescape);
    assert "" + (text + "") == text;
  }

  lemma ZipPasses(lead: string, names: seq<string>, values: seq<Json>, close: string, schema: Schema,
                  unescape: string -> Option<string>)
    requires |values| <= |names| && AllSpace(lead) && AllSpace(close) && KnownNames(names, schema)
    requires forall v <- values :: WellFormed(v)
    ensures WellFormed(Object(Zip(lead, names, values), close))
    ensures ObjectOk(Render(Object(Zip(lead, names, values), close)), schema, unescape)
  {
    ZipIsGood(lead, names, values);
    forall m <- Zip(lead, names, values) ensures IsName(m.key) && m.key in Fields(schema) {
      var k :| 0 <= k < |values| && Zip(lead, names, values)[k] == m;
      assert names[k] in names;
    }
    ObjectPasses(Zip(lead, names, values), close, schema, unescape);
  }

  lemma ChunkPasses(c: ChunkRecord, escape: string -> string, unescape: string -> Option<string>)
    requires Escapes(escape)
    ensures WellFormed(ChunkTree(c, escape)) && ObjectOk(Render(ChunkTree(c, escape)), ChunkSchema, unescape)
  {
    WrittenNamesAreKnown();
    ChunkValuesWellFormed(c, escape);
    ZipPasses("\n      ", CHUNK_NAMES, ChunkValues(c, escape), "\n    ", ChunkSchema, unescape);
  }

  lemma PreScanPasses(p: PreScanPing, unescape: string -> Option<string>)
    ensures var tree := Object(PreScanMembers(p), "\n  ");
            && WellFormed(tree) && ObjectOk(Render(tree), PreScanSchema, unescape)
  {
    WrittenNamesAreKnown();
    PreScanValuesWellFormed(p);
    ZipPasses("\n    ", PRE_SCAN_NAMES, PreScanValues(p), "\n  ", PreScanSchema, unescape);
  }

  lemma OutputPasses(o: OutputPaths, escape: string -> string, unescape: string -> Option<string>)
    requires Escapes(escape)
    ensures var tree := Object(OutputMembers(o, escape), "\n  ");
            && WellFormed(tree) && ObjectOk(Render(tree), OutputSchema, unescape)
  {
    WrittenNamesAreKnown();
    ZipPasses("\n    ", OUTPUT_NAMES, OutputValues(o, escape), "\n  ", OutputSchema, unescape);
  }

  lemma ExpansionPasses(x: Expansion, unescape: string -> Option<string>)
    ensures var tree := Object(ExpansionMembers(x), "\n  ");
            && WellFormed(tree) && ObjectOk(Render(tree), ExpansionSchema, unescape)
  {
    WrittenNamesAreKnown();
    DigitsAreScalar(x.candidateCount);
    NumberIsScalar(x.candidateLimit);
    NumberIsScalar(x.memoryLimitGB);
    ZipPasses("\n    ", EXPANSION_NAMES, ExpansionValues(x), "\n  ", ExpansionSchema, unescape);
  }

  // ----- the chunk list -----

  lemma {:induction false} ChunkElementsPass(chunks: seq<ChunkRecord>, escape: string -> string, unescape: string -> Option<string>)
    requires Escapes(escape)
    ensures forall e <- ChunkElements(chunks, escape) :: GoodElement(e)
    ensures ChunksOk(ElementsOf(ChunkElements(chunks, escape)), unescape)
    ensures |ElementsOf(ChunkElements(chunks, escape))| == |chunks|
  {
    if chunks != [] {
      ChunkElementsPass(chunks[1..], escape, unescape);
      ChunkPasses(chunks[0], escape, unescape);
      FirstChunk(chunks, escape);
    }
  }

  lemma FirstChunk(chunks: seq<ChunkRecord>, escape: string -> string)
    requires chunks != []
    ensures ChunkElements(chunks, escape)
         == [Element("\n    ", ChunkTree(chunks[0], escape), "")] + ChunkElements(chunks[1..], escape)
    ensures ElementsOf(ChunkElements(chunks, escape))
         == [Render(ChunkTree(chunks[0], escape))] + ElementsOf(ChunkElements(chunks[1..], escape))
  {
    assert ChunkElements(chunks, escape)[1..] == ChunkElements(chunks[1..], escape);
  }

  lemma ChunksPass(chunks: seq<ChunkRecord>, escape: string -> string, unescape: string -> Option<string>)
    requires Escapes(escape)
    ensures var tree := ChunksTree(chunks, escape);
            && WellFormed(tree) && ChunksOk(ArrayVisits(Render(tree)), unescape)
            && |ArrayVisits(Render(tree))| == |chunks|
  {
    var es, close := ChunkElements(chunks, escape), if chunks == [] then "" else "\n  ";
    ChunkElementsPass(chunks, escape, unescape);
    ArrayVisitsExactly("", es, close, "");
    assert "" + (Render(Array(es, close)) + "") == Render(Array(es, close));
  }

  // ----- the whole snapshot -----

  lemma TopLookups()
    ensures Lookup("chunks", TOP_FIELDS) == Field.Chunks && Lookup("pre_scan_ping", TOP_FIELDS) == PreScan
    ensures Lookup("output", TOP_FIELDS) == Field.Section(OutputSchema)
    ensures Lookup("target_expansion", TOP_FIELDS) == Field.Section(ExpansionSchema)
  {
  }

  lemma PlainLookups()
    ensures Lookup("rich_deny_excluded", TOP_FIELDS) == Field.Plain
    ensures Lookup("target_semantics_version", TOP_FIELDS) == Field.Plain
    ensures Lookup("basic_port_fallback", TOP_FIELDS) == Field.Plain
  {
  }

  /** A top-level member that the check accepts. */
  ghost predicate Passes(m: Member, unescape: string -> Option<string>) {
    GoodMember(m) && IsName(m.key) && FieldOk(Visit(m.key, Render(m.value)), unescape)
  }

  ghost predicate AllPass(ms: seq<Member>, unescape: string -> Option<string>) {
    forall m <- ms :: Passes(m, unescape)
  }

  lemma PassesAs(name: string, value: Json, field: Field, unescape: string -> Option<string>)
    requires IsName(name) && WellFormed(value) && Lookup(name, TOP_FIELDS) == field
    requires match field
      case Chunks => ChunksOk(ArrayVisits(Render(value)), unescape)
      case PreScan => ObjectOk(Render(value), PreScanSchema, unescape)
      case Section(schema) => ObjectOk(Render(value), schema, unescape)
      case Plain => true
      case Unknown => false
    ensures Passes(Tidy("\n  ", name, value), unescape)
  {
    NameIsPlain(name, unescape);
  }

  ghost function ChunksPart(env: Envelope, escape: string -> string): seq<Member> {
    [Tidy("\n  ", "chunks", ChunksTree(env.chunks, escape))]
  }

  lemma ChunksPartPasses(env: Envelope, escape: string -> string, unescape: string -> Option<string>)
    requires Escapes(escape)
    ensures AllPass(ChunksPart(env, escape), unescape)
  {
    TopLookups();
    ChunksPass(env.chunks, escape, unescape);
    PassesAs("chunks", ChunksTree(env.chunks, escape), Field.Chunks, unescape);
  }

  lemma PreScanPartPasses(env: Envelope, unescape: string -> Option<string>)
    ensures AllPass(PreScanPart(env), unescape)
  {
    if env.preScan.Some? {
      TopLookups();
      PreScanPasses(env.preScan.value, unescape);
      PassesAs("pre_scan_ping", Object(PreScanMembers(env.preScan.value), "\n  "), PreScan, unescape);
    }
  }

  lemma OutputPartPasses(env: Envelope, escape: string -> string, unescape: string -> Option<string>)
    requires Escapes(escape)
    ensures AllPass(OutputPart(env, escape), unescape)
  {
    if env.output.Some? {
      TopLookups();
      OutputPasses(env.output.value, escape, unescape);
      PassesAs("output", Object(OutputMembers(env.output.value, escape), "\n  "), Field.Section(OutputSchema), unescape);
    }
  }

  lemma ExpansionPartPasses(env: Envelope, unescape: string -> Option<string>)
    ensures AllPass(ExpansionPart(env), unescape)
  {
    if env.expansion.Some? {
      TopLookups();
      ExpansionPasses(env.expansion.value, unescape);
      PassesAs("target_expansion", Object(ExpansionMembers(env.expansion.value), "\n  "),
               Field.Section(ExpansionSchema), unescape);
    }
  }

  lemma PlainNames()
    ensures IsName("rich_deny_excluded") && IsName("target_semantics_version") && IsName("basic_port_fallback")
    ensures WellFormed(Scalar("true"))
  {
  }

  /** A field that is not looked into passes with any value. */
  lemma PlainPasses(name: string, value: Json, unescape: string -> Option<string>)
    requires IsName(name) && WellFormed(value) && Lookup(name, TOP_FIELDS) == Field.Plain
    ensures AllPass([Tidy("\n  ", name, value)], unescape)
  {
    PassesAs(name, value, Field.Plain, unescape);
  }

  lemma DenyPartPasses(env: Envelope, unescape: string -> Option<string>)
    ensures AllPass(DenyPart(env), unescape)
  {
    if env.richDenyExcluded {
      PlainLookups();
      PlainNames();
      PlainPasses("rich_deny_excluded", Scalar("true"), unescape);
    }
  }

  lemma SemanticsPartPasses(env: Envelope, unescape: string -> Option<string>)
    ensures AllPass(SemanticsPart(env), unescape)
  {
    if env.semantics != 0 {
      PlainLookups();
      PlainNames();
      NumberIsScalar(env.semantics);
      PlainPasses("target_semantics_version", NumberTree(env.semantics), unescape);
    }
  }

  lemma FallbackPartPasses(env: Envelope, escape: string -> string, unescape: string -> Option<string>)
    requires Escapes(escape)
    ensures AllPass(FallbackPart(env, escape), unescape)
  {
    if env.fallback != [] {
      PlainLookups();
      PlainNames();
      StringsWellFormed(Some(env.fallback), "    ", escape);
      PlainPasses("basic_port_fallback", StringsTree(Some(env.fallback), "    ", escape), unescape);
    }
  }

  lemma PassBoth(a: seq<Member>, b: seq<Member>, unescape: string -> Option<string>)
    requires AllPass(a, unescape) && AllPass(b, unescape)
    ensures AllPass(a + b, unescape)
  {
  }

  lemma TopPasses(env: Envelope, escape: string -> string, unescape: string -> Option<string>)
    requires Escapes(escape)
    ensures AllPass(TopMembers(env, escape), unescape)
  {
    ChunksPartPasses(env, escape, unescape);
    PreScanPartPasses(env, unescape);
    OutputPartPasses(env, escape, unescape);
    ExpansionPartPasses(env, unescape);
    DenyPartPasses(env, unescape);
    SemanticsPartPasses(env, unescape);
    FallbackPartPasses(env, escape, unescape);
    var m1 := ChunksPart(env, escape) + PreScanPart(env);
    var m2 := m1 + OutputPart(env, escape);
    var m3 := m2 + DenyPart(env);
    var m4 := m3 + ExpansionPart(env);
    PassBoth(ChunksPart(env, escape), PreScanPart(env), unescape);
    PassBoth(m1, OutputPart(env, escape), unescape);
    PassBoth(m2, DenyPart(env), unescape);
    PassBoth(m3, ExpansionPart(env), unescape);
    PassBoth(m4, SemanticsPart(env), unescape);
    PassBoth(m4 + SemanticsPart(env), FallbackPart(env, escape), unescape);
  }

  lemma FirstFieldOk(v: Visit, rest: seq<Visit>, unescape: string -> Option<string>)
    requires FieldOk(v, unescape) && FieldsOk(rest, unescape)
    ensures FieldsOk([v] + rest, unescape)
  {
    assert ([v] + rest)[1..] == rest;
  }

  lemma {:induction false} PassingIsOk(ms: seq<Member>, unescape: string -> Option<string>)
    requires AllPass(ms, unescape)
    ensures Decodable(ms, unescape) && FieldsOk(MembersOf(ms, unescape), unescape)
  {
    if ms != [] {
      assert Passes(ms[0], unescape) && ms == [ms[0]] + ms[1..];
      PassingIsOk(ms[1..], unescape);
      FirstVisit(ms, unescape);
      FirstFieldOk(Visit(ms[0].key, Render(ms[0].value)), MembersOf(ms[1..], unescape), unescape);
    }
  }

  // ----- the shape -----

  lemma {:induction false} MembersOfBoth(a: seq<Member>, b: seq<Member>, unescape: string -> Option<string>)
    ensures MembersOf(a + b, unescape) == MembersOf(a, unescape) + MembersOf(b, unescape)
  {
    if a == [] {
      assert a + b == b;
    } else {
      MembersOfBoth(a[1..], b, unescape);
      assert (a + b)[1..] == a[1..] + b;
      VisitsAssoc([MembersOf(a, unescape)[0]], MembersOf(a[1..], unescape), MembersOf(b, unescape));
    }
  }

  lemma VisitsAssoc(a: seq<Visit>, b: seq<Visit>, c: seq<Visit>)
    ensures (a + b) + c == a + (b + c)
  {
  }

  /** A section that is absent leaves the shape alone; one that is present counts once. */
  lemma ShapeAfterPart(ms: seq<Member>, part: seq<Member>, unescape: string -> Option<string>)
    requires |part| <= 1 && AllPass(part, unescape)
    ensures ShapeOf(MembersOf(ms + part, unescape))
         == if part == [] then ShapeOf(MembersOf(ms, unescape))
            else Seen(ShapeOf(MembersOf(ms, unescape)), Visit(part[0].key, Render(part[0].value)))
  {
    MembersOfBoth(ms, part, unescape);
    if part == [] {
      assert MembersOf(ms, unescape) + [] == MembersOf(ms, unescape);
    } else {
      assert Passes(part[0], unescape);
      NameIsPlain(part[0].key, unescape);
      var visits, v := MembersOf(ms, unescape), Visit(part[0].key, Render(part[0].value));
      assert MembersOf(part, unescape) == [v];
      assert (visits + [v])[..|visits + [v]| - 1] == visits;
    }
  }

  lemma FirstShape(env: Envelope, escape: string -> string, unescape: string -> Option<string>)
    requires Escapes(escape)
    ensures ShapeOf(MembersOf(ChunksPart(env, escape), unescape)) == Shape(false, true, |env.chunks|)
  {
    TopLookups();
    ChunksPass(env.chunks, escape, unescape);
    ChunksPartPasses(env, escape, unescape);
    ShapeAfterPart([], ChunksPart(env, escape), unescape);
    assert [] + ChunksPart(env, escape) == ChunksPart(env, escape);
  }

  /** No section after the chunks changes the shape, except that the pre-scan section is noted. */
  lemma ShapeOfTop(env: Envelope, escape: string -> string, unescape: string -> Option<string>)
    requires Escapes(escape)
    ensures ShapeOf(MembersOf(TopMembers(env, escape), unescape)) == Shape(env.preScan.Some?, true, |env.chunks|)
  {
    var m0 := ChunksPart(env, escape);
    var m1 := m0 + PreScanPart(env);
    var m2 := m1 + OutputPart(env, escape);
    var m3 := m2 + DenyPart(env);
    var m4 := m3 + ExpansionPart(env);
    var m5 := m4 + SemanticsPart(env);
    FirstShape(env, escape, unescape);
    PreScanShape(env, m0, unescape);
    OutputShape(env, escape, m1, unescape);
    DenyShape(env, m2, unescape);
    ExpansionShape(env, m3, unescape);
    SemanticsShape(env, m4, unescape);
    FallbackShape(env, escape, m5, unescape);
  }

  lemma PreScanShape(env: Envelope, ms: seq<Member>, unescape: string -> Option<string>)
    ensures var before := ShapeOf(MembersOf(ms, unescape));
            ShapeOf(MembersOf(ms + PreScanPart(env), unescape))
              == if env.preScan.Some? then before.(preScanPresent := true) else before
  {
    TopLookups();
    PreScanPartPasses(env, unescape);
    ShapeAfterPart(ms, PreScanPart(env), unescape);
  }

  lemma OutputShape(env: Envelope, escape: string -> string, ms: seq<Member>, unescape: string -> Option<string>)
    requires Escapes(escape)
    ensures ShapeOf(MembersOf(ms + OutputPart(env, escape), unescape)) == ShapeOf(MembersOf(ms, unescape))
  {
    TopLookups();
    OutputPartPasses(env, escape, unescape);
    ShapeAfterPart(ms, OutputPart(env, escape), unescape);
  }

  lemma DenyShape(env: Envelope, ms: seq<Member>, unescape: string -> Option<string>)
    ensures ShapeOf(MembersOf(ms + DenyPart(env), unescape)) == ShapeOf(MembersOf(ms, unescape))
  {
    PlainLookups();
    DenyPartPasses(env, unescape);
    ShapeAfterPart(ms, DenyPart(env), unescape);
  }

  lemma ExpansionShape(env: Envelope, ms: seq<Member>, unescape: string -> Option<string>)
    ensures ShapeOf(MembersOf(ms + ExpansionPart(env), unescape)) == ShapeOf(MembersOf(ms, unescape))
  {
    TopLookups();
    ExpansionPartPasses(env, unescape);
    ShapeAfterPart(ms, ExpansionPart(env), unescape);
  }

  lemma SemanticsShape(env: Envelope, ms: seq<Member>, unescape: string -> Option<string>)
    ensures ShapeOf(MembersOf(ms + SemanticsPart(env), unescape)) == ShapeOf(MembersOf(ms, unescape))
  {
    PlainLookups();
    SemanticsPartPasses(env, unescape);
    ShapeAfterPart(ms, SemanticsPart(env), unescape);
  }

  lemma FallbackShape(env: Envelope, escape: string -> string, ms: seq<Member>, unescape: string -> Option<string>)
    requires Escapes(escape)
    ensures ShapeOf(MembersOf(ms + FallbackPart(env, escape), unescape)) == ShapeOf(MembersOf(ms, unescape))
  {
    PlainLookups();
    FallbackPartPasses(env, escape, unescape);
    ShapeAfterPart(ms, FallbackPart(env, escape), unescape);
  }

  // ----- the theorem -----

  lemma GoodOfPassing(ms: seq<Member>, unescape: string -> Option<string>)
    requires AllPass(ms, unescape)
    ensures forall m <- ms :: GoodMember(m)
  {
  }

  /**
   For every snapshot: what the printer writes is one well-formed object; visiting it reports exactly
   the written members, names decoded and values cut out whole; every field passes the check; and
   the reported shape is the snapshot's own.
   */
  lemma EncodedSnapshotIsAccepted(env: Envelope, escape: string -> string, unescape: string -> Option<string>)
    requires Escapes(escape)
    ensures var text := Render(EnvelopeTree(env, escape));
            && WellFormed(EnvelopeTree(env, escape))
            && ObjectVisits(text, unescape) == MembersOf(TopMembers(env, escape), unescape)
            && FieldsOk(ObjectVisits(text, unescape), unescape)
            && ShapeOf(ObjectVisits(text, unescape)) == Shape(env.preScan.Some?, true, |env.chunks|)
  {
    var ms, text := TopMembers(env, escape), Render(EnvelopeTree(env, escape));
    TopPasses(env, escape, unescape);
    GoodOfPassing(ms, unescape);
    PassingIsOk(ms, unescape);
    ShapeOfTop(env, escape, unescape);
    ObjectVisitsExactly("", ms, "\n", "", unescape);
    assert "" + (text + "") == text;
  }

  /** Printing a snapshot and checking the bytes. */
  method EncodeAndValidate(env: Envelope, escape: string -> string, unescape: string -> Option<string>)
    returns (text: string, shape: Shape, unknown: Option<string>)
    requires Escapes(escape)
    ensures text == Render(EnvelopeTree(env, escape))
    ensures unknown.None? && shape == Shape(env.preScan.Some?, true, |env.chunks|)
  {
    var encoder := new Encoder(escape);
    encoder.EncodeSnapshot(env);
    text := encoder.written;
    assert "" + Render(EnvelopeTree(env, escape)) == Render(EnvelopeTree(env, escape));
    EncodedSnapshotIsAccepted(env, escape, unescape);
    shape, unknown := SnapshotFields.ValidateSnapshotSchema(text, unescape);
  }
}
