/** What visiting reports inside the written snapshot: each chunk and each section field by field, in order. */
module SnapshotSections {
  import opened Wrappers
  import opened JsonText
  import opened JsonScan
  import opened JsonVisit
  import opened SnapshotFields
  import opened SnapshotEncoder
  import opened SnapshotRoundTrip

  /** One visit for every written value, under its name, in the order of writing. */
  ghost function WrittenVisits(names: seq<string>, values: seq<Json>): seq<Visit>
    requires |values| <= |names|
  {
    seq(|values|, k requires 0 <= k < |values| => Visit(names[k], Render(values[k])))
  }

  lemma {:induction false} ZipVisits(lead: string, names: seq<string>, values: seq<Json>, unescape: string -> Option<string>)
    requires |values| <= |names| && forall name <- names :: IsName(name)
    ensures MembersOf(Zip(lead, names, values), unescape) == WrittenVisits(names, values)
  {
    if values != [] {
      ZipVisits(lead, names[1..], values[1..], unescape);
      assert names[0] in names && Zip(lead, names, values)[0] == Tidy(lead, names[0], values[0]);
      assert Zip(lead, names, values)[1..] == Zip(lead, names[1..], values[1..]);
      FirstVisit(Zip(lead, names, values), unescape);
      assert WrittenVisits(names, values) == [Visit(names[0], Render(values[0]))] + WrittenVisits(names[1..], values[1..]);
    }
  }

  lemma ObjectVisited(lead: string, names: seq<string>, values: seq<Json>, close: string, unescape: string -> Option<string>)
    requires |values| <= |names| && AllSpace(lead) && AllSpace(close)
    requires (forall name <- names :: IsName(name)) && forall v <- values :: WellFormed(v)
    ensures ObjectVisits(Render(Object(Zip(lead, names, values), close)), unescape) == WrittenVisits(names, values)
  {
    var ms := Zip(lead, names, values);
    ZipIsGood(lead, names, values);
    forall m <- ms ensures NameOf(m.key, unescape).Some? {
      var k :| 0 <= k < |values| && ms[k] == m;
      assert names[k] in names;
      NameIsPlain(names[k], unescape);
    }
    ObjectVisitsExactly("", ms, close, "", unescape);
    assert "" + (Render(Object(ms, close)) + "") == Render(Object(ms, close));
    ZipVisits(lead, names, values, unescape);
  }

  lemma ChunkVisited(c: ChunkRecord, escape: string -> string, unescape: string -> Option<string>)
    requires Escapes(escape)
    ensures ObjectVisits(Render(ChunkTree(c, escape)), unescape) == WrittenVisits(CHUNK_NAMES, ChunkValues(c, escape))
  {
    WrittenNamesAreKnown();
    ChunkValuesWellFormed(c, escape);
    ObjectVisited("\n      ", CHUNK_NAMES, ChunkValues(c, escape), "\n    ", unescape);
  }

  lemma PreScanVisited(p: PreScanPing, unescape: string -> Option<string>)
    ensures ObjectVisits(Render(Object(PreScanMembers(p), "\n  ")), unescape) == WrittenVisits(PRE_SCAN_NAMES, PreScanValues(p))
  {
    WrittenNamesAreKnown();
    PreScanValuesWellFormed(p);
    ObjectVisited("\n    ", PRE_SCAN_NAMES, PreScanValues(p), "\n  ", unescape);
  }

  lemma OutputVisited(o: OutputPaths, escape: string -> string, unescape: string -> Option<string>)
    requires Escapes(escape)
    ensures ObjectVisits(Render(Object(OutputMembers(o, escape), "\n  ")), unescape)
         == WrittenVisits(OUTPUT_NAMES, OutputValues(o, escape))
  {
    WrittenNamesAreKnown();
    ObjectVisited("\n    ", OUTPUT_NAMES, OutputValues(o, escape), "\n  ", unescape);
  }

  lemma ExpansionVisited(x: Expansion, unescape: string -> Option<string>)
    ensures ObjectVisits(Render(Object(ExpansionMembers(x), "\n  ")), unescape)
         == WrittenVisits(EXPANSION_NAMES, ExpansionValues(x))
  {
    WrittenNamesAreKnown();
    DigitsAreScalar(x.candidateCount);
    NumberIsScalar(x.candidateLimit);
    NumberIsScalar(x.memoryLimitGB);
    ObjectVisited("\n    ", EXPANSION_NAMES, ExpansionValues(x), "\n  ", unescape);
  }

  ghost function ChunkTexts(chunks: seq<ChunkRecord>, escape: string -> string): seq<string> {
    seq(|chunks|, k requires 0 <= k < |chunks| => Render(ChunkTree(chunks[k], escape)))
  }

  lemma {:induction false} ElementsAreTexts(chunks: seq<ChunkRecord>, escape: string -> string)
    ensures ElementsOf(ChunkElements(chunks, escape)) == ChunkTexts(chunks, escape)
  {
    if chunks != [] {
      ElementsAreTexts(chunks[1..], escape);
      FirstChunk(chunks, escape);
      FirstText(chunks, escape);
    }
  }

  lemma FirstText(chunks: seq<ChunkRecord>, escape: string -> string)
    requires chunks != []
    ensures ChunkTexts(chunks, escape) == [Render(ChunkTree(chunks[0], escape))] + ChunkTexts(chunks[1..], escape)
  {
  }

  lemma ChunkListVisited(chunks: seq<ChunkRecord>, escape: string -> string)
    requires Escapes(escape)
    ensures ArrayVisits(Render(ChunksTree(chunks, escape))) == ChunkTexts(chunks, escape)
  {
    var es, close := ChunkElements(chunks, escape), if chunks == [] then "" else "\n  ";
    ChunkElementsPass(chunks, escape, s => None);
    ArrayVisitsExactly("", es, close, "");
    assert "" + (Render(Array(es, close)) + "") == Render(Array(es, close));
    ElementsAreTexts(chunks, escape);
  }

  /** The visits that a present section must give. */
  ghost predicate SectionVisited(name: string, names: seq<string>, values: seq<Json>, visits: seq<Visit>,
                                 unescape: string -> Option<string>)
    requires |values| <= |names|
  {
    exists v <- visits :: v.name == name && ObjectVisits(v.value, unescape) == WrittenVisits(names, values)
  }

  /** The visit of the chunk list: one text for each chunk, and in each text exactly the chunk's fields. */
  ghost predicate ChunksVisited(chunks: seq<ChunkRecord>, escape: string -> string, v: Visit, unescape: string -> Option<string>) {
    && v.name == "chunks" && |ArrayVisits(v.value)| == |chunks|
    && forall k :: 0 <= k < |chunks| ==>
         ObjectVisits(ArrayVisits(v.value)[k], unescape) == WrittenVisits(CHUNK_NAMES, ChunkValues(chunks[k], escape))
  }

  lemma ChunkFieldVisited(env: Envelope, escape: string -> string, unescape: string -> Option<string>)
    requires Escapes(escape)
    ensures ChunksVisited(env.chunks, escape, Visit("chunks", Render(ChunksTree(env.chunks, escape))), unescape)
  {
    ChunkListVisited(env.chunks, escape);
    forall k | 0 <= k < |env.chunks|
      ensures ObjectVisits(ChunkTexts(env.chunks, escape)[k], unescape)
           == WrittenVisits(CHUNK_NAMES, ChunkValues(env.chunks[k], escape))
    {
      ChunkVisited(env.chunks[k], escape, unescape);
    }
  }

  // ----- the whole snapshot -----

  lemma {:induction false} WrittenIsVisited(ms: seq<Member>, m: Member, unescape: string -> Option<string>)
    requires m in ms && forall o <- ms :: IsName(o.key)
    ensures Visit(m.key, Render(m.value)) in MembersOf(ms, unescape)
  {
    FirstVisit(ms, unescape);
    if m != ms[0] {
      assert ms == [ms[0]] + ms[1..];
      WrittenIsVisited(ms[1..], m, unescape);
    }
  }

  lemma TopVisit(env: Envelope, escape: string -> string, m: Member, unescape: string -> Option<string>)
    requires Escapes(escape) && m in TopMembers(env, escape)
    ensures Visit(m.key, Render(m.value)) in ObjectVisits(Render(EnvelopeTree(env, escape)), unescape)
  {
    var ms := TopMembers(env, escape);
    TopPasses(env, escape, unescape);
    forall o <- ms ensures IsName(o.key) {
      assert Passes(o, unescape);
    }
    EncodedSnapshotIsAccepted(env, escape, unescape);
    WrittenIsVisited(ms, m, unescape);
  }

  lemma PartsAreTop(env: Envelope, escape: string -> string)
    ensures forall m <- PreScanPart(env) :: m in TopMembers(env, escape)
    ensures forall m <- OutputPart(env, escape) :: m in TopMembers(env, escape)
    ensures forall m <- ExpansionPart(env) :: m in TopMembers(env, escape)
    ensures Tidy("\n  ", "chunks", ChunksTree(env.chunks, escape)) in TopMembers(env, escape)
  {
  }

  /**
   Inside the written snapshot as well: the visit of the chunk list reports one text for each chunk,
   and visiting each chunk and each section that is present reports exactly its written fields.
   */
  lemma WrittenFieldsAreVisited(env: Envelope, escape: string -> string, unescape: string -> Option<string>)
    requires Escapes(escape)
    ensures var visits := ObjectVisits(Render(EnvelopeTree(env, escape)), unescape);
            && (exists v <- visits :: ChunksVisited(env.chunks, escape, v, unescape))
            && (env.preScan.Some? ==>
                  SectionVisited("pre_scan_ping", PRE_SCAN_NAMES, PreScanValues(env.preScan.value), visits, unescape))
            && (env.output.Some? ==>
                  SectionVisited("output", OUTPUT_NAMES, OutputValues(env.output.value, escape), visits, unescape))
            && (env.expansion.Some? ==>
                  SectionVisited("target_expansion", EXPANSION_NAMES, ExpansionValues(env.expansion.value), visits, unescape))
  {
    PartsAreTop(env, escape);
    ChunkFieldVisited(env, escape, unescape);
    TopVisit(env, escape, Tidy("\n  ", "chunks", ChunksTree(env.chunks, escape)), unescape);
    if env.preScan.Some? {
      TopVisit(env, escape, PreScanPart(env)[0], unescape);
      PreScanVisited(env.preScan.value, unescape);
    }
    if env.output.Some? {
      TopVisit(env, escape, OutputPart(env, escape)[0], unescape);
      OutputVisited(env.output.value, escape, unescape);
    }
    if env.expansion.Some? {
      TopVisit(env, escape, ExpansionPart(env)[0], unescape);
      ExpansionVisited(env.expansion.value, unescape);
    }
  }
}
