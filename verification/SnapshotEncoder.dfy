/** The hand-written snapshot printer: what it writes is one well-formed object with fixed layout. */
module SnapshotEncoder {
  import opened Wrappers
  import opened Decimal
  import opened JsonText

  /** A chunk as it is written out, its ports still text. */
  datatype ChunkRecord = ChunkRecord(cidr: string, cidrName: string, ports: Option<seq<string>>,
                                   nextIndex: int, scannedCount: int, totalCount: int, status: string)

  datatype PreScanPing = PreScanPing(enabled: bool, timeoutMS: int, unreachable: seq<nat>)

  datatype OutputPaths = OutputPaths(scanPath: string, openPath: string)

  datatype Expansion = Expansion(candidateCount: nat, candidateLimit: int, memoryLimitGB: int)

  /** The optional sections are absent when their value is none, false, zero or empty. */
  datatype Envelope = Envelope(chunks: seq<ChunkRecord>, preScan: Option<PreScanPing>, output: Option<OutputPaths>,
                               richDenyExcluded: bool, expansion: Option<Expansion>, semantics: int,
                               fallback: seq<string>)

  // ----- the trees -----

  function Named(lead: string, name: string): string {
    lead + "\"" + name + "\": "
  }

  ghost function Tidy(lead: string, name: string, value: Json): Member {
    Member(lead, name, "", " ", value, "")
  }

  ghost function NumberTree(n: int): Json {
    Scalar(Itoa(n))
  }

  ghost function StringElements(values: seq<string>, indentation: string, escape: string -> string): seq<Element> {
    seq(|values|, k requires 0 <= k < |values| => Element("\n" + indentation, Text(escape(values[k])), ""))
  }

  /** A missing list is null; the closing bracket stands two spaces to the left of the values. */
  ghost function StringsTree(values: Option<seq<string>>, indentation: string, escape: string -> string): Json
    requires |indentation| >= 2
  {
    match values
    case None => Scalar("null")
    case Some(list) =>
      Array(StringElements(list, indentation, escape), if list == [] then "" else "\n" + indentation[..|indentation| - 2])
  }

  /** One member for every value, under the name at the same place. */
  ghost function Zip(lead: string, names: seq<string>, values: seq<Json>): seq<Member>
    requires |values| <= |names|
  {
    seq(|values|, k requires 0 <= k < |values| => Tidy(lead, names[k], values[k]))
  }

  const CHUNK_NAMES := ["cidr", "cidr_name", "ports", "next_index", "scanned_count", "total_count", "status"]

  ghost function ChunkValues(c: ChunkRecord, escape: string -> string): seq<Json> {
    [Text(escape(c.cidr)), Text(escape(c.cidrName)), StringsTree(c.ports, "        ", escape),
     NumberTree(c.nextIndex), NumberTree(c.scannedCount), NumberTree(c.totalCount), Text(escape(c.status))]
  }

  ghost function ChunkMembers(c: ChunkRecord, escape: string -> string): seq<Member> {
    Zip("\n      ", CHUNK_NAMES, ChunkValues(c, escape))
  }

  ghost function ChunkTree(c: ChunkRecord, escape: string -> string): Json {
    Object(ChunkMembers(c, escape), "\n    ")
  }

  ghost function ChunkElements(chunks: seq<ChunkRecord>, escape: string -> string): seq<Element> {
    seq(|chunks|, k requires 0 <= k < |chunks| => Element("\n    ", ChunkTree(chunks[k], escape), ""))
  }

  ghost function ChunksTree(chunks: seq<ChunkRecord>, escape: string -> string): Json {
    Array(ChunkElements(chunks, escape), if chunks == [] then "" else "\n  ")
  }

  ghost function NumberElements(values: seq<nat>): seq<Element> {
    seq(|values|, k requires 0 <= k < |values| => Element("\n      ", Scalar(Digits(values[k])), ""))
  }

  const PRE_SCAN_NAMES := ["enabled", "timeout_ms", "unreachable_ipv4_u32"]

  ghost function PreScanValues(p: PreScanPing): seq<Json> {
    [Scalar(if p.enabled then "true" else "false"), NumberTree(p.timeoutMS)]
    + if p.unreachable == [] then [] else [Array(NumberElements(p.unreachable), "\n    ")]
  }

  ghost function PreScanMembers(p: PreScanPing): seq<Member> {
    Zip("\n    ", PRE_SCAN_NAMES, PreScanValues(p))
  }

  const OUTPUT_NAMES := ["scan_path", "open_path"]

  ghost function OutputValues(o: OutputPaths, escape: string -> string): seq<Json> {
    [Text(escape(o.scanPath)), Text(escape(o.openPath))]
  }

  ghost function OutputMembers(o: OutputPaths, escape: string -> string): seq<Member> {
    Zip("\n    ", OUTPUT_NAMES, OutputValues(o, escape))
  }

  const EXPANSION_NAMES := ["candidate_count", "candidate_limit", "memory_limit_gb"]

  ghost function ExpansionValues(x: Expansion): seq<Json> {
    [Scalar(Digits(x.candidateCount)), NumberTree(x.candidateLimit), NumberTree(x.memoryLimitGB)]
  }

  ghost function ExpansionMembers(x: Expansion): seq<Member> {
    Zip("\n    ", EXPANSION_NAMES, ExpansionValues(x))
  }

  ghost function Section(name: string, members: seq<Member>): Member {
    Tidy("\n  ", name, Object(members, "\n  "))
  }

  ghost function PreScanPart(env: Envelope): seq<Member> {
    if env.preScan.None? then [] else [Section("pre_scan_ping", PreScanMembers(env.preScan.value))]
  }

  ghost function OutputPart(env: Envelope, escape: string -> string): seq<Member> {
    if env.output.None? then [] else [Section("output", OutputMembers(env.output.value, escape))]
  }

  ghost function DenyPart(env: Envelope): seq<Member> {
    if !env.richDenyExcluded then [] else [Tidy("\n  ", "rich_deny_excluded", Scalar("true"))]
  }

  ghost function ExpansionPart(env: Envelope): seq<Member> {
    if env.expansion.None? then [] else [Section("target_expansion", ExpansionMembers(env.expansion.value))]
  }

  ghost function SemanticsPart(env: Envelope): seq<Member> {
    if env.semantics == 0 then [] else [Tidy("\n  ", "target_semantics_version", NumberTree(env.semantics))]
  }

  ghost function FallbackPart(env: Envelope, escape: string -> string): seq<Member> {
    if env.fallback == [] then []
    else [Tidy("\n  ", "basic_port_fallback", StringsTree(Some(env.fallback), "    ", escape))]
  }

  /** The top-level members: the chunks always, each other section only when it is present. */
  ghost function TopMembers(env: Envelope, escape: string -> string): seq<Member> {
    [Tidy("\n  ", "chunks", ChunksTree(env.chunks, escape))] + PreScanPart(env) + OutputPart(env, escape)
    + DenyPart(env) + ExpansionPart(env) + SemanticsPart(env) + FallbackPart(env, escape)
  }

  ghost function EnvelopeTree(env: Envelope, escape: string -> string): Json {
    Object(TopMembers(env, escape), "\n")
  }

  // ----- writing member by member -----

  function Comma(first: bool): string {
    if first then "" else ","
  }

  lemma Chained(a: string, b: string, c: string)
    ensures a + ("," + (b + "," + c)) == a + ("," + b) + "," + c
  {
  }

  lemma {:induction false} PushMember(ms: seq<Member>, m: Member)
    ensures RenderMembers(ms + [m]) == RenderMembers(ms) + Comma(ms == []) + RenderMember(m)
  {
    if ms == [] {
      assert [] + [m] == [m];
    } else if |ms| == 1 {
      assert (ms + [m])[1..] == [m];
    } else {
      PushMember(ms[1..], m);
      assert (ms + [m])[1..] == ms[1..] + [m];
      Chained(RenderMember(ms[0]), RenderMembers(ms[1..]), RenderMember(m));
    }
  }

  lemma {:induction false} PushElement(es: seq<Element>, e: Element)
    ensures RenderElements(es + [e]) == RenderElements(es) + Comma(es == []) + RenderElement(e)
  {
    if es == [] {
      assert [] + [e] == [e];
    } else if |es| == 1 {
      assert (es + [e])[1..] == [e];
    } else {
      PushElement(es[1..], e);
      assert (es + [e])[1..] == es[1..] + [e];
      Chained(RenderElement(es[0]), RenderElements(es[1..]), RenderElement(e));
    }
  }

  lemma TidyText(lead: string, name: string, value: Json)
    ensures RenderMember(Tidy(lead, name, value)) == Named(lead, name) + Render(value)
  {
    assert Quoted(name) + ("" + ":" + " ") == "\"" + name + "\": ";
  }

  lemma AddTidy(base: string, ms: seq<Member>, lead: string, name: string, value: Json)
    ensures base + RenderMembers(ms) + (Comma(ms == []) + Named(lead, name)) + Render(value)
         == base + RenderMembers(ms + [Tidy(lead, name, value)])
  {
    PushMember(ms, Tidy(lead, name, value));
    TidyText(lead, name, value);
    Regrouped(base, RenderMembers(ms), Comma(ms == []), Named(lead, name), Render(value));
  }

  lemma Regrouped(a: string, b: string, c: string, d: string, e: string)
    ensures a + b + (c + d) + e == a + (b + c + (d + e))
  {
  }

  lemma AddElement(base: string, es: seq<Element>, lead: string, value: Json)
    ensures base + RenderElements(es) + (Comma(es == []) + lead) + Render(value)
         == base + RenderElements(es + [Element(lead, value, "")])
  {
    var e := Element(lead, value, "");
    PushElement(es, e);
    assert RenderElement(e) == lead + Render(value);
    Regrouped(base, RenderElements(es), Comma(es == []), lead, Render(value));
  }

  lemma Prefix(ms: seq<Member>, k: nat)
    requires k < |ms|
    ensures ms[..k] + [ms[k]] == ms[..k + 1] && (k + 1 == |ms| ==> ms[..k + 1] == ms)
  {
  }

  lemma OneMoreChunk(chunks: seq<ChunkRecord>, k: nat, escape: string -> string)
    requires k < |chunks|
    ensures ChunkElements(chunks[..k + 1], escape)
         == ChunkElements(chunks[..k], escape) + [Element("\n    ", ChunkTree(chunks[k], escape), "")]
    ensures k == 0 <==> ChunkElements(chunks[..k], escape) == []
  {
    assert |ChunkElements(chunks[..k], escape)| == k;
  }

  lemma ArrayText(a: string, es: seq<Element>, close: string)
    ensures a + "[" + RenderElements(es) + (close + "]") == a + Render(Array(es, close))
  {
    Regrouped(a, "[", RenderElements(es), "", close + "]");
    assert RenderElements(es) + "" == RenderElements(es) && "" + (close + "]") == close + "]";
    assert "[" + RenderElements(es) + (close + "]") == "[" + RenderElements(es) + close + "]";
  }

  lemma ObjectText(a: string, ms: seq<Member>, close: string)
    ensures a + "{" + RenderMembers(ms) + (close + "}") == a + Render(Object(ms, close))
  {
    assert "{" + RenderMembers(ms) + (close + "}") == "{" + RenderMembers(ms) + close + "}";
    assert a + "{" + RenderMembers(ms) + (close + "}") == a + ("{" + RenderMembers(ms) + (close + "}"));
  }

  class Encoder {
    const escape: string -> string
    var written: string

    constructor (escape: string -> string)
      ensures this.escape == escape && written == ""
    {
      this.escape := escape;
      written := "";
    }

    method WriteText(value: string)
      modifies this
      ensures written == old(written) + value
    {
      written := written + value;
    }

    /** A string between quotes, escaped by the JSON library. */
    method WriteValue(value: string)
      modifies this
      ensures written == old(written) + Render(Text(escape(value)))
    {
      written := written + ("\"" + escape(value) + "\"");
    }

    // ----- one more member -----

    method WriteString(lead: string, name: string, value: string, ghost base: string, ghost ms: seq<Member>, first: bool)
      requires written == base + RenderMembers(ms) && (first <==> ms == [])
      modifies this
      ensures written == base + RenderMembers(ms + [Tidy(lead, name, Text(escape(value)))])
    {
      AddTidy(base, ms, lead, name, Text(escape(value)));
      WriteText(Comma(first) + Named(lead, name));
      WriteValue(value);
    }

    method WriteScalar(lead: string, name: string, text: string, ghost base: string, ghost ms: seq<Member>, first: bool)
      requires written == base + RenderMembers(ms) && (first <==> ms == [])
      modifies this
      ensures written == base + RenderMembers(ms + [Tidy(lead, name, Scalar(text))])
    {
      AddTidy(base, ms, lead, name, Scalar(text));
      WriteText(Comma(first) + Named(lead, name));
      WriteText(text);
    }

    method WriteElements(list: seq<string>, indentation: string)
      modifies this
      ensures written == old(written) + RenderElements(StringElements(list, indentation, escape))
    {
      ghost var base, es := written, StringElements(list, indentation, escape);
      assert es[..0] == [];
      for k := 0 to |list|
        invariant written == base + RenderElements(es[..k])
      {
        assert es[..k + 1] == es[..k] + [es[k]];
        AddElement(base, es[..k], "\n" + indentation, Text(escape(list[k])));
        WriteText(Comma(k == 0) + ("\n" + indentation));
        WriteValue(list[k]);
      }
      assert es[..|list|] == es;
    }

    method WriteStrings(prefix: string, values: Option<seq<string>>, indentation: string)
      requires |indentation| >= 2
      modifies this
      ensures written == old(written) + prefix + Render(StringsTree(values, indentation, escape))
    {
      WriteText(prefix);
      if values.None? {
        WriteText("null");
        return;
      }
      var list := values.value;
      ghost var base := written;
      WriteText("[");
      WriteElements(list, indentation);
      var close := if |list| > 0 then "\n" + indentation[..|indentation| - 2] else "";
      ArrayText(base, StringElements(list, indentation, escape), close);
      WriteText(close + "]");
    }

    method WriteStringList(lead: string, name: string, values: Option<seq<string>>, indentation: string,
                           ghost base: string, ghost ms: seq<Member>, first: bool)
      requires |indentation| >= 2 && written == base + RenderMembers(ms) && (first <==> ms == [])
      modifies this
      ensures written == base + RenderMembers(ms + [Tidy(lead, name, StringsTree(values, indentation, escape))])
    {
      AddTidy(base, ms, lead, name, StringsTree(values, indentation, escape));
      WriteStrings(Comma(first) + Named(lead, name), values, indentation);
    }
  
    // ----- the sections -----

    method WriteChunkHead(c: ChunkRecord, ghost base: string)
      requires written == base
      modifies this
      ensures written == base + RenderMembers(ChunkMembers(c, escape)[..3])
    {
      ghost var ms := ChunkMembers(c, escape);
      assert ms[..0] == [];
      Prefix(ms, 0);
      Prefix(ms, 1);
      Prefix(ms, 2);
      WriteString("\n      ", "cidr", c.cidr, base, ms[..0], true);
      WriteString("\n      ", "cidr_name", c.cidrName, base, ms[..1], false);
      WriteStringList("\n      ", "ports", c.ports, "        ", base, ms[..2], false);
    }

    method WriteChunkTail(c: ChunkRecord, ghost base: string)
      requires written == base + RenderMembers(ChunkMembers(c, escape)[..3])
      modifies this
      ensures written == base + RenderMembers(ChunkMembers(c, escape))
    {
      ghost var ms := ChunkMembers(c, escape);
      Prefix(ms, 3);
      Prefix(ms, 4);
      Prefix(ms, 5);
      Prefix(ms, 6);
      WriteScalar("\n      ", "next_index", Itoa(c.nextIndex), base, ms[..3], false);
      WriteScalar("\n      ", "scanned_count", Itoa(c.scannedCount), base, ms[..4], false);
      WriteScalar("\n      ", "total_count", Itoa(c.totalCount), base, ms[..5], false);
      WriteString("\n      ", "status", c.status, base, ms[..6], false);
    }

    method WriteChunk(c: ChunkRecord)
      modifies this
      ensures written == old(written) + Render(ChunkTree(c, escape))
    {
      ghost var before := written;
      WriteText("{");
      WriteChunkHead(c, before + "{");
      WriteChunkTail(c, before + "{");
      ObjectText(before, ChunkMembers(c, escape), "\n    ");
      WriteText("\n    " + "}");
    }

    method WriteChunkElement(c: ChunkRecord, ghost base: string, ghost es: seq<Element>, first: bool)
      requires written == base + RenderElements(es) && (first <==> es == [])
      modifies this
      ensures written == base + RenderElements(es + [Element("\n    ", ChunkTree(c, escape), "")])
    {
      AddElement(base, es, "\n    ", ChunkTree(c, escape));
      WriteText(Comma(first) + "\n    ");
      WriteChunk(c);
    }

    method WriteChunkElements(chunks: seq<ChunkRecord>)
      modifies this
      ensures written == old(written) + RenderElements(ChunkElements(chunks, escape))
    {
      ghost var base := written;
      assert ChunkElements(chunks[..0], escape) == [];
      for k := 0 to |chunks|
        invariant written == base + RenderElements(ChunkElements(chunks[..k], escape))
      {
        OneMoreChunk(chunks, k, escape);
        WriteChunkElement(chunks[k], base, ChunkElements(chunks[..k], escape), k == 0);
      }
      assert chunks[..|chunks|] == chunks;
    }

    method WriteChunks(chunks: seq<ChunkRecord>)
      modifies this
      ensures written == old(written) + Render(ChunksTree(chunks, escape))
    {
      ghost var before := written;
      WriteText("[");
      WriteChunkElements(chunks);
      var close := if |chunks| > 0 then "\n  " else "";
      ArrayText(before, ChunkElements(chunks, escape), close);
      WriteText(close + "]");
    }

    method WriteUnreachable(values: seq<nat>)
      modifies this
      ensures written == old(written) + Render(Array(NumberElements(values), "\n    "))
    {
      ghost var before := written;
      WriteText("[");
      ghost var base, es := written, NumberElements(values);
      assert es[..0] == [];
      for k := 0 to |values|
        invariant written == base + RenderElements(es[..k])
      {
        assert es[..k + 1] == es[..k] + [es[k]];
        AddElement(base, es[..k], "\n      ", Scalar(Digits(values[k])));
        WriteText(Comma(k == 0) + "\n      ");
        WriteText(Digits(values[k]));
      }
      assert es[..|values|] == es;
      ArrayText(before, es, "\n    ");
      WriteText("\n    " + "]");
    }

    method WritePreScanMembers(p: PreScanPing, ghost base: string)
      requires written == base
      modifies this
      ensures written == base + RenderMembers(PreScanMembers(p))
    {
      ghost var ms := PreScanMembers(p);
      assert ms[..0] == [];
      Prefix(ms, 0);
      Prefix(ms, 1);
      WriteScalar("\n    ", "enabled", if p.enabled then "true" else "false", base, ms[..0], true);
      WriteScalar("\n    ", "timeout_ms", Itoa(p.timeoutMS), base, ms[..1], false);
      if |p.unreachable| > 0 {
        Prefix(ms, 2);
        AddTidy(base, ms[..2], "\n    ", "unreachable_ipv4_u32", Array(NumberElements(p.unreachable), "\n    "));
        WriteText(Comma(false) + Named("\n    ", "unreachable_ipv4_u32"));
        WriteUnreachable(p.unreachable);
      }
    }

    method WriteOutputMembers(o: OutputPaths, ghost base: string)
      requires written == base
      modifies this
      ensures written == base + RenderMembers(OutputMembers(o, escape))
    {
      ghost var ms := OutputMembers(o, escape);
      assert ms[..0] == [];
      Prefix(ms, 0);
      Prefix(ms, 1);
      WriteString("\n    ", "scan_path", o.scanPath, base, ms[..0], true);
      WriteString("\n    ", "open_path", o.openPath, base, ms[..1], false);
    }

    method WriteExpansionMembers(x: Expansion, ghost base: string)
      requires written == base
      modifies this
      ensures written == base + RenderMembers(ExpansionMembers(x))
    {
      ghost var ms := ExpansionMembers(x);
      assert ms[..0] == [];
      Prefix(ms, 0);
      Prefix(ms, 1);
      Prefix(ms, 2);
      WriteScalar("\n    ", "candidate_count", Digits(x.candidateCount), base, ms[..0], true);
      WriteScalar("\n    ", "candidate_limit", Itoa(x.candidateLimit), base, ms[..1], false);
      WriteScalar("\n    ", "memory_limit_gb", Itoa(x.memoryLimitGB), base, ms[..2], false);
    }
  
    // ----- the whole snapshot -----

    method WritePreScan(env: Envelope, ghost base: string, ghost ms: seq<Member>)
      requires written == base + RenderMembers(ms) && ms != []
      modifies this
      ensures written == base + RenderMembers(ms + PreScanPart(env))
    {
      if env.preScan.None? {
        assert ms + [] == ms;
        return;
      }
      ghost var tree := Object(PreScanMembers(env.preScan.value), "\n  ");
      AddTidy(base, ms, "\n  ", "pre_scan_ping", tree);
      WriteText("," + Named("\n  ", "pre_scan_ping"));
      ghost var before := written;
      WriteText("{");
      WritePreScanMembers(env.preScan.value, before + "{");
      ObjectText(before, PreScanMembers(env.preScan.value), "\n  ");
      WriteText("\n  " + "}");
    }

    method WriteOutput(env: Envelope, ghost base: string, ghost ms: seq<Member>)
      requires written == base + RenderMembers(ms) && ms != []
      modifies this
      ensures written == base + RenderMembers(ms + OutputPart(env, escape))
    {
      if env.output.None? {
        assert ms + [] == ms;
        return;
      }
      ghost var tree := Object(OutputMembers(env.output.value, escape), "\n  ");
      AddTidy(base, ms, "\n  ", "output", tree);
      WriteText("," + Named("\n  ", "output"));
      ghost var before := written;
      WriteText("{");
      WriteOutputMembers(env.output.value, before + "{");
      ObjectText(before, OutputMembers(env.output.value, escape), "\n  ");
      WriteText("\n  " + "}");
    }

    method WriteExpansion(env: Envelope, ghost base: string, ghost ms: seq<Member>)
      requires written == base + RenderMembers(ms) && ms != []
      modifies this
      ensures written == base + RenderMembers(ms + ExpansionPart(env))
    {
      if env.expansion.None? {
        assert ms + [] == ms;
        return;
      }
      ghost var tree := Object(ExpansionMembers(env.expansion.value), "\n  ");
      AddTidy(base, ms, "\n  ", "target_expansion", tree);
      WriteText("," + Named("\n  ", "target_expansion"));
      ghost var before := written;
      WriteText("{");
      WriteExpansionMembers(env.expansion.value, before + "{");
      ObjectText(before, ExpansionMembers(env.expansion.value), "\n  ");
      WriteText("\n  " + "}");
    }

    method WriteDeny(env: Envelope, ghost base: string, ghost ms: seq<Member>)
      requires written == base + RenderMembers(ms) && ms != []
      modifies this
      ensures written == base + RenderMembers(ms + DenyPart(env))
    {
      assert ms + [] == ms;
      if env.richDenyExcluded {
        WriteScalar("\n  ", "rich_deny_excluded", "true", base, ms, false);
      }
    }

    method WriteSemantics(env: Envelope, ghost base: string, ghost ms: seq<Member>)
      requires written == base + RenderMembers(ms) && ms != []
      modifies this
      ensures written == base + RenderMembers(ms + SemanticsPart(env))
    {
      assert ms + [] == ms;
      if env.semantics != 0 {
        WriteScalar("\n  ", "target_semantics_version", Itoa(env.semantics), base, ms, false);
      }
    }

    method WriteFallback(env: Envelope, ghost base: string, ghost ms: seq<Member>)
      requires written == base + RenderMembers(ms) && ms != []
      modifies this
      ensures written == base + RenderMembers(ms + FallbackPart(env, escape))
    {
      assert ms + [] == ms;
      if |env.fallback| > 0 {
        WriteStringList("\n  ", "basic_port_fallback", Some(env.fallback), "    ", base, ms, false);
      }
    }

    method WriteChunksMember(env: Envelope, ghost base: string)
      requires written == base
      modifies this
      ensures written == base + RenderMembers([Tidy("\n  ", "chunks", ChunksTree(env.chunks, escape))])
    {
      ghost var m := Tidy("\n  ", "chunks", ChunksTree(env.chunks, escape));
      AddTidy(base, [], "\n  ", "chunks", ChunksTree(env.chunks, escape));
      assert [] + [m] == [m] && base + RenderMembers([]) == base;
      WriteText(Comma(true) + Named("\n  ", "chunks"));
      WriteChunks(env.chunks);
    }

    method WriteMembers(env: Envelope, ghost base: string)
      requires written == base
      modifies this
      ensures written == base + RenderMembers(TopMembers(env, escape))
    {
      ghost var m0 := [Tidy("\n  ", "chunks", ChunksTree(env.chunks, escape))];
      ghost var m1 := m0 + PreScanPart(env);
      ghost var m2 := m1 + OutputPart(env, escape);
      ghost var m3 := m2 + DenyPart(env);
      ghost var m4 := m3 + ExpansionPart(env);
      ghost var m5 := m4 + SemanticsPart(env);
      WriteChunksMember(env, base);
      WritePreScan(env, base, m0);
      WriteOutput(env, base, m1);
      WriteDeny(env, base, m2);
      WriteExpansion(env, base, m3);
      WriteSemantics(env, base, m4);
      WriteFallback(env, base, m5);
    }

    /** The text of the whole tree, and nothing else. */
    method EncodeSnapshot(env: Envelope)
      modifies this
      ensures written == old(written) + Render(EnvelopeTree(env, escape))
    {
      ghost var before := written;
      WriteText("{");
      WriteMembers(env, before + "{");
      ObjectText(before, TopMembers(env, escape), "\n");
      WriteText("\n" + "}");
    }
  }
}
