/** Which fields a snapshot may have, and the shape that the check reports. */
module SnapshotFields {
  import opened Wrappers
  import opened JsonText
  import opened JsonVisit
  import opened SnapshotSchema

  datatype Schema = ChunkSchema | PreScanSchema | OutputSchema | ExpansionSchema

  function Fields(schema: Schema): seq<string> {
    match schema
    case ChunkSchema => ["cidr", "cidr_name", "ports", "next_index", "scanned_count", "total_count", "status"]
    case PreScanSchema => ["enabled", "timeout_ms", "unreachable_ipv4_u32"]
    case OutputSchema => ["scan_path", "open_path"]
    case ExpansionSchema => ["candidate_count", "candidate_limit", "memory_limit_gb"]
  }

  /** The ASCII characters that the library's trimming removes. */
  predicate IsTrimmed(c: char) {
    IsSpace(c) || c as int == 11 || c as int == 12
  }

  function TrimLeft(s: string): string {
    if s != "" && IsTrimmed(s[0]) then TrimLeft(s[1..]) else s
  }

  function TrimRight(s: string): string {
    if s != "" && IsTrimmed(s[|s| - 1]) then TrimRight(s[..|s| - 1]) else s
  }

  function Trim(s: string): string {
    TrimRight(TrimLeft(s))
  }

  lemma TrimKeeps(s: string)
    requires s != "" && !IsTrimmed(s[0]) && !IsTrimmed(s[|s| - 1])
    ensures Trim(s) == s
  {
  }

  ghost predicate KnownFields(visits: seq<Visit>, schema: Schema) {
    visits == [] || (visits[0].name in Fields(schema) && KnownFields(visits[1..], schema))
  }

  lemma {:induction false} KnownFieldsMean(visits: seq<Visit>, schema: Schema)
    ensures KnownFields(visits, schema) <==> forall v <- visits :: v.name in Fields(schema)
  {
    if visits != [] {
      KnownFieldsMean(visits[1..], schema);
      assert visits == [visits[0]] + visits[1..];
    }
  }

  /** A section is null, or an object text whose every visited name is known. */
  ghost predicate ObjectOk(value: string, schema: Schema, unescape: string -> Option<string>) {
    Trim(value) == "null" || KnownFields(ObjectVisits(Trim(value), unescape), schema)
  }

  method FindUnknown(visits: seq<Visit>, schema: Schema) returns (unknown: Option<string>)
    ensures unknown.None? <==> KnownFields(visits, schema)
    ensures unknown.Some? ==> unknown.value !in Fields(schema)
  {
    for k := 0 to |visits|
      invariant KnownFields(visits, schema) <==> KnownFields(visits[k..], schema)
    {
      assert visits[k..][0] == visits[k] && visits[k..][1..] == visits[k + 1..];
      if visits[k].name !in Fields(schema) {
        return Some(visits[k].name);
      }
    }
    return None;
  }

  method ValidateSnapshotObject(value: string, schema: Schema, unescape: string -> Option<string>)
    returns (unknown: Option<string>)
    ensures unknown.None? <==> ObjectOk(value, schema, unescape)
    ensures unknown.Some? ==> unknown.value !in Fields(schema)
  {
    var data := Trim(value);
    if data == "null" {
      return None;
    }
    var visits := VisitJSONObject(data, unescape);
    unknown := FindUnknown(visits, schema);
  }

  // ----- the whole snapshot -----

  datatype Shape = Shape(preScanPresent: bool, chunksPresent: bool, chunkCount: nat)

  ghost predicate ChunksOk(items: seq<string>, unescape: string -> Option<string>) {
    items == [] || (ObjectOk(items[0], ChunkSchema, unescape) && ChunksOk(items[1..], unescape))
  }

  /** What a top-level name stands for. */
  datatype Field = Chunks | PreScan | Section(schema: Schema) | Plain | Unknown

  const TOP_FIELDS := [("chunks", Chunks), ("pre_scan_ping", PreScan), ("output", Section(OutputSchema)),
                       ("target_expansion", Section(ExpansionSchema)), ("rich_deny_excluded", Plain),
                       ("target_semantics_version", Plain), ("basic_port_fallback", Plain)]

  function Lookup(name: string, fields: seq<(string, Field)>): Field {
    if fields == [] then Unknown else if fields[0].0 == name then fields[0].1 else Lookup(name, fields[1..])
  }

  ghost predicate FieldOk(v: Visit, unescape: string -> Option<string>) {
    match Lookup(v.name, TOP_FIELDS)
    case Chunks => ChunksOk(ArrayVisits(v.value), unescape)
    case PreScan => ObjectOk(v.value, PreScanSchema, unescape)
    case Section(schema) => ObjectOk(v.value, schema, unescape)
    case Plain => true
    case Unknown => false
  }

  function Seen(shape: Shape, v: Visit): Shape {
    match Lookup(v.name, TOP_FIELDS)
    case Chunks => shape.(chunksPresent := true, chunkCount := |ArrayVisits(v.value)|)
    case PreScan => shape.(preScanPresent := true)
    case _ => shape
  }

  /** A repeated field counts as its last occurrence. */
  ghost function ShapeOf(visits: seq<Visit>): Shape {
    if visits == [] then Shape(false, false, 0) else Seen(ShapeOf(visits[..|visits| - 1]), visits[|visits| - 1])
  }

  method ValidateItems(items: seq<string>, unescape: string -> Option<string>) returns (unknown: Option<string>, count: nat)
    ensures unknown.None? <==> ChunksOk(items, unescape)
    ensures unknown.None? ==> count == |items|
  {
    count := 0;
    for k := 0 to |items|
      invariant count == k && (ChunksOk(items, unescape) <==> ChunksOk(items[k..], unescape))
    {
      assert items[k..][0] == items[k] && items[k..][1..] == items[k + 1..];
      count := count + 1;
      unknown := ValidateSnapshotObject(items[k], ChunkSchema, unescape);
      if unknown.Some? {
        return unknown, count;
      }
    }
    return None, count;
  }

  method ValidateChunks(value: string, unescape: string -> Option<string>) returns (unknown: Option<string>, count: nat)
    ensures unknown.None? <==> ChunksOk(ArrayVisits(value), unescape)
    ensures unknown.None? ==> count == |ArrayVisits(value)|
  {
    var items := VisitJSONArray(value);
    unknown, count := ValidateItems(items, unescape);
  }

  method ValidateField(v: Visit, shape: Shape, unescape: string -> Option<string>)
    returns (unknown: Option<string>, now: Shape)
    ensures unknown.None? <==> FieldOk(v, unescape)
    ensures unknown.None? ==> now == Seen(shape, v)
  {
    now, unknown := shape, None;
    match Lookup(v.name, TOP_FIELDS)
    case Chunks =>
      var count;
      unknown, count := ValidateChunks(v.value, unescape);
      now := now.(chunksPresent := true, chunkCount := count);
    case PreScan =>
      now := now.(preScanPresent := true);
      unknown := ValidateSnapshotObject(v.value, PreScanSchema, unescape);
    case Section(schema) =>
      unknown := ValidateSnapshotObject(v.value, schema, unescape);
    case Plain =>
    case Unknown =>
      unknown := Some(v.name);
  }

  ghost predicate FieldsOk(visits: seq<Visit>, unescape: string -> Option<string>) {
    visits == [] || (FieldOk(visits[0], unescape) && FieldsOk(visits[1..], unescape))
  }

  method ValidateFields(visits: seq<Visit>, unescape: string -> Option<string>) returns (shape: Shape, unknown: Option<string>)
    ensures unknown.None? <==> FieldsOk(visits, unescape)
    ensures unknown.None? ==> shape == ShapeOf(visits)
  {
    shape := Shape(false, false, 0);
    for k := 0 to |visits|
      invariant FieldsOk(visits, unescape) <==> FieldsOk(visits[k..], unescape)
      invariant shape == ShapeOf(visits[..k])
    {
      assert visits[k..][0] == visits[k] && visits[k..][1..] == visits[k + 1..];
      assert visits[..k + 1][..k] == visits[..k];
      unknown, shape := ValidateField(visits[k], shape, unescape);
      if unknown.Some? {
        return;
      }
    }
    assert visits[..|visits|] == visits;
    unknown := None;
  }

  /** Accepts exactly the texts whose visited fields are all known, and reports what they add up to. */
  method ValidateSnapshotSchema(data: string, unescape: string -> Option<string>)
    returns (shape: Shape, unknown: Option<string>)
    ensures unknown.None? <==> FieldsOk(ObjectVisits(data, unescape), unescape)
    ensures unknown.None? ==> shape == ShapeOf(ObjectVisits(data, unescape))
  {
    var visits := VisitJSONObject(data, unescape);
    shape, unknown := ValidateFields(visits, unescape);
  }
}
