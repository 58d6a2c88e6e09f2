/** The mixed snapshot fixture: its exact size without writing it, and the least one that is large enough. */
module MixedSnapshot {
  import opened Integers
  import opened Wrappers
  import opened Decimal
  import opened DecimalSequence

  const APPROVED_CHUNKS := 4_000
  const APPROVED_UNREACHABLE := 42_587
  const MAX_UNREACHABLE := 0x1_0000_0000
  const MAX_CHUNKS := MAX_UNREACHABLE * APPROVED_CHUNKS / APPROVED_UNREACHABLE

  const CHUNK_PREFIX := "{\"cidr\":\"127.0.0.1/32\",\"cidr_name\":\"mixed-"
  const CHUNK_SUFFIX := "\",\"ports\":[\"80/tcp\",\"443/tcp\"],\"next_index\":0,\"scanned_count\":0,\"total_count\":2,\"status\":\"pending\"}"
  const SNAPSHOT_PREFIX := "{\"chunks\":["
  const UNREACHABLE_PREFIX := "],\"pre_scan_ping\":{\"enabled\":true,\"timeout_ms\":0,\"unreachable_ipv4_u32\":["
  const SNAPSHOT_SUFFIX := "]}}\n"

  const CHUNK_FIXED := 42 + 99
  const FIXED := 11 + 73 + 4

  lemma FixedLengths()
    ensures |CHUNK_PREFIX| + |CHUNK_SUFFIX| == CHUNK_FIXED
    ensures |SNAPSHOT_PREFIX| + |UNREACHABLE_PREFIX| + |SNAPSHOT_SUFFIX| == FIXED
  {
  }

  // ----- the bytes of the fixture -----

  /** 42,587 unreachable addresses for every 4,000 chunks, rounded up. */
  function Unreachable(chunks: nat): nat {
    (chunks * APPROVED_UNREACHABLE + APPROVED_CHUNKS - 1) / APPROVED_CHUNKS
  }

  function Element(index: nat): string {
    CHUNK_PREFIX + Digits(index) + CHUNK_SUFFIX
  }

  ghost function ChunkList(count: nat): string {
    if count == 0 then "" else ChunkList(count - 1) + (if count > 1 then "," else "") + Element(count - 1)
  }

  ghost function NumberList(count: nat): string {
    if count == 0 then "" else NumberList(count - 1) + (if count > 1 then "," else "") + Digits(count - 1)
  }

  ghost function FixtureText(chunks: nat, unreachable: nat): string {
    SNAPSHOT_PREFIX + ChunkList(chunks) + UNREACHABLE_PREFIX + NumberList(unreachable) + SNAPSHOT_SUFFIX
  }

  ghost function TrueSize(chunks: nat): nat {
    |FixtureText(chunks, Unreachable(chunks))|
  }

  lemma {:induction false} ChunkListSize(count: nat)
    ensures |ChunkList(count)| == count * CHUNK_FIXED + SumWidths(count) + if count > 0 then count - 1 else 0
  {
    FixedLengths();
    if count > 0 {
      ChunkListSize(count - 1);
    }
  }

  lemma {:induction false} NumberListSize(count: nat)
    ensures |NumberList(count)| == SumWidths(count) + if count > 0 then count - 1 else 0
  {
    if count > 0 {
      NumberListSize(count - 1);
    }
  }

  lemma SizeFormula(chunks: nat)
    requires chunks > 0
    ensures Unreachable(chunks) > 0
    ensures TrueSize(chunks) == FIXED - 1 + chunks * (CHUNK_FIXED + 1) + SumWidths(chunks)
                                + SumWidths(Unreachable(chunks)) + Unreachable(chunks) - 1
  {
    FixedLengths();
    ChunkListSize(chunks);
    NumberListSize(Unreachable(chunks));
  }

  /** One more chunk makes the fixture longer. */
  lemma SizeGrows(chunks: nat)
    requires chunks > 0
    ensures TrueSize(chunks) < TrueSize(chunks + 1)
  {
    SizeFormula(chunks);
    SizeFormula(chunks + 1);
    SumWidthsGrow(chunks, chunks + 1);
    SumWidthsGrow(Unreachable(chunks), Unreachable(chunks + 1));
  }

  lemma {:induction false} SizeMonotone(a: nat, b: nat)
    requires 0 < a <= b
    ensures TrueSize(a) <= TrueSize(b) && (a < b ==> TrueSize(a) < TrueSize(b))
    decreases b
  {
    if a < b {
      SizeMonotone(a, b - 1);
      SizeGrows(b - 1);
    }
  }

  // ----- checked arithmetic -----

  function CheckedAdd(left: Option<uint64>, right: Option<uint64>): (r: Option<uint64>)
    ensures r.Some? <==> left.Some? && right.Some? && left.value as int + right.value as int <= MAX64
    ensures r.Some? ==> r.value as int == left.value as int + right.value as int
  {
    if left.None? || right.None? || left.value > 0xFFFF_FFFF_FFFF_FFFF - right.value then None
    else Some(left.value + right.value)
  }

  function CheckedMultiply(left: uint64, right: uint64): (r: Option<uint64>)
    ensures r.Some? <==> left as int * right as int <= MAX64
    ensures r.Some? ==> r.value as int == left as int * right as int
  {
    if left != 0 && right > 0xFFFF_FFFF_FFFF_FFFF / left then
      TooLarge(left, right);
      None
    else
      NotTooLarge(left, right);
      Some(left * right)
  }

  lemma TooLarge(left: uint64, right: uint64)
    requires left != 0 && right > 0xFFFF_FFFF_FFFF_FFFF / left
    ensures left as int * right as int > MAX64
  {
    var q := MAX64 / left as int;
    assert MAX64 < (q + 1) * left as int;
    assert (q + 1) * left as int <= right as int * left as int;
  }

  lemma NotTooLarge(left: uint64, right: uint64)
    requires left == 0 || right <= 0xFFFF_FFFF_FFFF_FFFF / left
    ensures left as int * right as int <= MAX64
  {
    if left != 0 {
      var q := MAX64 / left as int;
      assert q * left as int <= MAX64;
      assert right as int * left as int <= q * left as int;
    }
  }

  // ----- the size and the search -----

  const SIZE_LIMIT := (MAX64 - APPROVED_CHUNKS + 1) / APPROVED_UNREACHABLE

  lemma UnreachableBound(chunks: nat)
    requires chunks <= SIZE_LIMIT
    ensures chunks * APPROVED_UNREACHABLE + APPROVED_CHUNKS - 1 <= MAX64
    ensures chunks <= 500_000_000_000_000 && Unreachable(chunks) <= 5_000_000_000_000_000
  {
  }

  function UnreachableCount(chunks: uint64): (r: uint64)
    requires chunks as int <= SIZE_LIMIT
    ensures r as int == Unreachable(chunks as int) <= 5_000_000_000_000_000
  {
    UnreachableBound(chunks as int);
    (chunks * 42_587 + 4_000 - 1) / 4_000
  }

  /** The parts of the size formula are far from the 64-bit limit. */
  lemma SizeFits(chunks: nat)
    requires 1 <= chunks <= SIZE_LIMIT
    ensures chunks <= 500_000_000_000_000 && chunks * (CHUNK_FIXED + 1) <= 71_000_000_000_000_000
    ensures Unreachable(chunks) <= EXACT_COUNT && LoopEnds(chunks) && LoopEnds(Unreachable(chunks))
    ensures SumWidths(chunks) <= 17 * chunks && SumWidths(Unreachable(chunks)) <= 17 * Unreachable(chunks)
  {
    UnreachableBound(chunks);
    PowersOfTen();
    EndsExactly(chunks);
    EndsExactly(Unreachable(chunks));
    SumWidthsAtMost(chunks, 17);
    SumWidthsAtMost(Unreachable(chunks), 17);
  }

  /** The five parts added up with overflow checks that never fire. */
  function AddUp(chunkBytes: Option<uint64>, unreachable: uint64, unreachableWidths: uint64, chunkWidths: uint64): Option<uint64>
    requires unreachable > 0
  {
    var unreachableBytes := CheckedAdd(Some(unreachableWidths), Some(unreachable - 1));
    CheckedAdd(CheckedAdd(CheckedAdd(Some((FIXED - 1) as uint64), chunkBytes), Some(chunkWidths)), unreachableBytes)
  }

  /** Exact and representable for every count that passes the guard; refused for all others. */
  method MixedSnapshotSize(chunks: uint64) returns (r: Option<(uint64, uint64)>)
    ensures r.Some? <==> 1 <= chunks as int <= SIZE_LIMIT
    ensures r.Some? ==> r.value.0 as int == TrueSize(chunks as int) && r.value.1 as int == Unreachable(chunks as int)
  {
    if chunks == 0 || chunks as int > SIZE_LIMIT {
      return None;
    }
    SizeFits(chunks as int);
    SizeFormula(chunks as int);
    var unreachable := UnreachableCount(chunks);
    var chunkBytes := CheckedMultiply(chunks, (CHUNK_FIXED + 1) as uint64);
    var unreachableWidths := DecimalSequenceBytes(unreachable);
    var chunkWidths := DecimalSequenceBytes(chunks);
    var size := AddUp(chunkBytes, unreachable, unreachableWidths, chunkWidths);
    return if size.Some? then Some((size.value, unreachable)) else None;
  }

  datatype FixtureError = TargetTooLarge

  lemma SearchedRange()
    ensures 1 <= MAX_CHUNKS <= SIZE_LIMIT && Unreachable(MAX_CHUNKS) <= MAX_UNREACHABLE
  {
  }

  lemma UnreachableGrows(a: nat, b: nat)
    requires a <= b
    ensures Unreachable(a) <= Unreachable(b)
  {
  }

  ghost predicate AllTooSmall(below: int, target: int) {
    forall m: nat :: 1 <= m < below ==> TrueSize(m) < target
  }

  lemma StillTooSmall(middle: nat, target: int)
    requires 1 <= middle && TrueSize(middle) < target
    ensures AllTooSmall(middle + 1, target)
  {
    forall m: nat | 1 <= m < middle + 1 ensures TrueSize(m) < target {
      SizeMonotone(m, middle);
    }
  }

  method SearchLeast(target: uint64) returns (low: uint64)
    requires TrueSize(MAX_CHUNKS) >= target as int
    ensures 1 <= low as int <= MAX_CHUNKS && TrueSize(low as int) >= target as int && AllTooSmall(low as int, target as int)
  {
    SearchedRange();
    low := 1;
    var high := MAX_CHUNKS as uint64;
    while low < high
      invariant 1 <= low <= high && high as int <= MAX_CHUNKS
      invariant TrueSize(high as int) >= target as int && AllTooSmall(low as int, target as int)
    {
      var middle := low + (high - low) / 2;
      var size := MixedSnapshotSize(middle);
      if size.Some? && size.value.0 >= target {
        high := middle;
      } else {
        StillTooSmall(middle as int, target as int);
        low := middle + 1;
      }
    }
  }

  /** The least number of chunks whose fixture reaches the target, if any in the searched range does. */
  method MixedSnapshotCounts(target: uint64) returns (r: Outcome<(uint64, uint64), FixtureError>)
    ensures r.Success? <==> target as int <= TrueSize(MAX_CHUNKS)
    ensures r.Success? ==>
              && 1 <= r.value.0 as int <= MAX_CHUNKS && r.value.1 as int == Unreachable(r.value.0 as int) <= MAX_UNREACHABLE
              && TrueSize(r.value.0 as int) >= target as int && AllTooSmall(r.value.0 as int, target as int)
  {
    SearchedRange();
    var sizeAtMax := MixedSnapshotSize(MAX_CHUNKS as uint64);
    if sizeAtMax.None? || sizeAtMax.value.0 < target {
      return Failure(TargetTooLarge);
    }
    var low := SearchLeast(target);
    UnreachableGrows(low as int, MAX_CHUNKS);
    var final := MixedSnapshotSize(low);
    return if final.Some? then Success((low, final.value.1)) else Failure(TargetTooLarge);
  }

  // ----- writing -----

  /** Writes the fixture; what is written is as long as the size that was searched for. */
  method WriteMixedSnapshot(target: uint64) returns (r: Outcome<string, FixtureError>, ghost chunks: nat)
    ensures r.Success? <==> target as int <= TrueSize(MAX_CHUNKS)
    ensures r.Success? ==> 1 <= chunks <= MAX_CHUNKS && r.value == FixtureText(chunks, Unreachable(chunks))
    ensures r.Success? ==> |r.value| == TrueSize(chunks) >= target as int
    ensures r.Success? ==> AllTooSmall(chunks, target as int)
  {
    chunks := 0;
    var counts := MixedSnapshotCounts(target);
    if counts.Failure? {
      return Failure(counts.error), chunks;
    }
    chunks := counts.value.0 as int;
    var text := WriteFixture(counts.value.0, counts.value.1);
    return Success(text), chunks;
  }

  method WriteFixture(chunks: uint64, unreachable: uint64) returns (buffer: string)
    requires unreachable as int <= MAX_UNREACHABLE
    ensures buffer == FixtureText(chunks as int, unreachable as int)
  {
    var list := WriteChunks(chunks);
    var numbers := WriteNumbers(unreachable);
    buffer := SNAPSHOT_PREFIX + list + UNREACHABLE_PREFIX + numbers + SNAPSHOT_SUFFIX;
  }

  method WriteChunks(count: uint64) returns (buffer: string)
    ensures buffer == ChunkList(count as int)
  {
    buffer := "";
    var index: uint64 := 0;
    while index < count
      invariant index <= count && buffer == ChunkList(index as int)
    {
      buffer := buffer + (if index > 0 then "," else "") + Element(index as int);
      index := index + 1;
    }
  }

  function Low32(n: nat): (r: nat)
    ensures n < MAX_UNREACHABLE ==> r == n
  {
    n % MAX_UNREACHABLE
  }

  /** Addresses are cut to 32 bits, which changes none in the searched range. */
  method WriteNumbers(count: uint64) returns (buffer: string)
    requires count as int <= MAX_UNREACHABLE
    ensures buffer == NumberList(count as int)
  {
    buffer := "";
    var index: uint64 := 0;
    while index < count
      invariant index <= count && buffer == NumberList(index as int)
    {
      buffer := buffer + (if index > 0 then "," else "") + Digits(Low32(index as int));
      index := index + 1;
    }
  }
}
