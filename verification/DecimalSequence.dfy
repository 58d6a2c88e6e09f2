/** The summed widths of 0, 1, ..., count - 1, a power of ten at a time, in 64-bit arithmetic that wraps around. */
module DecimalSequence {
  import opened Integers
  import opened Decimal

  /** The last power of ten that fits 64 bits. */
  const LAST_BOUNDARY := 10_000_000_000_000_000_000

  /** The largest count whose sum fits 64 bits. */
  const EXACT_COUNT := 1_029_360_799_201_087_511

  function Wrap(n: int): (r: uint64)
    ensures r as int == n % TWO64
  {
    (n % TWO64) as uint64
  }

  // ----- powers of ten -----

  lemma PowersOfTen()
    ensures Pow10(1) == 10 && Pow10(17) == 100_000_000_000_000_000 && Pow10(19) == LAST_BOUNDARY
  {
    assert Pow10(8) == 100_000_000;
    assert Pow10(16) == 10_000_000_000_000_000;
  }

  lemma {:induction false} Pow10Grows(a: nat, b: nat)
    requires a < b
    ensures 10 * Pow10(a) <= Pow10(b)
    decreases b
  {
    if a + 1 < b {
      Pow10Grows(a, b - 1);
    }
  }

  // ----- the loop -----

  /** Where the loop stands: every number below `start` has fewer than `width` digits. */
  ghost predicate AtWidth(start: int, boundary: int, width: int, count: int) {
    && 1 <= width <= 20 && 0 <= start <= count
    && (start < count ==> boundary == Pow10(width) && start == (if width == 1 then 0 else Pow10(width - 1)))
  }

  lemma WidthBelow20(start: int, boundary: int, width: int, count: int)
    requires AtWidth(start, boundary, width, count) && start < count <= LAST_BOUNDARY
    ensures width <= 19 && boundary <= LAST_BOUNDARY && start <= boundary
  {
    PowersOfTen();
    if width > 1 {
      Pow10Grows(width - 1, width);
    }
    if width < 19 {
      Pow10Grows(width, 19);
    }
  }

  function End(count: int, boundary: int): int {
    if count < boundary then count else boundary
  }

  /** The boundary may wrap around only behind the last width. */
  lemma NextWidth(start: int, boundary: int, width: int, count: int)
    requires AtWidth(start, boundary, width, count) && start < count <= LAST_BOUNDARY
    ensures width <= 19 && AtWidth(End(count, boundary), (boundary * 10) % TWO64, width + 1, count)
  {
    WidthBelow20(start, boundary, width, count);
    PowersOfTen();
    if width < 18 {
      Pow10Grows(width + 1, 19);
    }
  }

  lemma ModuloSum(sum: int, share: int, total: int)
    requires total == sum % TWO64
    ensures (total + share) % TWO64 == (sum + share) % TWO64
  {
  }

  /** Adds the share of one width; every operation wraps around, and so does their result. */
  method AddShare(total: uint64, start: uint64, end: uint64, width: uint64) returns (more: uint64)
    ensures more as int == (total as int + (end as int - start as int) * width as int) % TWO64
  {
    more := Wrap(total as int + (end as int - start as int) * width as int);
  }

  lemma OneWidth(start: int, end: int, boundary: int, width: int, count: int)
    requires AtWidth(start, boundary, width, count) && start < count <= LAST_BOUNDARY && end == End(count, boundary)
    ensures 0 <= start <= end && SumWidths(end) == SumWidths(start) + (end - start) * width
  {
    WidthBelow20(start, boundary, width, count);
    SumWidthsBetween(start, end, width);
  }

  lemma WidthAdded(total: int, start: int, end: int, boundary: int, width: int, count: int, more: int)
    requires AtWidth(start, boundary, width, count) && start < count <= LAST_BOUNDARY && end == End(count, boundary)
    requires total == SumWidths(start) % TWO64 && more == (total + (end - start) * width) % TWO64
    ensures more == SumWidths(end) % TWO64
  {
    OneWidth(start, end, boundary, width, count);
    ModuloSum(SumWidths(start), (end - start) * width, total);
  }

  // ----- for which counts the loop ends -----

  /** The greatest power of ten modulo 2^64: 10^49. */
  const LAST_ENDING := 17_909_126_868_192_198_656

  /** The boundary after `k` rounds, wrapping around. */
  function Boundary(k: nat): (b: nat)
    ensures b < TWO64
  {
    if k == 0 then 10 else Boundary(k - 1) * 10 % TWO64
  }

  /** From 10^64 on, every power of ten is zero modulo 2^64. */
  lemma {:induction false} ZeroFrom(k: nat, end: nat)
    requires end == 63 <= k
    ensures Boundary(k) == 0
  {
    if k == end {
      KnownBoundaries(0, 48, end);
    } else {
      ZeroFrom(k - 1, end);
    }
  }

  /** One round: ten times the boundary, less as many times 2^64 as fit. */
  lemma Round(k: nat, b: int, times: int, next: int)
    requires Boundary(k) == b && b * 10 == times * TWO64 + next && 0 <= next <= LAST_ENDING
    ensures Boundary(k + 1) == next <= LAST_ENDING
  {
    assert next < TWO64;
  }

  ghost predicate AtMostUpTo(k: nat, n: nat) {
    forall j :: k <= j <= k + n ==> Boundary(j) <= LAST_ENDING
  }

  lemma From0(k: nat)
    requires Boundary(k) == 10
    ensures Boundary(k + 8) == 1_000_000_000 && AtMostUpTo(k, 8)
  {
    Round(k, 10, 0, 100);
    Round(k + 1, 100, 0, 1_000);
    Round(k + 2, 1_000, 0, 10_000);
    Round(k + 3, 10_000, 0, 100_000);
    Round(k + 4, 100_000, 0, 1_000_000);
    Round(k + 5, 1_000_000, 0, 10_000_000);
    Round(k + 6, 10_000_000, 0, 100_000_000);
    Round(k + 7, 100_000_000, 0, 1_000_000_000);
  }

  lemma From8(k: nat)
    requires Boundary(k) == 1_000_000_000
    ensures Boundary(k + 8) == 100_000_000_000_000_000 && AtMostUpTo(k, 8)
  {
    Round(k, 1_000_000_000, 0, 10_000_000_000);
    Round(k + 1, 10_000_000_000, 0, 100_000_000_000);
    Round(k + 2, 100_000_000_000, 0, 1_000_000_000_000);
    Round(k + 3, 1_000_000_000_000, 0, 10_000_000_000_000);
    Round(k + 4, 10_000_000_000_000, 0, 100_000_000_000_000);
    Round(k + 5, 100_000_000_000_000, 0, 1_000_000_000_000_000);
    Round(k + 6, 1_000_000_000_000_000, 0, 10_000_000_000_000_000);
    Round(k + 7, 10_000_000_000_000_000, 0, 100_000_000_000_000_000);
  }

  lemma From16(k: nat)
    requires Boundary(k) == 100_000_000_000_000_000
    ensures Boundary(k + 8) == 1_590_897_978_359_414_784 && AtMostUpTo(k, 8)
  {
    Round(k, 100_000_000_000_000_000, 0, 1_000_000_000_000_000_000);
    Round(k + 1, 1_000_000_000_000_000_000, 0, 10_000_000_000_000_000_000);
    Round(k + 2, 10_000_000_000_000_000_000, 5, 7_766_279_631_452_241_920);
    Round(k + 3, 7_766_279_631_452_241_920, 4, 3_875_820_019_684_212_736);
    Round(k + 4, 3_875_820_019_684_212_736, 2, 1_864_712_049_423_024_128);
    Round(k + 5, 1_864_712_049_423_024_128, 1, 200_376_420_520_689_664);
    Round(k + 6, 200_376_420_520_689_664, 0, 2_003_764_205_206_896_640);
    Round(k + 7, 2_003_764_205_206_896_640, 1, 1_590_897_978_359_414_784);
  }

  lemma From24(k: nat)
    requires Boundary(k) == 1_590_897_978_359_414_784
    ensures Boundary(k + 8) == 4_089_650_035_136_921_600 && AtMostUpTo(k, 8)
  {
    Round(k, 1_590_897_978_359_414_784, 0, 15_908_979_783_594_147_840);
    Round(k + 1, 15_908_979_783_594_147_840, 8, 11_515_845_246_265_065_472);
    Round(k + 2, 11_515_845_246_265_065_472, 6, 4_477_988_020_393_345_024);
    Round(k + 3, 4_477_988_020_393_345_024, 2, 7_886_392_056_514_347_008);
    Round(k + 4, 7_886_392_056_514_347_008, 4, 5_076_944_270_305_263_616);
    Round(k + 5, 5_076_944_270_305_263_616, 2, 13_875_954_555_633_532_928);
    Round(k + 6, 13_875_954_555_633_532_928, 7, 9_632_337_040_368_467_968);
    Round(k + 7, 9_632_337_040_368_467_968, 5, 4_089_650_035_136_921_600);
  }

  lemma From32(k: nat)
    requires Boundary(k) == 4_089_650_035_136_921_600
    ensures Boundary(k + 8) == 4_870_020_673_419_870_208 && AtMostUpTo(k, 8)
  {
    Round(k, 4_089_650_035_136_921_600, 2, 4_003_012_203_950_112_768);
    Round(k + 1, 4_003_012_203_950_112_768, 2, 3_136_633_892_082_024_448);
    Round(k + 2, 3_136_633_892_082_024_448, 1, 12_919_594_847_110_692_864);
    Round(k + 3, 12_919_594_847_110_692_864, 7, 68_739_955_140_067_328);
    Round(k + 4, 68_739_955_140_067_328, 0, 687_399_551_400_673_280);
    Round(k + 5, 687_399_551_400_673_280, 0, 6_873_995_514_006_732_800);
    Round(k + 6, 6_873_995_514_006_732_800, 3, 13_399_722_918_938_673_152);
    Round(k + 7, 13_399_722_918_938_673_152, 7, 4_870_020_673_419_870_208);
  }

  lemma From40(k: nat)
    requires Boundary(k) == 4_870_020_673_419_870_208
    ensures Boundary(k + 8) == 17_909_126_868_192_198_656 && AtMostUpTo(k, 8)
  {
    Round(k, 4_870_020_673_419_870_208, 2, 11_806_718_586_779_598_848);
    Round(k + 1, 11_806_718_586_779_598_848, 6, 7_386_721_425_538_678_784);
    Round(k + 2, 7_386_721_425_538_678_784, 4, 80_237_960_548_581_376);
    Round(k + 3, 80_237_960_548_581_376, 0, 802_379_605_485_813_760);
    Round(k + 4, 802_379_605_485_813_760, 0, 8_023_796_054_858_137_600);
    Round(k + 5, 8_023_796_054_858_137_600, 4, 6_450_984_253_743_169_536);
    Round(k + 6, 6_450_984_253_743_169_536, 3, 9_169_610_316_303_040_512);
    Round(k + 7, 9_169_610_316_303_040_512, 4, 17_909_126_868_192_198_656);
  }

  lemma From48(k: nat)
    requires Boundary(k) == 17_909_126_868_192_198_656
    ensures Boundary(k + 8) == 5_332_261_958_806_667_264 && AtMostUpTo(k, 8)
  {
    Round(k, 17_909_126_868_192_198_656, 9, 13_070_572_018_536_022_016);
    Round(k + 1, 13_070_572_018_536_022_016, 7, 1_578_511_669_393_358_848);
    Round(k + 2, 1_578_511_669_393_358_848, 0, 15_785_116_693_933_588_480);
    Round(k + 3, 15_785_116_693_933_588_480, 8, 10_277_214_349_659_471_872);
    Round(k + 4, 10_277_214_349_659_471_872, 5, 10_538_423_128_046_960_640);
    Round(k + 5, 10_538_423_128_046_960_640, 5, 13_150_510_911_921_848_320);
    Round(k + 6, 13_150_510_911_921_848_320, 7, 2_377_900_603_251_621_888);
    Round(k + 7, 2_377_900_603_251_621_888, 1, 5_332_261_958_806_667_264);
  }

  lemma From56(k: nat)
    requires Boundary(k) == 5_332_261_958_806_667_264
    ensures Boundary(k + 7) == 0 && AtMostUpTo(k, 7)
  {
    Round(k, 5_332_261_958_806_667_264, 2, 16_429_131_440_647_569_408);
    Round(k + 1, 16_429_131_440_647_569_408, 8, 16_717_361_816_799_281_152);
    Round(k + 2, 16_717_361_816_799_281_152, 9, 1_152_921_504_606_846_976);
    Round(k + 3, 1_152_921_504_606_846_976, 0, 11_529_215_046_068_469_760);
    Round(k + 4, 11_529_215_046_068_469_760, 6, 4_611_686_018_427_387_904);
    Round(k + 5, 4_611_686_018_427_387_904, 2, 9_223_372_036_854_775_808);
    Round(k + 6, 9_223_372_036_854_775_808, 5, 0);
  }

  lemma KnownBoundaries(start: nat, last: nat, end: nat)
    requires start == 0 && last == 48 && end == 63
    ensures Boundary(last) == LAST_ENDING && Boundary(end) == 0 && AtMostUpTo(start, end)
  {
    From0(start);
    From8(start + 8);
    From16(start + 16);
    From24(start + 24);
    From32(start + 32);
    From40(start + 40);
    From48(start + 48);
    From56(start + 56);
  }

  lemma BoundaryAtMost(k: nat, end: nat)
    requires end == 63
    ensures Boundary(k) <= LAST_ENDING
  {
    KnownBoundaries(0, 48, end);
    if k > end {
      ZeroFrom(k, end);
    }
  }

  /** Where the loop stands after `k` rounds. */
  function StartAfter(count: nat, k: nat): nat {
    if k == 0 then 0 else End(count, Boundary(k - 1))
  }

  ghost predicate LoopEnds(count: nat) {
    exists k: nat :: StartAfter(count, k) >= count
  }

  lemma EndsAt(count: nat, last: nat)
    requires last == 48 && count <= LAST_ENDING
    ensures StartAfter(count, last + 1) == count
  {
    KnownBoundaries(0, last, 63);
  }

  /** The loop ends exactly for the counts that some wrapped power of ten reaches. */
  lemma EndsExactly(count: nat)
    ensures LoopEnds(count) <==> count <= LAST_ENDING
  {
    if count <= LAST_ENDING {
      EndsAt(count, 48);
    }
    if k: nat :| StartAfter(count, k) >= count {
      if k > 0 {
        BoundaryAtMost(k - 1, 63);
      }
    }
  }

  // ----- the sum -----

  /** What holds of the sum until the boundary wraps around. */
  ghost predicate SumSoFar(total: int, start: int, boundary: int, width: int, count: int) {
    count <= LAST_BOUNDARY ==> AtWidth(start, boundary, width, count) && total == SumWidths(start) % TWO64
  }

  method AddWidth(total: uint64, start: uint64, end: uint64, boundary: uint64, width: uint64, ghost count: int)
    returns (more: uint64)
    requires SumSoFar(total as int, start as int, boundary as int, width as int, count) && start as int < count
    requires end as int == End(count, boundary as int)
    ensures SumSoFar(more as int, end as int, boundary as int * 10 % TWO64, width as int + 1, count)
  {
    more := AddShare(total, start, end, width);
    if count <= LAST_BOUNDARY {
      WidthAdded(total as int, start as int, end as int, boundary as int, width as int, count, more as int);
      NextWidth(start as int, boundary as int, width as int, count);
    }
  }

  lemma StillRunning(count: nat, k: nat, last: nat)
    requires count <= LAST_ENDING && StartAfter(count, k) < count && k <= last + 1 && last == 48
    ensures k <= last
  {
    EndsAt(count, last);
  }

  /**
   For every count for which the loop ends at all: the sum modulo 2^64 while the boundary does not
   wrap around, and the true sum if and only if that fits 64 bits.
   */
  method DecimalSequenceBytes(count: uint64) returns (total: uint64)
    requires LoopEnds(count as int)
    ensures count as int <= LAST_BOUNDARY ==> total as int == SumWidths(count as int) % TWO64
    ensures total as int == SumWidths(count as int) <==> count as int <= EXACT_COUNT
  {
    EndsExactly(count as int);
    total := 0;
    var start: uint64, boundary: uint64, width: uint64 := 0, 10, 1;
    ghost var k := 0;
    while start < count
      invariant k <= 49 && width as int == k + 1 && boundary as int == Boundary(k) && start as int == StartAfter(count as int, k)
      invariant SumSoFar(total as int, start as int, boundary as int, width as int, count as int)
      decreases 49 - k
    {
      StillRunning(count as int, k, 48);
      var end := if count < boundary then count else boundary;
      total := AddWidth(total, start, end, boundary, width, count as int);
      start := end;
      boundary := Wrap(boundary as int * 10);
      width := width + 1;
      k := k + 1;
    }
    TrueSum(count as int, start as int, total as int);
  }

  // ----- where the sum stops fitting -----

  ghost function SumAtPower(k: nat): nat
    requires k >= 1
  {
    if k == 1 then 10 else SumAtPower(k - 1) + 9 * Pow10(k - 1) * k
  }

  lemma WidthBlock(power: int, width: int)
    ensures (10 * power - power) * width == 9 * power * width
  {
  }

  /** One more width, in closed form. */
  lemma {:induction false} SumAtPowerIsSum(k: nat)
    requires k >= 1
    ensures SumWidths(Pow10(k)) == SumAtPower(k)
  {
    if k == 1 {
      PowersOfTen();
      SumWidthsBetween(0, Pow10(1), 1);
    } else {
      SumAtPowerIsSum(k - 1);
      SumWidthsBetween(Pow10(k - 1), Pow10(k), k);
      WidthBlock(Pow10(k - 1), k);
    }
  }

  lemma SumAtPower18()
    ensures Pow10(18) == 1_000_000_000_000_000_000 && SumAtPower(18) == 17_888_888_888_888_888_890
  {
    assert Pow10(6) == 1_000_000 && Pow10(12) == 1_000_000_000_000;
    assert SumAtPower(6) == 5_888_890;
    assert SumAtPower(12) == 11_888_888_888_890;
  }

  lemma SumFrom(count: nat, k: nat)
    requires k >= 1 && Pow10(k) <= count <= Pow10(k + 1)
    ensures SumWidths(count) == SumAtPower(k) + (count - Pow10(k)) * (k + 1)
  {
    SumAtPowerIsSum(k);
    SumWidthsBetween(Pow10(k), count, k + 1);
  }

  lemma SumUpTo(count: nat, k: nat)
    requires k >= 1 && count <= Pow10(k)
    ensures SumWidths(count) <= SumAtPower(k)
  {
    SumAtPowerIsSum(k);
    SumWidthsGrow(count, Pow10(k));
  }

  lemma AtPower(k: nat)
    requires k == 18
    ensures Pow10(k) == 1_000_000_000_000_000_000 && Pow10(k + 1) == LAST_BOUNDARY
    ensures SumAtPower(k) == 17_888_888_888_888_888_890
  {
    SumAtPower18();
    PowersOfTen();
  }

  lemma ExactAt(count: int, power: int, sum: int, width: int, widths: int)
    requires power == 1_000_000_000_000_000_000 && sum == 17_888_888_888_888_888_890 && width == 19
    requires count <= power ==> widths <= sum
    requires power <= count ==> widths == sum + (count - power) * width
    ensures widths < TWO64 <==> count <= EXACT_COUNT
  {
  }

  /** 19 digits: the last width that matters. */
  lemma ExactFrom(count: nat, k: nat)
    requires count <= LAST_BOUNDARY && k == 18
    ensures SumWidths(count) < TWO64 <==> count <= EXACT_COUNT
  {
    AtPower(k);
    if count <= Pow10(k) {
      SumUpTo(count, k);
    }
    if Pow10(k) <= count {
      SumFrom(count, k);
    }
    ExactAt(count, Pow10(k), SumAtPower(k), k + 1, SumWidths(count));
  }

  lemma Fits(sum: nat, total: int)
    requires total == sum % TWO64
    ensures total == sum <==> sum < TWO64
  {
  }

  lemma BeyondLast(count: nat, last: nat)
    requires last == LAST_BOUNDARY < count
    ensures SumWidths(count) >= TWO64
  {
    ExactFrom(last, 18);
    SumWidthsGrow(last, count);
  }

  /** Above that count no 64-bit total is right, however the loop arrives at it. */
  lemma NoTotalIsRight(count: nat)
    ensures SumWidths(count) <= MAX64 <==> count <= EXACT_COUNT
  {
    if count <= LAST_BOUNDARY {
      ExactFrom(count, 18);
    } else {
      BeyondLast(count, LAST_BOUNDARY);
    }
  }

  lemma TrueSum(count: nat, start: int, total: int)
    requires start >= count && 0 <= total <= MAX64
    requires count <= LAST_BOUNDARY ==> start <= count && total == SumWidths(start) % TWO64
    ensures count <= LAST_BOUNDARY ==> total == SumWidths(count) % TWO64
    ensures total == SumWidths(count) <==> count <= EXACT_COUNT
  {
    NoTotalIsRight(count);
    if count <= LAST_BOUNDARY {
      Fits(SumWidths(count), total);
    }
  }
}
