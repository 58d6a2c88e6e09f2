/**
 A fixture with an exact number of scannable addresses: one aligned block for every bit of the
 count, and single addresses that make up for the broadcast address each block loses.
 */
module CompactBlocks {
  import opened Integers
  import opened Wrappers
  import opened Sorting
  import opened Networks

  const BASE := 0x0A00_0000
  const CAPACITY := 0x100_0000

  /** A block as it is printed; its prefix is whatever 32 minus the bit gives. */
  datatype Block = Block(start: int, prefix: int)

  datatype FixtureError = TooMany(items: nat)

  // ----- usable addresses -----

  ghost predicate GoodBlock(b: Block) {
    0 <= b.prefix <= 32 && IsNetwork(NetworkOf(b)) && BASE <= b.start && Last(NetworkOf(b)) < BASE + CAPACITY
  }

  function NetworkOf(b: Block): Network {
    Network(b.start, if b.prefix >= 0 then b.prefix else 0)
  }

  /** What the resolver keeps of a row whose selector and boundary are the block. */
  ghost function Usable(b: Block): nat
    requires GoodBlock(b)
  {
    |WithoutBroadcast(Addresses(NetworkOf(b)), NetworkOf(b))|
  }

  ghost function TotalUsable(blocks: seq<Block>): nat
    requires forall b <- blocks :: GoodBlock(b)
  {
    if blocks == [] then 0 else TotalUsable(blocks[..|blocks| - 1]) + Usable(blocks[|blocks| - 1])
  }

  lemma {:induction false} KeptBelow(n: Network, k: nat)
    requires k < Size(n)
    ensures |WithoutBroadcast(Addresses(n)[..k], n)| == k
  {
    if k > 0 {
      KeptBelow(n, k - 1);
      assert Addresses(n)[..k][..k - 1] == Addresses(n)[..k - 1];
      assert Addresses(n)[..k][k - 1] == n.start + k - 1;
    }
  }

  /** Exactly the broadcast address is lost, and only by a block of four addresses or more. */
  lemma UsableSize(b: Block)
    requires GoodBlock(b)
    ensures Usable(b) == Size(NetworkOf(b)) - if b.prefix < 31 then 1 else 0
  {
    var n := NetworkOf(b);
    if b.prefix >= 31 {
      NothingToFilter(Addresses(n), n);
    } else {
      KeptBelow(n, Size(n) - 1);
      assert Addresses(n)[Size(n) - 1] == Last(n);
    }
  }

  // ----- bits -----

  predicate Bit(items: nat, bit: nat) {
    (items / Pow2(bit)) % 2 == 1
  }

  lemma Divided(x: nat, d: nat)
    requires d > 0
    ensures x == (x / d) * d + x % d && x % d < d
  {
  }

  /** Dividing with a quotient and a remainder has one answer. */
  lemma DivisionUnique(x: nat, d: nat, k: nat, r: nat)
    requires d > 0 && x == k * d + r && r < d
    ensures x / d == k && x % d == r
  {
    Divided(x, d);
    NextMultiple(x / d, k, d);
    NextMultiple(k, x / d, d);
  }

  lemma SplitLow(x: nat, p: nat)
    requires p > 0
    ensures x % (2 * p) == (if (x / p) % 2 == 1 then p else 0) + x % p
  {
    var q, r := x / p, x % p;
    Divided(x, p);
    var k, t := q / 2, q % 2;
    Doubled(k, t, p);
    DivisionUnique(x, 2 * p, k, t * p + r);
  }

  lemma Doubled(k: nat, t: nat, p: nat)
    requires t < 2
    ensures (2 * k + t) * p == k * (2 * p) + t * p && t * p == if t == 1 then p else 0
  {
  }

  lemma WithoutRemainder(x: nat, d: nat)
    requires d > 0
    ensures x % d <= x && (x - x % d) % d == 0
  {
    Divided(x, d);
    DivisionUnique(x - x % d, d, x / d, 0);
  }

  lemma EvenMultiple(y: nat, p: nat)
    requires p > 0 && y % (2 * p) == 0
    ensures y % p == 0
  {
    var k := y / (2 * p);
    Divided(y, 2 * p);
    Doubled(k, 0, p);
    DivisionUnique(y, p, 2 * k, 0);
  }

  lemma ScaledMultiple(n: nat, x: nat, y: nat)
    requires y > 0
    ensures (n * (x * y)) % y == 0
  {
    assert n * (x * y) == (n * x) * y;
    DivisionUnique(n * (x * y), y, n * x, 0);
  }

  /** The low `bit + 1` bits are the bit itself and the bits below it. */
  lemma BitSplit(items: nat, bit: nat)
    ensures items % Pow2(bit + 1) == (if Bit(items, bit) then Pow2(bit) else 0) + items % Pow2(bit)
  {
    SplitLow(items, Pow2(bit));
  }

  lemma SmallRemainder(items: nat, bit: nat)
    requires items < Pow2(bit)
    ensures items % Pow2(bit) == items
  {
    DivisionUnique(items, Pow2(bit), 0, items);
  }

  lemma {:induction false} PowGrows(a: nat, b: nat)
    requires a <= b
    ensures Pow2(a) <= Pow2(b)
    decreases b - a
  {
    if a < b {
      PowGrows(a, b - 1);
    }
  }

  lemma PowConstants()
    ensures Pow2(24) == CAPACITY && Pow2(63) == 0x8000_0000_0000_0000 && Pow2(64) == TWO64
  {
    assert Pow2(8) == 256;
    Pow2Adds(8, 8);
    Pow2Adds(16, 8);
    Pow2Adds(24, 24);
    Pow2Adds(48, 8);
    Pow2Adds(56, 7);
  }

  // ----- the construction -----

  /** Where the next block starts once the bits from `bit` up are placed; bit 0 never takes a block. */
  ghost function CursorAfter(items: nat, bit: nat): int {
    BASE + items - items % Pow2(if bit == 0 then 1 else bit)
  }

  /** Blocks in order, without overlap, ending below `end`. */
  ghost predicate InOrderBelow(blocks: seq<Block>, end: int) {
    && (forall b <- blocks :: Last(NetworkOf(b)) < end)
    && (forall i, j :: 0 <= i < j < |blocks| ==> Last(NetworkOf(blocks[i])) < blocks[j].start)
  }

  /** What the loop has built: blocks, the number of single addresses, and the next free address. */
  datatype Draft = Draft(blocks: seq<Block>, singles: nat, cursor: int)

  /** One set bit: a block of that size, and a single address for the broadcast that it loses. */
  function PlaceBit(d: Draft, bit: nat): Draft {
    match bit
    case 0 => d.(singles := d.singles + 1)
    case 1 => d.(blocks := d.blocks + [Block(d.cursor % 0x1_0000_0000, 31)], cursor := (d.cursor + 2) % TWO64)
    case _ => Draft(d.blocks + [Block(d.cursor % 0x1_0000_0000, 32 - bit)], d.singles + 1, (d.cursor + Pow2(bit)) % TWO64)
  }

  /** The bits from `bit` up are placed. */
  ghost predicate Placed(items: nat, bit: nat, d: Draft) {
    && (forall b <- d.blocks :: GoodBlock(b))
    && d.cursor == CursorAfter(items, bit)
    && InOrderBelow(d.blocks, d.cursor)
    && TotalUsable(d.blocks) + d.singles == items - items % Pow2(bit)
    && d.singles + bit <= 24
  }

  lemma HighestBit(items: nat, bit: nat)
    requires items < CAPACITY && bit >= 24
    ensures !Bit(items, bit)
  {
    PowConstants();
    PowGrows(24, bit);
    assert items / Pow2(bit) == 0;
  }

  lemma MultipleSum(a: nat, b: nat, d: nat)
    requires d > 0 && a % d == 0 && b % d == 0
    ensures (a + b) % d == 0
  {
    Divided(a, d);
    Divided(b, d);
    assert (a / d + b / d) * d == a / d * d + b / d * d;
    DivisionUnique(a + b, d, a / d + b / d, 0);
  }

  lemma BaseAligned(bit: nat)
    requires bit <= 24
    ensures BASE % Pow2(bit) == 0
  {
    PowConstants();
    Pow2Adds(24 - bit, bit);
    ScaledMultiple(10, Pow2(24 - bit), Pow2(bit));
  }

  lemma HighPartAligned(items: nat, bit: nat)
    ensures items % Pow2(bit + 1) <= items
    ensures (items - items % Pow2(bit + 1)) % Pow2(bit) == 0
  {
    WithoutRemainder(items, Pow2(bit + 1));
    EvenMultiple(items - items % Pow2(bit + 1), Pow2(bit));
  }

  /** The block of one bit is aligned, inside 10.0.0.0/8 and above every earlier block. */
  lemma BlockIsGood(items: nat, bit: nat)
    requires 0 < items < CAPACITY && 1 <= bit < 24 && Bit(items, bit)
    ensures GoodBlock(Block(CursorAfter(items, bit + 1), 32 - bit))
    ensures CursorAfter(items, bit) == CursorAfter(items, bit + 1) + Pow2(bit)
  {
    BitSplit(items, bit);
    BaseAligned(bit);
    HighPartAligned(items, bit);
    MultipleSum(BASE, items - items % Pow2(bit + 1), Pow2(bit));
  }

  lemma {:induction false} PushBlock(blocks: seq<Block>, b: Block, cursor: int)
    requires (forall x <- blocks :: GoodBlock(x)) && InOrderBelow(blocks, cursor) && GoodBlock(b) && b.start == cursor
    ensures forall x <- blocks + [b] :: GoodBlock(x)
    ensures InOrderBelow(blocks + [b], cursor + Size(NetworkOf(b)))
    ensures TotalUsable(blocks + [b]) == TotalUsable(blocks) + Usable(b)
  {
    assert (blocks + [b])[..|blocks + [b]| - 1] == blocks;
    assert forall i :: 0 <= i < |blocks| ==> blocks[i] in blocks;
  }

  lemma PlaceBitExactly(d: Draft, bit: nat)
    requires 1 <= bit < 24 && BASE <= d.cursor <= BASE + CAPACITY
    ensures PlaceBit(d, bit) == Draft(d.blocks + [Block(d.cursor, 32 - bit)],
                                      if bit == 1 then d.singles else d.singles + 1, d.cursor + Pow2(bit))
  {
    PowConstants();
    PowGrows(bit, 24);
    assert Pow2(1) == 2;
  }

  /** What one set bit changes in the figures. */
  lemma BlockFigures(items: nat, bit: nat)
    requires 0 < items < CAPACITY && 1 <= bit < 24 && Bit(items, bit)
    ensures var start := CursorAfter(items, bit + 1);
            var b := Block(start, 32 - bit);
            && BASE <= start <= BASE + CAPACITY && GoodBlock(b) && Size(NetworkOf(b)) == Pow2(bit)
            && Usable(b) == Pow2(bit) - (if bit > 1 then 1 else 0)
            && CursorAfter(items, bit) == start + Pow2(bit)
    ensures items - items % Pow2(bit) == items - items % Pow2(bit + 1) + Pow2(bit)
  {
    WithoutRemainder(items, Pow2(bit + 1));
    BlockIsGood(items, bit);
    UsableSize(Block(CursorAfter(items, bit + 1), 32 - bit));
    BitSplit(items, bit);
  }

  lemma PlaceBlock(items: nat, bit: nat, d: Draft)
    requires 0 < items < CAPACITY && 1 <= bit < 24 && Bit(items, bit) && Placed(items, bit + 1, d)
    ensures Placed(items, bit, PlaceBit(d, bit))
  {
    BlockFigures(items, bit);
    PlaceBitExactly(d, bit);
    PushBlock(d.blocks, Block(d.cursor, 32 - bit), d.cursor);
  }

  lemma PlaceOne(items: nat, d: Draft)
    requires 0 < items < CAPACITY && Bit(items, 0) && Placed(items, 1, d)
    ensures Placed(items, 0, PlaceBit(d, 0))
  {
    BitSplit(items, 0);
  }

  lemma SkipBit(items: nat, bit: nat, d: Draft)
    requires 0 < items < CAPACITY && bit < 24 && !Bit(items, bit) && Placed(items, bit + 1, d)
    ensures Placed(items, bit, d)
  {
    BitSplit(items, bit);
  }

  /** The fixture that was asked for. */
  ghost predicate ExactFixture(items: nat, blocks: seq<Block>, singles: seq<int>) {
    && (forall b <- blocks :: GoodBlock(b))
    && (forall i, j :: 0 <= i < j < |blocks| ==> Last(NetworkOf(blocks[i])) < blocks[j].start)
    && Increasing(singles)
    && (forall s <- singles :: BASE <= s < BASE + CAPACITY && forall b <- blocks :: !Contains(NetworkOf(b), s))
    && TotalUsable(blocks) + |singles| == items
  }

  lemma SinglesOutside(items: nat, d: Draft, singles: seq<int>)
    requires 0 < items && items + 64 <= CAPACITY && Placed(items, 0, d) && |singles| == d.singles
    requires forall k :: 0 <= k < |singles| ==> singles[k] == d.cursor + k
    ensures ExactFixture(items, d.blocks, singles)
  {
    assert items % Pow2(0) == 0;
    WithoutRemainder(items, Pow2(1));
  }

  ghost predicate DraftOk(items: nat, bit: nat, d: Draft) {
    if items < CAPACITY then
      if bit >= 24 then d == Draft([], 0, BASE) else Placed(items, bit, d)
    else if bit >= 64 then d.blocks == []
    else items >= TWO64 - 64 ==> d.blocks != [] && d.blocks[0].prefix == -31
  }

  lemma HugeStep(items: nat, bit: nat, d: Draft)
    requires TWO64 - 64 <= items < TWO64 && bit < 64 && DraftOk(items, bit + 1, d)
    ensures DraftOk(items, bit, if Bit(items, bit) then PlaceBit(d, bit) else d)
  {
    PowConstants();
    if bit == 63 {
      DivisionUnique(items, Pow2(63), 1, items - Pow2(63));
    }
  }

  lemma DraftStep(items: nat, bit: nat, d: Draft)
    requires 0 < items < TWO64 && bit < 64 && DraftOk(items, bit + 1, d)
    requires items <= CAPACITY - 64 || items >= TWO64 - 64
    ensures DraftOk(items, bit, if Bit(items, bit) then PlaceBit(d, bit) else d)
  {
    if items >= TWO64 - 64 {
      HugeStep(items, bit, d);
    } else if bit >= 24 {
      HighestBit(items, bit);
    } else {
      StartPlaced(items);
      assert Placed(items, bit + 1, d);
      if !Bit(items, bit) {
        SkipBit(items, bit, d);
      } else if bit == 0 {
        PlaceOne(items, d);
      } else {
        PlaceBlock(items, bit, d);
      }
    }
  }

  lemma StartPlaced(items: nat)
    requires 0 < items < CAPACITY
    ensures Placed(items, 24, Draft([], 0, BASE))
  {
    PowConstants();
    SmallRemainder(items, 24);
  }

  lemma FinishDraft(items: nat, d: Draft, ips: seq<int>)
    requires 0 < items < TWO64 && (items <= CAPACITY - 64 || items >= TWO64 - 64) && DraftOk(items, 0, d)
    requires |ips| == d.singles && forall k :: 0 <= k < |ips| ==> ips[k] == (d.cursor + k) % 0x1_0000_0000
    ensures ExactFixture(items, d.blocks, ips) <==> items <= CAPACITY - 64
  {
    if items <= CAPACITY - 64 {
      WithoutRemainder(items, Pow2(1));
      SinglesOutside(items, d, ips);
    } else {
      assert d.blocks[0] in d.blocks && !GoodBlock(d.blocks[0]);
    }
  }

  /**
   Refuses a count exactly when it is 0 or does not fit, except that the guard's sum wraps for the 64
   largest counts. An accepted count gives the exact fixture if and only if it does fit.
   */
  method CompactTaskBlocks(items: nat) returns (r: Outcome<(seq<Block>, seq<int>), FixtureError>)
    requires items < TWO64
    ensures r.Failure? <==> items == 0 || CAPACITY - 64 < items < TWO64 - 64
    ensures r.Success? ==> (ExactFixture(items, r.value.0, r.value.1) <==> items <= CAPACITY - 64)
  {
    if items == 0 || (items + 64) % TWO64 > CAPACITY {
      return Failure(TooMany(items));
    }
    var draft := Draft([], 0, BASE);
    for bit := 64 downto 0
      invariant DraftOk(items, bit, draft)
    {
      DraftStep(items, bit, draft);
      if Bit(items, bit) {
        draft := PlaceBit(draft, bit);
      }
    }
    var cursor := draft.cursor;
    var ips := seq(draft.singles, k requires 0 <= k < draft.singles => (cursor + k) % 0x1_0000_0000);
    FinishDraft(items, draft, ips);
    return Success((draft.blocks, ips));
  }
}
