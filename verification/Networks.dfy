/** IPv4 addresses as numbers, networks as aligned power-of-two ranges, and their expansion. */
module Networks {
  import opened Integers
  import opened Sorting

  const ADDRESSES := 0x1_0000_0000

  type Address = a: int | 0 <= a < ADDRESSES

  function Pow2(n: nat): (r: nat)
    ensures r >= 1
  {
    if n == 0 then 1 else 2 * Pow2(n - 1)
  }

  lemma {:induction false} Pow2Adds(a: nat, b: nat)
    ensures Pow2(a + b) == Pow2(a) * Pow2(b)
  {
    if a > 0 {
      Pow2Adds(a - 1, b);
      assert Pow2(a + b) == 2 * Pow2(a - 1 + b);
    }
  }

  /** The addresses from `start` whose first `prefix` bits agree with it. */
  datatype Network = Network(start: int, prefix: nat)

  function Size(n: Network): nat {
    if n.prefix <= 32 then Pow2(32 - n.prefix) else 1
  }

  ghost predicate IsNetwork(n: Network) {
    n.prefix <= 32 && 0 <= n.start && n.start % Size(n) == 0 && n.start + Size(n) <= ADDRESSES
  }

  function Last(n: Network): int {
    n.start + Size(n) - 1
  }

  predicate Contains(n: Network, a: int) {
    n.start <= a <= Last(n)
  }

  /** Clearing the bits below the outer mask of the inner start. */
  predicate NetworkContains(outer: Network, inner: Network) {
    inner.prefix >= outer.prefix && inner.start - inner.start % Size(outer) == outer.start
  }

  lemma SizesDivide(outer: Network, inner: Network)
    requires outer.prefix <= inner.prefix <= 32
    ensures Size(outer) == Pow2(inner.prefix - outer.prefix) * Size(inner)
  {
    Pow2Adds(inner.prefix - outer.prefix, 32 - inner.prefix);
  }

  lemma LessOfProducts(a: int, b: int, size: nat)
    requires size >= 1 && a * size < b * size
    ensures a < b
  {
  }

  lemma NextMultiple(t: int, u: int, n: nat)
    ensures t < u ==> t * n + n <= u * n
  {
    if t < u {
      assert (t + 1) * n <= u * n;
    }
  }

  lemma Multiple(n: nat, m: nat) returns (k: nat)
    requires m >= 1 && n % m == 0
    ensures n == k * m
  {
    k := n / m;
  }

  lemma Regroup(j: nat, q: nat, size: nat)
    ensures j * (q * size) == (j * q) * size && (j * q + q) * size == (j * q) * size + q * size
  {
  }

  /** An aligned small block that starts in an aligned large block ends in it. */
  lemma AlignedBlockFits(x: nat, y: nat, q: nat, size: nat)
    requires size >= 1 && q >= 1 && q * size >= 1
    requires x % size == 0 && y % (q * size) == 0 && y <= x < y + q * size
    ensures x + size <= y + q * size
  {
    var k := Multiple(x, size);
    var j := Multiple(y, q * size);
    Regroup(j, q, size);
    LessOfProducts(k, j * q + q, size);
    NextMultiple(k, j * q + q, size);
  }

  lemma LargerFactor(a: nat, b: nat, size: nat)
    requires a <= b
    ensures a * size <= b * size
  {
  }

  lemma ShorterPrefixIsLarger(a: Network, b: Network)
    requires a.prefix < b.prefix <= 32
    ensures Size(a) >= 2 * Size(b)
  {
    SizesDivide(a, b);
    assert Pow2(b.prefix - a.prefix) == 2 * Pow2(b.prefix - a.prefix - 1);
    LargerFactor(2, Pow2(b.prefix - a.prefix), Size(b));
  }

  /** The masked comparison is containment of every address. */
  lemma NetworkContainsIff(outer: Network, inner: Network)
    requires IsNetwork(outer) && IsNetwork(inner)
    ensures NetworkContains(outer, inner) <==> forall a :: Contains(inner, a) ==> Contains(outer, a)
  {
    if NetworkContains(outer, inner) {
      SizesDivide(outer, inner);
      AlignedBlockFits(inner.start, outer.start, Pow2(inner.prefix - outer.prefix), Size(inner));
    }
    if forall a :: Contains(inner, a) ==> Contains(outer, a) {
      assert Contains(inner, inner.start) && Contains(inner, Last(inner));
      if inner.prefix < outer.prefix {
        ShorterPrefixIsLarger(inner, outer);
        assert false;
      }
      BlockStart(inner.start, outer.start, Size(outer));
    }
  }

  lemma BlockStart(x: nat, y: nat, size: nat)
    requires size >= 1 && y % size == 0 && y <= x < y + size
    ensures x - x % size == y
  {
    var q, j := x / size, y / size;
    assert x == q * size + x % size && y == j * size;
    assert (j + 1) * size == j * size + size && (q + 1) * size == q * size + size;
    LessOfProducts(q, j + 1, size);
    LessOfProducts(j, q + 1, size);
  }

  // ----- expansion -----

  ghost function Addresses(n: Network): seq<int> {
    seq(Size(n), i => n.start + i)
  }

  /** Enumerates a range in 32 bits; the guard stops the counter before it would wrap. */
  method ExpandRange(n: Network) returns (out: seq<Address>)
    requires IsNetwork(n)
    ensures out == Addresses(n)
  {
    var first, last: uint32 := n.start as uint32, Last(n) as uint32;
    out := [];
    var current := first;
    while current <= last
      invariant first <= current && n.start == first as int && Last(n) == last as int
      invariant current as int <= Last(n) + 1
      invariant out == seq(current as int - n.start, i => n.start + i)
      decreases last as int - current as int
    {
      out := out + [current as Address];
      if current == 0xFFFF_FFFF {
        break;
      }
      current := current + 1;
    }
  }

  /** Expands several selectors into one increasing sequence without repetitions. */
  method ExpandSelectors(selectors: seq<Network>) returns (out: seq<int>)
    requires forall n <- selectors :: IsNetwork(n)
    ensures Increasing(out)
    ensures forall a :: a in out <==> exists n <- selectors :: Contains(n, a)
  {
    var unique: set<int> := {};
    for k := 0 to |selectors|
      invariant forall a :: a in unique <==> exists i :: 0 <= i < k && Contains(selectors[i], a)
    {
      var range := ExpandRange(selectors[k]);
      AddressesMembers(selectors[k]);
      unique := unique + set a <- range;
      assert forall a :: a in unique <==> exists i :: 0 <= i < k + 1 && Contains(selectors[i], a);
    }
    out := SortSet(unique);
    forall a ensures a in out <==> exists n <- selectors :: Contains(n, a) {
      if i :| 0 <= i < |selectors| && Contains(selectors[i], a) { assert selectors[i] in selectors; }
    }
  }

  /** A single selector gives just its range. */
  method ExpandOne(n: Network) returns (out: seq<int>)
    requires IsNetwork(n)
    ensures out == Addresses(n)
  {
    out := ExpandSelectors([n]);
    AddressesMembers(n);
    forall a ensures a in out <==> a in Addresses(n) {
      assert Contains(n, a) ==> n in [n];
    }
    IncreasingUnique(out, Addresses(n));
  }

  lemma AddressesMembers(n: Network)
    ensures forall a :: a in Addresses(n) <==> Contains(n, a)
  {
    forall a | Contains(n, a) ensures a in Addresses(n) {
      assert Addresses(n)[a - n.start] == a;
    }
  }

  /** The members of a set in increasing order: list them in any order, then sort. */
  method SortSet(s: set<int>) returns (out: seq<int>)
    ensures Increasing(out) && forall x :: x in out <==> x in s
  {
    var left: set<int>, listed: seq<int> := s, [];
    while left != {}
      invariant forall x :: x in listed <==> x in s && x !in left
      invariant left <= s
      invariant Distinct(listed)
      decreases left
    {
      SomeNumber(left);
      var x: int :| x in left;
      left := left - {x};
      listed := listed + [x];
    }
    out := SortSlice(listed, (a: int, b: int) => a <= b);
    SortedSetIncreases(listed, out);
  }

  lemma SortedSetIncreases(listed: seq<int>, out: seq<int>)
    requires multiset(out) == multiset(listed) && Distinct(listed)
    requires forall i, j :: 0 <= i < j < |out| ==> out[i] <= out[j]
    ensures Increasing(out) && forall x :: x in out <==> x in listed
  {
    DistinctStays(listed, out);
    SameMembers(listed, out);
  }

  // ----- the broadcast address -----

  /** Only a boundary of prefix 30 or shorter has a broadcast address: its last one. */
  predicate HasBroadcast(boundary: Network) {
    boundary.prefix < 31
  }

  ghost predicate Survives(boundary: Network, a: int) {
    !(HasBroadcast(boundary) && a == Last(boundary))
  }

  ghost function WithoutBroadcast(ips: seq<int>, boundary: Network): seq<int> {
    if ips == [] then []
    else
      var front := WithoutBroadcast(ips[..|ips| - 1], boundary);
      if Survives(boundary, ips[|ips| - 1]) then front + [ips[|ips| - 1]] else front
  }

  method FilterBoundaryBroadcast(ips: seq<int>, boundary: Network) returns (out: seq<int>)
    ensures out == WithoutBroadcast(ips, boundary)
  {
    if boundary.prefix >= 31 {
      NothingToFilter(ips, boundary);
      return ips;
    }
    out := [];
    for k := 0 to |ips|
      invariant out == WithoutBroadcast(ips[..k], boundary)
    {
      assert ips[..k + 1][..k] == ips[..k];
      if ips[k] != Last(boundary) {
        out := out + [ips[k]];
      }
    }
    assert ips[..|ips|] == ips;
  }

  lemma {:induction false} NothingToFilter(ips: seq<int>, boundary: Network)
    requires boundary.prefix >= 31
    ensures WithoutBroadcast(ips, boundary) == ips
  {
    if ips != [] {
      NothingToFilter(ips[..|ips| - 1], boundary);
    }
  }

  lemma {:induction false} WithoutBroadcastMembers(ips: seq<int>, boundary: Network, a: int)
    ensures a in WithoutBroadcast(ips, boundary) <==> a in ips && Survives(boundary, a)
  {
    if ips != [] {
      WithoutBroadcastMembers(ips[..|ips| - 1], boundary, a);
      assert ips == ips[..|ips| - 1] + [ips[|ips| - 1]];
    }
  }
}
