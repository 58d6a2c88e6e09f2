/**
 The sort library as its callers may rely on it: some permutation that is in order. Ties are
 left open, because the library does not promise a stable sort.
 */
module Sorting {

  ghost predicate TotalOrder<T(!new)>(leq: (T, T) -> bool) {
    && (forall a, b :: leq(a, b) || leq(b, a))
    && (forall a, b, c :: leq(a, b) && leq(b, c) ==> leq(a, c))
  }

  ghost predicate Sorted<T>(s: seq<T>, leq: (T, T) -> bool) {
    forall i, j :: 0 <= i < j < |s| ==> leq(s[i], s[j])
  }

  method InsertInOrder<T(!new)>(sorted: seq<T>, x: T, leq: (T, T) -> bool) returns (out: seq<T>)
    requires TotalOrder(leq) && Sorted(sorted, leq)
    ensures Sorted(out, leq) && multiset(out) == multiset(sorted) + multiset{x}
  {
    var at := 0;
    while at < |sorted| && leq(sorted[at], x)
      invariant 0 <= at <= |sorted|
      invariant forall i :: 0 <= i < at ==> leq(sorted[i], x)
    {
      at := at + 1;
    }
    assert forall i :: at <= i < |sorted| ==> leq(x, sorted[i]);
    assert sorted == sorted[..at] + sorted[at..];
    out := sorted[..at] + [x] + sorted[at..];
  }

  method SortSlice<T(!new)>(items: seq<T>, leq: (T, T) -> bool) returns (out: seq<T>)
    requires TotalOrder(leq)
    ensures Sorted(out, leq) && multiset(out) == multiset(items)
  {
    out := [];
    for k := 0 to |items|
      invariant Sorted(out, leq) && multiset(out) == multiset(items[..k])
    {
      assert items[..k + 1] == items[..k] + [items[k]];
      out := InsertInOrder(out, items[k], leq);
    }
    assert items[..|items|] == items;
  }

  // ----- repetitions -----

  ghost predicate Distinct<T>(s: seq<T>) {
    forall i, j :: 0 <= i < j < |s| ==> s[i] != s[j]
  }

  lemma SameMembers<T>(a: seq<T>, b: seq<T>)
    requires multiset(a) == multiset(b)
    ensures forall x :: x in a <==> x in b
  {
    forall x ensures x in a <==> x in b {
      assert x in a <==> x in multiset(a);
      assert x in b <==> x in multiset(b);
    }
  }

  lemma SameLength<T>(a: seq<T>, b: seq<T>)
    requires multiset(a) == multiset(b)
    ensures |a| == |b|
  {
    assert |multiset(a)| == |a| && |multiset(b)| == |b|;
  }

  /** A permutation of a sequence without repetitions has none either. */
  lemma DistinctStays<T>(a: seq<T>, b: seq<T>)
    requires multiset(a) == multiset(b) && Distinct(a)
    ensures Distinct(b)
  {
    forall i, j | 0 <= i < j < |b| ensures b[i] != b[j] {
      OnceEach(a, b[i]);
      TwiceThere(b, i, j);
    }
  }

  lemma TwiceThere<T>(s: seq<T>, i: nat, j: nat)
    requires i < j < |s|
    ensures s[i] == s[j] ==> multiset(s)[s[i]] >= 2
  {
    assert s == s[..i] + [s[i]] + s[i + 1..j] + [s[j]] + s[j + 1..];
  }

  lemma {:induction false} OnceEach<T>(s: seq<T>, x: T)
    requires Distinct(s)
    ensures multiset(s)[x] <= 1
  {
    if s != [] {
      OnceEach(s[1..], x);
      assert s == [s[0]] + s[1..];
      assert forall k :: 0 <= k < |s[1..]| ==> s[1..][k] == s[k + 1] != s[0];
    }
  }

  // ----- sets -----

  lemma SomeMember<T>(s: set<T>)
    requires s != {}
    ensures exists x: T :: x in s
  {
    if forall x: T :: x !in s {
      assert false;
    }
  }

  lemma SomeNumber(s: set<int>)
    requires s != {}
    ensures exists x: int :: x in s
  {
    if forall x: int :: x !in s {
      assert false;
    }
  }

  lemma SubsetAtMost<T>(a: set<T>, b: set<T>)
    requires a <= b
    ensures |a| <= |b|
  {
    assert b == a + (b - a);
  }

  // ----- strictly increasing sequences -----

  ghost predicate Increasing(s: seq<int>) {
    forall i, j :: 0 <= i < j < |s| ==> s[i] < s[j]
  }

  /** An increasing sequence is determined by its members. */
  lemma {:induction false} IncreasingUnique(a: seq<int>, b: seq<int>)
    requires Increasing(a) && Increasing(b)
    requires forall x :: x in a <==> x in b
    ensures a == b
  {
    assert (a != [] ==> a[0] in a) && (b != [] ==> b[0] in b);
    if a != [] {
      var i :| 0 <= i < |b| && b[i] == a[0];
      var j :| 0 <= j < |a| && a[j] == b[0];
      assert a[0] == b[0];
      forall x ensures x in a[1..] <==> x in b[1..] {
        RestMembers(a, x);
        RestMembers(b, x);
      }
      IncreasingUnique(a[1..], b[1..]);
      assert a == [a[0]] + a[1..] && b == [b[0]] + b[1..];
    }
  }

  lemma RestMembers(s: seq<int>, x: int)
    requires Increasing(s) && s != []
    ensures x in s[1..] <==> x in s && x != s[0]
  {
    assert s == [s[0]] + s[1..];
    assert forall k :: 0 <= k < |s[1..]| ==> s[1..][k] == s[k + 1] > s[0];
  }

  /** An increasing sequence whose members are all in another of the same length is that one. */
  lemma IncreasingSameSize(a: seq<int>, b: seq<int>)
    requires Increasing(a) && Increasing(b)
    requires |a| == |b| && forall x <- a :: x in b
    ensures a == b
  {
    var sa, sb := (set x <- a), (set x <- b);
    IncreasingSize(a);
    IncreasingSize(b);
    SubsetSize(sa, sb);
    forall x ensures x in a <==> x in b {
      assert x in sa <==> x in a;
      assert x in sb <==> x in b;
    }
    IncreasingUnique(a, b);
  }

  lemma {:induction false} IncreasingSize(a: seq<int>)
    requires Increasing(a)
    ensures |(set x <- a)| == |a|
  {
    if a != [] {
      IncreasingSize(a[1..]);
      forall x ensures x in a[1..] <==> x in a && x != a[0] {
        RestMembers(a, x);
      }
      assert (set x <- a) == {a[0]} + (set x <- a[1..]);
      assert a[0] !in (set x <- a[1..]);
    }
  }

  lemma {:induction false} SubsetSize<T>(a: set<T>, b: set<T>)
    requires a <= b && |a| == |b|
    ensures a == b
  {
    if a != {} {
      var x :| x in a;
      SubsetSize(a - {x}, b - {x});
    }
  }
}
