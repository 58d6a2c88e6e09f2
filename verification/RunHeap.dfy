/** The binary heap of sort runs: a sequence whose every parent is at most its children. */
module RunHeap {
  import opened Sorting
  import opened TextOrder

  /** A run being read: its current value and the rest of its file. */
  datatype Run = Run(value: string, rest: string)

  predicate RunLeq(a: Run, b: Run) {
    LexLeq(a.value, b.value)
  }

  function Parent(i: int): int {
    (i - 1) / 2
  }

  /** Heap order among the first `n` places, for parents at `low` or above. */
  ghost predicate Ordered(h: seq<Run>, low: int, n: int) {
    forall i :: 1 <= i < n <= |h| && low <= Parent(i) ==> RunLeq(h[Parent(i)], h[i])
  }

  /** The same, except that `x` may be above its children; they are still below its parent. */
  ghost predicate OrderedBelow(h: seq<Run>, low: int, n: int, x: int) {
    && (forall i :: 1 <= i < n <= |h| && low <= Parent(i) && Parent(i) != x ==> RunLeq(h[Parent(i)], h[i]))
    && (forall i :: 1 <= i < n <= |h| && Parent(i) == x && x >= 1 && low <= Parent(x) ==> RunLeq(h[Parent(x)], h[i]))
  }

  /** The same, except that `x` may be below its parent; its children are not. */
  ghost predicate OrderedAbove(h: seq<Run>, x: int) {
    && (forall i :: 1 <= i < |h| && i != x ==> RunLeq(h[Parent(i)], h[i]))
    && (forall i :: 1 <= i < |h| && Parent(i) == x && x >= 1 ==> RunLeq(h[Parent(x)], h[i]))
  }

  function Swapped(h: seq<Run>, i: nat, j: nat): seq<Run>
    requires i < |h| && j < |h|
  {
    h[i := h[j]][j := h[i]]
  }

  lemma SwapPermutes(h: seq<Run>, i: nat, j: nat)
    requires i < |h| && j < |h|
    ensures multiset(Swapped(h, i, j)) == multiset(h)
  {
  }

  lemma LeqIsTotalOrder()
    ensures TotalOrder(RunLeq)
  {
    forall a: Run, b: Run ensures RunLeq(a, b) || RunLeq(b, a) {
      LexTotal(a.value, b.value);
    }
    forall a: Run, b: Run, c: Run | RunLeq(a, b) && RunLeq(b, c) ensures RunLeq(a, c) {
      LexTransitive(a.value, b.value, c.value);
    }
  }

  /** The smaller child moves up; only its old place may now be out of order. */
  lemma SiftStep(h: seq<Run>, low: nat, n: nat, x: nat, c: nat)
    requires n <= |h| && low <= x < n && x < c < n && Parent(c) == x
    requires OrderedBelow(h, low, n, x) && RunLeq(h[c], h[x])
    requires forall i :: 1 <= i < n && Parent(i) == x ==> RunLeq(h[c], h[i])
    ensures OrderedBelow(Swapped(h, x, c), low, n, c)
  {
    LeqIsTotalOrder();
    var s := Swapped(h, x, c);
    forall i | 1 <= i < n && low <= Parent(i) && Parent(i) != c ensures RunLeq(s[Parent(i)], s[i]) {
      assert i == x ==> Parent(c) == x;
    }
    forall i | 1 <= i < n && Parent(i) == c ensures RunLeq(s[x], s[i]) {
      assert i != x && i != c;
    }
  }

  method LeastChild(h: seq<Run>, n: nat, x: nat) returns (c: nat)
    requires n <= |h| && 2 * x + 1 < n
    ensures x < c < n && Parent(c) == x
    ensures forall i :: 1 <= i < n && Parent(i) == x ==> RunLeq(h[c], h[i])
  {
    LeqIsTotalOrder();
    c := 2 * x + 1;
    if c + 1 < n && !RunLeq(h[c], h[c + 1]) {
      c := c + 1;
    }
    assert forall i :: 1 <= i < n && Parent(i) == x ==> i == 2 * x + 1 || i == 2 * x + 2;
  }

  /** The run may stay where it is not above its least child. */
  lemma SiftEnds(h: seq<Run>, low: nat, n: nat, x: nat, c: nat)
    requires n <= |h| && low <= x < c < n && OrderedBelow(h, low, n, x)
    requires RunLeq(h[x], h[c]) && forall i :: 1 <= i < n && Parent(i) == x ==> RunLeq(h[c], h[i])
    ensures Ordered(h, low, n)
  {
    LeqIsTotalOrder();
    forall i | 1 <= i < n && Parent(i) == x ensures RunLeq(h[x], h[i]) {
      assert RunLeq(h[c], h[i]);
    }
  }

  method Down(h: seq<Run>, low: nat, n: nat) returns (out: seq<Run>)
    requires low <= n <= |h| && OrderedBelow(h, low, n, low)
    ensures |out| == |h| && multiset(out) == multiset(h)
    ensures Ordered(out, low, n) && out[n..] == h[n..]
  {
    out := h;
    var x := low;
    while 2 * x + 1 < n
      invariant low <= x && |out| == |h| && (x < n || low == n) && OrderedBelow(out, low, n, x)
      invariant multiset(out) == multiset(h) && out[n..] == h[n..]
      decreases n - x
    {
      var c := LeastChild(out, n, x);
      if RunLeq(out[x], out[c]) {
        SiftEnds(out, low, n, x, c);
        return;
      }
      LexTotal(out[x].value, out[c].value);
      SiftStep(out, low, n, x, c);
      SwapPermutes(out, x, c);
      assert Swapped(out, x, c)[n..] == out[n..];
      out := Swapped(out, x, c);
      x := c;
    }
  }

  method Up(h: seq<Run>) returns (out: seq<Run>)
    requires |h| > 0 && OrderedAbove(h, |h| - 1)
    ensures |out| == |h| && multiset(out) == multiset(h) && Ordered(out, 0, |out|)
  {
    LeqIsTotalOrder();
    out := h;
    var x := |h| - 1;
    while x > 0 && !RunLeq(out[Parent(x)], out[x])
      invariant 0 <= x < |out| == |h| && OrderedAbove(out, x) && multiset(out) == multiset(h)
      decreases x
    {
      RiseStep(out, x);
      SwapPermutes(out, Parent(x), x);
      out := Swapped(out, Parent(x), x);
      x := Parent(x);
    }
  }

  lemma RiseStep(h: seq<Run>, x: nat)
    requires 0 < x < |h| && OrderedAbove(h, x) && !RunLeq(h[Parent(x)], h[x])
    ensures OrderedAbove(Swapped(h, Parent(x), x), Parent(x))
  {
    LeqIsTotalOrder();
    var p := Parent(x);
    var s := Swapped(h, p, x);
    forall i | 1 <= i < |h| && i != p ensures RunLeq(s[Parent(i)], s[i]) {
      assert i == x || Parent(i) == x || Parent(i) == p || (Parent(i) != x && Parent(i) != p);
    }
    forall i | 1 <= i < |h| && Parent(i) == p && p >= 1 ensures RunLeq(s[Parent(p)], s[i]) {
      assert RunLeq(h[Parent(p)], h[p]);
    }
  }

  lemma {:induction false} RootIsLeast(h: seq<Run>, i: nat)
    requires i < |h| && Ordered(h, 0, |h|)
    ensures RunLeq(h[0], h[i])
  {
    LeqIsTotalOrder();
    if i > 0 {
      RootIsLeast(h, Parent(i));
      assert RunLeq(h[Parent(i)], h[i]);
    }
  }

  // ----- the library's operations -----

  method Init(items: seq<Run>) returns (h: seq<Run>)
    ensures Ordered(h, 0, |h|) && multiset(h) == multiset(items) && |h| == |items|
  {
    h := items;
    var i := |h| / 2;
    while i > 0
      invariant 0 <= i <= |h| / 2 && |h| == |items| && multiset(h) == multiset(items) && Ordered(h, i, |h|)
    {
      i := i - 1;
      assert forall k :: 1 <= k < |h| && i <= Parent(k) && Parent(k) != i ==> i + 1 <= Parent(k);
      h := Down(h, i, |h|);
    }
  }

  /** Takes out a least run. */
  method Pop(h: seq<Run>) returns (least: Run, left: seq<Run>)
    requires |h| > 0 && Ordered(h, 0, |h|)
    ensures multiset(left) + multiset{least} == multiset(h) && |left| == |h| - 1
    ensures Ordered(left, 0, |left|) && forall r <- h :: RunLeq(least, r)
  {
    var n := |h| - 1;
    forall i | 0 <= i < |h| ensures RunLeq(h[0], h[i]) {
      RootIsLeast(h, i);
    }
    SwapPermutes(h, 0, n);
    var sifted := Down(Swapped(h, 0, n), 0, n);
    least, left := sifted[n], sifted[..n];
    assert sifted[n] == sifted[n..][0] == h[0];
    assert sifted == left + [least];
  }

  method Push(h: seq<Run>, r: Run) returns (more: seq<Run>)
    requires Ordered(h, 0, |h|)
    ensures Ordered(more, 0, |more|) && multiset(more) == multiset(h) + multiset{r} && |more| == |h| + 1
  {
    assert forall i :: 1 <= i < |h| ==> (h + [r])[Parent(i)] == h[Parent(i)];
    more := Up(h + [r]);
  }
}
