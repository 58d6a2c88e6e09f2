/**
 The external merge sort behind the workflow digest: rows are normalized, sorted in chunks into
 run files, and merged through a heap. What reaches the digest is the sorted sequence of all rows.
 */
module NormalizedMerge {
  import opened Wrappers
  import opened Sorting
  import opened TextOrder
  import opened LengthDelimited
  import opened RunHeap

  ghost predicate SortedText(s: seq<string>) {
    Sorted(s, LexLeq)
  }

  // ----- multisets gathered from runs -----

  ghost function Gather<T>(h: seq<Run>, f: Run -> multiset<T>): multiset<T> {
    if h == [] then multiset{} else Gather(h[..|h| - 1], f) + f(h[|h| - 1])
  }

  lemma {:induction false} GatherBoth<T>(a: seq<Run>, b: seq<Run>, f: Run -> multiset<T>)
    ensures Gather(a + b, f) == Gather(a, f) + Gather(b, f)
  {
    if b == [] {
      assert a + b == a;
    } else {
      GatherBoth(a, b[..|b| - 1], f);
      assert (a + b)[..|a + b| - 1] == a + b[..|b| - 1];
    }
  }

  lemma GatherOne<T>(r: Run, f: Run -> multiset<T>)
    ensures Gather([r], f) == f(r)
  {
    assert [r][..0] == [];
  }

  lemma Regroup<T>(a: multiset<T>, b: multiset<T>, c: multiset<T>)
    ensures (a + b) + c == (a + c) + b == a + (b + c)
  {
  }

  lemma GatherAround<T>(a: seq<Run>, r: Run, b: seq<Run>, f: Run -> multiset<T>)
    ensures Gather(a + [r] + b, f) == (Gather(a, f) + f(r)) + Gather(b, f)
  {
    GatherBoth(a, [r], f);
    GatherBoth(a + [r], b, f);
    GatherOne(r, f);
  }

  lemma GatherLast<T>(a: seq<Run>, r: Run, b: seq<Run>, f: Run -> multiset<T>)
    ensures Gather(a + [r] + b, f) == Gather(a + b, f) + f(r)
  {
    GatherAround(a, r, b, f);
    GatherBoth(a, b, f);
    Regroup(Gather(a, f), f(r), Gather(b, f));
  }

  lemma SplitAt(s: seq<Run>, r: Run) returns (before: seq<Run>, after: seq<Run>)
    requires r in s
    ensures s == before + [r] + after
  {
    var k :| 0 <= k < |s| && s[k] == r;
    before, after := s[..k], s[k + 1..];
  }

  lemma Cancel(front: seq<Run>, r: Run, before: seq<Run>, after: seq<Run>)
    requires multiset(front + [r]) == multiset(before + [r] + after)
    ensures multiset(front) == multiset(before + after)
  {
    assert multiset(front) == multiset(front + [r]) - multiset{r};
    assert multiset(before + after) == multiset(before + [r] + after) - multiset{r};
  }

  /** The order of the runs does not matter. */
  lemma {:induction false} GatherPermuted<T>(a: seq<Run>, b: seq<Run>, f: Run -> multiset<T>)
    requires multiset(a) == multiset(b)
    ensures Gather(a, f) == Gather(b, f)
  {
    SameLength(a, b);
    if a != [] {
      SameMembers(a, b);
      var front, r := a[..|a| - 1], a[|a| - 1];
      assert a == front + [r] && r in a;
      var before, after := SplitAt(b, r);
      Cancel(front, r, before, after);
      GatherPermuted(front, before + after, f);
      GatherLast(before, r, after, f);
    }
  }

  lemma GatherSplit<T>(h: seq<Run>, left: seq<Run>, r: Run, f: Run -> multiset<T>)
    requires multiset(h) == multiset(left) + multiset{r}
    ensures Gather(h, f) == Gather(left, f) + f(r)
  {
    assert multiset(left + [r]) == multiset(left) + multiset{r};
    GatherPermuted(h, left + [r], f);
    GatherBoth(left, [r], f);
    GatherOne(r, f);
  }

  lemma {:induction false} GatherMember<T>(h: seq<Run>, f: Run -> multiset<T>, x: T)
    ensures x in Gather(h, f) ==> exists r <- h :: x in f(r)
  {
    if h != [] {
      GatherMember(h[..|h| - 1], f, x);
      assert h == h[..|h| - 1] + [h[|h| - 1]];
    }
  }

  // ----- what is left in a run -----

  ghost function Remaining(r: Run): seq<string> {
    [r.value] + ReadAll(r.rest)
  }

  ghost function Values(r: Run): multiset<string> {
    multiset(Remaining(r))
  }

  /** One unit for the current value and one for each byte that is still to be read. */
  ghost function Work(r: Run): multiset<int> {
    multiset(seq(|r.rest| + 1, i => 0))
  }

  lemma WorkSize(r: Run)
    ensures |Work(r)| == |r.rest| + 1
  {
  }

  /** The rest of every file reads to its end without an error. */
  ghost predicate AllReadable(h: seq<Run>) {
    forall r <- h :: WellFormed(r.rest)
  }

  ghost predicate AllInOrder(h: seq<Run>) {
    forall r <- h :: SortedText(Remaining(r))
  }

  lemma RemainingAfter(r: Run, v: string, rest: string)
    requires Read(r.rest) == ReadResult.Value(v, rest)
    ensures Values(r) == multiset{r.value} + Values(Run(v, rest))
    ensures WellFormed(r.rest) <==> WellFormed(rest)
    ensures SortedText(Remaining(r)) ==> SortedText(Remaining(Run(v, rest)))
    ensures |Work(Run(v, rest))| < |Work(r)|
  {
    assert Remaining(r) == [r.value] + Remaining(Run(v, rest));
    assert Remaining(r)[1..] == Remaining(Run(v, rest));
    assert multiset([r.value] + Remaining(Run(v, rest))) == multiset{r.value} + Values(Run(v, rest));
    WorkSize(r);
    WorkSize(Run(v, rest));
  }

  lemma RemainingAtEnd(r: Run)
    requires Read(r.rest).EndOfFile?
    ensures Values(r) == multiset{r.value}
  {
    assert Remaining(r) == [r.value];
  }

  /** The head of the least run is at most everything that is left in any run. */
  lemma LeastOfAll(h: seq<Run>, least: Run)
    requires AllInOrder(h) && forall r <- h :: RunLeq(least, r)
    ensures forall x <- Gather(h, Values) :: LexLeq(least.value, x)
  {
    LexIsTotalOrder();
    forall x <- Gather(h, Values) ensures LexLeq(least.value, x) {
      GatherMember(h, Values, x);
      var r :| r in h && x in Values(r);
      var k :| 0 <= k < |Remaining(r)| && Remaining(r)[k] == x;
      assert Remaining(r)[0] == r.value;
      assert k > 0 ==> LexLeq(Remaining(r)[0], Remaining(r)[k]);
      LexTransitive(least.value, r.value, x);
    }
  }

  // ----- the merge -----

  /** The rows in one stream, separated by line feeds. */
  ghost function Lines(values: seq<string>): string {
    if values == [] then ""
    else if |values| == 1 then values[0]
    else Lines(values[..|values| - 1]) + "\n" + values[|values| - 1]
  }

  ghost function AllValues(files: seq<string>): multiset<string> {
    if files == [] then multiset{}
    else AllValues(files[..|files| - 1]) + multiset(ReadAll(files[|files| - 1]))
  }

  /** The merge opens a file by reading its first value, so a file without one is an error. */
  ghost predicate Readable(file: string) {
    WellFormed(file) && ReadAll(file) != []
  }

  ghost predicate GoodFile(file: string) {
    Readable(file) && SortedText(ReadAll(file))
  }

  /** Nothing got lost or doubled. */
  ghost predicate Conserved(all: multiset<string>, h: seq<Run>, out: seq<string>) {
    all == multiset(out) + Gather(h, Values)
  }

  /** Everything written so far is in order, and at most what is left. */
  ghost predicate OrderedSoFar(h: seq<Run>, out: seq<string>) {
    && AllInOrder(h) && SortedText(out)
    && (out != [] ==> forall x <- Gather(h, Values) :: LexLeq(out[|out| - 1], x))
  }

  ghost predicate Popped(h: seq<Run>, least: Run, left: seq<Run>) {
    multiset(h) == multiset(left) + multiset{least} && forall r <- h :: RunLeq(least, r)
  }

  lemma MembersOfSplit(s: seq<Run>, left: seq<Run>, r: Run)
    requires multiset(s) == multiset(left) + multiset{r}
    ensures forall x :: x in s <==> x in left || x == r
  {
    forall x ensures x in s <==> x in left || x == r {
      assert x in s <==> x in multiset(s);
      assert x in left <==> x in multiset(left);
    }
  }

  /** The least of what is left moves to the end of what is written. */
  lemma LeastMoves(before: multiset<string>, after: multiset<string>, out: seq<string>, v: string)
    requires before == multiset{v} + after
    requires SortedText(out) && (out != [] ==> forall x <- before :: LexLeq(out[|out| - 1], x))
    requires forall x <- before :: LexLeq(v, x)
    ensures SortedText(out + [v]) && forall x <- after :: LexLeq(v, x)
  {
    LexIsTotalOrder();
    assert v in before;
    assert forall x <- after :: x in before;
  }

  /** What the least run becomes: it comes back with its next value, or it is at its end. */
  ghost predicate Follows(least: Run, left: seq<Run>, next: seq<Run>) {
    match Read(least.rest)
    case Value(v, rest) => multiset(next) == multiset(left) + multiset{Run(v, rest)}
    case EndOfFile => next == left
    case _ => false
  }

  lemma ValuesLeft(h: seq<Run>, least: Run, left: seq<Run>, next: seq<Run>)
    requires Popped(h, least, left) && Follows(least, left, next)
    ensures Gather(h, Values) == multiset{least.value} + Gather(next, Values)
  {
    GatherSplit(h, left, least, Values);
    match Read(least.rest)
    case Value(v, rest) =>
      RemainingAfter(least, v, rest);
      GatherSplit(next, left, Run(v, rest), Values);
    case EndOfFile =>
      RemainingAtEnd(least);
  }

  /** Whether everything is readable, and whether it is in order, carries over to what is left. */
  lemma RunsLeft(h: seq<Run>, least: Run, left: seq<Run>, next: seq<Run>)
    requires Popped(h, least, left) && Follows(least, left, next)
    ensures AllReadable(h) <==> AllReadable(next)
    ensures AllInOrder(h) ==> AllInOrder(next)
  {
    MembersOfSplit(h, left, least);
    match Read(least.rest)
    case Value(v, rest) =>
      RemainingAfter(least, v, rest);
      MembersOfSplit(next, left, Run(v, rest));
      assert Run(v, rest) in next && least in h;
    case EndOfFile =>
      assert WellFormed(least.rest);
  }

  lemma ConservedStep(all: multiset<string>, h: seq<Run>, out: seq<string>, least: Run, left: seq<Run>, next: seq<Run>)
    requires Conserved(all, h, out) && Popped(h, least, left) && Follows(least, left, next)
    ensures Conserved(all, next, out + [least.value])
  {
    ValuesLeft(h, least, left, next);
    assert multiset(out + [least.value]) == multiset(out) + multiset{least.value};
    Regroup(multiset(out), multiset{least.value}, Gather(next, Values));
  }

  lemma OrderedStep(h: seq<Run>, out: seq<string>, least: Run, left: seq<Run>, next: seq<Run>)
    requires OrderedSoFar(h, out) && Popped(h, least, left) && Follows(least, left, next)
    ensures OrderedSoFar(next, out + [least.value])
  {
    ValuesLeft(h, least, left, next);
    RunsLeft(h, least, left, next);
    LeastOfAll(h, least);
    LeastMoves(Gather(h, Values), Gather(next, Values), out, least.value);
  }

  /** Taking the least value loses and doubles nothing, whatever the files hold, and keeps order if they were sorted. */
  lemma MergeStep(all: multiset<string>, h: seq<Run>, out: seq<string>, least: Run, left: seq<Run>, next: seq<Run>)
    requires Conserved(all, h, out) && Popped(h, least, left) && Follows(least, left, next)
    ensures Conserved(all, next, out + [least.value])
    ensures OrderedSoFar(h, out) ==> OrderedSoFar(next, out + [least.value])
  {
    ConservedStep(all, h, out, least, left, next);
    if OrderedSoFar(h, out) {
      OrderedStep(h, out, least, left, next);
    }
  }

  /** A run that can neither go on nor end was never readable. */
  lemma StuckRun(h: seq<Run>, least: Run, left: seq<Run>)
    requires Popped(h, least, left) && !Read(least.rest).Value? && !Read(least.rest).EndOfFile?
    ensures !AllReadable(h)
  {
    MembersOfSplit(h, left, least);
    assert least in h;
  }

  lemma WorkShrinks(h: seq<Run>, least: Run, left: seq<Run>, next: seq<Run>)
    requires Popped(h, least, left) && Follows(least, left, next)
    ensures |Gather(next, Work)| < |Gather(h, Work)|
  {
    GatherSplit(h, left, least, Work);
    WorkSize(least);
    match Read(least.rest)
    case Value(v, rest) =>
      RemainingAfter(least, v, rest);
      GatherSplit(next, left, Run(v, rest), Work);
    case EndOfFile =>
  }

  ghost predicate FilesReadable(files: seq<string>) {
    forall f <- files :: Readable(f)
  }

  ghost predicate FilesInOrder(files: seq<string>) {
    forall f <- files :: SortedText(ReadAll(f))
  }

  /** The runs stand for the opened files: the same values, as readable, and as much in order. */
  ghost predicate Opened(files: seq<string>, runs: seq<Run>) {
    && Gather(runs, Values) == AllValues(files)
    && (AllReadable(runs) <==> FilesReadable(files))
    && (AllInOrder(runs) <==> FilesInOrder(files))
  }

  lemma FirstRead(file: string, value: string, rest: string)
    requires Read(file) == ReadResult.Value(value, rest)
    ensures Remaining(Run(value, rest)) == ReadAll(file) != []
    ensures Readable(file) <==> WellFormed(rest)
  {
  }

  lemma PushMembers<T>(s: seq<T>, last: T)
    ensures forall x :: x in s + [last] <==> x in s || x == last
  {
  }

  lemma PushRun(runs: seq<Run>, r: Run)
    ensures AllReadable(runs + [r]) <==> AllReadable(runs) && WellFormed(r.rest)
    ensures AllInOrder(runs + [r]) <==> AllInOrder(runs) && SortedText(Remaining(r))
  {
    PushMembers(runs, r);
  }

  lemma PushFile(files: seq<string>, file: string)
    ensures FilesReadable(files + [file]) <==> FilesReadable(files) && Readable(file)
    ensures FilesInOrder(files + [file]) <==> FilesInOrder(files) && SortedText(ReadAll(file))
  {
    PushMembers(files, file);
  }

  lemma OpenOne(files: seq<string>, file: string, runs: seq<Run>, value: string, rest: string)
    requires Opened(files, runs) && Read(file) == ReadResult.Value(value, rest)
    ensures Opened(files + [file], runs + [Run(value, rest)])
  {
    var run := Run(value, rest);
    FirstRead(file, value, rest);
    OpenedValues(files, file, runs, run);
    assert (AllReadable(runs + [run]) <==> FilesReadable(files + [file]))
        && (AllInOrder(runs + [run]) <==> FilesInOrder(files + [file])) by {
      PushRun(runs, run);
      PushFile(files, file);
    }
  }

  lemma OpenedValues(files: seq<string>, file: string, runs: seq<Run>, run: Run)
    requires Gather(runs, Values) == AllValues(files) && Remaining(run) == ReadAll(file)
    ensures Gather(runs + [run], Values) == AllValues(files + [file])
  {
    GatherBoth(runs, [run], Values);
    GatherOne(run, Values);
    assert (files + [file])[..|files + [file]| - 1] == files;
  }

  lemma Unopened(files: seq<string>, k: nat)
    requires k < |files| && !Read(files[k]).Value?
    ensures !FilesReadable(files)
  {
    assert !Readable(files[k]) && files[k] in files;
  }

  lemma NextPrefix(files: seq<string>, k: nat)
    requires k < |files|
    ensures files[..k + 1] == files[..k] + [files[k]]
  {
  }

  /** Opens every run file and reads its first value. */
  method OpenRuns(files: seq<string>) returns (r: Outcome<seq<Run>, ReadResult>)
    ensures r.Success? ==> Opened(files, r.value)
    ensures r.Failure? ==> !FilesReadable(files)
  {
    var runs: seq<Run> := [];
    for k := 0 to |files|
      invariant Opened(files[..k], runs)
    {
      var first := Read(files[k]);
      if !first.Value? {
        Unopened(files, k);
        return Failure(first);
      }
      OpenOne(files[..k], files[k], runs, first.value, first.rest);
      NextPrefix(files, k);
      runs := runs + [Run(first.value, first.rest)];
    }
    assert files[..|files|] == files;
    return Success(runs);
  }

  /** Pops the least run, emits its value, and pushes the run back unless its file is at an end. */
  method Advance(h: seq<Run>, ghost all: multiset<string>, ghost out: seq<string>)
    returns (value: string, next: seq<Run>, failed: bool)
    requires |h| > 0 && Ordered(h, 0, |h|) && Conserved(all, h, out)
    ensures failed ==> !AllReadable(h)
    ensures !failed ==> Ordered(next, 0, |next|) && (AllReadable(h) <==> AllReadable(next))
    ensures !failed ==> |Gather(next, Work)| < |Gather(h, Work)|
    ensures !failed ==> Conserved(all, next, out + [value])
    ensures !failed && OrderedSoFar(h, out) ==> OrderedSoFar(next, out + [value])
  {
    var run, left := Pop(h);
    value := run.value;
    var more := Read(run.rest);
    failed := !more.Value? && !more.EndOfFile?;
    next := left;
    if failed {
      StuckRun(h, run, left);
      return;
    }
    if more.Value? {
      next := Push(left, Run(more.value, more.rest));
    }
    WorkShrinks(h, run, left, next);
    RunsLeft(h, run, left, next);
    MergeStep(all, h, out, run, left, next);
  }

  lemma StartMerging(files: seq<string>, items: seq<Run>, h: seq<Run>)
    requires Opened(files, items) && multiset(h) == multiset(items)
    ensures Conserved(AllValues(files), h, []) && (AllReadable(h) <==> FilesReadable(files))
    ensures FilesInOrder(files) ==> OrderedSoFar(h, [])
  {
    GatherPermuted(h, items, Values);
    forall r ensures r in h <==> r in items {
      assert r in h <==> r in multiset(h);
      assert r in items <==> r in multiset(items);
    }
  }

  lemma LinesPush(out: seq<string>, value: string)
    ensures Lines(out + [value]) == Lines(out) + (if out == [] then "" else "\n") + value
  {
    assert (out + [value])[..|out|] == out;
  }

  /** Pops and pushes until every run is at its end. */
  method MergeHeap(start: seq<Run>, ghost all: multiset<string>) returns (feed: string, failed: bool, ghost out: seq<string>)
    requires Ordered(start, 0, |start|) && Conserved(all, start, [])
    ensures failed <==> !AllReadable(start)
    ensures !failed ==> feed == Lines(out) && multiset(out) == all
    ensures !failed && OrderedSoFar(start, []) ==> SortedText(out)
  {
    out, feed := [], "";
    var h, first := start, true;
    while |h| > 0
      invariant Ordered(h, 0, |h|) && (first <==> out == []) && feed == Lines(out)
      invariant Conserved(all, h, out) && (AllReadable(h) <==> AllReadable(start))
      invariant OrderedSoFar(start, []) ==> OrderedSoFar(h, out)
      decreases |Gather(h, Work)|
    {
      var value, next, stuck := Advance(h, all, out);
      if stuck {
        return feed, true, out;
      }
      LinesPush(out, value);
      feed := feed + (if first then "" else "\n") + value;
      first := false;
      h, out := next, out + [value];
    }
    failed := false;
  }

  /**
   Feeds the digest, and ends on any files. It fails exactly when some file cannot be read to its
   end; otherwise it feeds every value of every file once, and in order if the files are sorted.
   */
  method MergeRuns(files: seq<string>) returns (feed: string, failed: bool, ghost out: seq<string>)
    ensures failed <==> !FilesReadable(files)
    ensures !failed ==> feed == Lines(out) && multiset(out) == AllValues(files)
    ensures !failed && FilesInOrder(files) ==> SortedText(out)
  {
    var started := OpenRuns(files);
    if started.Failure? {
      return "", true, [];
    }
    var h := Init(started.value);
    StartMerging(files, started.value, h);
    feed, failed, out := MergeHeap(h, AllValues(files));
  }
}
