/**
 The output committer: results collect in a batch, a batch is flushed to both result
 files at once, and only a flushed batch is credited to the chunk trackers. The class
 keeps one earliest index and one count per chunk; the ghost `book` says which results
 those numbers stand for.
 */
module OutputCommitter {
  import opened ResultLedger
  import opened Trackers

  // ----- the results of one chunk -----

  /** How many of some results belong to chunk `c`. */
  ghost function Share(rs: seq<Result>, c: nat): nat {
    if rs == [] then 0 else Share(rs[..|rs| - 1], c) + (if rs[|rs| - 1].task.chunk == c then 1 else 0)
  }

  lemma ShareOne(rs: seq<Result>, r: Result, c: nat)
    ensures Share(rs + [r], c) == Share(rs, c) + (if r.task.chunk == c then 1 else 0)
  {
    assert (rs + [r])[..|rs|] == rs;
  }

  lemma {:induction false} ShareAppend(a: seq<Result>, b: seq<Result>, c: nat)
    ensures Share(a + b, c) == Share(a, c) + Share(b, c)
  {
    if b == [] {
      assert a + b == a;
    } else {
      var front, last := b[..|b| - 1], b[|b| - 1];
      ShareAppend(a, front, c);
      assert a + b == (a + front) + [last];
      ShareOne(a + front, last, c);
    }
  }

  lemma {:induction false} NoShare(rs: seq<Result>, c: nat)
    requires forall r <- rs :: r.task.chunk != c
    ensures Share(rs, c) == 0
  {
    if rs != [] {
      assert rs[|rs| - 1] in rs;
      NoShare(rs[..|rs| - 1], c);
    }
  }

  // ----- the two result files -----

  /** The two writers of a run. A writer may fail, and may spill rows early, at any time. */
  class BatchOutputs {
    var scan: Sink
    var open: Sink

    ghost function State(): Outputs
      reads this
    {
      Outputs(scan, open)
    }

    constructor (scanFile: seq<Result>, openFile: seq<Result>)
      ensures State() == Outputs(Sink(scanFile, []), Sink(openFile, []))
    {
      scan, open := Sink(scanFile, []), Sink(openFile, []);
    }

    static method WriteRow(s: Sink, r: Result) returns (s': Sink, ok: bool)
      ensures if ok then Took(s, r, s') else Broke(s, [r], s')
    {
      var waiting := s.buffer + [r];
      var spill: nat :| spill <= |waiting|;
      s' := Sink(s.file + waiting[..spill], waiting[spill..]);
      assert waiting == waiting[..spill] + waiting[spill..];
      ok := *;
    }

    static method FlushRows(s: Sink) returns (s': Sink, ok: bool)
      ensures if ok then Drained(s, s') else Broke(s, [], s')
    {
      var reached: nat :| reached <= |s.buffer|;
      s' := Sink(s.file + s.buffer[..reached], s.buffer[reached..]);
      assert s.buffer == s.buffer[..reached] + s.buffer[reached..];
      ok := reached == |s.buffer|;
    }

    method Write(r: Result) returns (ok: bool)
      modifies this
      ensures WriteStep(old(State()), r, State(), ok)
    {
      scan, ok := WriteRow(scan, r);
      if !ok {
        return;
      }
      if r.status.Open? {
        open, ok := WriteRow(open, r);
      }
    }

    method Flush() returns (ok: bool)
      modifies this
      ensures FlushStep(old(State()), State(), ok)
    {
      var scanOk, openOk;
      scan, scanOk := FlushRows(scan);
      open, openOk := FlushRows(open);
      ok := scanOk && openOk;
    }
  }

  // ----- the committer -----

  datatype PendingChunk = PendingChunk(earliestTask: nat, count: nat)

  /** `least` is the least index of chunk `c` among `ts`. */
  ghost predicate LeastOf(least: nat, ts: seq<Task>, c: nat) {
    Task(c, least) in ts && forall t <- ts :: t.chunk == c ==> least <= t.index
  }

  /** An entry holds the least index and the size of the chunk's part of a batch. */
  ghost predicate Describes(p: PendingChunk, batch: seq<Result>, c: nat) {
    && p.count == Share(batch, c)
    && LeastOf(p.earliestTask, TasksOf(batch), c)
  }

  ghost predicate Indexes(pending: map<nat, PendingChunk>, batch: seq<Result>) {
    && (forall c <- pending :: Describes(pending[c], batch, c))
    && (forall r <- batch :: r.task.chunk in pending)
  }

  /** A tracker's mark is the least lost index of its chunk. */
  ghost predicate Marks(firstUnwritten: int, lost: seq<Task>, c: nat) {
    && (firstUnwritten == -1 || (0 <= firstUnwritten && Task(c, firstUnwritten) in lost))
    && (forall t <- lost :: t.chunk == c ==> 0 <= firstUnwritten <= t.index)
  }

  class Committer {
    const trackers: seq<ChunkStateTracker>
    const outputs: BatchOutputs
    const flushInterval: int
    var pendingCount: nat
    var pending: map<nat, PendingChunk>
    var failed: bool
    /** Which results the numbers above and the trackers stand for. */
    ghost var book: Book
    /** What each tracker had credited when the run started. */
    ghost const credited: seq<int>

    ghost predicate Separate()
    {
      forall i, j :: 0 <= i < j < |trackers| ==> trackers[i] != trackers[j]
    }

    ghost predicate InRange(rs: seq<Result>)
    {
      forall r <- rs :: r.task.chunk < |trackers|
    }

    /** The trackers agree with the books. */
    ghost predicate Credits(committed: seq<Result>, lost: seq<Task>)
      reads this, trackers
    {
      && |credited| == |trackers|
      && (forall c :: 0 <= c < |trackers| ==>
            && trackers[c].Valid()
            && trackers[c].chunk.scannedCount == credited[c] + Share(committed, c)
            && Marks(trackers[c].firstUnwritten, lost, c))
    }

    ghost predicate Valid()
      reads this, outputs, trackers
    {
      && Separate()
      && Credits(book.committed, book.lost)
      && book.outputs == outputs.State()
      && book.failed == failed
      && InRange(book.pending)
      && (failed ==> book.pending == [])
      && (!failed ==> pendingCount == |book.pending| && Indexes(pending, book.pending))
    }

    constructor (trackers: seq<ChunkStateTracker>, outputs: BatchOutputs, flushInterval: int)
      requires forall i, j :: 0 <= i < j < |trackers| ==> trackers[i] != trackers[j]
      requires forall t <- trackers :: t.Valid() && t.unwritten == {}
      ensures Valid() && this.trackers == trackers && this.outputs == outputs && this.flushInterval == flushInterval
      ensures book == Book(outputs.State(), [], [], [], false)
      ensures credited == seq(|trackers|, i requires 0 <= i < |trackers| reads trackers => trackers[i].chunk.scannedCount)
    {
      this.trackers, this.outputs, this.flushInterval := trackers, outputs, flushInterval;
      pendingCount, pending, failed := 0, map[], false;
      book := Book(outputs.State(), [], [], [], false);
      credited := seq(|trackers|, i requires 0 <= i < |trackers| reads trackers => trackers[i].chunk.scannedCount);
    }

    method Accept(r: Result) returns (err: bool, ghost io: Io)
      requires Valid() && r.task.chunk < |trackers|
      modifies this, outputs, trackers
      ensures Valid()
      ensures AcceptIo(old(book), r, io) && book == Accepted(old(book), flushInterval, r, io)
      ensures err <==> !old(failed) && failed
      ensures forall t <- trackers :: t.chunk.nextIndex == old(t.chunk.nextIndex)
    {
      if failed {
        // After a failed batch nothing more is written: a late result is only marked.
        MarkAbandoned(r.task);
        ghost var broken := Outputs(Sink(book.outputs.scan.file, []), book.outputs.open);
        return false, Io(false, broken, false, broken);
      }
      var wrote := Stage(r);
      ghost var staged := book.outputs;
      if !wrote {
        ghost var broken := Outputs(Sink(staged.scan.file, []), Sink(staged.open.file, []));
        return true, Io(false, staged, false, broken);
      }
      if 0 < flushInterval <= pendingCount {
        err := Commit();
        io := Io(true, staged, !err, book.outputs);
      } else {
        ghost var broken := Outputs(Sink(staged.scan.file, []), Sink(staged.open.file, []));
        return false, Io(true, staged, false, broken);
      }
    }

    /** Puts a result in the batch and hands its row to the writers. */
    method Stage(r: Result) returns (wrote: bool)
      requires Valid() && !failed && r.task.chunk < |trackers|
      modifies this, outputs, trackers
      ensures Valid() && failed == !wrote
      ensures WriteStep(old(book).outputs, r, book.outputs, wrote)
      ensures book == if wrote then old(book).(outputs := book.outputs, pending := old(book).pending + [r])
                      else Spoiled(old(book), book.outputs, old(book).pending + [r])
      ensures forall t <- trackers :: t.chunk.nextIndex == old(t.chunk.nextIndex)
    {
      AddPending(r);
      wrote := outputs.Write(r);
      book := book.(outputs := outputs.State());
      assert Valid();
      if !wrote {
        Fail();
      }
    }

    /** What the result loop does with a task that came back unprobed. */
    method MarkAbandoned(t: Task)
      requires Valid() && t.chunk < |trackers|
      modifies this`book, trackers
      ensures Valid() && book == Abandoned(old(book), t)
      ensures forall t <- trackers :: t.chunk.nextIndex == old(t.chunk.nextIndex)
    {
      trackers[t.chunk].MarkUnwritten(t.index);
      book := Abandoned(book, t);
    }

    method Finish() returns (err: bool, ghost io: Io)
      requires Valid()
      modifies this, outputs, trackers
      ensures Valid()
      ensures FinishIo(old(book), io) && book == Finished(old(book), io)
      ensures err <==> !old(failed) && failed
      ensures forall t <- trackers :: t.chunk.nextIndex == old(t.chunk.nextIndex)
    {
      if !failed && pendingCount > 0 {
        err := Commit();
        io := Io(true, book.outputs, !err, book.outputs);
      } else {
        ghost var broken := Outputs(Sink(book.outputs.scan.file, []), Sink(book.outputs.open.file, []));
        err, io := false, Io(true, book.outputs, false, broken);
      }
    }

    method AddPending(r: Result)
      requires Valid() && !failed && r.task.chunk < |trackers|
      modifies this
      ensures Valid() && !failed
      ensures book == old(book).(pending := old(book).pending + [r])
    {
      var c := r.task.chunk;
      var entry := if c in pending then pending[c] else PendingChunk(r.task.index, 0);
      if r.task.index < entry.earliestTask {
        entry := entry.(earliestTask := r.task.index);
      }
      entry := entry.(count := entry.count + 1);
      ghost var before, was := pending, book.pending;
      pending := pending[c := entry];
      pendingCount := pendingCount + 1;
      book := book.(pending := was + [r]);
      IndexesOneMore(before, was, r, entry);
    }

    method Commit() returns (err: bool)
      requires Valid() && !failed
      modifies this, outputs, trackers
      ensures Valid() && err == failed
      ensures FlushStep(old(outputs.State()), outputs.State(), !err)
      ensures book == if err then Spoiled(old(book), outputs.State(), old(book).pending)
                      else Committed(old(book), outputs.State(), old(book).pending)
      ensures forall t <- trackers :: t.chunk.nextIndex == old(t.chunk.nextIndex)
    {
      var flushed := outputs.Flush();
      book := book.(outputs := outputs.State());
      if !flushed {
        Fail();
        return true;
      }
      CreditPending();
      pendingCount := 0;
      pending := map[];
      book := Committed(book, book.outputs, book.pending);
      err := false;
    }

    /** Credits every pending chunk, in whatever order the map yields them. */
    method CreditPending()
      requires Valid() && !failed
      modifies trackers
      ensures Credits(book.committed + book.pending, book.lost)
      ensures forall t <- trackers :: t.chunk.nextIndex == old(t.chunk.nextIndex)
    {
      KeysInRange();
      CreditEach();
      forall c | 0 <= c < |trackers|
        ensures Share(book.committed + book.pending, c) == Share(book.committed, c) + (if c in pending then pending[c].count else 0)
      {
        SharesCredited(pending, book.committed, book.pending, c);
      }
    }

    /** The loop of a successful commit, over the map's keys in any order. */
    method CreditEach()
      requires Separate() && (forall c <- pending :: c < |trackers|) && (forall t <- trackers :: t.Valid())
      modifies trackers
      ensures forall c :: 0 <= c < |trackers| ==>
        && trackers[c].Valid()
        && trackers[c].firstUnwritten == old(trackers[c].firstUnwritten)
        && trackers[c].chunk.nextIndex == old(trackers[c].chunk.nextIndex)
        && trackers[c].chunk.scannedCount == old(trackers[c].chunk.scannedCount)
                                             + (if c in pending then pending[c].count else 0)
    {
      var left := pending.Keys;
      while left != {}
        invariant left <= pending.Keys
        invariant forall c :: 0 <= c < |trackers| ==>
          && trackers[c].Valid()
          && trackers[c].firstUnwritten == old(trackers[c].firstUnwritten)
          && trackers[c].chunk.nextIndex == old(trackers[c].chunk.nextIndex)
          && trackers[c].chunk.scannedCount == old(trackers[c].chunk.scannedCount)
                                               + (if c in pending && c !in left then pending[c].count else 0)
        decreases left
      {
        var c :| c in left;
        trackers[c].IncrementScannedBy(pending[c].count);
        left := left - {c};
      }
    }

    /** The loop of a failed batch, over the map's keys in any order. */
    method MarkEach()
      requires Separate() && (forall c <- pending :: c < |trackers|) && (forall t <- trackers :: t.Valid())
      modifies trackers
      ensures forall c :: 0 <= c < |trackers| ==>
        && trackers[c].Valid()
        && trackers[c].chunk == old(trackers[c].chunk)
        && trackers[c].firstUnwritten == if c in pending
                                         then Lower(old(trackers[c].firstUnwritten), pending[c].earliestTask)
                                         else old(trackers[c].firstUnwritten)
    {
      var left := pending.Keys;
      while left != {}
        invariant left <= pending.Keys
        invariant forall c :: 0 <= c < |trackers| ==>
          && trackers[c].Valid()
          && trackers[c].chunk == old(trackers[c].chunk)
          && trackers[c].firstUnwritten == if c in pending && c !in left
                                           then Lower(old(trackers[c].firstUnwritten), pending[c].earliestTask)
                                           else old(trackers[c].firstUnwritten)
        decreases left
      {
        var c :| c in left;
        trackers[c].MarkUnwritten(pending[c].earliestTask);
        left := left - {c};
      }
    }

    lemma KeysInRange()
      requires Indexes(pending, book.pending) && InRange(book.pending)
      ensures forall c <- pending :: c < |trackers|
    {
      forall c <- pending ensures c < |trackers| {
        var i :| 0 <= i < |book.pending| && TasksOf(book.pending)[i] == Task(c, pending[c].earliestTask);
        assert book.pending[i] in book.pending;
      }
    }

    method Fail()
      requires Valid() && !failed
      modifies this, trackers
      ensures Valid() && failed
      ensures book == Spoiled(old(book), old(book).outputs, old(book).pending)
      ensures forall t <- trackers :: t.chunk.nextIndex == old(t.chunk.nextIndex)
    {
      MarkPending();
      failed := true;
      book := Spoiled(book, book.outputs, book.pending);
    }

    /** Marks the earliest pending index of every pending chunk. */
    method MarkPending()
      requires Valid() && !failed
      modifies trackers
      ensures Credits(book.committed, book.lost + TasksOf(book.pending))
      ensures forall t <- trackers :: t.chunk.nextIndex == old(t.chunk.nextIndex)
    {
      KeysInRange();
      MarkEach();
      forall c | 0 <= c < |trackers|
        ensures Marks(trackers[c].firstUnwritten, book.lost + TasksOf(book.pending), c)
      {
        MarkingPending(pending, book.pending, c, book.lost, old(trackers[c].firstUnwritten));
      }
    }
  }

  function Lower(mark: int, least: nat): int {
    if mark < 0 || least < mark then least else mark
  }

  /** Marking only the earliest pending index of a chunk marks all of its pending results. */
  lemma MarkingPending(pending: map<nat, PendingChunk>, batch: seq<Result>, c: nat, lost: seq<Task>, mark: int)
    requires Indexes(pending, batch) && Marks(mark, lost, c)
    ensures Marks(if c in pending then Lower(mark, pending[c].earliestTask) else mark, lost + TasksOf(batch), c)
  {
    if c !in pending {
      NothingDropped(batch, c);
    }
  }

  lemma SharesCredited(pending: map<nat, PendingChunk>, committed: seq<Result>, batch: seq<Result>, c: nat)
    requires Indexes(pending, batch)
    ensures Share(committed + batch, c) == Share(committed, c) + (if c in pending then pending[c].count else 0)
  {
    ShareAppend(committed, batch, c);
    if c !in pending { NoShare(batch, c); }
  }

  lemma NothingDropped(batch: seq<Result>, c: nat)
    requires forall r <- batch :: r.task.chunk != c
    ensures forall t <- TasksOf(batch) :: t.chunk != c
  {
    forall t <- TasksOf(batch) ensures t.chunk != c {
      var i :| 0 <= i < |batch| && TasksOf(batch)[i] == t;
      assert batch[i] in batch;
    }
  }

  /** One more result of a chunk, in that chunk's entry. */
  ghost function Extended(p: PendingChunk, r: Result): PendingChunk {
    PendingChunk(if r.task.index < p.earliestTask then r.task.index else p.earliestTask,
                 p.count + 1)
  }

  lemma ExtendedDescribes(p: PendingChunk, batch: seq<Result>, r: Result)
    requires
      || Describes(p, batch, r.task.chunk)
      || (p == PendingChunk(r.task.index, 0) && forall x <- batch :: x.task.chunk != r.task.chunk)
    ensures Describes(Extended(p, r), batch + [r], r.task.chunk)
  {
    var c := r.task.chunk;
    ShareOne(batch, r, c);
    TasksOfAppend(batch, [r]);
    assert TasksOf([r]) == [r.task];
    if !Describes(p, batch, c) {
      NoShare(batch, c);
      NothingDropped(batch, c);
    }
  }

  lemma IndexesOneMore(pending: map<nat, PendingChunk>, batch: seq<Result>, r: Result, entry: PendingChunk)
    requires Indexes(pending, batch)
    requires entry == Extended(if r.task.chunk in pending then pending[r.task.chunk] else PendingChunk(r.task.index, 0), r)
    ensures Indexes(pending[r.task.chunk := entry], batch + [r])
  {
    var c := r.task.chunk;
    ExtendedDescribes(if c in pending then pending[c] else PendingChunk(r.task.index, 0), batch, r);
    forall d <- pending | d != c ensures Describes(pending[d], batch + [r], d) {
      ShareOne(batch, r, d);
      TasksOfAppend(batch, [r]);
      assert TasksOf([r]) == [r.task];
    }
  }
}
