/**
 What a whole run guarantees, for every interleaving of its processes and every outcome of
 its file operations.
 */
module ScanOutcome {
  import opened ResultLedger
  import opened Trackers
  import opened OutputCommitter
  import opened ScanPipeline
  import opened ScanConservation
  import opened ScanShutdown

  ghost predicate Inv(cfg: Config, s: State) {
    Conserved(cfg, s) && InOrder(s) && Voiced(s) && Justified(s) && Reported(cfg, s)
  }

  lemma StepKeepsInv(cfg: Config, s: State, a: Step)
    requires WellFormed(cfg) && Inv(cfg, s) && Enabled(cfg, s, a)
    ensures Inv(cfg, Apply(cfg, s, a))
    ensures OutputsGrow(s.book.outputs, Apply(cfg, s, a).book.outputs)
  {
    StepConserves(cfg, s, a);
    StepKeepsOrder(cfg, s, a);
    StepKeepsVoiced(cfg, s, a);
    StepKeepsJustified(cfg, s, a);
    StepKeepsReported(cfg, s, a);
  }

  lemma {:induction false} RunKeepsInv(cfg: Config, s: State, steps: seq<Step>, s': State)
    requires WellFormed(cfg) && Inv(cfg, s) && Runs(cfg, s, steps, s')
    ensures Inv(cfg, s') && OutputsGrow(s.book.outputs, s'.book.outputs)
    decreases |steps|
  {
    if steps != [] {
      StepKeepsInv(cfg, s, steps[0]);
      RunKeepsInv(cfg, Apply(cfg, s, steps[0]), steps[1..], s');
    }
  }

  /** `s` is reachable from some start of the run. */
  ghost predicate Reachable(cfg: Config, s: State) {
    && WellFormed(cfg)
    && exists s0, steps :: Initial(cfg, s0) && Runs(cfg, s0, steps, s)
  }

  lemma ReachableInv(cfg: Config, s: State)
    requires Reachable(cfg, s)
    ensures Inv(cfg, s)
  {
    var s0, steps :| Initial(cfg, s0) && Runs(cfg, s0, steps, s);
    InitialConserved(cfg, s0);
    InitialShutdown(cfg, s0);
    RunKeepsInv(cfg, s0, steps, s);
  }

  // ----- conservation, stated for the reader -----

  /** At any moment a queued task is in exactly one place, and any other task is nowhere. */
  lemma ExactlyOnePlace(cfg: Config, s: State, t: Task)
    requires Reachable(cfg, s)
    ensures FeedOk(cfg, s.feed)
    ensures Times(s.feed.tasks, t) + InHands(s.pool.workers, t) + Times(TasksOf(s.pool.results), t)
            + Times(s.pool.abandoned, t) + Times(TasksOf(s.book.pending), t)
            + Times(TasksOf(s.book.committed), t) + Times(s.book.lost, t)
            == One(Queued(cfg, s.feed, t))
  {
    ReachableInv(cfg, s);
    assert Held(s, t) == One(Queued(cfg, s.feed, t));
  }

  ghost predicate Passed(cfg: Config, s: State, t: Task)
    requires FeedOk(cfg, s.feed)
  {
    t.chunk < |cfg.starts| && cfg.starts[t.chunk] <= t.index < s.feed.cursors[t.chunk]
  }

  /** When the loop has ended, each dispatched task is committed or lost: never both, never neither. */
  lemma CommittedOrLost(cfg: Config, s: State, t: Task)
    requires Reachable(cfg, s) && s.loop.phase.Ended?
    ensures FeedOk(cfg, s.feed)
    ensures Times(TasksOf(s.book.committed), t) + Times(s.book.lost, t) == One(Passed(cfg, s, t))
    ensures s.feed.tasks == [] && s.pool.results == [] && s.pool.abandoned == [] && s.book.pending == []
  {
    ReachableInv(cfg, s);
    forall w <- s.pool.workers ensures w.Exited? {
      var i :| 0 <= i < |s.pool.workers| && s.pool.workers[i] == w;
    }
    assert s.pool.workers[0].Exited?;
    NoHands(s.pool.workers, t);
    assert Held(s, t) == One(Queued(cfg, s.feed, t));
  }

  // ----- counting -----

  lemma DropOne(rs: seq<Result>, k: nat, t: Task, c: nat)
    requires k < |rs|
    ensures Times(TasksOf(rs), t) == Times(TasksOf(rs[..k] + rs[k + 1..]), t) + One(rs[k].task == t)
    ensures Share(rs, c) == Share(rs[..k] + rs[k + 1..], c) + One(rs[k].task.chunk == c)
  {
    var a, r, b := rs[..k], rs[k], rs[k + 1..];
    assert rs == a + [r] + b;
    BatchTimes(a + [r], b, t);
    RowTimes(a, r, t);
    BatchTimes(a, b, t);
    ShareAppend(a + [r], b, c);
    ShareOne(a, r, c);
    ShareAppend(a, b, c);
  }

  /** Results that cover a range of a chunk once each are as many as the range is long. */
  lemma {:induction false} ShareOfRange(rs: seq<Result>, c: nat, lo: nat, hi: nat)
    requires lo <= hi
    requires forall i: nat :: Times(TasksOf(rs), Task(c, i)) == One(lo <= i < hi)
    ensures Share(rs, c) == hi - lo
    decreases hi
  {
    if lo == hi {
      forall r <- rs ensures r.task.chunk != c {
        var k :| 0 <= k < |rs| && rs[k] == r;
        assert TasksOf(rs)[k] == r.task;
        TimesMember(TasksOf(rs), r.task);
        assert r.task.chunk == c ==> r.task == Task(c, r.task.index);
      }
      NoShare(rs, c);
    } else {
      TimesMember(TasksOf(rs), Task(c, hi - 1));
      var k :| 0 <= k < |rs| && TasksOf(rs)[k] == Task(c, hi - 1);
      var rest := rs[..k] + rs[k + 1..];
      forall i: nat ensures Times(TasksOf(rest), Task(c, i)) == One(lo <= i < hi - 1) {
        DropOne(rs, k, Task(c, i), c);
      }
      ShareOfRange(rest, c, lo, hi - 1);
      DropOne(rs, k, Task(c, hi - 1), c);
    }
  }

  // ----- the chunk states a run leaves behind -----

  ghost function LostIn(lost: seq<Task>, c: nat): set<nat> {
    set t <- lost | t.chunk == c :: t.index
  }

  lemma LostInMember(lost: seq<Task>, c: nat, i: nat)
    ensures i in LostIn(lost, c) <==> Task(c, i) in lost
  {
    assert Task(c, i) in lost ==> Task(c, i).index in LostIn(lost, c);
  }

  /** A tracker at the end of the loop: the dispatcher's cursor, and what the committer credited. */
  ghost predicate Unsettled(cfg: Config, s: State, c: nat, chunk: Chunk)
    requires FeedOk(cfg, s.feed) && c < |cfg.starts|
  {
    && chunk.nextIndex == s.feed.cursors[c]
    && chunk.scannedCount == cfg.starts[c] + Share(s.book.committed, c)
    && chunk.totalCount == cfg.totals[c]
  }

  /** The same tracker after the rewind that precedes every save. */
  ghost predicate Settled(cfg: Config, s: State, c: nat, saved: Chunk)
    requires FeedOk(cfg, s.feed) && c < |cfg.starts|
  {
    exists chunk :: Unsettled(cfg, s, c, chunk) && RewoundTo(chunk, LostIn(s.book.lost, c), saved)
  }

  /** The mark a tracker keeps names the same rewind as the whole set of lost tasks. */
  lemma MarkIsEnough(lost: seq<Task>, c: nat, mark: int, unwritten: set<nat>, chunk: Chunk, saved: Chunk)
    requires Marks(mark, lost, c)
    requires if unwritten == {} then mark == -1 else IsLeast(mark, unwritten)
    requires RewoundTo(chunk, unwritten, saved)
    ensures RewoundTo(chunk, LostIn(lost, c), saved)
  {
    if unwritten == {} {
      assert LostIn(lost, c) == {};
    } else {
      assert saved.nextIndex == mark;
      LostInMember(lost, c, mark);
    }
  }

  /** The row of a scanned task reached the full file, and the open file too when its port is open. */
  ghost predicate RowIn(files: Outputs, t: Task) {
    exists r: Result :: r in files.scan.file && r.task == t && (r.status.Open? ==> r in files.open.file)
  }

  ghost predicate Claimed(files: Outputs, c: nat, lo: int, hi: int) {
    forall i: nat :: lo <= i < hi ==> RowIn(files, Task(c, i))
  }

  lemma CommittedHasRow(s: State, t: Task)
    requires Backed(s.book) && Times(TasksOf(s.book.committed), t) > 0
    ensures RowIn(s.book.outputs, t)
  {
    TimesMember(TasksOf(s.book.committed), t);
    var k :| 0 <= k < |s.book.committed| && TasksOf(s.book.committed)[k] == t;
    assert s.book.committed[k] in s.book.committed;
  }

  /**
   Resume never skips a row: whatever failed, was canceled or panicked, each index from the
   starting cursor up to the saved cursor was flushed to both files.
   */
  lemma NoRowSkipped(cfg: Config, s: State, c: nat, saved: Chunk)
    requires Reachable(cfg, s) && s.loop.phase.Ended?
    requires c < |cfg.starts|
    requires FeedOk(cfg, s.feed) && Settled(cfg, s, c, saved)
    ensures Claimed(s.book.outputs, c, cfg.starts[c], saved.nextIndex)
  {
    ReachableInv(cfg, s);
    forall i: nat | cfg.starts[c] <= i < saved.nextIndex
      ensures RowIn(s.book.outputs, Task(c, i))
    {
      var t := Task(c, i);
      SavedBelowCursor(cfg, s, c, saved);
      CommittedOrLost(cfg, s, t);
      TimesMember(s.book.lost, t);
      CommittedHasRow(s, t);
    }
  }

  lemma SavedBelowCursor(cfg: Config, s: State, c: nat, saved: Chunk)
    requires Reachable(cfg, s) && s.loop.phase.Ended?
    requires c < |cfg.starts|
    requires FeedOk(cfg, s.feed) && Settled(cfg, s, c, saved)
    ensures cfg.starts[c] <= saved.nextIndex <= s.feed.cursors[c] <= cfg.totals[c]
    ensures saved.totalCount == cfg.totals[c]
    ensures forall i: nat :: i < saved.nextIndex ==> Task(c, i) !in s.book.lost
  {
    var lost := LostIn(s.book.lost, c);
    if lost != {} {
      var t := Task(c, saved.nextIndex);
      assert t in s.book.lost;
      CommittedOrLost(cfg, s, t);
      TimesMember(s.book.lost, t);
    }
    forall i: nat | i < saved.nextIndex ensures Task(c, i) !in s.book.lost {
      LostInMember(s.book.lost, c, i);
    }
  }

  /** The trackers end every run with the count equal to the cursor, inside the chunk's range. */
  lemma CursorAccounting(cfg: Config, s: State, c: nat, saved: Chunk)
    requires Reachable(cfg, s) && s.loop.phase.Ended?
    requires c < |cfg.starts|
    requires FeedOk(cfg, s.feed) && Settled(cfg, s, c, saved)
    ensures saved.scannedCount == saved.nextIndex
    ensures cfg.starts[c] <= saved.nextIndex <= s.feed.cursors[c] <= cfg.totals[c] == saved.totalCount
  {
    SavedBelowCursor(cfg, s, c, saved);
    if LostIn(s.book.lost, c) == {} {
      forall i: nat ensures Times(TasksOf(s.book.committed), Task(c, i)) == One(cfg.starts[c] <= i < s.feed.cursors[c]) {
        CommittedOrLost(cfg, s, Task(c, i));
        TimesMember(s.book.lost, Task(c, i));
        LostInMember(s.book.lost, c, i);
      }
      ShareOfRange(s.book.committed, c, cfg.starts[c], s.feed.cursors[c]);
    }
  }

  /** A chunk counts as complete only when every task of it was committed. */
  lemma CompleteMeansCommitted(cfg: Config, s: State, c: nat, saved: Chunk)
    requires Reachable(cfg, s) && s.loop.phase.Ended?
    requires c < |cfg.starts|
    requires FeedOk(cfg, s.feed) && Settled(cfg, s, c, saved)
    requires saved.scannedCount >= saved.totalCount
    ensures saved.nextIndex == cfg.totals[c]
    ensures Claimed(s.book.outputs, c, cfg.starts[c], cfg.totals[c])
  {
    CursorAccounting(cfg, s, c, saved);
    NoRowSkipped(cfg, s, c, saved);
  }

  // ----- errors -----

  /** A worker that panicked, and pressure reported before the loop left, end the run in an error. */
  lemma NoFatalErrorLost(cfg: Config, s: State)
    requires Reachable(cfg, s) && s.loop.phase.Ended?
    ensures s.pool.signals.panicker >= 0 ==> s.loop.runErr != NoError
    ensures s.env.pressureSent && !s.env.pressure ==> s.loop.runErr != NoError
  {
    ReachableInv(cfg, s);
    assert s.pool.workers[0].Exited?;
  }

  lemma BufferedPressureHeard(cfg: Config, s: State)
    requires Reachable(cfg, s) && LoopEnabled(s, Leave) && s.env.pressureSent
    ensures LoopApply(cfg, s, Leave).loop.runErr != NoError
  {
    ReachableInv(cfg, s);
  }

  /** Both errors nil, and nobody canceled from outside: every task of every chunk is committed. */
  lemma NilMeansDone(cfg: Config, s: State, c: nat)
    requires Reachable(cfg, s) && s.loop.phase.Ended?
    requires s.loop.runErr == NoError && s.loop.dispatchErr == Complete && !s.env.parentCanceled
    requires c < |cfg.starts|
    ensures s.book.lost == []
    ensures Claimed(s.book.outputs, c, cfg.starts[c], cfg.totals[c])
  {
    ReachableInv(cfg, s);
    NoFatalErrorLost(cfg, s);
    assert s.book.lost == [];
    forall i: nat | cfg.starts[c] <= i < cfg.totals[c]
      ensures RowIn(s.book.outputs, Task(c, i))
    {
      CommittedOrLost(cfg, s, Task(c, i));
      CommittedHasRow(s, Task(c, i));
    }
  }

  /** Once the executor is stopping, no worker starts a probe, and stopping is for good. */
  lemma NoProbeAfterStop(cfg: Config, s: State, a: Step, i: nat)
    requires Enabled(cfg, s, a) && s.pool.signals.stopping && i < |s.pool.workers|
    ensures var p := Apply(cfg, s, a).pool; p.signals.stopping && i < |p.workers| && (p.workers[i].Probing? ==> p.workers[i] == s.pool.workers[i])
  {
    if a.WorkerDoes? && a.w == i {
      assert !Next(cfg, s, i, a.k).Probing?;
    }
  }
}
