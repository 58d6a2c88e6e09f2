/**
 The pipeline neither deadlocks nor runs forever: before the result loop has ended some
 process can always step, and every step of any process makes the rest of the run shorter.
 */
module ScanLiveness {
  import opened Wrappers
  import opened ResultLedger
  import opened ScanPipeline
  import opened ScanConservation
  import opened ScanShutdown
  import opened ScanOutcome

  // ----- a bound on the rest of the run -----

  function WorkerLeft(w: Worker): nat {
    match w
    case Selecting => 11
    case Took(_) => 16
    case Probing(_) => 15
    case Delivering(_) => 14
    case Refusing(_) => 14
    case Panicked(_) => 13
    case Reporting => 9
    case Halting => 8
    case Telling => 7
    case Shutting => 5
    case Draining => 4
    case Holding(_) => 7
    case Exited => 0
  }

  ghost function WorkersLeft(ws: seq<Worker>): nat {
    if ws == [] then 0 else WorkerLeft(ws[0]) + WorkersLeft(ws[1..])
  }

  lemma {:induction false} WorkersLeftChange(ws: seq<Worker>, w: nat, me: Worker)
    requires w < |ws|
    ensures WorkersLeft(ws[w := me]) + WorkerLeft(ws[w]) == WorkersLeft(ws) + WorkerLeft(me)
  {
    if w == 0 {
      assert ws[0 := me][1..] == ws[1..];
    } else {
      assert ws[w := me][1..] == ws[1..][w - 1 := me];
      assert ws[w := me][0] == ws[0];
      WorkersLeftChange(ws[1..], w - 1, me);
    }
  }

  /** Tasks whose cursor has not passed them. */
  ghost function Ahead(totals: seq<nat>, cursors: seq<nat>): int
    requires |totals| == |cursors|
  {
    if totals == [] then 0 else totals[0] - cursors[0] + Ahead(totals[1..], cursors[1..])
  }

  lemma {:induction false} AheadChange(totals: seq<nat>, cursors: seq<nat>, c: nat)
    requires |totals| == |cursors| && c < |cursors|
    ensures Ahead(totals, cursors[c := cursors[c] + 1]) == Ahead(totals, cursors) - 1
  {
    if c == 0 {
      assert cursors[0 := cursors[0] + 1][1..] == cursors[1..];
    } else {
      assert cursors[c := cursors[c] + 1][1..] == cursors[1..][c - 1 := cursors[c] + 1];
      AheadChange(totals[1..], cursors[1..], c - 1);
    }
  }

  lemma {:induction false} AheadIsCount(totals: seq<nat>, cursors: seq<nat>, c: nat)
    requires |totals| == |cursors|
    requires forall i :: 0 <= i < |totals| ==> cursors[i] <= totals[i]
    ensures Ahead(totals, cursors) >= if c < |totals| then totals[c] - cursors[c] else 0
  {
    if totals != [] {
      AheadIsCount(totals[1..], cursors[1..], if c == 0 then |totals| else c - 1);
    }
  }

  ghost function PhaseLeft(cfg: Config, p: DispatcherPhase): int {
    var n := |cfg.totals|;
    match p
    case Ranging(k) => 2 * (n - k) + 4
    case AtTask(k, _) => 2 * (n - k) + 3
    case Sent(k, _) => 2 * (n - k) - 4
    case Returning(_) => 3
    case Closing => 1
    case Gone => 0
  }

  function Flag(b: bool, weight: nat): nat {
    if b then weight else 0
  }

  ghost function FeedLeft(cfg: Config, f: Dispatcher): int
    requires |cfg.totals| == |f.cursors|
  {
    8 * Ahead(cfg.totals, f.cursors) + PhaseLeft(cfg, f.phase) + 6 * |f.tasks| + Flag(f.message.Some?, 1)
  }

  ghost function PoolLeft(p: Pool): int {
    WorkersLeft(p.workers) + |p.results| + |p.abandoned| + 4 - p.waiter
    + Flag(p.signals.fatal, 1) + Flag(!p.signals.stopping, 1)
  }

  ghost function LoopLeft(l: Loop): nat {
    Flag(l.resultsOpen, 1) + Flag(l.abandonedOpen, 1) + Flag(l.fatalOpen, 1)
    + Flag(l.phase.Looping?, 1) + Flag(!l.phase.Ended?, 1)
  }

  ghost function EnvLeft(e: Env): nat {
    Flag(!e.parentCanceled, 1) + Flag(!e.pressureSent, 2) + Flag(e.pressure, 1)
  }

  /** At most this many steps remain. */
  ghost function Left(cfg: Config, s: State): int
    requires |cfg.totals| == |s.feed.cursors|
  {
    FeedLeft(cfg, s.feed) + PoolLeft(s.pool) + LoopLeft(s.loop) + EnvLeft(s.env)
  }

  lemma LeftIsNatural(cfg: Config, s: State)
    requires Inv(cfg, s)
    ensures Left(cfg, s) >= 0
  {
    var p := s.feed.phase;
    AheadIsCount(cfg.totals, s.feed.cursors, if p.Sent? then p.chunk else 0);
  }

  lemma FeedShortens(cfg: Config, s: State, a: FeedStep)
    requires FeedOk(cfg, s.feed) && FeedEnabled(cfg, s, a)
    ensures Left(cfg, FeedApply(cfg, s, a)) < Left(cfg, s)
  {
    if a.Advance? {
      AheadChange(cfg.totals, s.feed.cursors, s.feed.phase.chunk);
    }
  }

  lemma WorkShortens(cfg: Config, s: State, w: nat, a: WorkStep)
    requires |cfg.totals| == |s.feed.cursors| && Voiced(s) && WorkEnabled(cfg, s, w, a)
    ensures Left(cfg, WorkApply(cfg, s, w, a)) < Left(cfg, s)
  {
    WorkersLeftChange(s.pool.workers, w, Next(cfg, s, w, a));
    NextShortens(cfg, s, w, a);
  }

  lemma NextShortens(cfg: Config, s: State, w: nat, a: WorkStep)
    requires Voiced(s) && WorkEnabled(cfg, s, w, a)
    ensures WorkerLeft(Next(cfg, s, w, a)) + Flag(GivesBack(a) || a.Deliver?, 1) + Flag(Signal(s, w, a).fatal, 1)
            < WorkerLeft(s.pool.workers[w]) + Flag(Takes(a), 6) + Flag(s.pool.signals.fatal, 1)
    ensures s.pool.signals.stopping ==> Signal(s, w, a).stopping
  {
  }

  lemma EnvShortens(cfg: Config, s: State, a: EnvStep)
    requires |cfg.totals| == |s.feed.cursors| && EnvEnabled(s, a)
    ensures Left(cfg, EnvApply(s, a)) < Left(cfg, s)
  {
  }

  lemma WaitShortens(cfg: Config, s: State)
    requires |cfg.totals| == |s.feed.cursors| && WaitEnabled(s)
    ensures Left(cfg, WaitApply(s)) < Left(cfg, s)
  {
  }

  lemma LoopShortens(cfg: Config, s: State, a: LoopStep)
    requires |cfg.totals| == |s.feed.cursors| && LoopEnabled(s, a)
    ensures Left(cfg, LoopApply(cfg, s, a)) < Left(cfg, s)
  {
    var s' := LoopApply(cfg, s, a);
    assert FeedLeft(cfg, s'.feed) == FeedLeft(cfg, s.feed) - Flag(a.HearDispatch?, 1);
    assert PoolLeft(s'.pool) == PoolLeft(s.pool) - Flag(a.HearResult? || a.HearAbandoned? || a.HearFatal?, 1);
    assert LoopLeft(s'.loop) == LoopLeft(s.loop)
      - Flag(a.HearResultsClosed? || a.HearAbandonedClosed? || a.HearFatalClosed? || a.Leave? || a.FinishBatch?, 1);
    assert EnvLeft(s'.env) <= EnvLeft(s.env) - Flag(a.HearPressure?, 1);
  }

  /** Every step of every process, the environment included, leaves a shorter run. */
  lemma StepShortens(cfg: Config, s: State, a: Step)
    requires FeedOk(cfg, s.feed) && Voiced(s) && Enabled(cfg, s, a)
    ensures |cfg.totals| == |Apply(cfg, s, a).feed.cursors|
    ensures Left(cfg, Apply(cfg, s, a)) < Left(cfg, s)
  {
    match a
    case EnvDoes(e) => EnvShortens(cfg, s, e);
    case FeedDoes(f) => FeedShortens(cfg, s, f);
    case WorkerDoes(w, k) => WorkShortens(cfg, s, w, k);
    case WaiterDoes => WaitShortens(cfg, s);
    case LoopDoes(l) => LoopShortens(cfg, s, l);
  }

  /** No run is longer than the bound of its first state: the pipeline always comes to rest. */
  lemma {:induction false} RunIsBounded(cfg: Config, s: State, steps: seq<Step>, s': State)
    requires WellFormed(cfg) && Inv(cfg, s) && Runs(cfg, s, steps, s')
    ensures |steps| <= Left(cfg, s)
    decreases |steps|
  {
    if steps == [] {
      LeftIsNatural(cfg, s);
    } else {
      FirstStep(cfg, s, steps[0]);
      RunIsBounded(cfg, Apply(cfg, s, steps[0]), steps[1..], s');
    }
  }

  lemma FirstStep(cfg: Config, s: State, a: Step)
    requires WellFormed(cfg) && Inv(cfg, s) && Enabled(cfg, s, a)
    ensures Inv(cfg, Apply(cfg, s, a)) && Left(cfg, Apply(cfg, s, a)) < Left(cfg, s)
  {
    StepKeepsInv(cfg, s, a);
    StepShortens(cfg, s, a);
  }

  // ----- no deadlock -----

  /** A file operation always has some outcome. */
  lemma SomeOutcome(b: Book, r: Result)
    ensures exists io :: AcceptIo(b, r, io)
    ensures exists io :: FinishIo(b, io)
  {
    var o := b.outputs;
    var broken := Outputs(Sink(o.scan.file, []), o.open);
    assert AcceptIo(b, r, Io(false, broken, false, broken));
    assert FinishIo(b, Io(false, o, false, broken));
  }

  /** With the queues to the result loop empty, a worker that has not left can step, or waits for a task. */
  lemma WorkerCanStep(cfg: Config, s: State, w: nat)
    requires 1 <= cfg.capacity && w < |s.pool.workers| && !s.pool.workers[w].Exited?
    requires s.pool.results == [] && s.pool.abandoned == []
    ensures (exists k :: WorkEnabled(cfg, s, w, k)) || (s.feed.tasks == [] && !s.feed.tasksClosed)
  {
    match s.pool.workers[w]
    case Selecting =>
      assert s.feed.tasks != [] ==> WorkEnabled(cfg, s, w, Take);
      assert s.feed.tasks == [] && s.feed.tasksClosed ==> WorkEnabled(cfg, s, w, SeeClosed);
    case Took(_) => assert WorkEnabled(cfg, s, w, Start) || WorkEnabled(cfg, s, w, Refuse);
    case Probing(_) => assert WorkEnabled(cfg, s, w, EndProbe(Close));
    case Delivering(_) => assert WorkEnabled(cfg, s, w, Deliver);
    case Refusing(_) => assert WorkEnabled(cfg, s, w, GiveBack);
    case Panicked(_) => assert WorkEnabled(cfg, s, w, GiveBackPanicked);
    case Reporting => assert WorkEnabled(cfg, s, w, Report);
    case Halting => assert WorkEnabled(cfg, s, w, Halt);
    case Telling => assert WorkEnabled(cfg, s, w, Tell);
    case Shutting => assert WorkEnabled(cfg, s, w, ShutFatal);
    case Draining =>
      assert s.feed.tasks != [] ==> WorkEnabled(cfg, s, w, DrainTake);
      assert s.feed.tasks == [] && s.feed.tasksClosed ==> WorkEnabled(cfg, s, w, DrainEnd);
    case Holding(_) => assert WorkEnabled(cfg, s, w, DrainGive);
  }

  lemma DispatcherCanStep(cfg: Config, s: State)
    requires WellFormed(cfg) && FeedOk(cfg, s.feed) && s.feed.tasks == [] && !s.feed.phase.Gone?
    ensures exists f :: FeedEnabled(cfg, s, f)
  {
    match s.feed.phase
    case Ranging(_) => assert FeedEnabled(cfg, s, NextChunk) || FeedEnabled(cfg, s, AllChunks);
    case AtTask(_, _) => assert FeedEnabled(cfg, s, Send) || FeedEnabled(cfg, s, ChunkDone);
    case Sent(_, _) => assert FeedEnabled(cfg, s, Advance);
    case Returning(_) => assert FeedEnabled(cfg, s, Return);
    case Closing => assert FeedEnabled(cfg, s, CloseTasks);
  }

  ghost predicate CanStep(cfg: Config, s: State) {
    exists a :: Enabled(cfg, s, a) && !a.EnvDoes?
  }

  lemma LoopCanStep(cfg: Config, s: State, a: LoopStep)
    requires LoopEnabled(s, a)
    ensures CanStep(cfg, s)
  {
    assert Enabled(cfg, s, LoopDoes(a));
  }

  /** Until the result loop has ended, some process other than the environment can step. */
  lemma NoDeadlock(cfg: Config, s: State)
    requires Reachable(cfg, s) && !s.loop.phase.Ended?
    ensures CanStep(cfg, s)
  {
    ReachableInv(cfg, s);
    var l, p := s.loop, s.pool;
    if l.phase.Finishing? {
      SomeOutcome(s.book, Result(Task(0, 0), Close));
      var io :| FinishIo(s.book, io);
      LoopCanStep(cfg, s, FinishBatch(io));
    } else if Emptied(l) {
      LoopCanStep(cfg, s, Leave);
    } else if p.results != [] {
      SomeOutcome(s.book, p.results[0]);
      var io :| AcceptIo(s.book, p.results[0], io);
      LoopCanStep(cfg, s, HearResult(io));
    } else if p.abandoned != [] {
      LoopCanStep(cfg, s, HearAbandoned);
    } else if s.feed.message.Some? {
      LoopCanStep(cfg, s, HearDispatch);
    } else if l.fatalOpen && p.signals.fatal {
      LoopCanStep(cfg, s, HearFatal);
    } else {
      QuietCanStep(cfg, s);
    }
  }

  /** The remaining case: nothing is waiting for the result loop, and it waits for the others. */
  lemma QuietCanStep(cfg: Config, s: State)
    requires WellFormed(cfg) && Inv(cfg, s) && s.loop.phase.Looping? && !Emptied(s.loop)
    requires s.pool.results == [] && s.pool.abandoned == [] && s.feed.message.None?
    requires !(s.loop.fatalOpen && s.pool.signals.fatal)
    ensures CanStep(cfg, s)
  {
    if w :| 0 <= w < |s.pool.workers| && !s.pool.workers[w].Exited? {
      WorkerCanStep(cfg, s, w);
      if k :| WorkEnabled(cfg, s, w, k) {
        assert Enabled(cfg, s, WorkerDoes(w, k));
      } else {
        DispatcherCanStep(cfg, s);
        var f :| FeedEnabled(cfg, s, f);
        assert Enabled(cfg, s, FeedDoes(f));
      }
    } else if s.pool.waiter < 4 {
      assert forall w <- s.pool.workers :: w.Exited?;
      assert Enabled(cfg, s, WaiterDoes);
    } else if s.loop.resultsOpen {
      LoopCanStep(cfg, s, HearResultsClosed);
    } else if s.loop.abandonedOpen {
      LoopCanStep(cfg, s, HearAbandonedClosed);
    } else {
      assert s.pool.workers[0].Exited?;
      LoopCanStep(cfg, s, HearFatalClosed);
    }
  }
}
