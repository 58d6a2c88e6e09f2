/**
 How a run shuts down: which channel can be closed when, what the result loop has seen by
 the time it leaves, and why a task can be given back at all.
 */
module ScanShutdown {
  import opened Wrappers
  import opened ResultLedger
  import opened ScanPipeline

  // ----- closing order -----

  /** Each channel is closed only by a sender that sends no more, and each reader drains it first. */
  ghost predicate InOrder(s: State) {
    var p, l := s.pool, s.loop;
    && (s.feed.tasksClosed <==> s.feed.phase.Gone?)
    && (s.feed.phase.Closing? || s.feed.phase.Gone? ==> s.feed.message.Some? || l.dispatchDone)
    && p.waiter <= 4
    && (p.waiter == 4 ==> p.signals.fatalClosed)
    && (forall i :: 0 <= i < |p.workers| ==> p.workers[i].Exited? ==> s.feed.tasksClosed && s.feed.tasks == [])
    && (p.waiter >= 1 ==> forall i :: 0 <= i < |p.workers| ==> p.workers[i].Exited?)
    && |p.workers| >= 1
    && (!l.resultsOpen ==> p.waiter >= 2 && p.results == [])
    && (!l.abandonedOpen ==> p.waiter >= 3 && p.abandoned == [])
    && (!l.fatalOpen ==> p.signals.fatalClosed && !p.signals.fatal)
    && (!l.phase.Looping? ==> Emptied(l))
    && (l.phase.Ended? ==> s.book.pending == [])
  }

  lemma WorkKeepsOrder(cfg: Config, s: State, w: nat, a: WorkStep)
    requires InOrder(s) && Voiced(s) && WorkEnabled(cfg, s, w, a)
    ensures InOrder(WorkApply(cfg, s, w, a))
  {
    assert !s.pool.workers[w].Exited?;
    assert s.pool.waiter == 0;
  }

  lemma LoopKeepsOrder(cfg: Config, s: State, a: LoopStep)
    requires InOrder(s) && LoopEnabled(s, a) && (s.book.failed ==> s.book.pending == [])
    ensures InOrder(LoopApply(cfg, s, a))
  {
    match a
    case HearPressure =>
    case HearResult(io) =>
    case FinishBatch(io) =>
    case _ =>
  }

  lemma StepKeepsOrder(cfg: Config, s: State, a: Step)
    requires InOrder(s) && Voiced(s) && Enabled(cfg, s, a) && (s.book.failed ==> s.book.pending == [])
    ensures InOrder(Apply(cfg, s, a))
  {
    match a
    case WorkerDoes(w, k) => WorkKeepsOrder(cfg, s, w, k);
    case LoopDoes(l) => LoopKeepsOrder(cfg, s, l);
    case _ =>
  }

  // ----- the fatal error of a panicking worker -----

  predicate IsTelling(w: Worker) {
    w.Halting? || w.Telling?
  }

  predicate IsPanicking(w: Worker) {
    w.Panicked? || w.Reporting?
  }

  /** A told error is in the channel or in `runErr`; only the worker inside the once can tell it. */
  ghost predicate ToldOnce(s: State) {
    var p, g := s.pool, s.pool.signals;
    && (g.told ==> g.fatal || s.loop.runErr != NoError)
    && (g.told ==> g.once)
    && (g.fatal ==> g.told)
    && (g.once && !g.told && p.waiter < 4 ==> g.teller < |p.workers| && IsTelling(p.workers[g.teller]))
    && (forall i :: 0 <= i < |p.workers| && IsTelling(p.workers[i]) ==> g.once && !g.told && g.teller == i)
    && (g.fatalClosed && p.waiter < 4 ==> g.told)
    && (forall i :: 0 <= i < |p.workers| && p.workers[i].Shutting? ==> g.told)
  }

  /** Until the once is taken, the last worker that panicked is about to take it. */
  ghost predicate PanicPending(s: State) {
    var p, g := s.pool, s.pool.signals;
    && (g.panicker >= 0 && !g.once ==> g.panicker < |p.workers| && IsPanicking(p.workers[g.panicker]))
    && (g.panicker >= 0 && p.waiter >= 4 ==> g.told)
    && (g.once && p.waiter < 4 ==> g.panicker >= 0)
    && (forall i :: 0 <= i < |p.workers| && IsPanicking(p.workers[i]) ==> g.panicker >= 0)
  }

  /** No fatal error goes unheard: a panic is on its way to `runErr`, and so is reported pressure. */
  ghost predicate Voiced(s: State) {
    && ToldOnce(s)
    && PanicPending(s)
    && (s.env.pressureSent && !s.env.pressure ==> s.loop.runErr != NoError)
  }

  lemma WorkKeepsToldOnce(cfg: Config, s: State, w: nat, a: WorkStep)
    requires ToldOnce(s) && WorkEnabled(cfg, s, w, a) && s.pool.waiter == 0
    ensures ToldOnce(WorkApply(cfg, s, w, a))
  {
  }

  lemma WorkKeepsPanicPending(cfg: Config, s: State, w: nat, a: WorkStep)
    requires PanicPending(s) && ToldOnce(s) && WorkEnabled(cfg, s, w, a) && s.pool.waiter == 0
    ensures PanicPending(WorkApply(cfg, s, w, a))
  {
  }

  lemma WorkKeepsVoiced(cfg: Config, s: State, w: nat, a: WorkStep)
    requires Voiced(s) && InOrder(s) && WorkEnabled(cfg, s, w, a)
    ensures Voiced(WorkApply(cfg, s, w, a))
  {
    assert !s.pool.workers[w].Exited?;
    WorkKeepsToldOnce(cfg, s, w, a);
    WorkKeepsPanicPending(cfg, s, w, a);
  }

  lemma WaitKeepsVoiced(s: State)
    requires Voiced(s) && InOrder(s) && WaitEnabled(s)
    ensures Voiced(WaitApply(s))
  {
  }

  lemma LoopKeepsVoiced(cfg: Config, s: State, a: LoopStep)
    requires Voiced(s) && LoopEnabled(s, a)
    ensures Voiced(LoopApply(cfg, s, a))
  {
  }

  lemma StepKeepsVoiced(cfg: Config, s: State, a: Step)
    requires Voiced(s) && InOrder(s) && Enabled(cfg, s, a)
    ensures Voiced(Apply(cfg, s, a))
  {
    match a
    case WorkerDoes(w, k) => WorkKeepsVoiced(cfg, s, w, k);
    case WaiterDoes => WaitKeepsVoiced(s);
    case LoopDoes(l) => LoopKeepsVoiced(cfg, s, l);
    case _ =>
  }

  // ----- why a task is given back -----

  /** Somebody canceled the run, a worker panicked, or an error ended it. */
  ghost predicate Disturbed(s: State) {
    s.env.parentCanceled || s.pool.signals.panicker >= 0 || s.loop.runErr != NoError
  }

  predicate IsGivingUp(w: Worker) {
    !(w.Selecting? || w.Took? || w.Probing? || w.Delivering? || w.Exited?)
  }

  ghost predicate Justified(s: State) {
    var p := s.pool;
    && (s.env.canceled ==> s.loop.runErr != NoError)
    && (p.waiter == 0 && (p.signals.stopped || p.signals.stopping) ==> Disturbed(s))
    && (forall i :: 0 <= i < |p.workers| && IsGivingUp(p.workers[i]) ==> Disturbed(s))
    && (p.abandoned != [] ==> Disturbed(s))
    && (s.book.lost != [] ==> Disturbed(s))
    && (s.book.failed ==> s.loop.runErr != NoError)
  }

  lemma WorkKeepsJustified(cfg: Config, s: State, w: nat, a: WorkStep)
    requires Justified(s) && InOrder(s) && Voiced(s) && WorkEnabled(cfg, s, w, a)
    ensures Justified(WorkApply(cfg, s, w, a))
  {
    assert !s.pool.workers[w].Exited?;
    assert s.pool.waiter == 0;
  }

  lemma LoopKeepsJustified(cfg: Config, s: State, a: LoopStep)
    requires Justified(s) && LoopEnabled(s, a) && (s.book.failed ==> s.book.pending == [])
    ensures Justified(LoopApply(cfg, s, a))
  {
  }

  lemma StepKeepsJustified(cfg: Config, s: State, a: Step)
    requires Justified(s) && InOrder(s) && Voiced(s) && Enabled(cfg, s, a) && (s.book.failed ==> s.book.pending == [])
    ensures Justified(Apply(cfg, s, a))
  {
    match a
    case WorkerDoes(w, k) => WorkKeepsJustified(cfg, s, w, k);
    case LoopDoes(l) => LoopKeepsJustified(cfg, s, l);
    case _ =>
  }

  // ----- what a finished dispatch means -----

  ghost predicate AllSent(cfg: Config, f: Dispatcher, upTo: nat) {
    forall c :: 0 <= c < upTo && c < |f.cursors| && c < |cfg.totals| ==> f.cursors[c] == cfg.totals[c]
  }

  /** A dispatcher that reports no error sent every task of every chunk. */
  ghost predicate Reported(cfg: Config, s: State) {
    var f := s.feed;
    && (f.phase.Ranging? ==> AllSent(cfg, f, f.phase.next))
    && (f.phase.AtTask? || f.phase.Sent? ==> AllSent(cfg, f, f.phase.chunk))
    && (f.phase == Returning(Complete) ==> AllSent(cfg, f, |cfg.totals|))
    && (f.message.Some? || s.loop.dispatchDone ==> f.phase.Closing? || f.phase.Gone?)
    && (f.message == Some(Complete) ==> AllSent(cfg, f, |cfg.totals|))
    && (s.loop.dispatchDone && s.loop.dispatchErr == Complete ==> AllSent(cfg, f, |cfg.totals|))
  }

  lemma StepKeepsReported(cfg: Config, s: State, a: Step)
    requires Reported(cfg, s) && Enabled(cfg, s, a)
    requires |s.feed.cursors| == |cfg.totals|
    requires forall c :: 0 <= c < |cfg.totals| ==> s.feed.cursors[c] <= cfg.totals[c]
    requires s.feed.phase.AtTask? ==> s.feed.phase.chunk < |cfg.totals| && s.feed.cursors[s.feed.phase.chunk] == s.feed.phase.index
    ensures Reported(cfg, Apply(cfg, s, a))
  {
  }

  // ----- the start -----

  lemma InitialShutdown(cfg: Config, s: State)
    requires Initial(cfg, s)
    ensures InOrder(s) && Voiced(s) && Justified(s) && Reported(cfg, s)
  {
    forall i | 0 <= i < |s.pool.workers| ensures s.pool.workers[i] == Selecting {
      assert s.pool.workers[i] in s.pool.workers;
    }
  }
}
