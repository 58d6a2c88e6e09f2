/**
 Conservation: in every reachable state each queued task is in exactly one place, and no
 place holds anything that was not queued.
 */
module ScanConservation {
  import opened ResultLedger
  import opened ScanPipeline

  // ----- where a task can be -----

  ghost predicate Carries(w: Worker, t: Task) {
    match w
    case Took(x) => x == t
    case Probing(x) => x == t
    case Delivering(r) => r.task == t
    case Refusing(x) => x == t
    case Panicked(x) => x == t
    case Holding(x) => x == t
    case _ => false
  }

  ghost function InHands(ws: seq<Worker>, t: Task): nat {
    if ws == [] then 0 else One(Carries(ws[0], t)) + InHands(ws[1..], t)
  }

  lemma {:induction false} HandsChange(ws: seq<Worker>, w: nat, me: Worker, t: Task)
    requires w < |ws|
    ensures InHands(ws[w := me], t) + One(Carries(ws[w], t)) == InHands(ws, t) + One(Carries(me, t))
  {
    if w == 0 {
      assert ws[0 := me][1..] == ws[1..];
    } else {
      assert ws[w := me][1..] == ws[1..][w - 1 := me];
      assert ws[w := me][0] == ws[0];
      HandsChange(ws[1..], w - 1, me, t);
    }
  }

  lemma {:induction false} NoHands(ws: seq<Worker>, t: Task)
    requires forall w <- ws :: !Carries(w, t)
    ensures InHands(ws, t) == 0
  {
    if ws != [] {
      assert ws[0] in ws;
      NoHands(ws[1..], t);
    }
  }

  /** How often the run holds a task: in a queue, in a hand, or in the committer's books. */
  ghost function Held(s: State, t: Task): nat {
    Times(s.feed.tasks, t) + InHands(s.pool.workers, t) + Times(TasksOf(s.pool.results), t)
    + Times(s.pool.abandoned, t) + Accounted(s.book, t)
  }

  // ----- one step moves a task, and only Send adds one -----

  ghost predicate Adds(s: State, a: Step, t: Task) {
    a == FeedDoes(Send) && s.feed.phase == AtTask(t.chunk, t.index)
  }

  lemma ResultsPop(q: seq<Result>, t: Task)
    requires q != []
    ensures Times(TasksOf(q), t) == One(q[0].task == t) + Times(TasksOf(q[1..]), t)
  {
    TimesPop(TasksOf(q), t);
    assert TasksOf(q)[1..] == TasksOf(q[1..]);
  }

  /** A worker's hand changes by exactly what it takes from, or puts into, a queue. */
  lemma HandBalance(cfg: Config, s: State, w: nat, a: WorkStep, t: Task)
    requires WorkEnabled(cfg, s, w, a)
    ensures var me := s.pool.workers[w];
      One(Carries(Next(cfg, s, w, a), t)) ==
        if Takes(a) then One(s.feed.tasks[0] == t)
        else if a.Deliver? || GivesBack(a) then 0
        else One(Carries(me, t))
    ensures var me := s.pool.workers[w];
      One(Carries(me, t)) ==
        if Takes(a) then 0
        else if a.Deliver? then One(me.result.task == t)
        else if GivesBack(a) then One(me.task == t)
        else One(Carries(me, t))
  {
  }

  lemma WorkMoves(cfg: Config, s: State, w: nat, a: WorkStep, t: Task)
    requires WorkEnabled(cfg, s, w, a)
    ensures Held(WorkApply(cfg, s, w, a), t) == Held(s, t)
  {
    HandsChange(s.pool.workers, w, Next(cfg, s, w, a), t);
    HandBalance(cfg, s, w, a, t);
    if Takes(a) {
      TimesPop(s.feed.tasks, t);
    } else if a.Deliver? {
      RowTimes(s.pool.results, s.pool.workers[w].result, t);
    } else if GivesBack(a) {
      TimesPush(s.pool.abandoned, s.pool.workers[w].task, t);
    }
  }

  lemma LoopMoves(cfg: Config, s: State, a: LoopStep, t: Task)
    requires LoopEnabled(s, a) && (s.book.failed ==> s.book.pending == [])
    ensures Held(LoopApply(cfg, s, a), t) == Held(s, t)
  {
    match a
    case HearResult(io) => ResultMoves(cfg, s, io, t);
    case HearAbandoned =>
      TimesPop(s.pool.abandoned, t);
      TimesPush(s.book.lost, s.pool.abandoned[0], t);
    case FinishBatch(io) => FinishAccounts(s.book, io, t);
    case _ =>
  }

  lemma ResultMoves(cfg: Config, s: State, io: Io, t: Task)
    requires LoopEnabled(s, HearResult(io)) && (s.book.failed ==> s.book.pending == [])
    ensures Held(LoopApply(cfg, s, HearResult(io)), t) == Held(s, t)
  {
    ResultsPop(s.pool.results, t);
    AcceptAccounts(s.book, cfg.interval, s.pool.results[0], io, t);
  }

  lemma StepMoves(cfg: Config, s: State, a: Step, t: Task)
    requires Enabled(cfg, s, a) && (s.book.failed ==> s.book.pending == [])
    ensures Held(Apply(cfg, s, a), t) == Held(s, t) + One(Adds(s, a, t))
  {
    match a
    case WorkerDoes(w, k) => WorkMoves(cfg, s, w, k, t);
    case LoopDoes(l) => LoopMoves(cfg, s, l, t);
    case FeedDoes(f) => FeedMoves(cfg, s, f, t);
    case _ =>
  }

  lemma FeedMoves(cfg: Config, s: State, a: FeedStep, t: Task)
    requires |s.feed.cursors| == |cfg.totals| && FeedEnabled(cfg, s, a)
    ensures Held(FeedApply(cfg, s, a), t) == Held(s, t) + One(Adds(s, FeedDoes(a), t))
  {
    if a.Send? {
      TimesPush(s.feed.tasks, Task(s.feed.phase.chunk, s.feed.phase.index), t);
    }
  }

  // ----- tasks that were queued -----

  ghost predicate FeedOk(cfg: Config, f: Dispatcher) {
    && |f.cursors| == |cfg.starts| == |cfg.totals|
    && (forall c :: 0 <= c < |cfg.starts| ==> cfg.starts[c] <= f.cursors[c] <= cfg.totals[c])
    && (f.phase.Ranging? ==> f.phase.next <= |cfg.starts|)
    && (f.phase.AtTask? ==> f.phase.chunk < |cfg.starts| && f.cursors[f.phase.chunk] == f.phase.index)
    && (f.phase.Sent? ==> f.phase.chunk < |cfg.starts| && f.cursors[f.phase.chunk] == f.phase.index < cfg.totals[f.phase.chunk])
  }

  /** A task is queued when the cursor passed it, or it was sent and the cursor is about to. */
  ghost predicate Queued(cfg: Config, f: Dispatcher, t: Task)
    requires FeedOk(cfg, f)
  {
    && t.chunk < |cfg.starts|
    && cfg.starts[t.chunk] <= t.index
    && (t.index < f.cursors[t.chunk] || f.phase == Sent(t.chunk, t.index))
  }

  lemma FeedStays(cfg: Config, s: State, a: FeedStep)
    requires WellFormed(cfg) && FeedOk(cfg, s.feed) && FeedEnabled(cfg, s, a)
    ensures FeedOk(cfg, FeedApply(cfg, s, a).feed)
    ensures forall t :: Queued(cfg, FeedApply(cfg, s, a).feed, t) <==>
                        Queued(cfg, s.feed, t) || Adds(s, FeedDoes(a), t)
    ensures forall t :: Adds(s, FeedDoes(a), t) ==> !Queued(cfg, s.feed, t)
  {
  }

  lemma OthersKeepFeed(cfg: Config, s: State, a: Step)
    requires Enabled(cfg, s, a) && !a.FeedDoes?
    ensures Apply(cfg, s, a).feed.phase == s.feed.phase && Apply(cfg, s, a).feed.cursors == s.feed.cursors
  {
  }

  // ----- the invariant -----

  /** Each queued task is held exactly once, and nothing else is held. */
  ghost predicate Conserved(cfg: Config, s: State) {
    && FeedOk(cfg, s.feed)
    && Backed(s.book)
    && (forall t :: Held(s, t) == One(Queued(cfg, s.feed, t)))
  }

  lemma InitialConserved(cfg: Config, s: State)
    requires WellFormed(cfg) && Initial(cfg, s)
    ensures Conserved(cfg, s)
  {
    forall t ensures Held(s, t) == 0 {
      NoHands(s.pool.workers, t);
    }
  }

  lemma StepKeepsBacked(cfg: Config, s: State, a: Step)
    requires Enabled(cfg, s, a) && Backed(s.book)
    ensures Backed(Apply(cfg, s, a).book)
    ensures OutputsGrow(s.book.outputs, Apply(cfg, s, a).book.outputs)
  {
    match a
    case LoopDoes(HearResult(io)) => AcceptKeepsBacked(s.book, cfg.interval, s.pool.results[0], io);
    case LoopDoes(FinishBatch(io)) => FinishKeepsBacked(s.book, io);
    case _ =>
  }

  lemma StepConserves(cfg: Config, s: State, a: Step)
    requires WellFormed(cfg) && Conserved(cfg, s) && Enabled(cfg, s, a)
    ensures Conserved(cfg, Apply(cfg, s, a))
    ensures OutputsGrow(s.book.outputs, Apply(cfg, s, a).book.outputs)
  {
    forall t ensures Held(Apply(cfg, s, a), t) == Held(s, t) + One(Adds(s, a, t)) {
      StepMoves(cfg, s, a, t);
    }
    StepKeepsBacked(cfg, s, a);
    if a.FeedDoes? {
      FeedStays(cfg, s, a.f);
    } else {
      OthersKeepFeed(cfg, s, a);
    }
  }
}
