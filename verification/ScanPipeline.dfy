/**
 The running scan as a state machine: one dispatcher, any number of workers, the goroutine
 that waits for the workers, the result loop, and an environment that can cancel the run or
 report pressure at any time. A step is one channel operation, one tracker or context call,
 or one probe; between any two of them every other process may run.
 */
module ScanPipeline {
  import opened Wrappers
  import opened ResultLedger

  /** Where each chunk of the run starts and ends, and the sizes the run was given. */
  datatype Config = Config(starts: seq<nat>, totals: seq<nat>, capacity: nat, interval: int)

  ghost predicate WellFormed(cfg: Config) {
    && |cfg.starts| == |cfg.totals|
    && (forall c :: 0 <= c < |cfg.starts| ==> cfg.starts[c] <= cfg.totals[c])
    && 1 <= cfg.capacity
  }

  // ----- processes -----

  datatype DispatchOutcome = Complete | Canceled | Broken

  datatype DispatcherPhase =
    | Ranging(next: nat)
    | AtTask(chunk: nat, index: nat)
    | Sent(chunk: nat, index: nat)      // queued, but the cursor is still behind
    | Returning(outcome: DispatchOutcome)
    | Closing
    | Gone

  datatype Dispatcher = Dispatcher(phase: DispatcherPhase, cursors: seq<nat>, tasks: seq<Task>,
                                   tasksClosed: bool, message: Option<DispatchOutcome>)

  datatype Worker =
    | Selecting
    | Took(task: Task)
    | Probing(task: Task)
    | Delivering(result: Result)
    | Refusing(task: Task)
    | Panicked(task: Task)
    | Reporting                         // about to run reportFatal
    | Halting                           // inside its once: the executor is not stopped yet
    | Telling                           // the error is not sent yet
    | Shutting                          // the error channel is not closed yet
    | Draining
    | Holding(task: Task)
    | Exited

  /** The executor's context, its telemetry flag, its once, and its error channel. */
  datatype Signals = Signals(stopped: bool, stopping: bool, once: bool, told: bool, fatal: bool, fatalClosed: bool,
                             ghost teller: nat, ghost panicker: int)

  /** `waiter` counts what the waiting goroutine did: 1 stopped, 2 closed results, 3 abandoned, 4 errors. */
  datatype Pool = Pool(workers: seq<Worker>, results: seq<Result>, abandoned: seq<Task>, waiter: nat, signals: Signals)

  datatype RunError = NoError | Pressure | WorkerPanic | OutputWrite

  datatype LoopPhase = Looping | Finishing | Ended

  datatype Loop = Loop(phase: LoopPhase, resultsOpen: bool, abandonedOpen: bool, fatalOpen: bool,
                       dispatchDone: bool, dispatchErr: DispatchOutcome, runErr: RunError)

  datatype Env = Env(parentCanceled: bool, canceled: bool, pressureSent: bool, pressure: bool)

  datatype State = State(feed: Dispatcher, pool: Pool, loop: Loop, book: Book, env: Env)

  predicate RunDone(s: State) {
    s.env.parentCanceled || s.env.canceled
  }

  predicate ExecutorDone(s: State) {
    RunDone(s) || s.pool.signals.stopped
  }

  predicate Emptied(l: Loop) {
    l.dispatchDone && !l.resultsOpen && !l.abandonedOpen && !l.fatalOpen
  }

  ghost predicate Initial(cfg: Config, s: State) {
    && s.feed == Dispatcher(Ranging(0), cfg.starts, [], false, None)
    && |s.pool.workers| >= 1
    && (forall w <- s.pool.workers :: w == Selecting)
    && s.pool == Pool(s.pool.workers, [], [], 0, Signals(false, false, false, false, false, false, 0, -1))
    && s.loop == Loop(Looping, true, true, true, false, Complete, NoError)
    && s.book == Book(s.book.outputs, [], [], [], false)
    && s.book.outputs.scan.buffer == [] && s.book.outputs.open.buffer == []
    && s.env == Env(s.env.parentCanceled, false, false, false)
  }

  // ----- steps of the environment -----

  datatype EnvStep = CancelParent | RaisePressure | NoticeCancel

  predicate EnvEnabled(s: State, a: EnvStep) {
    match a
    case CancelParent => !s.env.parentCanceled
    case RaisePressure => !s.env.pressureSent
    case NoticeCancel => RunDone(s) && !s.pool.signals.stopping
  }

  ghost function EnvApply(s: State, a: EnvStep): State {
    match a
    case CancelParent => s.(env := s.env.(parentCanceled := true))
    case RaisePressure => s.(env := s.env.(pressureSent := true, pressure := true))
    case NoticeCancel => s.(pool := s.pool.(signals := s.pool.signals.(stopping := true)))
  }

  // ----- steps of the dispatcher -----

  datatype FeedStep = NextChunk | AllChunks | Send | Advance | ChunkDone | SeeCancel | Fail | Return | CloseTasks

  predicate FeedEnabled(cfg: Config, s: State, a: FeedStep)
    requires |s.feed.cursors| == |cfg.totals|
  {
    var p := s.feed.phase;
    match a
    case NextChunk => p.Ranging? && p.next < |cfg.totals|
    case AllChunks => p.Ranging? && p.next >= |cfg.totals|
    case Send => p.AtTask? && p.chunk < |cfg.totals| && p.index < cfg.totals[p.chunk] && |s.feed.tasks| < cfg.capacity
    case Advance => p.Sent? && p.chunk < |cfg.totals|
    case ChunkDone => p.AtTask? && p.chunk < |cfg.totals| && p.index >= cfg.totals[p.chunk]
    case SeeCancel => p.AtTask? && RunDone(s)
    case Fail => p.AtTask? && p.chunk < |cfg.totals| && p.index < cfg.totals[p.chunk]
    case Return => p.Returning?
    case CloseTasks => p.Closing?
  }

  ghost function FeedApply(cfg: Config, s: State, a: FeedStep): State
    requires |s.feed.cursors| == |cfg.totals| && FeedEnabled(cfg, s, a)
  {
    var f, p := s.feed, s.feed.phase;
    match a
    case NextChunk =>
      s.(feed := f.(phase := if f.cursors[p.next] >= cfg.totals[p.next] then Ranging(p.next + 1) else AtTask(p.next, f.cursors[p.next])))
    case AllChunks => s.(feed := f.(phase := Returning(Complete)))
    case Send => s.(feed := f.(phase := Sent(p.chunk, p.index), tasks := f.tasks + [Task(p.chunk, p.index)]))
    case Advance => s.(feed := f.(phase := AtTask(p.chunk, p.index + 1), cursors := f.cursors[p.chunk := p.index + 1]))
    case ChunkDone => s.(feed := f.(phase := Ranging(p.chunk + 1)))
    case SeeCancel => s.(feed := f.(phase := Returning(Canceled)))
    case Fail => s.(feed := f.(phase := Returning(Broken)))
    case Return => s.(feed := f.(phase := Closing, message := Some(p.outcome)))
    case CloseTasks => s.(feed := f.(phase := Gone, tasksClosed := true))
  }

  // ----- steps of a worker -----

  datatype WorkStep =
    | Take | SeeClosed | SeeStop | Start | Refuse | EndProbe(status: ProbeStatus) | PanicProbe
    | Deliver | GiveBack | GiveBackPanicked | Report | Halt | Tell | ShutFatal
    | DrainTake | DrainGive | DrainEnd

  predicate WorkEnabled(cfg: Config, s: State, w: nat, a: WorkStep) {
    && w < |s.pool.workers|
    && var me := s.pool.workers[w];
       match a
       case Take => me.Selecting? && s.feed.tasks != []
       case SeeClosed => me.Selecting? && s.feed.tasks == [] && s.feed.tasksClosed
       case SeeStop => me.Selecting? && ExecutorDone(s)
       case Start => me.Took? && !s.pool.signals.stopping && !ExecutorDone(s)
       case Refuse => me.Took? && (s.pool.signals.stopping || ExecutorDone(s))
       case EndProbe(_) => me.Probing?
       case PanicProbe => me.Probing?
       case Deliver => me.Delivering? && |s.pool.results| < cfg.capacity
       case GiveBack => me.Refusing? && |s.pool.abandoned| < cfg.capacity
       case GiveBackPanicked => me.Panicked? && |s.pool.abandoned| < cfg.capacity
       case Report => me.Reporting?
       case Halt => me.Halting?
       case Tell => me.Telling?
       case ShutFatal => me.Shutting?
       case DrainTake => me.Draining? && s.feed.tasks != []
       case DrainGive => me.Holding? && |s.pool.abandoned| < cfg.capacity
       case DrainEnd => me.Draining? && s.feed.tasks == [] && s.feed.tasksClosed
  }

  predicate Takes(a: WorkStep) {
    a.Take? || a.DrainTake?
  }

  predicate GivesBack(a: WorkStep) {
    a.GiveBack? || a.GiveBackPanicked? || a.DrainGive?
  }

  /** The phase the worker is in after its step. */
  ghost function Next(cfg: Config, s: State, w: nat, a: WorkStep): Worker
    requires WorkEnabled(cfg, s, w, a)
  {
    var me := s.pool.workers[w];
    match a
    case Take => Took(s.feed.tasks[0])
    case SeeClosed => Exited
    case SeeStop => Draining
    case Start => Probing(me.task)
    case Refuse => Refusing(me.task)
    case EndProbe(status) => Delivering(Result(me.task, status))
    case PanicProbe => Panicked(me.task)
    case Deliver => Selecting
    case GiveBack => Selecting
    case GiveBackPanicked => Reporting
    case Report => if s.pool.signals.once then Draining else Halting
    case Halt => Telling
    case Tell => Shutting
    case ShutFatal => Draining
    case DrainTake => Holding(s.feed.tasks[0])
    case DrainGive => Draining
    case DrainEnd => Exited
  }

  /** What the step does to the executor's context, flags and error channel. */
  ghost function Signal(s: State, w: nat, a: WorkStep): Signals {
    var g := s.pool.signals;
    match a
    case SeeStop => g.(stopping := true)
    case EndProbe(_) => g.(stopping := g.stopping || ExecutorDone(s))
    case PanicProbe => g.(stopping := g.stopping || ExecutorDone(s), panicker := w)
    case Report => if g.once then g else g.(once := true, stopping := true, teller := w)
    case Halt => g.(stopped := true)
    case Tell => g.(fatal := true, told := true)
    case ShutFatal => g.(fatalClosed := true)
    case _ => g
  }

  ghost function WorkApply(cfg: Config, s: State, w: nat, a: WorkStep): State
    requires WorkEnabled(cfg, s, w, a)
  {
    var me, p := s.pool.workers[w], s.pool;
    State(
      if Takes(a) then s.feed.(tasks := s.feed.tasks[1..]) else s.feed,
      Pool(p.workers[w := Next(cfg, s, w, a)],
           if a.Deliver? then p.results + [me.result] else p.results,
           if GivesBack(a) then p.abandoned + [me.task] else p.abandoned,
           p.waiter,
           Signal(s, w, a)),
      s.loop, s.book, s.env)
  }

  // ----- steps of the goroutine that waits for the workers -----

  predicate WaitEnabled(s: State) {
    && s.pool.waiter < 4
    && (s.pool.waiter == 0 ==> forall w <- s.pool.workers :: w.Exited?)
  }

  ghost function WaitApply(s: State): State {
    var p := s.pool;
    s.(pool :=
      if p.waiter == 0 then p.(waiter := 1, signals := p.signals.(stopped := true))
      else if p.waiter == 3 then p.(waiter := 4, signals := p.signals.(once := true, fatalClosed := true))
      else p.(waiter := p.waiter + 1))
  }

  // ----- steps of the result loop -----

  datatype LoopStep =
    | HearPressure | HearFatal | HearFatalClosed | HearDispatch
    | HearResult(io: Io) | HearResultsClosed | HearAbandoned | HearAbandonedClosed
    | Leave | FinishBatch(last: Io)

  ghost predicate LoopEnabled(s: State, a: LoopStep) {
    var l := s.loop;
    if a.Leave? then l.phase.Looping? && Emptied(l)
    else if a.FinishBatch? then l.phase.Finishing? && FinishIo(s.book, a.last)
    else
      && l.phase.Looping? && !Emptied(l)
      && match a
         case HearPressure => s.env.pressure
         case HearFatal => l.fatalOpen && s.pool.signals.fatal
         case HearFatalClosed => l.fatalOpen && !s.pool.signals.fatal && s.pool.signals.fatalClosed
         case HearDispatch => s.feed.message.Some?
         case HearResult(io) => l.resultsOpen && s.pool.results != [] && AcceptIo(s.book, s.pool.results[0], io)
         case HearResultsClosed => l.resultsOpen && s.pool.results == [] && s.pool.waiter >= 2
         case HearAbandoned => l.abandonedOpen && s.pool.abandoned != []
         case HearAbandonedClosed => l.abandonedOpen && s.pool.abandoned == [] && s.pool.waiter >= 3
         case _ => false
  }

  /** A pressure or worker error is kept only when no earlier error was. */
  ghost function Raise(s: State, e: RunError): State {
    if s.loop.runErr.NoError? then s.(loop := s.loop.(runErr := e), env := s.env.(canceled := true)) else s
  }

  /** An output error replaces whatever error came before it. */
  ghost function RaiseOutput(s: State): State {
    s.(loop := s.loop.(runErr := OutputWrite), env := s.env.(canceled := true))
  }

  ghost function LoopApply(cfg: Config, s: State, a: LoopStep): State
    requires LoopEnabled(s, a)
  {
    match a
    case HearPressure => Raise(s.(env := s.env.(pressure := false)), Pressure)
    case HearFatal => Raise(s.(pool := s.pool.(signals := s.pool.signals.(fatal := false))), WorkerPanic)
    case HearFatalClosed => s.(loop := s.loop.(fatalOpen := false))
    case HearDispatch =>
      s.(loop := s.loop.(dispatchDone := true, dispatchErr := s.feed.message.value), feed := s.feed.(message := None))
    case HearResult(io) =>
      var r := s.pool.results[0];
      var s1 := s.(pool := s.pool.(results := s.pool.results[1..]), book := Accepted(s.book, cfg.interval, r, io));
      if !s.book.failed && s1.book.failed then RaiseOutput(s1) else s1
    case HearResultsClosed => s.(loop := s.loop.(resultsOpen := false))
    case HearAbandoned =>
      s.(pool := s.pool.(abandoned := s.pool.abandoned[1..]), book := Abandoned(s.book, s.pool.abandoned[0]))
    case HearAbandonedClosed => s.(loop := s.loop.(abandonedOpen := false))
    case Leave =>
      var s1 := s.(loop := s.loop.(phase := Finishing));
      if s.loop.runErr.NoError? && s.env.pressure then Raise(s1.(env := s.env.(pressure := false)), Pressure) else s1
    case FinishBatch(io) =>
      var s1 := s.(loop := s.loop.(phase := Ended), book := Finished(s.book, io));
      if !s.book.failed && s1.book.failed then RaiseOutput(s1) else s1
  }

  // ----- runs -----

  datatype Step = EnvDoes(e: EnvStep) | FeedDoes(f: FeedStep) | WorkerDoes(w: nat, k: WorkStep) | WaiterDoes | LoopDoes(l: LoopStep)

  ghost predicate Enabled(cfg: Config, s: State, a: Step) {
    match a
    case EnvDoes(e) => EnvEnabled(s, e)
    case FeedDoes(f) => |s.feed.cursors| == |cfg.totals| && FeedEnabled(cfg, s, f)
    case WorkerDoes(w, k) => WorkEnabled(cfg, s, w, k)
    case WaiterDoes => WaitEnabled(s)
    case LoopDoes(l) => LoopEnabled(s, l)
  }

  ghost function Apply(cfg: Config, s: State, a: Step): State
    requires Enabled(cfg, s, a)
  {
    match a
    case EnvDoes(e) => EnvApply(s, e)
    case FeedDoes(f) => FeedApply(cfg, s, f)
    case WorkerDoes(w, k) => WorkApply(cfg, s, w, k)
    case WaiterDoes => WaitApply(s)
    case LoopDoes(l) => LoopApply(cfg, s, l)
  }

  /** `steps` is a possible execution from `s` to `s'`, in any interleaving. */
  ghost predicate Runs(cfg: Config, s: State, steps: seq<Step>, s': State)
    decreases |steps|
  {
    if steps == [] then s' == s
    else Enabled(cfg, s, steps[0]) && Runs(cfg, Apply(cfg, s, steps[0]), steps[1..], s')
  }
}
