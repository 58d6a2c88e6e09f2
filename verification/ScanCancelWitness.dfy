/**
 Why `NilMeansDone` needs its condition: in every configuration with a task to do, and with any
 number of workers, a run that is canceled from outside after the dispatcher returned can end with
 both errors nil although a task was given back unprobed.
 */
module ScanCancelWitness {
  import opened Wrappers
  import opened ResultLedger
  import opened ScanPipeline
  import opened ScanOutcome

  lemma {:induction false} RunsOneMore(cfg: Config, s: State, steps: seq<Step>, m: State, a: Step)
    requires Runs(cfg, s, steps, m) && Enabled(cfg, m, a)
    ensures Runs(cfg, s, steps + [a], Apply(cfg, m, a))
    decreases |steps|
  {
    if steps == [] {
      assert [a][1..] == [];
      assert steps + [a] == [a];
    } else {
      assert (steps + [a])[1..] == steps[1..] + [a];
      RunsOneMore(cfg, Apply(cfg, s, steps[0]), steps[1..], m, a);
    }
  }

  lemma ReachOneMore(cfg: Config, s: State, a: Step)
    requires Reachable(cfg, s) && Enabled(cfg, s, a)
    ensures Reachable(cfg, Apply(cfg, s, a))
  {
    var s0, steps :| Initial(cfg, s0) && Runs(cfg, s0, steps, s);
    RunsOneMore(cfg, s0, steps, s, a);
    assert Runs(cfg, s0, steps + [a], Apply(cfg, s, a));
  }

  ghost const NO_ROWS := Outputs(Sink([], []), Sink([], []))
  ghost const SILENT := Signals(false, false, false, false, false, false, 0, -1)
  ghost const LISTENING := Loop(Looping, true, true, true, false, Complete, NoError)

  /** The states of the run, by what differs between them; the first worker does all the work. */
  ghost function At(feed: Dispatcher, w: Worker, rest: seq<Worker>, results: seq<Result>, abandoned: seq<Task>, waiter: nat,
                    signals: Signals, l: Loop, book: Book, canceled: bool): State
  {
    State(feed, Pool([w] + rest, results, abandoned, waiter, signals), l, book, Env(canceled, false, false, false))
  }

  ghost function Idle(feed: Dispatcher, rest: seq<Worker>, book: Book): State {
    At(feed, Selecting, rest, [], [], 0, SILENT, LISTENING, book, false)
  }

  ghost function Feed(phase: DispatcherPhase, cursors: seq<nat>, tasks: seq<Task>): Dispatcher {
    Dispatcher(phase, cursors, tasks, false, None)
  }

  lemma FirstWorker(w: Worker, rest: seq<Worker>, next: Worker)
    ensures ([w] + rest)[0] == w && ([w] + rest)[0 := next] == [next] + rest
  {
  }

  // ----- one task from the queue to the books -----

  /** Neither write nor flush fails. */
  ghost function GoodIo(b: Book, r: Result): Io {
    var staged := Outputs(Sink(b.outputs.scan.file, b.outputs.scan.buffer + [r]), b.outputs.open);
    Io(true, staged, true, AllFlushed(staged))
  }

  ghost function AllFlushed(o: Outputs): Outputs {
    Outputs(Sink(o.scan.file + o.scan.buffer, []), Sink(o.open.file + o.open.buffer, []))
  }

  lemma GoodIoIsPossible(b: Book, r: Result, interval: int)
    requires r.status.Close? && !b.failed
    ensures AcceptIo(b, r, GoodIo(b, r))
    ensures var after := Accepted(b, interval, r, GoodIo(b, r)); !after.failed && after.lost == b.lost
  {
    var io := GoodIo(b, r);
    assert io.staged.scan.file + io.staged.scan.buffer == b.outputs.scan.file + b.outputs.scan.buffer + [r];
  }

  lemma Sending(cfg: Config, c: nat, i: nat, cursors: seq<nat>, rest: seq<Worker>, book: Book)
    requires 1 <= cfg.capacity && |cursors| == |cfg.totals| && c < |cursors| && i < cfg.totals[c]
    requires Reachable(cfg, Idle(Feed(AtTask(c, i), cursors, []), rest, book))
    ensures Reachable(cfg, Idle(Feed(AtTask(c, i + 1), cursors[c := i + 1], [Task(c, i)]), rest, book))
  {
    var t := [Task(c, i)];
    assert [] + t == t;
    ReachOneMore(cfg, Idle(Feed(AtTask(c, i), cursors, []), rest, book), FeedDoes(Send));
    ReachOneMore(cfg, Idle(Feed(Sent(c, i), cursors, t), rest, book), FeedDoes(Advance));
  }

  lemma Taking(cfg: Config, f: Dispatcher, t: Task, rest: seq<Worker>, book: Book)
    requires f.tasks == [t] && Reachable(cfg, Idle(f, rest, book))
    ensures Reachable(cfg, At(f.(tasks := []), Probing(t), rest, [], [], 0, SILENT, LISTENING, book, false))
  {
    FirstWorker(Selecting, rest, Took(t));
    FirstWorker(Took(t), rest, Probing(t));
    assert f.tasks[1..] == [];
    ReachOneMore(cfg, Idle(f, rest, book), WorkerDoes(0, Take));
    ReachOneMore(cfg, At(f.(tasks := []), Took(t), rest, [], [], 0, SILENT, LISTENING, book, false), WorkerDoes(0, Start));
  }

  lemma Probed(cfg: Config, f: Dispatcher, t: Task, rest: seq<Worker>, book: Book)
    requires 1 <= cfg.capacity && Reachable(cfg, At(f, Probing(t), rest, [], [], 0, SILENT, LISTENING, book, false))
    ensures Reachable(cfg, At(f, Selecting, rest, [Result(t, Close)], [], 0, SILENT, LISTENING, book, false))
  {
    var r := Result(t, Close);
    FirstWorker(Probing(t), rest, Delivering(r));
    FirstWorker(Delivering(r), rest, Selecting);
    assert [] + [r] == [r];
    ReachOneMore(cfg, At(f, Probing(t), rest, [], [], 0, SILENT, LISTENING, book, false), WorkerDoes(0, EndProbe(Close)));
    ReachOneMore(cfg, At(f, Delivering(r), rest, [], [], 0, SILENT, LISTENING, book, false), WorkerDoes(0, Deliver));
  }

  lemma Accepting(cfg: Config, f: Dispatcher, t: Task, rest: seq<Worker>, book: Book) returns (after: Book)
    requires !book.failed && Reachable(cfg, At(f, Selecting, rest, [Result(t, Close)], [], 0, SILENT, LISTENING, book, false))
    ensures !after.failed && Reachable(cfg, Idle(f, rest, after))
  {
    var r := Result(t, Close);
    GoodIoIsPossible(book, r, cfg.interval);
    after := Accepted(book, cfg.interval, r, GoodIo(book, r));
    assert [r][1..] == [];
    ReachOneMore(cfg, At(f, Selecting, rest, [r], [], 0, SILENT, LISTENING, book, false), LoopDoes(HearResult(GoodIo(book, r))));
  }

  lemma Processing(cfg: Config, c: nat, i: nat, cursors: seq<nat>, rest: seq<Worker>, book: Book) returns (after: Book)
    requires 1 <= cfg.capacity && |cursors| == |cfg.totals| && c < |cursors| && i < cfg.totals[c] && !book.failed
    requires Reachable(cfg, Idle(Feed(AtTask(c, i), cursors, []), rest, book))
    ensures !after.failed && Reachable(cfg, Idle(Feed(AtTask(c, i + 1), cursors[c := i + 1], []), rest, after))
  {
    var t, sent := Task(c, i), Feed(AtTask(c, i + 1), cursors[c := i + 1], [Task(c, i)]);
    Sending(cfg, c, i, cursors, rest, book);
    Taking(cfg, sent, t, rest, book);
    Probed(cfg, sent.(tasks := []), t, rest, book);
    after := Accepting(cfg, sent.(tasks := []), t, rest, book);
  }

  // ----- the whole dispatch, the last task left in the queue -----

  ghost predicate HasTask(cfg: Config, c: nat)
    requires WellFormed(cfg)
  {
    exists d :: c <= d < |cfg.starts| && cfg.starts[d] < cfg.totals[d]
  }

  ghost predicate Untouched(cfg: Config, cursors: seq<nat>, c: nat)
    requires WellFormed(cfg)
  {
    |cursors| == |cfg.totals| && forall d :: c <= d < |cursors| ==> cursors[d] == cfg.starts[d]
  }

  /** The dispatcher is gone, and one task waits in the queue. */
  ghost predicate Hanging(cfg: Config, s: State, rest: seq<Worker>, t: Task) {
    && !s.book.failed && s.feed == Dispatcher(Gone, s.feed.cursors, [t], true, Some(Complete))
    && s == Idle(s.feed, rest, s.book) && Reachable(cfg, s)
  }

  lemma NoMoreChunks(cfg: Config, c: nat, cursors: seq<nat>, t: Task, rest: seq<Worker>, book: Book) returns (s: State)
    requires WellFormed(cfg) && c <= |cfg.totals| && Untouched(cfg, cursors, c) && !HasTask(cfg, c) && !book.failed
    requires Reachable(cfg, Idle(Feed(Ranging(c), cursors, [t]), rest, book))
    ensures Hanging(cfg, s, rest, t)
    decreases |cfg.totals| - c
  {
    if c < |cfg.totals| {
      assert cfg.starts[c] >= cfg.totals[c];
      ReachOneMore(cfg, Idle(Feed(Ranging(c), cursors, [t]), rest, book), FeedDoes(NextChunk));
      s := NoMoreChunks(cfg, c + 1, cursors, t, rest, book);
    } else {
      s := Returned(cfg, c, cursors, t, rest, book);
    }
  }

  lemma Returned(cfg: Config, c: nat, cursors: seq<nat>, t: Task, rest: seq<Worker>, book: Book) returns (s: State)
    requires c == |cfg.totals| == |cursors| && !book.failed
    requires Reachable(cfg, Idle(Feed(Ranging(c), cursors, [t]), rest, book))
    ensures Hanging(cfg, s, rest, t)
  {
    ReachOneMore(cfg, Idle(Feed(Ranging(c), cursors, [t]), rest, book), FeedDoes(AllChunks));
    ReachOneMore(cfg, Idle(Feed(Returning(Complete), cursors, [t]), rest, book), FeedDoes(Return));
    ReachOneMore(cfg, Idle(Dispatcher(Closing, cursors, [t], false, Some(Complete)), rest, book), FeedDoes(CloseTasks));
    s := Idle(Dispatcher(Gone, cursors, [t], true, Some(Complete)), rest, book);
  }

  lemma LastTask(cfg: Config, c: nat, i: nat, cursors: seq<nat>, rest: seq<Worker>, book: Book) returns (s: State)
    requires WellFormed(cfg) && c < |cfg.totals| && i + 1 == cfg.totals[c] && !HasTask(cfg, c + 1) && !book.failed
    requires Untouched(cfg, cursors, c + 1) && Reachable(cfg, Idle(Feed(AtTask(c, i), cursors, []), rest, book))
    ensures Hanging(cfg, s, rest, Task(c, i))
  {
    Sending(cfg, c, i, cursors, rest, book);
    ReachOneMore(cfg, Idle(Feed(AtTask(c, i + 1), cursors[c := i + 1], [Task(c, i)]), rest, book), FeedDoes(ChunkDone));
    s := NoMoreChunks(cfg, c + 1, cursors[c := i + 1], Task(c, i), rest, book);
  }

  lemma FromTask(cfg: Config, c: nat, i: nat, cursors: seq<nat>, rest: seq<Worker>, book: Book) returns (s: State, t: Task)
    requires WellFormed(cfg) && c < |cfg.totals| && i <= cfg.totals[c] && !book.failed
    requires i < cfg.totals[c] || HasTask(cfg, c + 1)
    requires Untouched(cfg, cursors, c + 1) && Reachable(cfg, Idle(Feed(AtTask(c, i), cursors, []), rest, book))
    ensures Hanging(cfg, s, rest, t)
    decreases |cfg.totals| - c, 0, cfg.totals[c] - i
  {
    if i == cfg.totals[c] {
      ReachOneMore(cfg, Idle(Feed(AtTask(c, i), cursors, []), rest, book), FeedDoes(ChunkDone));
      s, t := FromChunk(cfg, c + 1, cursors, rest, book);
    } else if i + 1 == cfg.totals[c] && !HasTask(cfg, c + 1) {
      s := LastTask(cfg, c, i, cursors, rest, book);
      t := Task(c, i);
    } else {
      var after := Processing(cfg, c, i, cursors, rest, book);
      s, t := FromTask(cfg, c, i + 1, cursors[c := i + 1], rest, after);
    }
  }

  lemma FromChunk(cfg: Config, c: nat, cursors: seq<nat>, rest: seq<Worker>, book: Book) returns (s: State, t: Task)
    requires WellFormed(cfg) && HasTask(cfg, c) && Untouched(cfg, cursors, c) && !book.failed
    requires Reachable(cfg, Idle(Feed(Ranging(c), cursors, []), rest, book))
    ensures Hanging(cfg, s, rest, t)
    decreases |cfg.totals| - c, 1, 0
  {
    var d :| c <= d < |cfg.starts| && cfg.starts[d] < cfg.totals[d];
    ReachOneMore(cfg, Idle(Feed(Ranging(c), cursors, []), rest, book), FeedDoes(NextChunk));
    if cfg.starts[c] >= cfg.totals[c] {
      assert HasTask(cfg, c + 1);
      s, t := FromChunk(cfg, c + 1, cursors, rest, book);
    } else {
      s, t := FromTask(cfg, c, cfg.starts[c], cursors, rest, book);
    }
  }

  ghost function Waiting(n: nat): seq<Worker> {
    seq(n, k => Selecting)
  }

  lemma Dispatching(cfg: Config, others: nat) returns (s: State, t: Task)
    requires WellFormed(cfg) && HasTask(cfg, 0)
    ensures Hanging(cfg, s, Waiting(others), t)
  {
    var book := Book(NO_ROWS, [], [], [], false);
    var start := Idle(Feed(Ranging(0), cfg.starts, []), Waiting(others), book);
    assert Initial(cfg, start);
    assert Runs(cfg, start, [], start);
    s, t := FromChunk(cfg, 0, cfg.starts, Waiting(others), book);
  }

  // ----- the cancellation -----

  lemma Canceling(cfg: Config, f: Dispatcher, t: Task, rest: seq<Worker>, book: Book)
    requires f.tasks == [t] && Reachable(cfg, Idle(f, rest, book))
    ensures Reachable(cfg, At(f.(tasks := []), Took(t), rest, [], [], 0, SILENT, LISTENING, book, true))
  {
    FirstWorker(Selecting, rest, Took(t));
    assert f.tasks[1..] == [];
    ReachOneMore(cfg, Idle(f, rest, book), EnvDoes(CancelParent));
    ReachOneMore(cfg, At(f, Selecting, rest, [], [], 0, SILENT, LISTENING, book, true), WorkerDoes(0, Take));
  }

  lemma GivingBack(cfg: Config, f: Dispatcher, t: Task, rest: seq<Worker>, book: Book)
    requires 1 <= cfg.capacity && f.tasks == []
    requires Reachable(cfg, At(f, Took(t), rest, [], [], 0, SILENT, LISTENING, book, true))
    ensures Reachable(cfg, At(f, Selecting, rest, [], [t], 0, SILENT, LISTENING, book, true))
  {
    FirstWorker(Took(t), rest, Refusing(t));
    FirstWorker(Refusing(t), rest, Selecting);
    assert [] + [t] == [t];
    ReachOneMore(cfg, At(f, Took(t), rest, [], [], 0, SILENT, LISTENING, book, true), WorkerDoes(0, Refuse));
    ReachOneMore(cfg, At(f, Refusing(t), rest, [], [], 0, SILENT, LISTENING, book, true), WorkerDoes(0, GiveBack));
  }

  /** The first `k` of the other workers have left. */
  ghost function Left(n: nat, k: nat): seq<Worker> {
    seq(n, j => if j < k then Exited else Selecting)
  }

  lemma OthersLeave(cfg: Config, f: Dispatcher, t: Task, n: nat, k: nat, book: Book)
    requires k <= n && f.tasks == [] && f.tasksClosed
    requires Reachable(cfg, At(f, Exited, Left(n, 0), [], [t], 0, SILENT, LISTENING, book, true))
    ensures Reachable(cfg, At(f, Exited, Left(n, k), [], [t], 0, SILENT, LISTENING, book, true))
  {
    if k > 0 {
      OthersLeave(cfg, f, t, n, k - 1, book);
      var workers := [Exited] + Left(n, k - 1);
      assert workers[k] == Selecting && workers[k := Exited] == [Exited] + Left(n, k);
      ReachOneMore(cfg, At(f, Exited, Left(n, k - 1), [], [t], 0, SILENT, LISTENING, book, true), WorkerDoes(k, SeeClosed));
    }
  }

  ghost const CLOSED := SILENT.(stopped := true, once := true, fatalClosed := true)

  lemma WaiterEnds(cfg: Config, f: Dispatcher, t: Task, rest: seq<Worker>, book: Book)
    requires forall w <- rest :: w.Exited?
    requires Reachable(cfg, At(f, Exited, rest, [], [t], 0, SILENT, LISTENING, book, true))
    ensures Reachable(cfg, At(f, Exited, rest, [], [t], 4, CLOSED, LISTENING, book, true))
  {
    var g := SILENT.(stopped := true);
    assert forall w <- [Exited] + rest :: w.Exited?;
    ReachOneMore(cfg, At(f, Exited, rest, [], [t], 0, SILENT, LISTENING, book, true), WaiterDoes);
    ReachOneMore(cfg, At(f, Exited, rest, [], [t], 1, g, LISTENING, book, true), WaiterDoes);
    ReachOneMore(cfg, At(f, Exited, rest, [], [t], 2, g, LISTENING, book, true), WaiterDoes);
    ReachOneMore(cfg, At(f, Exited, rest, [], [t], 3, g, LISTENING, book, true), WaiterDoes);
  }

  lemma Stopping(cfg: Config, f: Dispatcher, t: Task, n: nat, book: Book)
    requires f.tasks == [] && f.tasksClosed
    requires Reachable(cfg, At(f, Selecting, Waiting(n), [], [t], 0, SILENT, LISTENING, book, true))
    ensures Reachable(cfg, At(f, Exited, Left(n, n), [], [t], 4, CLOSED, LISTENING, book, true))
  {
    FirstWorker(Selecting, Waiting(n), Exited);
    ReachOneMore(cfg, At(f, Selecting, Waiting(n), [], [t], 0, SILENT, LISTENING, book, true), WorkerDoes(0, SeeClosed));
    assert Waiting(n) == Left(n, 0);
    OthersLeave(cfg, f, t, n, n, book);
    WaiterEnds(cfg, f, t, Left(n, n), book);
  }

  // ----- the loop hears everything there is to hear, and no error is among it -----

  lemma HearingTasks(cfg: Config, f: Dispatcher, t: Task, rest: seq<Worker>, book: Book)
    requires f.message == Some(Complete)
    requires Reachable(cfg, At(f, Exited, rest, [], [t], 4, CLOSED, LISTENING, book, true))
    ensures Reachable(cfg, At(f.(message := None), Exited, rest, [], [], 4, CLOSED, LISTENING.(dispatchDone := true),
                              Abandoned(book, t), true))
  {
    var l := LISTENING.(dispatchDone := true);
    assert [t][1..] == [];
    ReachOneMore(cfg, At(f, Exited, rest, [], [t], 4, CLOSED, LISTENING, book, true), LoopDoes(HearDispatch));
    ReachOneMore(cfg, At(f.(message := None), Exited, rest, [], [t], 4, CLOSED, l, book, true), LoopDoes(HearAbandoned));
  }

  lemma Hearing(cfg: Config, f: Dispatcher, rest: seq<Worker>, book: Book)
    requires Reachable(cfg, At(f, Exited, rest, [], [], 4, CLOSED, LISTENING.(dispatchDone := true), book, true))
    ensures Reachable(cfg, At(f, Exited, rest, [], [], 4, CLOSED, Loop(Looping, false, false, false, true, Complete, NoError), book, true))
  {
    var l := LISTENING.(dispatchDone := true);
    ReachOneMore(cfg, At(f, Exited, rest, [], [], 4, CLOSED, l, book, true), LoopDoes(HearResultsClosed));
    l := l.(resultsOpen := false);
    ReachOneMore(cfg, At(f, Exited, rest, [], [], 4, CLOSED, l, book, true), LoopDoes(HearAbandonedClosed));
    l := l.(abandonedOpen := false);
    ReachOneMore(cfg, At(f, Exited, rest, [], [], 4, CLOSED, l, book, true), LoopDoes(HearFatalClosed));
  }

  lemma Leaving(cfg: Config, f: Dispatcher, rest: seq<Worker>, book: Book) returns (after: Book)
    requires !book.failed
    requires Reachable(cfg, At(f, Exited, rest, [], [], 4, CLOSED, Loop(Looping, false, false, false, true, Complete, NoError), book, true))
    ensures after.lost == book.lost
    ensures Reachable(cfg, At(f, Exited, rest, [], [], 4, CLOSED, Loop(Ended, false, false, false, true, Complete, NoError), after, true))
  {
    var l := Loop(Looping, false, false, false, true, Complete, NoError);
    var io := Io(true, book.outputs, true, AllFlushed(book.outputs));
    after := Finished(book, io);
    ReachOneMore(cfg, At(f, Exited, rest, [], [], 4, CLOSED, l, book, true), LoopDoes(Leave));
    l := l.(phase := Finishing);
    ReachOneMore(cfg, At(f, Exited, rest, [], [], 4, CLOSED, l, book, true), LoopDoes(FinishBatch(io)));
  }

  // ----- the theorem -----

  /** Dispatched and given back: the task is lost, and nothing of it was committed. */
  lemma LostIsNotCommitted(cfg: Config, s: State, t: Task)
    requires Reachable(cfg, s) && s.loop.phase.Ended? && t in s.book.lost
    ensures t !in TasksOf(s.book.committed)
  {
    CommittedOrLost(cfg, s, t);
    TimesMember(s.book.lost, t);
    TimesMember(TasksOf(s.book.committed), t);
  }

  /**
   For every configuration that has a task, and any number of workers: some run ends with both errors
   nil and yet with a task that has no committed row, because the parent was canceled.
   */
  lemma NilWithoutRows(cfg: Config, workers: nat) returns (s: State, t: Task)
    requires WellFormed(cfg) && HasTask(cfg, 0) && workers >= 1
    ensures Reachable(cfg, s) && s.loop.phase.Ended? && |s.pool.workers| == workers
    ensures s.loop.runErr == NoError && s.loop.dispatchErr == Complete && s.env.parentCanceled
    ensures t in s.book.lost && t !in TasksOf(s.book.committed)
  {
    var n := workers - 1;
    var hung;
    hung, t := Dispatching(cfg, n);
    var f, book := hung.feed, hung.book;
    Canceling(cfg, f, t, Waiting(n), book);
    var g := f.(tasks := []);
    GivingBack(cfg, g, t, Waiting(n), book);
    Stopping(cfg, g, t, n, book);
    HearingTasks(cfg, g, t, Left(n, n), book);
    g := g.(message := None);
    Hearing(cfg, g, Left(n, n), Abandoned(book, t));
    var after := Leaving(cfg, g, Left(n, n), Abandoned(book, t));
    s := At(g, Exited, Left(n, n), [], [], 4, CLOSED, Loop(Ended, false, false, false, true, Complete, NoError), after, true);
    LostIsNotCommitted(cfg, s, t);
  }
}
