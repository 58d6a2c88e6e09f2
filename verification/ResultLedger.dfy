/**
 The values the scan pipeline moves around, and what one batch of results means for the
 two result files. Every operation of the output committer is specified here as a
 function from one book-keeping state to the next; the outcome of the file operations it
 performs is an argument, constrained by what a buffered writer can do.
 */
module ResultLedger {

  /** The status column of a result row. */
  datatype ProbeStatus = Open | CloseTimeout | Close | LocalError | Unknown

  /** One probe: the position of its chunk, and its flat index in that chunk. */
  datatype Task = Task(chunk: nat, index: nat)

  datatype Result = Result(task: Task, status: ProbeStatus)

  /** A result file: the rows that reached it, and the rows its writer still buffers. */
  datatype Sink = Sink(file: seq<Result>, buffer: seq<Result>)

  /** The full result file and the open-port file, written and flushed as a unit. */
  datatype Outputs = Outputs(scan: Sink, open: Sink)

  // ----- what one file operation can do -----

  /** A writer takes one row. A full buffer can spill some of its rows into the file early. */
  ghost predicate Took(s: Sink, r: Result, s': Sink) {
    s.file <= s'.file && s'.file + s'.buffer == s.file + s.buffer + [r]
  }

  ghost predicate Drained(s: Sink, s': Sink) {
    s' == Sink(s.file + s.buffer, [])
  }

  /** A failed operation: some of the waiting rows reached the file, in their order. */
  ghost predicate Broke(s: Sink, waiting: seq<Result>, s': Sink) {
    s.file <= s'.file <= s.file + s.buffer + waiting
  }

  /** The full file is written first; a row that is not open never reaches the second writer. */
  ghost predicate WriteStep(o: Outputs, r: Result, o': Outputs, ok: bool) {
    if ok then
      Took(o.scan, r, o'.scan) && (if r.status.Open? then Took(o.open, r, o'.open) else o'.open == o.open)
    else
      || (Broke(o.scan, [r], o'.scan) && o'.open == o.open)
      || (r.status.Open? && Took(o.scan, r, o'.scan) && Broke(o.open, [r], o'.open))
  }

  /** Both files are flushed even when the first flush fails; the pair succeeds only as a unit. */
  ghost predicate FlushStep(o: Outputs, o': Outputs, ok: bool) {
    if ok then Drained(o.scan, o'.scan) && Drained(o.open, o'.open)
    else Broke(o.scan, [], o'.scan) && Broke(o.open, [], o'.open)
  }

  // ----- the books -----

  /**
   `pending` waits for its batch to be flushed, `committed` was flushed to both files and
   credited, `lost` was dispatched but has no confirmed row.
   */
  datatype Book = Book(outputs: Outputs, pending: seq<Result>, committed: seq<Result>, lost: seq<Task>, failed: bool)

  function TasksOf(rs: seq<Result>): (ts: seq<Task>)
    ensures |ts| == |rs|
    ensures forall i :: 0 <= i < |rs| ==> ts[i] == rs[i].task
  {
    seq(|rs|, i requires 0 <= i < |rs| => rs[i].task)
  }

  lemma TasksOfAppend(a: seq<Result>, b: seq<Result>)
    ensures TasksOf(a + b) == TasksOf(a) + TasksOf(b)
  {
  }

  /** What the file operations of one Accept or Finish call did. */
  datatype Io = Io(wrote: bool, staged: Outputs, flushed: bool, settled: Outputs)

  ghost function Committed(b: Book, o: Outputs, batch: seq<Result>): Book {
    Book(o, [], b.committed + batch, b.lost, false)
  }

  ghost function Spoiled(b: Book, o: Outputs, batch: seq<Result>): Book {
    Book(o, [], b.committed, b.lost + TasksOf(batch), true)
  }

  ghost predicate AcceptIo(b: Book, r: Result, io: Io) {
    WriteStep(b.outputs, r, io.staged, io.wrote) && FlushStep(io.staged, io.settled, io.flushed)
  }

  predicate BatchIsFull(interval: int, size: nat) {
    0 < interval <= size
  }

  ghost function Accepted(b: Book, interval: int, r: Result, io: Io): Book {
    var batch := b.pending + [r];
    if b.failed then b.(lost := b.lost + [r.task])
    else if !io.wrote then Spoiled(b, io.staged, batch)
    else if !BatchIsFull(interval, |batch|) then b.(outputs := io.staged, pending := batch)
    else if io.flushed then Committed(b, io.settled, batch)
    else Spoiled(b, io.settled, batch)
  }

  ghost predicate FinishIo(b: Book, io: Io) {
    FlushStep(b.outputs, io.settled, io.flushed)
  }

  ghost function Finished(b: Book, io: Io): Book {
    if b.failed || |b.pending| == 0 then b
    else if io.flushed then Committed(b, io.settled, b.pending)
    else Spoiled(b, io.settled, b.pending)
  }

  ghost function Abandoned(b: Book, t: Task): Book {
    b.(lost := b.lost + [t])
  }

  // ----- what the books guarantee about the files -----

  ghost predicate InBoth(rows: seq<Result>, scan: seq<Result>, open: seq<Result>) {
    forall r <- rows :: r in scan && (r.status.Open? ==> r in open)
  }

  /** Credited rows are in the files themselves; pending rows are at least in the writers. */
  ghost predicate Backed(b: Book) {
    && InBoth(b.committed, b.outputs.scan.file, b.outputs.open.file)
    && (b.failed ==> b.pending == [])
    && InBoth(b.pending, b.outputs.scan.file + b.outputs.scan.buffer, b.outputs.open.file + b.outputs.open.buffer)
  }

  /** Rows never leave a result file. */
  ghost predicate OutputsGrow(o: Outputs, o': Outputs) {
    o.scan.file <= o'.scan.file && o.open.file <= o'.open.file
  }

  lemma MembersOfPrefix<T>(a: seq<T>, b: seq<T>)
    requires a <= b
    ensures forall x <- a :: x in b
  {
    forall x <- a ensures x in b {
      var i :| 0 <= i < |a| && a[i] == x;
      assert b[i] == x;
    }
  }

  /** Taking one row keeps every row the writer already held, and adds that row. */
  lemma TookKeeps(s: Sink, r: Result, s': Sink)
    requires Took(s, r, s')
    ensures forall x :: x in s'.file + s'.buffer <==> x in s.file + s.buffer || x == r
  {
    assert forall x :: x in s.file + s.buffer + [r] <==> x in s.file + s.buffer || x == r;
  }

  lemma AcceptKeepsBacked(b: Book, interval: int, r: Result, io: Io)
    requires Backed(b) && AcceptIo(b, r, io)
    ensures Backed(Accepted(b, interval, r, io))
    ensures OutputsGrow(b.outputs, Accepted(b, interval, r, io).outputs)
  {
    var o, s, t := b.outputs, io.staged, io.settled;
    MembersOfPrefix(o.scan.file, s.scan.file);
    MembersOfPrefix(o.open.file, s.open.file);
    MembersOfPrefix(s.scan.file, t.scan.file);
    MembersOfPrefix(s.open.file, t.open.file);
    if io.wrote {
      TookKeeps(o.scan, r, s.scan);
      if r.status.Open? { TookKeeps(o.open, r, s.open); }
      assert InBoth(b.pending + [r], s.scan.file + s.scan.buffer, s.open.file + s.open.buffer);
    }
  }

  lemma FinishKeepsBacked(b: Book, io: Io)
    requires Backed(b) && FinishIo(b, io)
    ensures Backed(Finished(b, io)) && OutputsGrow(b.outputs, Finished(b, io).outputs)
    ensures Finished(b, io).pending == []
  {
    MembersOfPrefix(b.outputs.scan.file, io.settled.scan.file);
    MembersOfPrefix(b.outputs.open.file, io.settled.open.file);
  }

  // ----- accounting: nothing an operation is given disappears from the books -----

  ghost function One(b: bool): nat {
    if b then 1 else 0
  }

  /** How often a task occurs in a queue. */
  ghost function Times(q: seq<Task>, t: Task): nat {
    if q == [] then 0 else Times(q[..|q| - 1], t) + One(q[|q| - 1] == t)
  }

  lemma TimesPush(q: seq<Task>, x: Task, t: Task)
    ensures Times(q + [x], t) == Times(q, t) + One(x == t)
  {
    assert (q + [x])[..|q|] == q;
  }

  lemma {:induction false} TimesAppend(a: seq<Task>, b: seq<Task>, t: Task)
    ensures Times(a + b, t) == Times(a, t) + Times(b, t)
  {
    if b == [] {
      assert a + b == a;
    } else {
      var front := b[..|b| - 1];
      TimesAppend(a, front, t);
      assert a + b == (a + front) + [b[|b| - 1]];
      TimesPush(a + front, b[|b| - 1], t);
    }
  }

  lemma TimesPop(q: seq<Task>, t: Task)
    requires q != []
    ensures Times(q, t) == One(q[0] == t) + Times(q[1..], t)
  {
    assert q == [q[0]] + q[1..];
    TimesAppend([q[0]], q[1..], t);
    TimesPush([], q[0], t);
    assert [] + [q[0]] == [q[0]];
  }

  lemma {:induction false} TimesMember(q: seq<Task>, t: Task)
    ensures Times(q, t) > 0 <==> t in q
  {
    if q != [] {
      TimesMember(q[..|q| - 1], t);
      assert q == q[..|q| - 1] + [q[|q| - 1]];
    }
  }

  ghost function Accounted(b: Book, t: Task): nat {
    Times(TasksOf(b.pending), t) + Times(TasksOf(b.committed), t) + Times(b.lost, t)
  }

  lemma BatchTimes(a: seq<Result>, b: seq<Result>, t: Task)
    ensures Times(TasksOf(a + b), t) == Times(TasksOf(a), t) + Times(TasksOf(b), t)
  {
    TasksOfAppend(a, b);
    TimesAppend(TasksOf(a), TasksOf(b), t);
  }

  lemma RowTimes(a: seq<Result>, r: Result, t: Task)
    ensures Times(TasksOf(a + [r]), t) == Times(TasksOf(a), t) + One(r.task == t)
  {
    assert TasksOf(a + [r]) == TasksOf(a) + [r.task];
    TimesPush(TasksOf(a), r.task, t);
  }

  lemma AcceptAccounts(b: Book, interval: int, r: Result, io: Io, t: Task)
    requires b.failed ==> b.pending == []
    ensures Accounted(Accepted(b, interval, r, io), t) == Accounted(b, t) + One(r.task == t)
  {
    var batch := b.pending + [r];
    RowTimes(b.pending, r, t);
    TimesPush(b.lost, r.task, t);
    BatchTimes(b.committed, batch, t);
    TimesAppend(b.lost, TasksOf(batch), t);
  }

  lemma FinishAccounts(b: Book, io: Io, t: Task)
    ensures Accounted(Finished(b, io), t) == Accounted(b, t)
  {
    BatchTimes(b.committed, b.pending, t);
    TimesAppend(b.lost, TasksOf(b.pending), t);
  }
}
