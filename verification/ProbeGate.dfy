/**
 The read-write lock between starting a probe and stopping the executor, one memory or lock
 operation per step. `startProbe` tests and counts under the read lock, `markStopping` sets
 the flag and takes its two readings under the write lock, and `finishProbe` counts down
 outside both.
 */
module ProbeGate {

  datatype Thread =
    | Idle
    | WantsRead | Testing | CountingFlight | CountingTotal | LeavingRead(started: bool)
    | Probing
    | WantsWrite(ended: bool) | TestingFlag(ended: bool) | SettingFlag(ended: bool)
    | ReadingFlight(ended: bool) | ReadingTotal(ended: bool) | LeavingWrite(ended: bool)
    | CountingDown
    | Observing                          // inside snapshot()

  datatype Gate = Gate(threads: seq<Thread>, canceled: bool, stopping: bool,
                       inFlight: int, totalStarted: nat, inFlightAtStop: int, startedAtStop: nat)

  predicate Reads(t: Thread) {
    t.Testing? || t.CountingFlight? || t.CountingTotal? || t.LeavingRead? || t.Observing?
  }

  predicate Writes(t: Thread) {
    t.TestingFlag? || t.SettingFlag? || t.ReadingFlight? || t.ReadingTotal? || t.LeavingWrite?
  }

  /** The probe of this thread is counted in `inFlight`. */
  predicate InFlight(t: Thread) {
    || t.CountingTotal? || t.Probing? || t.CountingDown? || t == LeavingRead(true)
    || t == WantsWrite(true) || t == TestingFlag(true) || t == SettingFlag(true)
    || t == ReadingFlight(true) || t == ReadingTotal(true) || t == LeavingWrite(true)
  }

  datatype Step = Cancel | Begin(i: nat) | BeginMark(i: nat) | BeginObserve(i: nat) | Go(i: nat)

  predicate Enabled(g: Gate, a: Step) {
    match a
    case Cancel => true
    case Begin(i) => i < |g.threads| && g.threads[i].Idle?
    case BeginMark(i) => i < |g.threads| && g.threads[i].Idle?
    case BeginObserve(i) => i < |g.threads| && g.threads[i].Idle? && forall j :: 0 <= j < |g.threads| ==> !Writes(g.threads[j])
    case Go(i) =>
      && i < |g.threads|
      && match g.threads[i]
         case Idle => false
         case WantsRead => forall j :: 0 <= j < |g.threads| ==> !Writes(g.threads[j])
         case WantsWrite(_) => forall j :: 0 <= j < |g.threads| ==> !Writes(g.threads[j]) && !Reads(g.threads[j])
         case _ => true
  }

  function Set(g: Gate, i: nat, t: Thread): Gate
    requires i < |g.threads|
  {
    g.(threads := g.threads[i := t])
  }

  function Apply(g: Gate, a: Step): Gate
    requires Enabled(g, a)
  {
    match a
    case Cancel => g.(canceled := true)
    case Begin(i) => Set(g, i, WantsRead)
    case BeginMark(i) => Set(g, i, WantsWrite(false))
    case BeginObserve(i) => Set(g, i, Observing)
    case Go(i) =>
      match g.threads[i]
      case WantsRead => Set(g, i, Testing)
      case Testing => Set(g, i, if g.stopping || g.canceled then LeavingRead(false) else CountingFlight)
      case CountingFlight => Set(g, i, CountingTotal).(inFlight := g.inFlight + 1)
      case CountingTotal => Set(g, i, LeavingRead(true)).(totalStarted := g.totalStarted + 1)
      case LeavingRead(started) => Set(g, i, if started then Probing else Idle)
      case Probing => Set(g, i, if g.canceled then WantsWrite(true) else CountingDown)
      case WantsWrite(ended) => Set(g, i, TestingFlag(ended))
      case TestingFlag(ended) => Set(g, i, if g.stopping then LeavingWrite(ended) else SettingFlag(ended))
      case SettingFlag(ended) => Set(g, i, ReadingFlight(ended)).(stopping := true)
      case ReadingFlight(ended) => Set(g, i, ReadingTotal(ended)).(inFlightAtStop := g.inFlight)
      case ReadingTotal(ended) => Set(g, i, LeavingWrite(ended)).(startedAtStop := g.totalStarted)
      case LeavingWrite(ended) => Set(g, i, if ended then CountingDown else Idle)
      case CountingDown => Set(g, i, Idle).(inFlight := g.inFlight - 1)
      case Observing => Set(g, i, Idle)
  }

  // ----- the invariant -----

  ghost predicate Exclusive(g: Gate) {
    forall i, j :: 0 <= i < |g.threads| && 0 <= j < |g.threads| && i != j && Writes(g.threads[i])
      ==> !Writes(g.threads[j]) && !Reads(g.threads[j])
  }

  ghost predicate SettledAtStop(g: Gate) {
    forall i :: 0 <= i < |g.threads| ==> !g.threads[i].ReadingFlight? && !g.threads[i].ReadingTotal?
  }

  ghost predicate Inv(g: Gate) {
    && Exclusive(g)
    && (forall i :: 0 <= i < |g.threads| && (g.threads[i].CountingFlight? || g.threads[i].CountingTotal?) ==> !g.stopping)
    && (forall i :: 0 <= i < |g.threads| && g.threads[i].SettingFlag? ==> !g.stopping)
    && (forall i :: 0 <= i < |g.threads| && (g.threads[i].ReadingFlight? || g.threads[i].ReadingTotal?) ==> g.stopping)
    && (g.stopping && SettledAtStop(g) ==> g.totalStarted == g.startedAtStop)
    && (g.stopping && (forall i :: 0 <= i < |g.threads| ==> !g.threads[i].ReadingFlight?) ==> g.inFlight <= g.inFlightAtStop)
  }

  lemma StepKeepsInv(g: Gate, a: Step)
    requires Inv(g) && Enabled(g, a)
    ensures Inv(Apply(g, a))
  {
    if a.Go? {
      GoKeepsInv(g, a.i);
    } else if !a.Cancel? {
      OtherThreadsStay(g, a, a.i);
    }
  }

  lemma OtherThreadsStay(g: Gate, a: Step, i: nat)
    requires Enabled(g, a) && !a.Cancel? && a.i == i
    ensures |Apply(g, a).threads| == |g.threads|
    ensures forall j :: 0 <= j < |g.threads| && j != i ==> Apply(g, a).threads[j] == g.threads[j]
  {
  }

  lemma GoKeepsLocks(g: Gate, i: nat)
    requires Inv(g) && Enabled(g, Go(i))
    ensures Exclusive(Apply(g, Go(i)))
  {
    var t, t' := g.threads[i], Apply(g, Go(i)).threads[i];
    OtherThreadsStay(g, Go(i), i);
    assert (Writes(t') ==> Writes(t) || t.WantsWrite?) && (Reads(t') ==> Reads(t) || t.WantsRead?);
    assert Apply(g, Go(i)).threads == g.threads[i := t'];
  }

  /** A thread that is not between its two readings leaves the other threads' readings alone. */
  lemma ReadingsStay(g: Gate, i: nat)
    requires Enabled(g, Go(i)) && !g.threads[i].ReadingFlight?
    ensures !g.threads[i].ReadingTotal? && SettledAtStop(Apply(g, Go(i))) ==> SettledAtStop(g)
    ensures (forall j :: 0 <= j < |g.threads| ==> !Apply(g, Go(i)).threads[j].ReadingFlight?)
            ==> forall j :: 0 <= j < |g.threads| ==> !g.threads[j].ReadingFlight?
  {
    OtherThreadsStay(g, Go(i), i);
    forall j | 0 <= j < |g.threads| && j != i ensures Apply(g, Go(i)).threads[j] == g.threads[j] {
    }
  }

  lemma GoKeepsInv(g: Gate, i: nat)
    requires Inv(g) && Enabled(g, Go(i))
    ensures Inv(Apply(g, Go(i)))
  {
    var g', t := Apply(g, Go(i)), g.threads[i];
    GoKeepsLocks(g, i);
    OtherThreadsStay(g, Go(i), i);
    if !t.ReadingFlight? {
      ReadingsStay(g, i);
    } else {
      assert g'.threads[i].ReadingTotal?;
    }
    if t.SettingFlag? {
      assert g'.threads[i].ReadingFlight?;
    }
  }

  ghost predicate Runs(g: Gate, steps: seq<Step>, g': Gate)
    decreases |steps|
  {
    if steps == [] then g' == g else Enabled(g, steps[0]) && Runs(Apply(g, steps[0]), steps[1..], g')
  }

  ghost predicate Fresh(g: Gate) {
    && (forall i :: 0 <= i < |g.threads| ==> g.threads[i].Idle?)
    && g == Gate(g.threads, g.canceled, false, 0, 0, 0, 0)
  }

  lemma {:induction false} RunKeepsInv(g: Gate, steps: seq<Step>, g': Gate)
    requires Inv(g) && Runs(g, steps, g')
    ensures Inv(g')
    decreases |steps|
  {
    if steps != [] {
      StepKeepsInv(g, steps[0]);
      RunKeepsInv(Apply(g, steps[0]), steps[1..], g');
    }
  }

  /** What `snapshot` reports as probes started after the stop. */
  function StartsAfterStop(g: Gate): nat {
    if g.stopping && g.totalStarted > g.startedAtStop then g.totalStarted - g.startedAtStop else 0
  }

  /** No probe starts after the stop: whoever holds the read lock sees a count of zero. */
  lemma NoStartAfterStop(g: Gate, steps: seq<Step>, g': Gate, i: nat)
    requires Fresh(g) && Runs(g, steps, g')
    requires i < |g'.threads| && g'.threads[i].Observing?
    ensures StartsAfterStop(g') == 0
    ensures g'.stopping ==> g'.totalStarted == g'.startedAtStop && g'.inFlight <= g'.inFlightAtStop
  {
    RunKeepsInv(g, steps, g');
    forall j | 0 <= j < |g'.threads| ensures !Writes(g'.threads[j]) {
      assert Writes(g'.threads[j]) ==> j != i;
    }
  }

  /** Once the readings are taken, nothing a run does changes the started count again. */
  lemma {:induction false} CountFrozen(g: Gate, steps: seq<Step>, g': Gate)
    requires Inv(g) && g.stopping && SettledAtStop(g) && Runs(g, steps, g')
    ensures g'.stopping && g'.totalStarted == g.totalStarted && g'.startedAtStop == g.startedAtStop
    decreases |steps|
  {
    if steps != [] {
      var next := Apply(g, steps[0]);
      StepKeepsInv(g, steps[0]);
      assert SettledAtStop(next);
      CountFrozen(next, steps[1..], g');
    }
  }

  // ----- the in-flight counter is exact -----

  function Count(threads: seq<Thread>): nat {
    if threads == [] then 0 else (if InFlight(threads[0]) then 1 else 0) + Count(threads[1..])
  }

  lemma {:induction false} CountChange(threads: seq<Thread>, i: nat, t: Thread)
    requires i < |threads|
    ensures Count(threads[i := t]) + (if InFlight(threads[i]) then 1 else 0) == Count(threads) + (if InFlight(t) then 1 else 0)
  {
    if i == 0 {
      assert threads[0 := t][1..] == threads[1..];
    } else {
      assert threads[i := t][1..] == threads[1..][i - 1 := t];
      CountChange(threads[1..], i - 1, t);
    }
  }

  lemma StepCounts(g: Gate, a: Step)
    requires g.inFlight == Count(g.threads) && Enabled(g, a)
    ensures Apply(g, a).inFlight == Count(Apply(g, a).threads)
  {
    if !a.Cancel? {
      CountChange(g.threads, a.i, Apply(g, a).threads[a.i]);
    }
  }

  lemma {:induction false} InFlightIsExact(g: Gate, steps: seq<Step>, g': Gate)
    requires g.inFlight == Count(g.threads) && Runs(g, steps, g')
    ensures g'.inFlight == Count(g'.threads)
    decreases |steps|
  {
    if steps != [] {
      StepCounts(g, steps[0]);
      InFlightIsExact(Apply(g, steps[0]), steps[1..], g');
    }
  }
}
