/**
 Chains of runs over one snapshot file. A run can be killed at any of its steps, its save can
 fail or be killed at any file operation, and the next run starts from whatever is on disk.
 */
module ResumeChain {
  import opened Wrappers
  import opened ResultLedger
  import opened Trackers
  import opened ScanPipeline
  import opened ScanConservation
  import opened ScanShutdown
  import opened ScanOutcome
  import opened ResumeManager

  /** A snapshot names the pair of result files its cursors speak about, once a run recorded it. */
  datatype Snapshot = Snapshot(chunks: seq<Chunk>, output: Option<nat>)

  /** What survives a kill: the snapshot at the resume path, and the rows in each pair of files. */
  datatype World = World(snapshot: Snapshot, files: map<nat, Outputs>)

  ghost predicate Consistent(c: Chunk) {
    0 <= c.scannedCount == c.nextIndex <= c.totalCount
  }

  /** The snapshot claims only rows that are in the files it names. */
  ghost predicate Truthful(w: World) {
    && (forall c <- w.snapshot.chunks :: Consistent(c))
    && match w.snapshot.output
       case None => forall c <- w.snapshot.chunks :: c.nextIndex == 0
       case Some(p) => p in w.files && forall c :: 0 <= c < |w.snapshot.chunks| ==>
                         Claimed(w.files[p], c, 0, w.snapshot.chunks[c].nextIndex)
  }

  // ----- one run -----

  /** The files a run appends to: the recorded pair, or a new pair. */
  ghost predicate Opens(w: World, p: nat, o: Outputs) {
    match w.snapshot.output
    case None => p !in w.files && o == Outputs(Sink([], []), Sink([], []))
    case Some(q) => p == q && p in w.files && o == Outputs(Sink(w.files[p].scan.file, []), Sink(w.files[p].open.file, []))
  }

  ghost predicate Resumes(w: World, cfg: Config) {
    && |cfg.starts| == |cfg.totals| == |w.snapshot.chunks| && 1 <= cfg.capacity
    && forall c :: 0 <= c < |w.snapshot.chunks| ==>
         cfg.starts[c] == w.snapshot.chunks[c].nextIndex && cfg.totals[c] == w.snapshot.chunks[c].totalCount
  }

  datatype Run = Run(cfg: Config, pair: nat, start: State, steps: seq<Step>, now: State)

  ghost predicate Happens(w: World, r: Run) {
    && Resumes(w, r.cfg)
    && Initial(r.cfg, r.start)
    && Opens(w, r.pair, r.start.book.outputs)
    && Runs(r.cfg, r.start, r.steps, r.now)
  }

  /** Buffers are gone when the process is; what reached the files stays. */
  ghost function Kept(w: World, r: Run): map<nat, Outputs> {
    w.files[r.pair := Outputs(Sink(r.now.book.outputs.scan.file, []), Sink(r.now.book.outputs.open.file, []))]
  }

  ghost predicate Closes(r: Run, states: seq<Chunk>) {
    && r.now.loop.phase.Ended?
    && FeedOk(r.cfg, r.now.feed)
    && |states| == |r.cfg.starts|
    && forall c :: 0 <= c < |states| ==> Settled(r.cfg, r.now, c, states[c])
  }

  /** The run is killed, skips the save, or attempts it and leaves the old or the new snapshot. */
  ghost predicate Episode(w: World, r: Run, states: seq<Chunk>, w': World) {
    && Happens(w, r)
    && w'.files == Kept(w, r)
    && (w'.snapshot == w.snapshot
        || (Closes(r, states) && NeedsSave(states, r.now.loop.dispatchErr, r.now.loop.runErr)
            && w'.snapshot == Snapshot(states, Some(r.pair))))
  }

  // ----- every episode keeps the snapshot truthful -----

  lemma ClaimsGrow(o: Outputs, o': Outputs, c: nat, lo: int, hi: int)
    requires Claimed(o, c, lo, hi) && OutputsGrow(o, o')
    ensures Claimed(o', c, lo, hi)
  {
    MembersOfPrefix(o.scan.file, o'.scan.file);
    MembersOfPrefix(o.open.file, o'.open.file);
    forall i: nat | lo <= i < hi ensures RowIn(o', Task(c, i)) {
      assert RowIn(o, Task(c, i));
    }
  }

  lemma RunReaches(w: World, r: Run)
    requires Truthful(w) && Happens(w, r)
    ensures WellFormed(r.cfg) && Reachable(r.cfg, r.now)
    ensures OutputsGrow(r.start.book.outputs, r.now.book.outputs)
  {
    forall c | 0 <= c < |r.cfg.starts| ensures r.cfg.starts[c] <= r.cfg.totals[c] {
      assert Consistent(w.snapshot.chunks[c]);
    }
    InitialConserved(r.cfg, r.start);
    InitialShutdown(r.cfg, r.start);
    RunKeepsInv(r.cfg, r.start, r.steps, r.now);
  }

  /** What the snapshot claimed before the run is still in the run's files. */
  lemma OldClaims(w: World, r: Run, c: nat)
    requires Truthful(w) && Happens(w, r) && c < |w.snapshot.chunks|
    ensures Claimed(Kept(w, r)[r.pair], c, 0, w.snapshot.chunks[c].nextIndex)
  {
    RunReaches(w, r);
    if w.snapshot.output.Some? {
      ClaimsGrow(w.files[r.pair], Kept(w, r)[r.pair], c, 0, w.snapshot.chunks[c].nextIndex);
    } else {
      assert w.snapshot.chunks[c].nextIndex == 0;
    }
  }

  /** The rows of a closed run, together with the old ones, reach from zero to each saved cursor. */
  lemma NewClaims(w: World, r: Run, states: seq<Chunk>, c: nat)
    requires Truthful(w) && Happens(w, r) && Closes(r, states) && c < |states|
    ensures Consistent(states[c]) && states[c].totalCount == w.snapshot.chunks[c].totalCount
    ensures w.snapshot.chunks[c].nextIndex <= states[c].nextIndex
    ensures Claimed(Kept(w, r)[r.pair], c, 0, states[c].nextIndex)
  {
    RunReaches(w, r);
    OldClaims(w, r, c);
    CursorAccounting(r.cfg, r.now, c, states[c]);
    NoRowSkipped(r.cfg, r.now, c, states[c]);
    ClaimsGrow(r.now.book.outputs, Kept(w, r)[r.pair], c, r.cfg.starts[c], states[c].nextIndex);
  }

  lemma EpisodeKeepsTruth(w: World, r: Run, states: seq<Chunk>, w': World)
    requires Truthful(w) && Episode(w, r, states, w')
    ensures Truthful(w')
  {
    if w'.snapshot == w.snapshot {
      if w.snapshot.output.Some? {
        forall c | 0 <= c < |w.snapshot.chunks|
          ensures Claimed(w'.files[r.pair], c, 0, w.snapshot.chunks[c].nextIndex)
        {
          OldClaims(w, r, c);
        }
      }
    } else {
      forall c | 0 <= c < |states|
        ensures Consistent(states[c]) && Claimed(w'.files[r.pair], c, 0, states[c].nextIndex)
      {
        NewClaims(w, r, states, c);
      }
    }
  }

  // ----- chains -----

  /** A chain of runs, whatever ended each of them. */
  ghost predicate Chain(ws: seq<World>) {
    && ws != []
    && forall k :: 0 <= k < |ws| - 1 ==> Follows(ws[k], ws[k + 1])
  }

  ghost predicate Follows(w: World, w': World) {
    exists r, states :: Episode(w, r, states, w')
  }

  /** The snapshot a chain starts from: nothing dispatched yet, no result files named. */
  ghost predicate Generated(w: World) {
    w.snapshot.output.None? && forall c <- w.snapshot.chunks :: Consistent(c) && c.nextIndex == 0
  }

  lemma {:induction false} ChainIsTruthful(ws: seq<World>)
    requires Chain(ws) && Generated(ws[0])
    ensures Truthful(ws[|ws| - 1])
    ensures |ws[|ws| - 1].snapshot.chunks| == |ws[0].snapshot.chunks|
    ensures forall c :: 0 <= c < |ws[0].snapshot.chunks| ==>
      ws[|ws| - 1].snapshot.chunks[c].totalCount == ws[0].snapshot.chunks[c].totalCount
  {
    if |ws| > 1 {
      var front := ws[..|ws| - 1];
      assert forall k :: 0 <= k < |front| - 1 ==> Follows(front[k], front[k + 1]);
      ChainIsTruthful(front);
      var w, w' := front[|front| - 1], ws[|ws| - 1];
      assert Follows(ws[|ws| - 2], ws[|ws| - 1]);
      var r: Run, states: seq<Chunk> :| Episode(w, r, states, w');
      EpisodeKeepsTruth(w, r, states, w');
      if w'.snapshot != w.snapshot {
        forall c: nat | c < |states| ensures states[c].totalCount == w.snapshot.chunks[c].totalCount {
          NewClaims(w, r, states, c);
        }
      }
    }
  }

  /** Each index of every chunk has its row in the pair of files. */
  ghost predicate AllRows(w: World, p: nat) {
    && p in w.files
    && forall c :: 0 <= c < |w.snapshot.chunks| ==> Claimed(w.files[p], c, 0, w.snapshot.chunks[c].totalCount)
  }

  /** When a chain reaches the end of every chunk, no index of any chunk was ever skipped. */
  lemma FinishedChainHasAllRows(ws: seq<World>)
    requires Chain(ws) && Generated(ws[0])
    requires forall c <- ws[|ws| - 1].snapshot.chunks :: c.nextIndex == c.totalCount
    requires ws[|ws| - 1].snapshot.output.Some?
    ensures AllRows(ws[|ws| - 1], ws[|ws| - 1].snapshot.output.value)
  {
    ChainIsTruthful(ws);
  }

  /** A run that skips the save, at the end of any chain, leaves nothing to resume: all rows are there. */
  lemma SkippedSaveHasAllRows(ws: seq<World>, r: Run, states: seq<Chunk>, w': World)
    requires Chain(ws) && Generated(ws[0])
    requires var w := ws[|ws| - 1];
      Happens(w, r) && Closes(r, states) && !NeedsSave(states, r.now.loop.dispatchErr, r.now.loop.runErr)
      && w' == World(w.snapshot, Kept(w, r))
    ensures AllRows(w', r.pair)
  {
    ChainIsTruthful(ws);
    var w := ws[|ws| - 1];
    forall c | 0 <= c < |w'.snapshot.chunks|
      ensures Claimed(w'.files[r.pair], c, 0, w'.snapshot.chunks[c].totalCount)
    {
      NewClaims(w, r, states, c);
      assert states[c] in states && !IsIncomplete(states[c]);
    }
  }
}
