/** The end of a run: rewind every marked tracker, decide whether a snapshot is needed, save it. */
module ResumeManager {
  import opened Integers
  import opened ResultLedger
  import opened Trackers
  import OutputCommitter
  import opened ScanPipeline
  import opened ScanConservation
  import opened ScanOutcome
  import opened SnapshotFile

  predicate IsIncomplete(c: Chunk) {
    c.scannedCount < c.totalCount
  }

  /** A run that completed every chunk without an error or a cancellation leaves the snapshot alone. */
  predicate NeedsSave(states: seq<Chunk>, dispatchErr: DispatchOutcome, runErr: RunError) {
    (exists c <- states :: IsIncomplete(c)) || runErr != NoError || dispatchErr == Canceled
  }

  ghost function Marks(trackers: seq<ChunkStateTracker>): seq<set<nat>>
    reads trackers
  {
    seq(|trackers|, i requires 0 <= i < |trackers| reads trackers => trackers[i].unwritten)
  }

  ghost function NonEmpty(marks: seq<set<nat>>): nat {
    if marks == [] then 0
    else NonEmpty(marks[..|marks| - 1]) + if marks[|marks| - 1] != {} then 1 else 0
  }

  method RewindAll(trackers: seq<ChunkStateTracker>) returns (rewound: nat)
    requires forall i, j :: 0 <= i < j < |trackers| ==> trackers[i] != trackers[j]
    requires forall i :: 0 <= i < |trackers| ==> trackers[i].Valid()
    modifies trackers
    ensures forall i :: 0 <= i < |trackers| ==>
      && trackers[i].Valid() && trackers[i].unwritten == {}
      && RewoundTo(old(trackers[i].chunk), old(trackers[i].unwritten), trackers[i].chunk)
    ensures rewound == NonEmpty(old(Marks(trackers)))
  {
    rewound := 0;
    ghost var marks := Marks(trackers);
    for k := 0 to |trackers|
      invariant forall i :: 0 <= i < k ==>
        && trackers[i].Valid() && trackers[i].unwritten == {}
        && RewoundTo(old(trackers[i].chunk), old(trackers[i].unwritten), trackers[i].chunk)
      invariant forall i :: k <= i < |trackers| ==>
        trackers[i].Valid() && trackers[i].chunk == old(trackers[i].chunk) && trackers[i].unwritten == old(trackers[i].unwritten)
      invariant rewound == NonEmpty(marks[..k])
    {
      assert marks[..k + 1][..k] == marks[..k];
      var did := trackers[k].RewindUnwritten();
      if did {
        rewound := rewound + 1;
      }
    }
    assert marks[..|trackers|] == marks;
  }

  method CollectChunkStates(trackers: seq<ChunkStateTracker>) returns (states: seq<Chunk>)
    ensures |states| == |trackers| && forall i :: 0 <= i < |trackers| ==> states[i] == trackers[i].chunk
  {
    states := [];
    for k := 0 to |trackers|
      invariant |states| == k && forall i :: 0 <= i < k ==> states[i] == trackers[i].chunk
    {
      states := states + [trackers[k].chunk];
    }
  }

  method HasIncomplete(states: seq<Chunk>) returns (found: bool)
    ensures found <==> exists c <- states :: IsIncomplete(c)
  {
    for k := 0 to |states|
      invariant forall i :: 0 <= i < k ==> !IsIncomplete(states[i])
    {
      if states[k].scannedCount < states[k].totalCount {
        assert states[k] in states;
        return true;
      }
    }
    found := false;
  }

  datatype Persisted = Skipped | Attempted(result: SaveResult)

  /** `encode` stands for the snapshot writer, `ports` and `unreachable` for the counts it is limited by. */
  method PersistResumeSnapshot(trackers: seq<ChunkStateTracker>, dispatchErr: DispatchOutcome, runErr: RunError,
                               fs: FileSystem, path: Path, encode: seq<Chunk> -> string,
                               ports: seq<nat>, unreachable: nat, limits: SnapshotLimits)
    returns (rewound: nat, states: seq<Chunk>, persisted: Persisted)
    requires forall i, j :: 0 <= i < j < |trackers| ==> trackers[i] != trackers[j]
    requires forall i :: 0 <= i < |trackers| ==> trackers[i].Valid()
    requires fs.Valid() && (forall n <- ports :: n <= MAX64)
    modifies trackers, fs
    ensures fs.Valid() && |states| == |trackers|
    ensures forall i :: 0 <= i < |trackers| ==>
      RewoundTo(old(trackers[i].chunk), old(trackers[i].unwritten), states[i])
    ensures rewound == NonEmpty(old(Marks(trackers)))
    ensures persisted.Attempted? <==> NeedsSave(states, dispatchErr, runErr)
    ensures persisted.Skipped? ==> fs.files == old(fs.files)
    ensures persisted == Attempted(Saved) ==> path in fs.files && fs.files[path].data == encode(states)
    ensures forall k :: |old(fs.history)| <= k < |fs.history| ==>
      OldOrNew(path, old(fs.files), encode(states), fs.history[k])
  {
    rewound := RewindAll(trackers);
    states := CollectChunkStates(trackers);
    var incomplete := HasIncomplete(states);
    if !incomplete && runErr == NoError && dispatchErr != Canceled {
      return rewound, states, Skipped;
    }
    var result := SaveSnapshot(fs, path, ports, unreachable, encode(states), limits);
    persisted := Attempted(result);
  }

  /**
   The trackers and the committer of a run carry enough: rewinding a tracker to its single
   mark gives the chunk state that the whole set of lost tasks asks for.
   */
  lemma TrackersSettle(cfg: Config, s: State, committer: OutputCommitter.Committer, c: nat, saved: Chunk)
    requires committer.Valid() && committer.book == s.book
    requires FeedOk(cfg, s.feed) && c < |cfg.starts| == |committer.trackers|
    requires committer.credited[c] == cfg.starts[c]
    requires committer.trackers[c].chunk.nextIndex == s.feed.cursors[c]
    requires committer.trackers[c].chunk.totalCount == cfg.totals[c]
    requires RewoundTo(committer.trackers[c].chunk, committer.trackers[c].unwritten, saved)
    ensures Settled(cfg, s, c, saved)
  {
    var tracker := committer.trackers[c];
    assert tracker.Valid();
    MarkIsEnough(s.book.lost, c, tracker.firstUnwritten, tracker.unwritten, tracker.chunk, saved);
    assert Unsettled(cfg, s, c, tracker.chunk);
  }
}
