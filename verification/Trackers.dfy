/** Per-chunk progress, as the dispatcher, the committer and the resume manager update it. */
module Trackers {

  datatype Status = Unset | Pending | Scanning | Completed

  /** The progress fields of a resumable chunk; its CIDR and ports never change during a run. */
  datatype Chunk = Chunk(nextIndex: int, scannedCount: int, totalCount: int, status: Status)

  function Restated(c: Chunk): Chunk {
    if c.scannedCount >= c.totalCount then c.(status := Completed)
    else if c.scannedCount > 0 || c.nextIndex > 0 then c.(status := Scanning)
    else c
  }

  ghost predicate IsLeast(m: int, s: set<nat>) {
    m in s && forall i <- s :: m <= i
  }

  /** What a rewind to the least of `unwritten` makes of a chunk. */
  ghost predicate RewoundTo(c: Chunk, unwritten: set<nat>, c': Chunk) {
    if unwritten == {} then c' == c
    else
      && IsLeast(c'.nextIndex, unwritten)
      && c'.scannedCount == c'.nextIndex
      && c'.totalCount == c.totalCount
      && c'.status == (if c'.nextIndex == 0 then Pending
                       else if c'.nextIndex >= c.totalCount then Completed
                       else Scanning)
  }

  /** The lock of the source makes each method one step; the methods are those steps. */
  class ChunkStateTracker {
    var chunk: Chunk
    var firstUnwritten: int
    /** Every index reported as unwritten since the last rewind. */
    ghost var unwritten: set<nat>

    ghost predicate Valid()
      reads this
    {
      if unwritten == {} then firstUnwritten == -1 else IsLeast(firstUnwritten, unwritten)
    }

    constructor (c: Chunk)
      ensures Valid() && chunk == c && unwritten == {}
    {
      chunk, firstUnwritten, unwritten := c, -1, {};
    }

    method AdvanceNextIndex(i: int)
      requires Valid()
      modifies this
      ensures Valid() && chunk == Restated(old(chunk).(nextIndex := i)) && unwritten == old(unwritten)
    {
      chunk := chunk.(nextIndex := i);
      UpdateStatus();
    }

    method IncrementScannedBy(count: nat)
      requires Valid()
      modifies this
      ensures Valid() && unwritten == old(unwritten) && firstUnwritten == old(firstUnwritten)
      ensures chunk == Restated(old(chunk).(scannedCount := old(chunk).scannedCount + count))
    {
      chunk := chunk.(scannedCount := chunk.scannedCount + count);
      UpdateStatus();
    }

    method MarkUnwritten(taskIdx: nat)
      requires Valid()
      modifies this
      ensures Valid() && chunk == old(chunk) && unwritten == old(unwritten) + {taskIdx}
    {
      if firstUnwritten < 0 || taskIdx < firstUnwritten {
        firstUnwritten := taskIdx;
      }
      unwritten := unwritten + {taskIdx};
    }

    method RewindUnwritten() returns (rewound: bool)
      requires Valid()
      modifies this
      ensures Valid() && unwritten == {}
      ensures rewound <==> old(unwritten) != {}
      ensures RewoundTo(old(chunk), old(unwritten), chunk)
    {
      if firstUnwritten < 0 {
        return false;
      }
      chunk := chunk.(nextIndex := firstUnwritten);
      chunk := chunk.(scannedCount := chunk.nextIndex);
      firstUnwritten := -1;
      if chunk.nextIndex == 0 {
        chunk := chunk.(status := Pending);
      } else {
        UpdateStatus();
      }
      unwritten := {};
      rewound := true;
    }

    method UpdateStatus()
      modifies this`chunk
      ensures chunk == Restated(old(chunk))
    {
      if chunk.scannedCount >= chunk.totalCount {
        chunk := chunk.(status := Completed);
      } else if chunk.scannedCount > 0 || chunk.nextIndex > 0 {
        chunk := chunk.(status := Scanning);
      }
    }
  }
}
