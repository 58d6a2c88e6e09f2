/**
 Rebuilding basic targets on resume. Rows that feed only completed chunks are dropped before the
 rows are resolved again; a saved cursor still means the same tasks, or the rebuild is refused.
 */
module ResumeRebuild {
  import opened Wrappers
  import opened Sorting
  import opened TextOrder
  import opened Networks
  import opened Ownership
  import opened BasicTargets
  import opened BasicResolution
  import opened BasicGroups
  import opened BasicFallback
  import opened BasicAgreement

  /** What a rebuild reads of a loaded chunk, its ports as numbers; total 0 means that a legacy snapshot left it out. */
  datatype SavedChunk = SavedChunk(key: string, ports: seq<int>, nextIndex: int, total: nat)

  predicate ChunkIsCompleted(ch: SavedChunk) {
    ch.total > 0 && ch.nextIndex >= ch.total
  }

  // ----- dropping rows -----

  ghost function KeptRows(rows: seq<Row>, keys: set<string>): seq<Row> {
    if rows == [] then []
    else
      var front := KeptRows(rows[..|rows| - 1], keys);
      var last := rows[|rows| - 1];
      if last.cidr != "" && last.cidr in keys then front + [last] else front
  }

  method FilterRecordsByChunkKey(rows: seq<Row>, keys: set<string>) returns (out: seq<Row>)
    ensures out == if keys == {} then [] else KeptRows(rows, keys)
  {
    if keys == {} {
      return [];
    }
    out := [];
    for k := 0 to |rows|
      invariant out == KeptRows(rows[..k], keys)
    {
      assert rows[..k + 1][..k] == rows[..k];
      if rows[k].cidr == "" {
        continue;
      }
      if rows[k].cidr in keys {
        out := out + [rows[k]];
      }
    }
    assert rows[..|rows|] == rows;
  }

  lemma {:induction false} KeptRowsMembers(rows: seq<Row>, keys: set<string>, row: Row)
    ensures row in KeptRows(rows, keys) <==> row in rows && row.cidr != "" && row.cidr in keys
  {
    if rows != [] {
      KeptRowsMembers(rows[..|rows| - 1], keys, row);
      assert rows == rows[..|rows| - 1] + [rows[|rows| - 1]];
    }
  }

  ghost function IncompleteKeys(chunks: seq<SavedChunk>): set<string> {
    set ch <- chunks | !ChunkIsCompleted(ch) :: ch.key
  }

  /** Rows are dropped only when the saved totals can catch a change of ownership. */
  ghost predicate Filters(chunks: seq<SavedChunk>) {
    && (exists ch <- chunks :: !ChunkIsCompleted(ch))
    && (exists ch <- chunks :: ChunkIsCompleted(ch))
    && (forall ch <- chunks :: !ChunkIsCompleted(ch) ==> ch.total != 0)
  }

  ghost function SelectedRows(rows: seq<Row>, chunks: seq<SavedChunk>): seq<Row> {
    if Filters(chunks) then KeptRows(rows, IncompleteKeys(chunks)) else rows
  }

  method ScanChunks(chunks: seq<SavedChunk>) returns (keys: set<string>, allHaveTotal: bool, incomplete: nat)
    ensures keys == IncompleteKeys(chunks) && incomplete <= |chunks|
    ensures allHaveTotal <==> forall ch <- chunks :: !ChunkIsCompleted(ch) ==> ch.total != 0
    ensures incomplete == |chunks| <==> forall ch <- chunks :: !ChunkIsCompleted(ch)
  {
    keys, allHaveTotal, incomplete := {}, true, 0;
    for k := 0 to |chunks|
      invariant keys == IncompleteKeys(chunks[..k]) && incomplete <= k
      invariant allHaveTotal <==> forall ch <- chunks[..k] :: !ChunkIsCompleted(ch) ==> ch.total != 0
      invariant incomplete == k <==> forall ch <- chunks[..k] :: !ChunkIsCompleted(ch)
    {
      assert chunks[..k + 1] == chunks[..k] + [chunks[k]];
      if ChunkIsCompleted(chunks[k]) {
        continue;
      }
      incomplete := incomplete + 1;
      keys := keys + {chunks[k].key};
      if chunks[k].total == 0 {
        allHaveTotal := false;
      }
    }
    assert chunks[..|chunks|] == chunks;
  }

  method SelectRuntimeRecords(rows: seq<Row>, chunks: seq<SavedChunk>) returns (selected: seq<Row>, keys: set<string>)
    ensures selected == SelectedRows(rows, chunks) && keys == IncompleteKeys(chunks)
  {
    var allHaveTotal, incomplete;
    keys, allHaveTotal, incomplete := ScanChunks(chunks);
    NoKeysNoIncomplete(chunks);
    if keys == {} || !allHaveTotal || incomplete == |chunks| {
      selected := rows;
    } else {
      selected := FilterRecordsByChunkKey(rows, keys);
    }
  }

  lemma NoKeysNoIncomplete(chunks: seq<SavedChunk>)
    ensures IncompleteKeys(chunks) == {} <==> forall ch <- chunks :: ChunkIsCompleted(ch)
  {
    if ch :| ch in chunks && !ChunkIsCompleted(ch) {
      assert ch.key in IncompleteKeys(chunks);
    }
  }

  // ----- the ports of a snapshot -----

  ghost predicate PortOfSome(chunks: seq<SavedChunk>, p: int) {
    exists ch <- chunks :: p in ch.ports
  }

  /** Without a port file and without row ports, the ports are those of the saved chunks. */
  method FallbackFromChunks(chunks: seq<SavedChunk>) returns (ports: seq<int>)
    ensures Distinct(ports) && forall p :: p in ports <==> PortOfSome(chunks, p)
    ensures KeepsCommonPorts(chunks, ports)
  {
    ports := [];
    for k := 0 to |chunks|
      invariant Distinct(ports) && forall p :: p in ports <==> PortOfSome(chunks[..k], p)
      invariant forall same :: Distinct(same) && k > 0 && (forall ch <- chunks[..k] :: ch.ports == same) ==> ports == same
    {
      assert chunks[..k + 1] == chunks[..k] + [chunks[k]];
      NothingOfNone(ports, chunks[..k]);
      ports := AddUnseen(ports, chunks[k].ports);
      assert forall p :: PortOfSome(chunks[..k + 1], p) <==> PortOfSome(chunks[..k], p) || p in chunks[k].ports;
      assert chunks[k] in chunks[..k + 1] && forall ch <- chunks[..k] :: ch in chunks[..k + 1];
    }
    assert chunks[..|chunks|] == chunks;
  }

  lemma NothingOfNone(ports: seq<int>, chunks: seq<SavedChunk>)
    requires forall p <- ports :: PortOfSome(chunks, p)
    ensures chunks == [] ==> ports == []
  {
    if ports != [] {
      assert ports[0] in ports && PortOfSome(chunks, ports[0]);
    }
  }

  method AddUnseen(ports: seq<int>, more: seq<int>) returns (out: seq<int>)
    requires Distinct(ports)
    ensures Distinct(out) && forall p :: p in out <==> p in ports || p in more
    ensures Distinct(more) && (ports == [] || ports == more) ==> out == more
  {
    out := ports;
    for k := 0 to |more|
      invariant Distinct(out) && forall p :: p in out <==> p in ports || p in more[..k]
      invariant Distinct(more) && ports == [] ==> out == more[..k]
      invariant ports == more ==> out == more
    {
      assert more[..k + 1] == more[..k] + [more[k]];
      if more[k] !in out {
        out := out + [more[k]];
      }
    }
    assert more[..|more|] == more;
  }

  // ----- the rebuild -----

  datatype RebuildError = Unresolved(cause: ResolveError) | NoPorts(key: string) | NoTargets(key: string)
                        | Incompatible(key: string)

  datatype Runtime = Runtime(chunk: SavedChunk, targets: seq<int>)

  /** A legacy chunk takes the ports of the run. */
  function ChunkPorts(ch: SavedChunk, ports: seq<int>): seq<int> {
    if ch.ports == [] then ports else ch.ports
  }

  /** What became of one saved chunk. */
  ghost predicate Rebuilt(ch: SavedChunk, rt: Runtime, ports: seq<int>, groups: map<GroupKey, Group>) {
    if ChunkIsCompleted(ch) then rt == Runtime(ch, [])
    else
      var key := GroupKey(ch.key, ChunkPorts(ch, ports));
      && key in groups && key.ports != []
      && (ch.total == 0 || ch.total == groups[key].total)
      && rt == Runtime(ch.(ports := key.ports, total := groups[key].total), groups[key].targets)
  }

  function RebuildChunk(ch: SavedChunk, ports: seq<int>, groups: map<GroupKey, Group>): (r: Outcome<Runtime, RebuildError>)
    ensures r.Failure? ==> !r.error.Unresolved?
    ensures r.Success? <==> exists rt :: Rebuilt(ch, rt, ports, groups)
    ensures r.Success? ==> Rebuilt(ch, r.value, ports, groups)
  {
    if ChunkIsCompleted(ch) then
      assert Rebuilt(ch, Runtime(ch, []), ports, groups);
      Success(Runtime(ch, []))
    else
      var key := GroupKey(ch.key, ChunkPorts(ch, ports));
      if key.ports == [] then Failure(NoPorts(ch.key))
      else if key !in groups then Failure(NoTargets(ch.key))
      else if ch.total != 0 && ch.total != groups[key].total then Failure(Incompatible(ch.key))
      else
        var rt := Runtime(ch.(ports := key.ports, total := groups[key].total), groups[key].targets);
        assert Rebuilt(ch, rt, ports, groups);
        Success(rt)
  }

  /** Chunks that all have the same port list give that list, in its order. */
  ghost predicate KeepsCommonPorts(chunks: seq<SavedChunk>, ports: seq<int>) {
    forall same :: Distinct(same) && chunks != [] && (forall ch <- chunks :: ch.ports == same) ==> ports == same
  }

  /** The port numbers of the run: those it was given, or else those of the saved chunks. */
  ghost predicate RunPorts(chunks: seq<SavedChunk>, rows: seq<Row>, fallback: seq<int>, defaults: seq<int>) {
    if fallback == [] && !HasRowPorts(rows)
    then Distinct(defaults) && (forall p :: p in defaults <==> PortOfSome(chunks, p)) && KeepsCommonPorts(chunks, defaults)
    else defaults == fallback
  }

  ghost predicate AllRebuilt(chunks: seq<SavedChunk>, runtimes: seq<Runtime>, ports: seq<int>, groups: map<GroupKey, Group>) {
    |runtimes| == |chunks| && forall i :: 0 <= i < |chunks| ==> Rebuilt(chunks[i], runtimes[i], ports, groups)
  }

  /** Nothing is resolved when every chunk is completed. */
  ghost predicate Resolves(chunks: seq<SavedChunk>, rows: seq<Row>, reachable: int -> bool, ports: seq<int>,
                           groups: map<GroupKey, Group>) {
    IncompleteKeys(chunks) != {} ==> IsResolved(SelectedRows(rows, chunks), reachable, ports, groups)
  }

  ghost predicate SameNumbers(ports: seq<int>, defaults: seq<int>) {
    Distinct(ports) && (forall p :: p in ports <==> p in defaults) && (Distinct(defaults) ==> ports == defaults)
  }

  method RebuildChunks(chunks: seq<SavedChunk>, ports: seq<int>, groups: map<GroupKey, Group>)
    returns (r: Outcome<seq<Runtime>, RebuildError>)
    ensures r.Success? ==> AllRebuilt(chunks, r.value, ports, groups)
    ensures r.Failure? ==>
              && !r.error.Unresolved?
              && exists ch <- chunks :: !ChunkIsCompleted(ch) && forall rt :: !Rebuilt(ch, rt, ports, groups)
  {
    var runtimes: seq<Runtime> := [];
    for i := 0 to |chunks|
      invariant |runtimes| == i && forall j :: 0 <= j < i ==> Rebuilt(chunks[j], runtimes[j], ports, groups)
    {
      var rt := RebuildChunk(chunks[i], ports, groups);
      if rt.Failure? {
        assert !ChunkIsCompleted(chunks[i]) && chunks[i] in chunks;
        return Failure(rt.error);
      }
      runtimes := runtimes + [rt.value];
    }
    return Success(runtimes);
  }

  /** Rebuilds the runtime of every chunk; success means that every incomplete chunk fits its group. */
  method BuildBasicRuntime(chunks: seq<SavedChunk>, rows: seq<Row>, fallback: seq<int>, reachable: int -> bool)
    returns (r: Outcome<seq<Runtime>, RebuildError>, ghost defaults: seq<int>, ghost ports: seq<int>,
             ghost groups: map<GroupKey, Group>)
    requires forall row <- rows :: ValidRow(row)
    ensures RunPorts(chunks, rows, fallback, defaults)
    ensures IncompleteKeys(chunks) != {} ==> SameNumbers(ports, defaults)
    ensures r.Success? ==> Resolves(chunks, rows, reachable, ports, groups) && AllRebuilt(chunks, r.value, defaults, groups)
    ensures r.Failure? && r.error.Unresolved? ==>
              FirstError(SelectedRows(rows, chunks), reachable, ports) == Some(r.error.cause)
    ensures r.Failure? && !r.error.Unresolved? ==>
              && Resolves(chunks, rows, reachable, ports, groups)
              && exists ch <- chunks :: !ChunkIsCompleted(ch) && forall rt :: !Rebuilt(ch, rt, defaults, groups)
  {
    var given := fallback;
    if fallback == [] && !HasRowPorts(rows) {
      given := FallbackFromChunks(chunks);
    }
    defaults, ports, groups := given, given, map[];
    var selected, keys := SelectRuntimeRecords(rows, chunks);
    var built: map<GroupKey, Group> := map[];
    if keys != {} {
      forall row <- selected ensures ValidRow(row) {
        KeptRowsMembers(rows, IncompleteKeys(chunks), row);
      }
      var resolved, used := ResolveBasicTargets(selected, given, reachable);
      ports := used;
      if resolved.Failure? {
        return Failure(Unresolved(resolved.error)), defaults, ports, groups;
      }
      built := resolved.value;
      groups := built;
    }
    r := RebuildChunks(chunks, given, built);
  }

  // ----- fallback ports: a rebuild from fewer rows -----

  lemma LeastAmongKept(rows: seq<Row>, keys: set<string>, reachable: int -> bool, cidr: string, ip: int)
    requires cidr != "" && cidr in keys && IsLeast(rows, reachable, cidr, ip)
    ensures IsLeast(KeptRows(rows, keys), reachable, cidr, ip)
  {
    forall row ensures row in KeptRows(rows, keys) <==> row in rows && row.cidr != "" && row.cidr in keys {
      KeptRowsMembers(rows, keys, row);
    }
    assert Listed(KeptRows(rows, keys), reachable, cidr, ip);
    forall c | Listed(KeptRows(rows, keys), reachable, c, ip) ensures LexLeq(cidr, c) {
      assert Listed(rows, reachable, c, ip);
    }
  }

  /** Dropping rows can only give a kept CIDR more addresses, so an equal count means the same sequence. */
  lemma FallbackResume(rows: seq<Row>, keys: set<string>, reachable: int -> bool, ports: seq<int>,
                       full: map<GroupKey, Group>, part: map<GroupKey, Group>, key: GroupKey)
    requires IsFallback(rows, reachable, ports, full) && IsFallback(KeptRows(rows, keys), reachable, ports, part)
    requires key in full && key.cidr != "" && key.cidr in keys && ports != []
    ensures key in part
    ensures forall ip <- full[key].targets :: ip in part[key].targets
    ensures part[key].total == full[key].total ==> part[key] == full[key]
  {
    forall ip | IsLeast(rows, reachable, key.cidr, ip) ensures IsLeast(KeptRows(rows, keys), reachable, key.cidr, ip) {
      LeastAmongKept(rows, keys, reachable, key.cidr, ip);
    }
    assert IsFallbackGroup(rows, reachable, ports, key.cidr, full[key]);
    assert IsFallbackGroup(KeptRows(rows, keys), reachable, ports, key.cidr, part[key]);
    if part[key].total == full[key].total {
      SameFactor(|part[key].targets|, |full[key].targets|, |ports|);
      IncreasingSameSize(full[key].targets, part[key].targets);
    }
  }

  lemma SameFactor(a: nat, b: nat, n: nat)
    requires n > 0 && a * n == b * n
    ensures a == b
  {
    NextMultiple(a, b, n);
    NextMultiple(b, a, n);
  }

  // ----- row ports: a rebuild when no ip:port has two CIDRs -----

  lemma {:induction false} KeptClaims(rows: seq<Row>, keys: set<string>, reachable: int -> bool, ports: seq<int>)
    requires "" !in keys
    ensures ClaimsOf(KeptRows(rows, keys), reachable, ports) == Kept(ClaimsOf(rows, reachable, ports), keys)
  {
    if rows != [] {
      var front, last := rows[..|rows| - 1], rows[|rows| - 1];
      KeptClaims(front, keys, reachable, ports);
      if Range(last).Some? {
        var more := AddressClaims(last.cidr, Survivors(last, reachable), RowPorts(last, ports));
        forall c <- more ensures c.group == last.cidr {
          AddressClaimsMembers(last.cidr, Survivors(last, reachable), RowPorts(last, ports), c);
        }
        KeptOfOneGroup(ClaimsOf(front, reachable, ports), more, last.cidr, keys);
      }
      if last.cidr in keys {
        assert KeptRows(rows, keys)[..|KeptRows(rows, keys)| - 1] == KeptRows(front, keys);
      }
    }
  }

  lemma {:induction false} KeptOfOneGroup(claims: seq<Claim>, more: seq<Claim>, group: string, keys: set<string>)
    requires forall c <- more :: c.group == group
    ensures Kept(claims + more, keys) == Kept(claims, keys) + if group in keys then more else []
  {
    if more == [] {
      assert claims + more == claims;
    } else {
      var front := more[..|more| - 1];
      assert forall c <- front :: c in more;
      KeptOfOneGroup(claims, front, group, keys);
      assert (claims + more)[..|claims + more| - 1] == claims + front;
      assert more[|more| - 1] in more;
      assert more == front + [more[|more| - 1]];
    }
  }
}
