/** Rebuilding rich targets on resume from the rows of the incomplete chunks and every deny row. */
module RichResume {
  import opened Wrappers
  import opened Sorting
  import opened Networks
  import opened Ownership
  import opened BasicTargets
  import opened BasicGroups
  import opened RichTargets
  import opened RichGroups
  import opened ResumeRebuild

  predicate Stays(row: RichRow, keys: set<string>) {
    Denies(row) || (row.valid && row.segment in keys)
  }

  ghost function KeptRichRows(rows: seq<RichRow>, keys: set<string>): seq<RichRow> {
    if rows == [] then []
    else
      var front := KeptRichRows(rows[..|rows| - 1], keys);
      if Stays(rows[|rows| - 1], keys) then front + [rows[|rows| - 1]] else front
  }

  method FilterRichRecords(rows: seq<RichRow>, keys: set<string>) returns (out: seq<RichRow>)
    ensures out == if keys == {} then [] else KeptRichRows(rows, keys)
  {
    if keys == {} {
      return [];
    }
    out := [];
    for k := 0 to |rows|
      invariant out == KeptRichRows(rows[..k], keys)
    {
      assert rows[..k + 1][..k] == rows[..k];
      if Denies(rows[k]) {
        out := out + [rows[k]];
        continue;
      }
      if rows[k].valid && rows[k].segment in keys {
        out := out + [rows[k]];
      }
    }
    assert rows[..|rows|] == rows;
  }

  lemma {:induction false} KeptRichMembers(rows: seq<RichRow>, keys: set<string>, row: RichRow)
    ensures row in KeptRichRows(rows, keys) <==> row in rows && Stays(row, keys)
  {
    if rows != [] {
      KeptRichMembers(rows[..|rows| - 1], keys, row);
      assert rows == rows[..|rows| - 1] + [rows[|rows| - 1]];
    }
  }

  /** Every deny row stays, so the denied keys do. */
  lemma DeniedStay(rows: seq<RichRow>, keys: set<string>)
    ensures DeniedKeys(KeptRichRows(rows, keys)) == DeniedKeys(rows)
  {
    forall row ensures row in KeptRichRows(rows, keys) <==> row in rows && Stays(row, keys) {
      KeptRichMembers(rows, keys, row);
    }
    forall k ensures k in DeniedKeys(KeptRichRows(rows, keys)) <==> k in DeniedKeys(rows) {
    }
  }

  lemma {:induction false} KeptRichClaims(rows: seq<RichRow>, keys: set<string>, denied: set<(int, int)>, reachable: int -> bool)
    ensures RichClaims(KeptRichRows(rows, keys), denied, reachable) == Kept(RichClaims(rows, denied, reachable), keys)
  {
    if rows != [] {
      var front, last := rows[..|rows| - 1], rows[|rows| - 1];
      KeptRichClaims(front, keys, denied, reachable);
      if Accepts(last) {
        var more := AddressClaims(last.segment, RichSurvivors(last, denied, reachable), [last.port]);
        forall c <- more ensures c.group == last.segment {
          AddressClaimsMembers(last.segment, RichSurvivors(last, denied, reachable), [last.port], c);
        }
        KeptOfOneGroup(RichClaims(front, denied, reachable), more, last.segment, keys);
      }
      if Stays(last, keys) {
        assert KeptRichRows(rows, keys)[..|KeptRichRows(rows, keys)| - 1] == KeptRichRows(front, keys);
      }
    }
  }

  /** Dropping rows can only give a kept segment more keys, so an equal count means the same sequence. */
  lemma RichGroupResume(rows: seq<RichRow>, keys: set<string>, reachable: int -> bool,
                        full: map<string, seq<Target>>, part: map<string, seq<Target>>, s: string)
    requires IsRichResolution(RichClaims(rows, DeniedKeys(rows), reachable), full)
    requires IsRichResolution(RichClaims(KeptRichRows(rows, keys), DeniedKeys(KeptRichRows(rows, keys)), reachable), part)
    requires s in full && s in keys
    ensures s in part && forall t <- full[s] :: t in part[s]
    ensures |part[s]| == |full[s]| ==> part[s] == full[s]
  {
    var claims := RichClaims(rows, DeniedKeys(rows), reachable);
    DeniedStay(rows, keys);
    KeptRichClaims(rows, keys, DeniedKeys(rows), reachable);
    GroupOnlyGrows(claims, keys, full, part, s);
    if |part[s]| == |full[s]| {
      assert IsRichGroup(claims, s, full[s]) && IsRichGroup(Kept(claims, keys), s, part[s]);
      StrictSameSize(full[s], part[s]);
    }
  }

  lemma GroupOnlyGrows(claims: seq<Claim>, keys: set<string>, full: map<string, seq<Target>>,
                       part: map<string, seq<Target>>, s: string)
    requires IsRichResolution(claims, full) && IsRichResolution(Kept(claims, keys), part)
    requires s in full && s in keys
    ensures s in part && forall t <- full[s] :: t in part[s]
  {
    forall ip, port | Owner(claims, ip, port) == Some(s) ensures Owner(Kept(claims, keys), ip, port) == Some(s) {
      KeptOwner(claims, keys, ip, port);
    }
    var ip, port :| Owner(claims, ip, port) == Some(s);
    assert IsRichGroup(claims, s, full[s]) && IsRichGroup(Kept(claims, keys), s, part[s]);
    forall t <- full[s] ensures t in part[s] {
      assert Target(t.ip, t.port) in full[s];
    }
  }

  // ----- the rebuild -----

  ghost function SelectedRichRows(rows: seq<RichRow>, chunks: seq<SavedChunk>): seq<RichRow> {
    if Filters(chunks) then KeptRichRows(rows, IncompleteKeys(chunks)) else rows
  }

  datatype RichRuntime = RichRuntime(chunk: SavedChunk, targets: seq<Target>)

  datatype RichRebuildError = RichUnresolved(cause: RichError) | NoRichTargets(key: string) | RichIncompatible(key: string)

  /** A chunk without ports gets one representative: that of its first target. */
  function RichChunkPorts(ch: SavedChunk, targets: seq<Target>): seq<int> {
    if ch.ports != [] then ch.ports
    else [if |targets| > 0 && targets[0].port > 0 then targets[0].port else 1]
  }

  ghost predicate RichRebuilt(ch: SavedChunk, rt: RichRuntime, groups: map<string, seq<Target>>) {
    if ChunkIsCompleted(ch) then rt == RichRuntime(ch, [])
    else
      && ch.key in groups
      && var ports := RichChunkPorts(ch, groups[ch.key]);
         && (ch.total == 0 || ch.total == |groups[ch.key]| * |ports|)
         && rt == RichRuntime(ch.(ports := ports, total := |groups[ch.key]| * |ports|), groups[ch.key])
  }

  function RebuildRichChunk(ch: SavedChunk, groups: map<string, seq<Target>>): (r: Outcome<RichRuntime, RichRebuildError>)
    ensures r.Success? <==> exists rt :: RichRebuilt(ch, rt, groups)
    ensures r.Success? ==> RichRebuilt(ch, r.value, groups)
    ensures r.Failure? ==> !r.error.RichUnresolved?
  {
    if ChunkIsCompleted(ch) then
      assert RichRebuilt(ch, RichRuntime(ch, []), groups);
      Success(RichRuntime(ch, []))
    else if ch.key !in groups then Failure(NoRichTargets(ch.key))
    else
      var ports := RichChunkPorts(ch, groups[ch.key]);
      var total := |groups[ch.key]| * |ports|;
      if ch.total != 0 && ch.total != total then Failure(RichIncompatible(ch.key))
      else
        var rt := RichRuntime(ch.(ports := ports, total := total), groups[ch.key]);
        assert RichRebuilt(ch, rt, groups);
        Success(rt)
  }

  ghost predicate RichResolves(chunks: seq<SavedChunk>, rows: seq<RichRow>, reachable: int -> bool,
                               groups: map<string, seq<Target>>) {
    var selected := SelectedRichRows(rows, chunks);
    IncompleteKeys(chunks) != {} ==> IsRichResolution(RichClaims(selected, DeniedKeys(selected), reachable), groups)
  }

  ghost predicate AllRichRebuilt(chunks: seq<SavedChunk>, runtimes: seq<RichRuntime>, groups: map<string, seq<Target>>) {
    |runtimes| == |chunks| && forall i :: 0 <= i < |chunks| ==> RichRebuilt(chunks[i], runtimes[i], groups)
  }

  method SelectRichRecords(rows: seq<RichRow>, chunks: seq<SavedChunk>) returns (selected: seq<RichRow>, keys: set<string>)
    ensures selected == SelectedRichRows(rows, chunks) && keys == IncompleteKeys(chunks)
  {
    var allHaveTotal, incomplete;
    keys, allHaveTotal, incomplete := ScanChunks(chunks);
    NoKeysNoIncomplete(chunks);
    if keys == {} || !allHaveTotal || incomplete == |chunks| {
      selected := rows;
    } else {
      selected := FilterRichRecords(rows, keys);
    }
  }

  method BuildRichRuntime(chunks: seq<SavedChunk>, rows: seq<RichRow>, reachable: int -> bool)
    returns (r: Outcome<seq<RichRuntime>, RichRebuildError>, ghost groups: map<string, seq<Target>>)
    requires forall row <- rows :: ParsedRow(row)
    ensures r.Success? ==> RichResolves(chunks, rows, reachable, groups) && AllRichRebuilt(chunks, r.value, groups)
    ensures r.Failure? && r.error.RichUnresolved? ==> forall row <- SelectedRichRows(rows, chunks) :: !row.valid
    ensures r.Failure? && !r.error.RichUnresolved? ==>
              && RichResolves(chunks, rows, reachable, groups)
              && exists ch <- chunks :: !ChunkIsCompleted(ch) && forall rt :: !RichRebuilt(ch, rt, groups)
  {
    groups := map[];
    var selected, keys := SelectRichRecords(rows, chunks);
    var built: map<string, seq<Target>> := map[];
    if keys != {} {
      forall row <- selected ensures ParsedRow(row) {
        KeptRichMembers(rows, IncompleteKeys(chunks), row);
      }
      var resolved := BuildRichGroups(selected, reachable);
      if resolved.Failure? {
        return Failure(RichUnresolved(resolved.error)), groups;
      }
      built := resolved.value;
      groups := built;
    }
    var runtimes: seq<RichRuntime> := [];
    for i := 0 to |chunks|
      invariant |runtimes| == i && forall j :: 0 <= j < i ==> RichRebuilt(chunks[j], runtimes[j], built)
    {
      var rt := RebuildRichChunk(chunks[i], built);
      if rt.Failure? {
        assert !ChunkIsCompleted(chunks[i]) && chunks[i] in chunks;
        return Failure(rt.error), groups;
      }
      runtimes := runtimes + [rt.value];
    }
    return Success(runtimes), groups;
  }

  // ----- the theorem about a whole rebuild -----

  /** The chunk that the full plan makes of one segment: one representative port, one task per key. */
  ghost predicate SavedFromRich(full: map<string, seq<Target>>, ch: SavedChunk) {
    ch.key in full && |ch.ports| == 1 && ch.total == |full[ch.key]|
  }

  ghost predicate RichResumes(full: map<string, seq<Target>>, ch: SavedChunk, rt: RichRuntime) {
    ch.key in full && rt == RichRuntime(ch, full[ch.key])
  }

  lemma RichGroupAfterResume(rows: seq<RichRow>, chunks: seq<SavedChunk>, reachable: int -> bool,
                             full: map<string, seq<Target>>, part: map<string, seq<Target>>, s: string)
    requires IsRichResolution(RichClaims(rows, DeniedKeys(rows), reachable), full)
    requires RichResolves(chunks, rows, reachable, part)
    requires s in IncompleteKeys(chunks) && s in full && s in part && |part[s]| == |full[s]|
    ensures part[s] == full[s]
  {
    if Filters(chunks) {
      RichGroupResume(rows, IncompleteKeys(chunks), reachable, full, part, s);
    } else {
      RichResolutionUnique(RichClaims(rows, DeniedKeys(rows), reachable), full, part);
    }
  }

  lemma SavedTotalPositive(claims: seq<Claim>, full: map<string, seq<Target>>, s: string)
    requires IsRichResolution(claims, full) && s in full
    ensures |full[s]| > 0
  {
    var ip, port :| Owner(claims, ip, port) == Some(s);
    assert IsRichGroup(claims, s, full[s]);
    assert Target(ip, port) in full[s];
  }

  lemma OneRichChunk(rows: seq<RichRow>, chunks: seq<SavedChunk>, reachable: int -> bool,
                     full: map<string, seq<Target>>, part: map<string, seq<Target>>, ch: SavedChunk, rt: RichRuntime)
    requires IsRichResolution(RichClaims(rows, DeniedKeys(rows), reachable), full)
    requires RichResolves(chunks, rows, reachable, part) && ch.key in IncompleteKeys(chunks)
    requires SavedFromRich(full, ch) && !ChunkIsCompleted(ch) && RichRebuilt(ch, rt, part)
    ensures RichResumes(full, ch, rt)
  {
    SavedTotalPositive(RichClaims(rows, DeniedKeys(rows), reachable), full, ch.key);
    RichGroupAfterResume(rows, chunks, reachable, full, part, ch.key);
  }

  /** If the rebuild is accepted, every incomplete chunk gets the keys of its segment in the saved order. */
  lemma SameKeysAfterResume(rows: seq<RichRow>, chunks: seq<SavedChunk>, reachable: int -> bool,
                            full: map<string, seq<Target>>, part: map<string, seq<Target>>, runtimes: seq<RichRuntime>)
    requires IsRichResolution(RichClaims(rows, DeniedKeys(rows), reachable), full)
    requires RichResolves(chunks, rows, reachable, part) && AllRichRebuilt(chunks, runtimes, part)
    requires forall k :: 0 <= k < |chunks| ==> SavedFromRich(full, chunks[k])
    ensures forall k :: 0 <= k < |chunks| && !ChunkIsCompleted(chunks[k]) ==> RichResumes(full, chunks[k], runtimes[k])
  {
    forall k | 0 <= k < |chunks| && !ChunkIsCompleted(chunks[k]) ensures RichResumes(full, chunks[k], runtimes[k]) {
      var ch := chunks[k];
      assert SavedFromRich(full, ch) && ch in chunks && ch.key in IncompleteKeys(chunks);
      OneRichChunk(rows, chunks, reachable, full, part, ch, runtimes[k]);
    }
  }
}
