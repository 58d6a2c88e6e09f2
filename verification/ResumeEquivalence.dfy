/** When a resumed basic scan runs the very tasks that its saved cursors count. */
module ResumeEquivalence {
  import opened Wrappers
  import opened Sorting
  import opened Networks
  import opened Ownership
  import opened BasicTargets
  import opened BasicGroups
  import opened BasicFallback
  import opened BasicAgreement
  import opened ResumeRebuild
  import opened ResumeExactness
  import opened ResumeAccepted

  lemma FallbackUnique(rows: seq<Row>, reachable: int -> bool, ports: seq<int>,
                       one: map<GroupKey, Group>, other: map<GroupKey, Group>)
    requires IsFallback(rows, reachable, ports, one) && IsFallback(rows, reachable, ports, other)
    ensures one == other
  {
    forall key ensures key in one <==> key in other {
    }
    forall key <- one ensures one[key] == other[key] {
      assert IsFallbackGroup(rows, reachable, ports, key.cidr, one[key]);
      assert IsFallbackGroup(rows, reachable, ports, key.cidr, other[key]);
      IncreasingUnique(one[key].targets, other[key].targets);
    }
  }

  lemma ResolvedUnique(rows: seq<Row>, reachable: int -> bool, ports: seq<int>,
                       one: map<GroupKey, Group>, other: map<GroupKey, Group>)
    requires IsResolved(rows, reachable, ports, one) && IsResolved(rows, reachable, ports, other)
    ensures one == other
  {
    if UsesFastPath(rows, ports) {
      FallbackUnique(rows, reachable, ports, one, other);
    } else {
      ResolutionUnique(ClaimsOf(rows, reachable, ports), one, other);
    }
  }

  /** Without rivals every path builds the groups of the general one. */
  lemma ResolvedWithoutRivals(rows: seq<Row>, reachable: int -> bool, ports: seq<int>, groups: map<GroupKey, Group>)
    requires Distinct(ports) && NoRivals(ClaimsOf(rows, reachable, ports)) && IsResolved(rows, reachable, ports, groups)
    ensures IsResolution(ClaimsOf(rows, reachable, ports), groups)
  {
    if UsesFastPath(rows, ports) {
      forall ip, c, d | Listed(rows, reachable, c, ip) && Listed(rows, reachable, d, ip) ensures c == d {
        ListedClaims(rows, reachable, ports, c, ip);
        ListedClaims(rows, reachable, ports, d, ip);
        assert Names(Claim(c, ip, ports[0]), ip, ports[0]);
      }
      NoSharedAddressAgrees(rows, reachable);
      FastIsResolution(rows, reachable, ports, groups);
    }
  }

  lemma ListedClaims(rows: seq<Row>, reachable: int -> bool, ports: seq<int>, cidr: string, ip: int)
    requires UsesFastPath(rows, ports) && Listed(rows, reachable, cidr, ip)
    ensures Claim(cidr, ip, ports[0]) in ClaimsOf(rows, reachable, ports)
  {
    var row :| row in rows && Lists(row, reachable, cidr, ip);
    assert RowPorts(row, ports) == ports && ports[0] in ports;
    assert RowClaims(row, reachable, ports, Claim(cidr, ip, ports[0]));
    ClaimsMembers(rows, reachable, ports, Claim(cidr, ip, ports[0]));
  }

  /** When no ip:port is claimed under two CIDRs, dropping rows leaves every kept group as it was. */
  lemma RowPortResume(rows: seq<Row>, keys: set<string>, reachable: int -> bool, ports: seq<int>,
                      full: map<GroupKey, Group>, part: map<GroupKey, Group>, key: GroupKey)
    requires "" !in keys && key.cidr in keys && Distinct(ports) && NoRivals(ClaimsOf(rows, reachable, ports))
    requires IsResolved(rows, reachable, ports, full) && IsResolved(KeptRows(rows, keys), reachable, ports, part)
    ensures key in part <==> key in full
    ensures key in full ==> part[key] == full[key]
  {
    var claims := ClaimsOf(rows, reachable, ports);
    KeptClaims(rows, keys, reachable, ports);
    forall c ensures c in Kept(claims, keys) ==> c in claims {
      KeptMembers(claims, keys, c);
    }
    ResolvedWithoutRivals(rows, reachable, ports, full);
    ResolvedWithoutRivals(KeptRows(rows, keys), reachable, ports, part);
    forall ip ensures PortsOf(Kept(claims, keys), key.cidr, ip) == PortsOf(claims, key.cidr, ip) {
      KeptPortsWithoutRivals(claims, keys, key.cidr, ip);
    }
    SameKey(claims, Kept(claims, keys), full, part, key);
  }

  // ----- the theorem about a whole rebuild -----

  /** The chunk that the full plan makes of one of its groups, at any cursor. */
  ghost predicate SavedFrom(full: map<GroupKey, Group>, ch: SavedChunk) {
    var key := GroupKey(ch.key, ch.ports);
    ch.key != "" && ch.ports != [] && key in full && ch.total == full[key].total
  }

  /** The plan is on the fast path, or every task that a kept CIDR lists belongs to a kept CIDR. */
  ghost predicate KeepsOwners(rows: seq<Row>, keys: set<string>, reachable: int -> bool, ports: seq<int>) {
    UsesFastPath(rows, ports) || OwnersKept(ClaimsOf(rows, reachable, ports), keys)
  }

  lemma NoRivalsKeepOwners(rows: seq<Row>, keys: set<string>, reachable: int -> bool, ports: seq<int>)
    requires NoRivals(ClaimsOf(rows, reachable, ports))
    ensures KeepsOwners(rows, keys, reachable, ports)
  {
    NoRivalsOwnersKept(ClaimsOf(rows, reachable, ports), keys);
  }

  /** What the rebuild of one chunk accepts: its group is there, with the saved total. */
  ghost predicate Accepted(full: map<GroupKey, Group>, part: map<GroupKey, Group>, ch: SavedChunk) {
    SavedFrom(full, ch) && TotalAccepted(GroupKey(ch.key, ch.ports), full, part)
  }

  /** Only rows without ports are left: the plan was on the general path, the rebuild is on the fast one. */
  ghost predicate SwitchesPath(rows: seq<Row>, keys: set<string>, ports: seq<int>) {
    !UsesFastPath(rows, ports) && UsesFastPath(KeptRows(rows, keys), ports)
  }

  lemma KeptKeyOfFull(rows: seq<Row>, keys: set<string>, reachable: int -> bool, ports: seq<int>,
                      full: map<GroupKey, Group>, key: GroupKey)
    requires "" !in keys && SwitchesPath(rows, keys, ports) && OwnersKept(ClaimsOf(rows, reachable, ports), keys)
    requires IsResolved(rows, reachable, ports, full) && key.cidr in keys
    ensures Fits(ClaimsOf(KeptRows(rows, keys), reachable, ports), full, key)
  {
    var claims := ClaimsOf(rows, reachable, ports);
    KeptClaims(rows, keys, reachable, ports);
    forall ip ensures PortsOf(Kept(claims, keys), key.cidr, ip) == PortsOf(claims, key.cidr, ip) {
      PortsStay(claims, keys, key.cidr, ip);
    }
    FullFits(claims, full, key);
    FitsAlike(claims, Kept(claims, keys), full, key);
  }

  lemma FullFits(claims: seq<Claim>, full: map<GroupKey, Group>, key: GroupKey)
    requires IsResolution(claims, full)
    ensures Fits(claims, full, key)
  {
  }

  /** Behind a switch of the path every group of a kept CIDR has all ports. */
  lemma SwitchedPorts(rows: seq<Row>, keys: set<string>, reachable: int -> bool, ports: seq<int>,
                      full: map<GroupKey, Group>, key: GroupKey)
    requires "" !in keys && SwitchesPath(rows, keys, ports) && OwnersKept(ClaimsOf(rows, reachable, ports), keys)
    requires Distinct(ports) && IsResolved(rows, reachable, ports, full) && key.cidr in keys && key in full
    ensures key.ports == ports
  {
    KeptKeyOfFull(rows, keys, reachable, ports, full, key);
    var ip :| PortsOf(ClaimsOf(KeptRows(rows, keys), reachable, ports), key.cidr, ip) == key.ports;
    OwnsAllPorts(KeptRows(rows, keys), reachable, ports, key.cidr, ip);
  }

  lemma SwitchedTwoPlans(rows: seq<Row>, chunks: seq<SavedChunk>, reachable: int -> bool, ports: seq<int>,
                         full: map<GroupKey, Group>, part: map<GroupKey, Group>)
    requires Distinct(ports) && IsResolved(rows, reachable, ports, full)
    requires (forall ch <- chunks :: ch.key != "") && forall ch <- chunks :: !ChunkIsCompleted(ch) ==> Accepted(full, part, ch)
    requires SwitchesPath(rows, IncompleteKeys(chunks), ports)
    requires OwnersKept(ClaimsOf(rows, reachable, ports), IncompleteKeys(chunks))
    requires IsResolved(KeptRows(rows, IncompleteKeys(chunks)), reachable, ports, part)
    ensures TwoPlans(KeptRows(rows, IncompleteKeys(chunks)), IncompleteKeys(chunks), reachable, ports, full, part)
  {
    var keys := IncompleteKeys(chunks);
    forall k <- keys
      ensures Fits(ClaimsOf(KeptRows(rows, keys), reachable, ports), full, GroupKey(k, ports))
      ensures TotalAccepted(GroupKey(k, ports), full, part)
    {
      var ch :| ch in chunks && !ChunkIsCompleted(ch) && ch.key == k;
      KeptKeyOfFull(rows, keys, reachable, ports, full, GroupKey(k, ports));
      assert Accepted(full, part, ch);
      SwitchedPorts(rows, keys, reachable, ports, full, GroupKey(k, ch.ports));
    }
    forall c, ip | Listed(KeptRows(rows, keys), reachable, c, ip) ensures c in keys {
      KeptListed(rows, keys, reachable, c, ip);
    }
  }

  lemma SameGroupAfterDropping(rows: seq<Row>, chunks: seq<SavedChunk>, reachable: int -> bool, ports: seq<int>,
                               full: map<GroupKey, Group>, part: map<GroupKey, Group>, ch: SavedChunk)
    requires Distinct(ports) && IsResolved(rows, reachable, ports, full)
    requires KeepsOwners(rows, IncompleteKeys(chunks), reachable, ports)
    requires (forall ch <- chunks :: ch.key != "") && forall ch <- chunks :: !ChunkIsCompleted(ch) ==> Accepted(full, part, ch)
    requires IsResolved(KeptRows(rows, IncompleteKeys(chunks)), reachable, ports, part)
    requires ch in chunks && !ChunkIsCompleted(ch)
    ensures var key := GroupKey(ch.key, ch.ports); key in full && key in part && part[key] == full[key]
  {
    var keys, key := IncompleteKeys(chunks), GroupKey(ch.key, ch.ports);
    assert Accepted(full, part, ch) && ch.key in keys;
    if UsesFastPath(rows, ports) {
      KeptStaysFast(rows, keys, ports);
      FallbackResume(rows, keys, reachable, ports, full, part, key);
    } else if SwitchesPath(rows, keys, ports) {
      SwitchedTwoPlans(rows, chunks, reachable, ports, full, part);
      SwitchedPorts(rows, keys, reachable, ports, full, key);
      AcceptedTotalsSameGroups(KeptRows(rows, keys), keys, reachable, ports, full, part, ch.key);
    } else {
      KeptClaims(rows, keys, reachable, ports);
      KeptOwnersKeepGroups(ClaimsOf(rows, reachable, ports), keys, full, part);
    }
  }

  lemma SameGroupAfterResume(rows: seq<Row>, chunks: seq<SavedChunk>, reachable: int -> bool, ports: seq<int>,
                             full: map<GroupKey, Group>, part: map<GroupKey, Group>, ch: SavedChunk)
    requires Distinct(ports) && IsResolved(rows, reachable, ports, full)
    requires KeepsOwners(rows, IncompleteKeys(chunks), reachable, ports)
    requires (forall ch <- chunks :: ch.key != "") && forall ch <- chunks :: !ChunkIsCompleted(ch) ==> Accepted(full, part, ch)
    requires IsResolved(SelectedRows(rows, chunks), reachable, ports, part)
    requires ch in chunks && !ChunkIsCompleted(ch)
    ensures var key := GroupKey(ch.key, ch.ports); key in full && key in part && part[key] == full[key]
  {
    if Filters(chunks) {
      SameGroupAfterDropping(rows, chunks, reachable, ports, full, part, ch);
    } else {
      assert Accepted(full, part, ch);
      ResolvedUnique(rows, reachable, ports, full, part);
    }
  }

  /** The chunk itself, with the addresses of its group in the plan. */
  ghost predicate Resumes(full: map<GroupKey, Group>, ch: SavedChunk, rt: Runtime) {
    var key := GroupKey(ch.key, ch.ports);
    key in full && rt == Runtime(ch, full[key].targets)
  }

  lemma RebuiltIsAccepted(rows: seq<Row>, reachable: int -> bool, defaults: seq<int>, ports: seq<int>,
                          full: map<GroupKey, Group>, part: map<GroupKey, Group>, ch: SavedChunk, rt: Runtime)
    requires IsResolved(rows, reachable, ports, full) && SavedFrom(full, ch)
    requires !ChunkIsCompleted(ch) && Rebuilt(ch, rt, defaults, part)
    ensures Accepted(full, part, ch)
    ensures var key := GroupKey(ch.key, ch.ports); part[key] == full[key] ==> Resumes(full, ch, rt)
  {
    FullTotalPositive(rows, reachable, ports, full, GroupKey(ch.key, ch.ports));
  }

  /**
   If the rebuild is accepted, every incomplete chunk gets exactly the addresses and ports, in the
   same order, that it had in the plan the snapshot was saved from.
   */
  lemma SameTasksAfterResume(rows: seq<Row>, chunks: seq<SavedChunk>, reachable: int -> bool, defaults: seq<int>,
                             ports: seq<int>, full: map<GroupKey, Group>, part: map<GroupKey, Group>,
                             runtimes: seq<Runtime>)
    requires Distinct(ports) && IsResolved(rows, reachable, ports, full)
    requires KeepsOwners(rows, IncompleteKeys(chunks), reachable, ports)
    requires Resolves(chunks, rows, reachable, ports, part) && AllRebuilt(chunks, runtimes, defaults, part)
    requires forall k :: 0 <= k < |chunks| ==> SavedFrom(full, chunks[k])
    ensures forall k :: 0 <= k < |chunks| && !ChunkIsCompleted(chunks[k]) ==> Resumes(full, chunks[k], runtimes[k])
  {
    forall ch <- chunks ensures ch.key != "" && (!ChunkIsCompleted(ch) ==> Accepted(full, part, ch)) {
      var k :| 0 <= k < |chunks| && chunks[k] == ch;
      assert SavedFrom(full, chunks[k]) && Rebuilt(ch, runtimes[k], defaults, part);
      if !ChunkIsCompleted(ch) {
        RebuiltIsAccepted(rows, reachable, defaults, ports, full, part, ch, runtimes[k]);
      }
    }
    forall k | 0 <= k < |chunks| && !ChunkIsCompleted(chunks[k])
      ensures Resumes(full, chunks[k], runtimes[k])
    {
      assert chunks[k] in chunks && chunks[k].key in IncompleteKeys(chunks);
      SameGroupAfterResume(rows, chunks, reachable, ports, full, part, chunks[k]);
      assert SavedFrom(full, chunks[k]);
      RebuiltIsAccepted(rows, reachable, defaults, ports, full, part, chunks[k], runtimes[k]);
    }
  }

  /** Without a port file the saved chunks give back the ports of a plan on the fast path. */
  lemma SavedPlanPorts(rows: seq<Row>, chunks: seq<SavedChunk>, reachable: int -> bool, planPorts: seq<int>,
                       full: map<GroupKey, Group>, defaults: seq<int>)
    requires UsesFastPath(rows, planPorts) && Distinct(planPorts) && IsFallback(rows, reachable, planPorts, full)
    requires chunks != [] && (forall ch <- chunks :: SavedFrom(full, ch)) && RunPorts(chunks, rows, [], defaults)
    ensures defaults == planPorts
  {
    forall ch <- chunks ensures ch.ports == planPorts {
      assert SavedFrom(full, ch);
    }
  }

  /** A plan, and chunks saved from it at any cursors, with an incomplete one's tasks all owned by kept CIDRs. */
  ghost predicate SavedPlan(chunks: seq<SavedChunk>, rows: seq<Row>, reachable: int -> bool, planPorts: seq<int>,
                            full: map<GroupKey, Group>)
  {
    && Distinct(planPorts) && IsResolved(rows, reachable, planPorts, full)
    && (forall ch <- chunks :: SavedFrom(full, ch)) && KeepsOwners(rows, IncompleteKeys(chunks), reachable, planPorts)
  }

  /** The run has the ports of the plan or, behind a plan on the fast path, none at all. */
  ghost predicate PortsReturn(rows: seq<Row>, fallback: seq<int>, planPorts: seq<int>) {
    fallback == planPorts || (fallback == [] && UsesFastPath(rows, planPorts))
  }

  /** Without any port there is nothing to plan, and so no chunk to save. */
  lemma NoPortsNoGroups(rows: seq<Row>, reachable: int -> bool, full: map<GroupKey, Group>, key: GroupKey)
    requires IsResolved(rows, reachable, [], full) && key in full
    ensures HasRowPorts(rows)
  {
    var claims := ClaimsOf(rows, reachable, []);
    var ip :| PortsOf(claims, key.cidr, ip) == key.ports;
    PortsOfOwner(claims, key.cidr, ip, key.ports[0]);
    OwnerIsFirst(claims, ip, key.ports[0]);
    var c :| c in claims && Names(c, ip, key.ports[0]);
    ClaimsMembers(rows, reachable, [], c);
  }

  lemma PortsComeBack(chunks: seq<SavedChunk>, rows: seq<Row>, reachable: int -> bool, fallback: seq<int>,
                      planPorts: seq<int>, full: map<GroupKey, Group>, defaults: seq<int>)
    requires Distinct(planPorts) && IsResolved(rows, reachable, planPorts, full)
    requires chunks != [] && forall ch <- chunks :: SavedFrom(full, ch)
    requires PortsReturn(rows, fallback, planPorts) && RunPorts(chunks, rows, fallback, defaults)
    ensures defaults == planPorts
  {
    if fallback == [] && !HasRowPorts(rows) {
      if planPorts == [] {
        assert SavedFrom(full, chunks[0]);
        NoPortsNoGroups(rows, reachable, full, GroupKey(chunks[0].key, chunks[0].ports));
      }
      SavedPlanPorts(rows, chunks, reachable, planPorts, full, defaults);
    }
  }

  lemma SavedPlanResumes(chunks: seq<SavedChunk>, rows: seq<Row>, fallback: seq<int>, reachable: int -> bool,
                         planPorts: seq<int>, full: map<GroupKey, Group>, defaults: seq<int>, ports: seq<int>,
                         part: map<GroupKey, Group>, runtimes: seq<Runtime>)
    requires SavedPlan(chunks, rows, reachable, planPorts, full) && PortsReturn(rows, fallback, planPorts)
    requires RunPorts(chunks, rows, fallback, defaults) && (IncompleteKeys(chunks) != {} ==> SameNumbers(ports, defaults))
    requires Resolves(chunks, rows, reachable, ports, part) && AllRebuilt(chunks, runtimes, defaults, part)
    ensures forall k :: 0 <= k < |chunks| && !ChunkIsCompleted(chunks[k]) ==> Resumes(full, chunks[k], runtimes[k])
  {
    if chunks != [] {
      PortsComeBack(chunks, rows, reachable, fallback, planPorts, full, defaults);
      assert Resolves(chunks, rows, reachable, planPorts, part);
      forall k | 0 <= k < |chunks| ensures SavedFrom(full, chunks[k]) {
        assert chunks[k] in chunks;
      }
      SameTasksAfterResume(rows, chunks, reachable, defaults, planPorts, full, part, runtimes);
    }
  }

  /** Resuming from saved chunks: an accepted rebuild gives every incomplete chunk the tasks that its cursor counts. */
  method ResumeSavedPlan(chunks: seq<SavedChunk>, rows: seq<Row>, fallback: seq<int>, reachable: int -> bool,
                         ghost planPorts: seq<int>, ghost full: map<GroupKey, Group>)
    returns (r: Outcome<seq<Runtime>, RebuildError>)
    requires (forall row <- rows :: ValidRow(row)) && SavedPlan(chunks, rows, reachable, planPorts, full)
    requires PortsReturn(rows, fallback, planPorts)
    ensures r.Success? ==> |r.value| == |chunks|
    ensures r.Success? ==>
              forall k :: 0 <= k < |chunks| && !ChunkIsCompleted(chunks[k]) ==> Resumes(full, chunks[k], r.value[k])
  {
    ghost var defaults, ports, part;
    r, defaults, ports, part := BuildBasicRuntime(chunks, rows, fallback, reachable);
    if r.Success? {
      SavedPlanResumes(chunks, rows, fallback, reachable, planPorts, full, defaults, ports, part, r.value);
    }
  }

  /** No group of a plan is empty, so a saved total is never mistaken for a missing one. */
  lemma FullTotalPositive(rows: seq<Row>, reachable: int -> bool, ports: seq<int>, full: map<GroupKey, Group>, key: GroupKey)
    requires IsResolved(rows, reachable, ports, full) && key in full && key.ports != []
    ensures full[key].total > 0
  {
    var g := full[key];
    if UsesFastPath(rows, ports) {
      assert IsFallbackGroup(rows, reachable, ports, key.cidr, g);
      var ip :| IsLeast(rows, reachable, key.cidr, ip);
      assert ip in g.targets;
    } else {
      var claims := ClaimsOf(rows, reachable, ports);
      assert IsGroup(claims, key, g);
      var ip :| PortsOf(claims, key.cidr, ip) == key.ports;
      assert ip in g.targets;
    }
    PairInRange(0, 0, |g.targets|, |g.ports|);
  }
}
