/** Inputs on which dropping rows changes what a kept CIDR scans. */
module ResumeWitness {
  import opened Wrappers
  import opened Sorting
  import opened TextOrder
  import opened Networks
  import opened Ownership
  import opened BasicTargets
  import opened BasicResolution
  import opened BasicGroups
  import opened BasicFallback
  import opened BasicAgreement
  import opened ResumeRebuild
  import opened ResumeExactness
  import opened ResumeEquivalence

  /** One claim for each row: a host under its own port, or under the single port of the run. */
  ghost predicate HostClaim(row: Row, reachable: int -> bool, fallback: seq<int>, c: Claim) {
    && row.boundary.Some? && IsHostIn(row.boundary.value, c.ip) && reachable(c.ip)
    && row == HostRow(row.number, c.group, row.boundary.value, c.ip, if row.port > 0 then row.port else 0)
    && RowPorts(row, fallback) == [c.port]
  }

  lemma OneHost(row: Row, reachable: int -> bool, fallback: seq<int>, c: Claim)
    requires HostClaim(row, reachable, fallback, c)
    ensures AddressClaims(row.cidr, Survivors(row, reachable), RowPorts(row, fallback)) == [c]
  {
    HostSurvivors(row, reachable, c.ip);
    assert [c.ip][..0] == [];
    assert AddressClaims(row.cidr, [c.ip], [c.port]) == [c];
  }

  /** The claims of each row on its own: one, if the row is for one host. */
  ghost predicate ClaimsOne(row: Row, reachable: int -> bool, fallback: seq<int>, c: Claim) {
    && Range(row).Some?
    && AddressClaims(row.cidr, Survivors(row, reachable), RowPorts(row, fallback)) == [c]
  }

  lemma HostClaims(rows: seq<Row>, reachable: int -> bool, fallback: seq<int>, claims: seq<Claim>)
    requires |rows| == |claims| && forall k :: 0 <= k < |rows| ==> HostClaim(rows[k], reachable, fallback, claims[k])
    ensures ClaimsOf(rows, reachable, fallback) == claims
  {
    forall k | 0 <= k < |rows| ensures ClaimsOne(rows[k], reachable, fallback, claims[k]) {
      OneHost(rows[k], reachable, fallback, claims[k]);
    }
    ClaimsOneByOne(rows, reachable, fallback, claims);
  }

  lemma {:induction false} ClaimsOneByOne(rows: seq<Row>, reachable: int -> bool, fallback: seq<int>, claims: seq<Claim>)
    requires |rows| == |claims| && forall k :: 0 <= k < |rows| ==> ClaimsOne(rows[k], reachable, fallback, claims[k])
    ensures ClaimsOf(rows, reachable, fallback) == claims
  {
    if rows != [] {
      var n := |rows| - 1;
      ClaimsOneByOne(rows[..n], reachable, fallback, claims[..n]);
      assert ClaimsOne(rows[n], reachable, fallback, claims[n]);
      assert claims == claims[..n] + [claims[n]];
    }
  }

  lemma {:induction false} HostsHaveNoError(rows: seq<Row>, reachable: int -> bool, fallback: seq<int>)
    requires forall row <- rows :: row.cidr != "" && row.selector.Some? && RowPorts(row, fallback) != []
    ensures FirstError(rows, reachable, fallback).None?
  {
    if rows != [] {
      var n := |rows| - 1;
      assert rows[n] in rows && forall row <- rows[..n] :: row in rows;
      HostsHaveNoError(rows[..n], reachable, fallback);
    }
  }

  // ----- overlapping CIDRs with row ports: the same total, another target -----

  /** `a` owns x:80 and z:443; `b` lists x:80, x:443 and z:443. */
  function Overlapping(a: string, b: string, m: Network, n: Network, x: int, z: int): seq<Row> {
    [HostRow(1, a, m, x, 80), HostRow(2, a, m, z, 443), HostRow(3, b, n, x, 80), HostRow(4, b, n, x, 443), HostRow(5, b, n, z, 443)]
  }

  function OverlappingClaims(a: string, b: string, x: int, z: int): seq<Claim> {
    [Claim(a, x, 80), Claim(a, z, 443), Claim(b, x, 80), Claim(b, x, 443), Claim(b, z, 443)]
  }

  function Remaining(b: string, x: int, z: int): seq<Claim> {
    [Claim(b, x, 80), Claim(b, x, 443), Claim(b, z, 443)]
  }

  /** Two different CIDRs that share two different reachable hosts. */
  ghost predicate SharedHosts(a: string, b: string, m: Network, n: Network, x: int, z: int, reachable: int -> bool) {
    && a != "" && b != "" && a != b && x != z && reachable(x) && reachable(z)
    && IsHostIn(m, x) && IsHostIn(m, z) && IsHostIn(n, x) && IsHostIn(n, z)
  }

  lemma OnePush(claims: seq<Claim>, c: Claim, group: string, ip: int)
    ensures PortsOf(claims + [c], group, ip) == PortsOf(claims, group, ip)
              + if c.group == group && c.ip == ip && Owner(claims, ip, c.port).None? then [c.port] else []
    ensures forall port :: Owner(claims + [c], ip, port)
              == if Owner(claims, ip, port).Some? then Owner(claims, ip, port)
                 else if c.ip == ip && c.port == port then Some(c.group) else None
  {
    PortsOfPush(claims, c, group, ip);
    forall port { OwnerOfPush(claims, c, ip, port); }
  }

  lemma OverlappingPorts(a: string, b: string, x: int, z: int, g: string, ip: int)
    requires a != b && x != z && (g == a || g == b)
    ensures PortsOf(OverlappingClaims(a, b, x, z), g, ip)
         == if g == a then (if ip == x then [80] else if ip == z then [443] else []) else if ip == x then [443] else []
  {
    var c := OverlappingClaims(a, b, x, z);
    assert [c[0]] == [] + [c[0]] && [c[0], c[1]] == [c[0]] + [c[1]] && [c[0], c[1], c[2]] == [c[0], c[1]] + [c[2]];
    assert [c[0], c[1], c[2], c[3]] == [c[0], c[1], c[2]] + [c[3]] && c == [c[0], c[1], c[2], c[3]] + [c[4]];
    OnePush([], c[0], g, ip);
    OnePush([c[0]], c[1], g, ip);
    OnePush([c[0], c[1]], c[2], g, ip);
    OnePush([c[0], c[1], c[2]], c[3], g, ip);
    OnePush([c[0], c[1], c[2], c[3]], c[4], g, ip);
  }

  lemma RemainingPorts(b: string, x: int, z: int, ip: int)
    requires x != z
    ensures PortsOf(Remaining(b, x, z), b, ip)
         == if ip == x then [80, 443] else if ip == z then [443] else []
  {
    var c := Remaining(b, x, z);
    assert [c[0]] == [] + [c[0]] && [c[0], c[1]] == [c[0]] + [c[1]] && c == [c[0], c[1]] + [c[2]];
    OnePush([], c[0], b, ip);
    OnePush([c[0]], c[1], b, ip);
    OnePush([c[0], c[1]], c[2], b, ip);
  }

  lemma GroupOfOne(claims: seq<Claim>, groups: map<GroupKey, Group>, key: GroupKey, ip: int)
    requires IsResolution(claims, groups) && |key.ports| == 1
    requires forall i :: PortsOf(claims, key.cidr, i) == key.ports <==> i == ip
    ensures key in groups && groups[key] == Group([ip], key.ports, 1)
  {
    assert PortsOf(claims, key.cidr, ip) == key.ports;
    assert IsGroup(claims, key, groups[key]);
    IncreasingUnique(groups[key].targets, [ip]);
  }

  lemma KeptOverlap(a: string, b: string, x: int, z: int)
    requires a != b
    ensures Kept(OverlappingClaims(a, b, x, z), {b}) == Remaining(b, x, z)
  {
    var owned, rest := [Claim(a, x, 80), Claim(a, z, 443)], Remaining(b, x, z);
    assert OverlappingClaims(a, b, x, z) == owned + rest && [] + owned == owned;
    KeptOfOneGroup([], owned, a, {b});
    KeptOfOneGroup(owned, rest, b, {b});
  }

  /** The groups of the whole plan: `b` and port 443 scan `x`. */
  lemma FullOverlap(a: string, b: string, m: Network, n: Network, x: int, z: int, reachable: int -> bool,
                    full: map<GroupKey, Group>)
    requires SharedHosts(a, b, m, n, x, z, reachable)
    requires IsResolution(ClaimsOf(Overlapping(a, b, m, n, x, z), reachable, []), full)
    ensures GroupKey(a, [80]) in full && full[GroupKey(a, [80])] == Group([x], [80], 1)
    ensures GroupKey(a, [443]) in full && full[GroupKey(a, [443])] == Group([z], [443], 1)
    ensures GroupKey(b, [443]) in full && full[GroupKey(b, [443])] == Group([x], [443], 1)
  {
    var claims := OverlappingClaims(a, b, x, z);
    HostClaims(Overlapping(a, b, m, n, x, z), reachable, [], claims);
    forall g, ip | g == a || g == b
      ensures PortsOf(claims, g, ip)
           == if g == a then (if ip == x then [80] else if ip == z then [443] else []) else if ip == x then [443] else []
    {
      OverlappingPorts(a, b, x, z, g, ip);
    }
    GroupOfOne(claims, full, GroupKey(a, [80]), x);
    GroupOfOne(claims, full, GroupKey(a, [443]), z);
    GroupOfOne(claims, full, GroupKey(b, [443]), x);
  }

  /** The group after the rows of `a` are dropped: `b` and port 443 scan `z`. */
  lemma PartOverlap(a: string, b: string, m: Network, n: Network, x: int, z: int, reachable: int -> bool,
                    part: map<GroupKey, Group>)
    requires SharedHosts(a, b, m, n, x, z, reachable)
    requires IsResolution(ClaimsOf(KeptRows(Overlapping(a, b, m, n, x, z), {b}), reachable, []), part)
    ensures GroupKey(b, [443]) in part && part[GroupKey(b, [443])] == Group([z], [443], 1)
  {
    HostClaims(Overlapping(a, b, m, n, x, z), reachable, [], OverlappingClaims(a, b, x, z));
    KeptClaims(Overlapping(a, b, m, n, x, z), {b}, reachable, []);
    KeptOverlap(a, b, x, z);
    forall ip ensures PortsOf(Remaining(b, x, z), b, ip) == [443] <==> ip == z {
      RemainingPorts(b, x, z, ip);
    }
    GroupOfOne(Remaining(b, x, z), part, GroupKey(b, [443]), z);
  }

  /** With an overlap the total does not catch the change. */
  lemma RowPortsMayDiverge(a: string, b: string, m: Network, n: Network, x: int, z: int, reachable: int -> bool,
                           full: map<GroupKey, Group>, part: map<GroupKey, Group>)
    requires SharedHosts(a, b, m, n, x, z, reachable)
    requires IsResolution(ClaimsOf(Overlapping(a, b, m, n, x, z), reachable, []), full)
    requires IsResolution(ClaimsOf(KeptRows(Overlapping(a, b, m, n, x, z), {b}), reachable, []), part)
    ensures var key := GroupKey(b, [443]);
            key in full && key in part && full[key] == Group([x], [443], 1) && part[key] == Group([z], [443], 1)
  {
    FullOverlap(a, b, m, n, x, z, reachable, full);
    PartOverlap(a, b, m, n, x, z, reachable, part);
  }

  /** The chunks of that plan, those of `a` finished. */
  function SavedOverlap(a: string, b: string): seq<SavedChunk> {
    [SavedChunk(a, [80], 1, 1), SavedChunk(a, [443], 1, 1), SavedChunk(b, [443], 0, 1)]
  }

  lemma OverlapSelects(a: string, b: string, rows: seq<Row>)
    requires a != b
    ensures IncompleteKeys(SavedOverlap(a, b)) == {b} && SelectedRows(rows, SavedOverlap(a, b)) == KeptRows(rows, {b})
  {
    var chunks := SavedOverlap(a, b);
    assert chunks[0] in chunks && chunks[2] in chunks;
    assert forall ch <- chunks :: !ChunkIsCompleted(ch) ==> ch == chunks[2];
  }

  lemma OverlapRowsGood(a: string, b: string, m: Network, n: Network, x: int, z: int, reachable: int -> bool)
    requires SharedHosts(a, b, m, n, x, z, reachable)
    ensures forall row <- Overlapping(a, b, m, n, x, z) :: ValidRow(row) && row.cidr != "" && row.port > 0
    ensures HasRowPorts(Overlapping(a, b, m, n, x, z))
    ensures FirstError(Overlapping(a, b, m, n, x, z), reachable, []).None?
    ensures FirstError(KeptRows(Overlapping(a, b, m, n, x, z), {b}), reachable, []).None?
  {
    var rows := Overlapping(a, b, m, n, x, z);
    HostYields(rows[0], reachable, x);
    HostYields(rows[1], reachable, z);
    HostYields(rows[2], reachable, x);
    HostYields(rows[3], reachable, x);
    HostYields(rows[4], reachable, z);
    assert rows[0] in rows;
    HostsHaveNoError(rows, reachable, []);
    forall row <- KeptRows(rows, {b}) ensures row in rows {
      KeptRowsMembers(rows, {b}, row);
    }
    HostsHaveNoError(KeptRows(rows, {b}), reachable, []);
  }

  method PlanOverlap(a: string, b: string, m: Network, n: Network, x: int, z: int, reachable: int -> bool)
    returns (full: map<GroupKey, Group>)
    requires SharedHosts(a, b, m, n, x, z, reachable)
    ensures IsResolved(Overlapping(a, b, m, n, x, z), reachable, [], full)
  {
    OverlapRowsGood(a, b, m, n, x, z, reachable);
    var plan, ports := ResolveBasicTargets(Overlapping(a, b, m, n, x, z), [], reachable);
    full := plan.value;
  }

  method RebuildOverlap(a: string, b: string, m: Network, n: Network, x: int, z: int, reachable: int -> bool)
    returns (r: Outcome<seq<Runtime>, RebuildError>)
    requires SharedHosts(a, b, m, n, x, z, reachable)
    ensures r.Success? && |r.value| == 3 && r.value[2].targets == [z]
  {
    var rows := Overlapping(a, b, m, n, x, z);
    OverlapRowsGood(a, b, m, n, x, z, reachable);
    OverlapSelects(a, b, rows);
    ghost var defaults, used, part;
    r, defaults, used, part := BuildBasicRuntime(SavedOverlap(a, b), rows, [], reachable);
    assert used == [] && defaults == [];
    OverlapAccepted(a, b, m, n, x, z, reachable, part, r);
  }

  /** The plan is made, its chunks are saved, and the rebuild accepts them: the cursor of `x` now counts `z`. */
  method DivergentResume(a: string, b: string, m: Network, n: Network, x: int, z: int, reachable: int -> bool)
    returns (full: map<GroupKey, Group>, r: Outcome<seq<Runtime>, RebuildError>)
    requires SharedHosts(a, b, m, n, x, z, reachable)
    ensures IsResolved(Overlapping(a, b, m, n, x, z), reachable, [], full)
    ensures forall ch <- SavedOverlap(a, b) :: SavedFrom(full, ch)
    ensures GroupKey(b, [443]) in full && full[GroupKey(b, [443])].targets == [x]
    ensures r.Success? && |r.value| == 3 && r.value[2].targets == [z]
  {
    full := PlanOverlap(a, b, m, n, x, z, reachable);
    FullOverlap(a, b, m, n, x, z, reachable, full);
    r := RebuildOverlap(a, b, m, n, x, z, reachable);
  }

  lemma OverlapAccepted(a: string, b: string, m: Network, n: Network, x: int, z: int, reachable: int -> bool,
                        part: map<GroupKey, Group>, r: Outcome<seq<Runtime>, RebuildError>)
    requires SharedHosts(a, b, m, n, x, z, reachable)
    requires var rows := KeptRows(Overlapping(a, b, m, n, x, z), {b});
             && (r.Failure? && r.error.Unresolved? ==> FirstError(rows, reachable, []) == Some(r.error.cause))
             && (r.Success? || !r.error.Unresolved? ==> IsResolution(ClaimsOf(rows, reachable, []), part))
    requires r.Success? ==> AllRebuilt(SavedOverlap(a, b), r.value, [], part)
    requires r.Failure? && !r.error.Unresolved? ==>
               exists ch <- SavedOverlap(a, b) :: !ChunkIsCompleted(ch) && forall rt :: !Rebuilt(ch, rt, [], part)
    ensures r.Success? && |r.value| == 3 && r.value[2].targets == [z]
  {
    OverlapRowsGood(a, b, m, n, x, z, reachable);
    PartOverlap(a, b, m, n, x, z, reachable, part);
    OnlyOneRebuilt(a, b, z, part, r);
  }

  lemma OnlyOneRebuilt(a: string, b: string, z: int, part: map<GroupKey, Group>, r: Outcome<seq<Runtime>, RebuildError>)
    requires GroupKey(b, [443]) in part && part[GroupKey(b, [443])] == Group([z], [443], 1)
    requires r.Success? ==> AllRebuilt(SavedOverlap(a, b), r.value, [], part)
    requires r.Failure? ==>
               exists ch <- SavedOverlap(a, b) :: !ChunkIsCompleted(ch) && forall rt :: !Rebuilt(ch, rt, [], part)
    ensures r.Success? && |r.value| == 3 && r.value[2].targets == [z]
  {
    var chunks := SavedOverlap(a, b);
    assert forall ch <- chunks :: !ChunkIsCompleted(ch) ==> ch == chunks[2];
    assert Rebuilt(chunks[2], Runtime(chunks[2], [z]), [], part);
    assert r.Success? ==> Rebuilt(chunks[2], r.value[2], [], part);
  }

  // ----- rows with and without ports: dropping rows switches the path -----

  /** `b` lists the host before `a`, and only the row of `c` has a port. */
  function Mixed(a: string, b: string, c: string, m: Network, n: Network, o: Network, x: int, z: int): seq<Row> {
    [HostRow(1, c, o, z, 8080), HostRow(2, b, n, x, 0), HostRow(3, a, m, x, 0)]
  }

  function MixedClaims(a: string, b: string, c: string, x: int, z: int): seq<Claim> {
    [Claim(c, z, 8080), Claim(b, x, 80), Claim(a, x, 80)]
  }

  ghost predicate MixedHosts(a: string, b: string, c: string, m: Network, n: Network, o: Network, x: int, z: int,
                             reachable: int -> bool)
  {
    && a != "" && b != "" && c != "" && LexLeq(a, b) && a != b && c != a && c != b
    && IsHostIn(m, x) && IsHostIn(n, x) && IsHostIn(o, z) && reachable(x) && reachable(z)
  }

  lemma MixedPorts(a: string, b: string, c: string, x: int, z: int, g: string, ip: int)
    requires a != b && c != a && c != b && (g == a || g == b)
    ensures PortsOf(MixedClaims(a, b, c, x, z), g, ip) == if g == b && ip == x then [80] else []
    ensures Owner(MixedClaims(a, b, c, x, z), x, 80) == Some(b)
  {
    var cs := MixedClaims(a, b, c, x, z);
    assert [cs[0]] == [] + [cs[0]] && [cs[0], cs[1]] == [cs[0]] + [cs[1]] && cs == [cs[0], cs[1]] + [cs[2]];
    OnePush([], cs[0], g, ip);
    OnePush([cs[0]], cs[1], g, ip);
    OnePush([cs[0], cs[1]], cs[2], g, ip);
    OnePush([], cs[0], g, x);
    OnePush([cs[0]], cs[1], g, x);
    OnePush([cs[0], cs[1]], cs[2], g, x);
  }

  lemma MixedOwners(a: string, b: string, c: string, x: int, z: int)
    requires a != b && c != a && c != b
    ensures OwnersKept(MixedClaims(a, b, c, x, z), {a, b})
  {
    var claims := MixedClaims(a, b, c, x, z);
    MixedPorts(a, b, c, x, z, b, x);
    forall d <- claims | d.group in {a, b} ensures OwnedIn(claims, {a, b}, d.ip, d.port) {
      assert d.ip == x && d.port == 80;
    }
  }

  lemma MixedRowsClaim(a: string, b: string, c: string, m: Network, n: Network, o: Network, x: int, z: int,
                       reachable: int -> bool)
    requires MixedHosts(a, b, c, m, n, o, x, z, reachable)
    ensures ClaimsOf(Mixed(a, b, c, m, n, o, x, z), reachable, [80]) == MixedClaims(a, b, c, x, z)
    ensures HasRowPorts(Mixed(a, b, c, m, n, o, x, z))
  {
    var rows := Mixed(a, b, c, m, n, o, x, z);
    HostClaims(rows, reachable, [80], MixedClaims(a, b, c, x, z));
    assert rows[0] in rows && rows[0].port > 0;
  }

  lemma MixedFull(a: string, b: string, c: string, x: int, z: int, full: map<GroupKey, Group>)
    requires a != b && c != a && c != b && IsResolution(MixedClaims(a, b, c, x, z), full)
    ensures GroupKey(b, [80]) in full && full[GroupKey(b, [80])] == Group([x], [80], 1)
  {
    var claims := MixedClaims(a, b, c, x, z);
    forall ip ensures PortsOf(claims, b, ip) == [80] <==> ip == x {
      MixedPorts(a, b, c, x, z, b, ip);
    }
    GroupOfOne(claims, full, GroupKey(b, [80]), x);
  }

  lemma MixedKeptLeast(a: string, b: string, c: string, m: Network, n: Network, o: Network, x: int, z: int,
                       reachable: int -> bool, cidr: string, ip: int)
    requires MixedHosts(a, b, c, m, n, o, x, z, reachable)
    ensures IsLeast(KeptRows(Mixed(a, b, c, m, n, o, x, z), {a, b}), reachable, cidr, ip) <==> cidr == a && ip == x
  {
    var rows := Mixed(a, b, c, m, n, o, x, z);
    var kept := KeptRows(rows, {a, b});
    forall row ensures row in kept <==> row == rows[1] || row == rows[2] {
      KeptRowsMembers(rows, {a, b}, row);
      assert rows[1] in rows && rows[2] in rows;
    }
    HostYields(rows[1], reachable, x);
    HostYields(rows[2], reachable, x);
    forall d, i ensures Listed(kept, reachable, d, i) <==> (d == a || d == b) && i == x {
      if (d == a || d == b) && i == x {
        assert Lists(if d == a then rows[2] else rows[1], reachable, d, i);
      }
    }
    LexTotal(a, a);
    if IsLeast(kept, reachable, b, x) {
      assert Listed(kept, reachable, a, x);
      LexAntisymmetric(a, b);
      assert false;
    }
  }

  /** A plan on the fast path with one least address only. */
  lemma OneFastGroup(rows: seq<Row>, reachable: int -> bool, part: map<GroupKey, Group>, a: string, b: string, x: int)
    requires IsFallback(rows, reachable, [80], part) && a != b
    requires forall cidr, ip :: IsLeast(rows, reachable, cidr, ip) <==> cidr == a && ip == x
    ensures GroupKey(b, [80]) !in part && GroupKey(a, [80]) in part && part[GroupKey(a, [80])] == Group([x], [80], 1)
  {
    assert IsLeast(rows, reachable, a, x);
    assert Keeps(rows, reachable, a) && !Keeps(rows, reachable, b);
    assert IsFallbackGroup(rows, reachable, [80], a, part[GroupKey(a, [80])]);
    IncreasingUnique(part[GroupKey(a, [80])].targets, [x]);
  }

  lemma MixedPart(a: string, b: string, c: string, m: Network, n: Network, o: Network, x: int, z: int,
                  reachable: int -> bool, part: map<GroupKey, Group>)
    requires MixedHosts(a, b, c, m, n, o, x, z, reachable)
    requires IsResolved(KeptRows(Mixed(a, b, c, m, n, o, x, z), {a, b}), reachable, [80], part)
    ensures GroupKey(b, [80]) !in part && GroupKey(a, [80]) in part && part[GroupKey(a, [80])] == Group([x], [80], 1)
  {
    var rows := Mixed(a, b, c, m, n, o, x, z);
    var kept := KeptRows(rows, {a, b});
    forall row <- kept ensures row.port <= 0 {
      KeptRowsMembers(rows, {a, b}, row);
    }
    forall cidr, ip ensures IsLeast(kept, reachable, cidr, ip) <==> cidr == a && ip == x {
      MixedKeptLeast(a, b, c, m, n, o, x, z, reachable, cidr, ip);
    }
    OneFastGroup(kept, reachable, part, a, b, x);
  }

  lemma KeptGroupGone(a: string, b: string, full: map<GroupKey, Group>, part: map<GroupKey, Group>, key: GroupKey)
    requires key.cidr == b && key in full && key !in part
    ensures !SameKeptGroups(full, part, {a, b})
  {
    assert key.cidr in {a, b};
  }

  /**
   No dropped row owned anything that the kept rows list, and still the kept groups change: without
   the row of `c` the rebuild takes the fast path, which gives the host to `a` instead of `b`.
   */
  lemma PathMaySwitch(a: string, b: string, c: string, m: Network, n: Network, o: Network, x: int, z: int,
                      reachable: int -> bool, full: map<GroupKey, Group>, part: map<GroupKey, Group>)
    requires MixedHosts(a, b, c, m, n, o, x, z, reachable)
    requires IsResolved(Mixed(a, b, c, m, n, o, x, z), reachable, [80], full)
    requires IsResolved(KeptRows(Mixed(a, b, c, m, n, o, x, z), {a, b}), reachable, [80], part)
    ensures OwnersKept(ClaimsOf(Mixed(a, b, c, m, n, o, x, z), reachable, [80]), {a, b})
    ensures GroupKey(b, [80]) in full && full[GroupKey(b, [80])] == Group([x], [80], 1)
    ensures GroupKey(b, [80]) !in part && GroupKey(a, [80]) in part && part[GroupKey(a, [80])] == Group([x], [80], 1)
    ensures !SameKeptGroups(full, part, {a, b})
  {
    MixedRowsClaim(a, b, c, m, n, o, x, z, reachable);
    MixedOwners(a, b, c, x, z);
    MixedFull(a, b, c, x, z, full);
    MixedPart(a, b, c, m, n, o, x, z, reachable, part);
    KeptGroupGone(a, b, full, part, GroupKey(b, [80]));
  }
}
