/** Exactly when dropping the rows of finished chunks leaves the groups of the kept CIDRs as they were. */
module ResumeExactness {
  import opened Wrappers
  import opened Sorting
  import opened Ownership
  import opened BasicTargets
  import opened BasicGroups
  import opened BasicFallback
  import opened BasicAgreement
  import opened ResumeRebuild

  /** No ip:port that a kept CIDR lists is listed first under a dropped one. */
  ghost predicate OwnersKept(claims: seq<Claim>, keys: set<string>) {
    forall c <- claims :: c.group in keys ==> OwnedIn(claims, keys, c.ip, c.port)
  }

  ghost predicate OwnedIn(claims: seq<Claim>, keys: set<string>, ip: int, port: int) {
    Owner(claims, ip, port).Some? && Owner(claims, ip, port).value in keys
  }

  ghost predicate SameKeptGroups(full: map<GroupKey, Group>, part: map<GroupKey, Group>, keys: set<string>) {
    forall key: GroupKey :: key.cidr in keys ==> (key in part <==> key in full) && (key in full ==> part[key] == full[key])
  }

  lemma OwnersKeptEarlier(claims: seq<Claim>, keys: set<string>)
    requires claims != [] && OwnersKept(claims, keys)
    ensures OwnersKept(claims[..|claims| - 1], keys)
  {
    var earlier := claims[..|claims| - 1];
    forall c <- earlier | c.group in keys ensures OwnedIn(earlier, keys, c.ip, c.port) {
      assert c in claims;
      OwnerIsFirst(earlier, c.ip, c.port);
    }
  }

  lemma {:induction false} PortsStay(claims: seq<Claim>, keys: set<string>, group: string, ip: int)
    requires OwnersKept(claims, keys) && group in keys
    ensures PortsOf(Kept(claims, keys), group, ip) == PortsOf(claims, group, ip)
  {
    if claims != [] {
      var earlier, last := claims[..|claims| - 1], claims[|claims| - 1];
      OwnersKeptEarlier(claims, keys);
      PortsStay(earlier, keys, group, ip);
      PushOne(Kept(earlier, keys), last);
      if last.group == group && last.ip == ip {
        assert OwnedIn(claims, keys, ip, last.port);
        KeptOwner(earlier, keys, ip, last.port);
      }
    }
  }

  lemma {:induction false} KeptMembers(claims: seq<Claim>, keys: set<string>, c: Claim)
    ensures c in Kept(claims, keys) <==> c in claims && c.group in keys
  {
    if claims != [] {
      KeptMembers(claims[..|claims| - 1], keys, c);
      assert claims == claims[..|claims| - 1] + [claims[|claims| - 1]];
    }
  }

  lemma SameKey(one: seq<Claim>, other: seq<Claim>, full: map<GroupKey, Group>, part: map<GroupKey, Group>, key: GroupKey)
    requires IsResolution(one, full) && IsResolution(other, part)
    requires forall ip :: PortsOf(other, key.cidr, ip) == PortsOf(one, key.cidr, ip)
    ensures key in part <==> key in full
    ensures key in full ==> part[key] == full[key]
  {
    if ip :| PortsOf(one, key.cidr, ip) == key.ports {
      assert PortsOf(other, key.cidr, ip) == key.ports;
    }
    if ip :| PortsOf(other, key.cidr, ip) == key.ports {
      assert PortsOf(one, key.cidr, ip) == key.ports;
    }
    if key in full {
      assert IsGroup(one, key, full[key]) && IsGroup(other, key, part[key]);
      IncreasingUnique(full[key].targets, part[key].targets);
    }
  }

  /** A task that a dropped CIDR owned turns up under a kept one that lists it too. */
  lemma TaskMoves(claims: seq<Claim>, keys: set<string>, c: Claim)
    requires c in claims && c.group in keys && !OwnedIn(claims, keys, c.ip, c.port)
    ensures exists g :: g in keys && c.port in PortsOf(Kept(claims, keys), g, c.ip) && c.port !in PortsOf(claims, g, c.ip)
  {
    KeptMembers(claims, keys, c);
    OwnerIsFirst(Kept(claims, keys), c.ip, c.port);
    KeptOwner(claims, keys, c.ip, c.port);
    var g := Owner(Kept(claims, keys), c.ip, c.port).value;
    PortsOfOwner(Kept(claims, keys), g, c.ip, c.port);
    PortsOfOwner(claims, g, c.ip, c.port);
  }

  lemma SameGroupsSamePorts(claims: seq<Claim>, keys: set<string>, full: map<GroupKey, Group>, part: map<GroupKey, Group>,
                            g: string, ip: int)
    requires IsResolution(claims, full) && IsResolution(Kept(claims, keys), part) && SameKeptGroups(full, part, keys)
    requires g in keys && PortsOf(Kept(claims, keys), g, ip) != []
    ensures PortsOf(claims, g, ip) == PortsOf(Kept(claims, keys), g, ip)
  {
    var key := GroupKey(g, PortsOf(Kept(claims, keys), g, ip));
    assert key in part && key in full;
    assert IsGroup(Kept(claims, keys), key, part[key]) && IsGroup(claims, key, full[key]);
  }

  lemma KeptOwnersKeepGroups(claims: seq<Claim>, keys: set<string>, full: map<GroupKey, Group>, part: map<GroupKey, Group>)
    requires IsResolution(claims, full) && IsResolution(Kept(claims, keys), part) && OwnersKept(claims, keys)
    ensures SameKeptGroups(full, part, keys)
  {
    forall key: GroupKey | key.cidr in keys
      ensures (key in part <==> key in full) && (key in full ==> part[key] == full[key])
    {
      forall ip ensures PortsOf(Kept(claims, keys), key.cidr, ip) == PortsOf(claims, key.cidr, ip) {
        PortsStay(claims, keys, key.cidr, ip);
      }
      SameKey(claims, Kept(claims, keys), full, part, key);
    }
  }

  lemma NoRivalsOwnersKept(claims: seq<Claim>, keys: set<string>)
    requires NoRivals(claims)
    ensures OwnersKept(claims, keys)
  {
    forall c <- claims | c.group in keys ensures OwnedIn(claims, keys, c.ip, c.port) {
      OwnerIsFirst(claims, c.ip, c.port);
      OwnerWithoutRivals(claims, claims, c);
    }
  }

  /** Both plans on the general path. */
  lemma GeneralKeepsIff(claims: seq<Claim>, keys: set<string>, full: map<GroupKey, Group>, part: map<GroupKey, Group>)
    requires IsResolution(claims, full) && IsResolution(Kept(claims, keys), part)
    ensures SameKeptGroups(full, part, keys) <==> OwnersKept(claims, keys)
  {
    if OwnersKept(claims, keys) {
      KeptOwnersKeepGroups(claims, keys, full, part);
    } else {
      var c :| c in claims && c.group in keys && !OwnedIn(claims, keys, c.ip, c.port);
      TaskMoves(claims, keys, c);
      var g :| g in keys && c.port in PortsOf(Kept(claims, keys), g, c.ip) && c.port !in PortsOf(claims, g, c.ip);
      if SameKeptGroups(full, part, keys) {
        SameGroupsSamePorts(claims, keys, full, part, g, c.ip);
        assert false;
      }
    }
  }

  // ----- both plans on the fast path -----

  ghost predicate LeastIn(rows: seq<Row>, keys: set<string>, reachable: int -> bool, ip: int) {
    exists least <- keys :: IsLeast(rows, reachable, least, ip)
  }

  /** The least CIDR of an address that a kept CIDR lists is kept as well. */
  ghost predicate LeastKept(rows: seq<Row>, keys: set<string>, reachable: int -> bool) {
    forall c, ip :: c in keys && Listed(rows, reachable, c, ip) ==> LeastIn(rows, keys, reachable, ip)
  }

  lemma KeptListed(rows: seq<Row>, keys: set<string>, reachable: int -> bool, cidr: string, ip: int)
    requires "" !in keys
    ensures Listed(KeptRows(rows, keys), reachable, cidr, ip) <==> cidr in keys && Listed(rows, reachable, cidr, ip)
  {
    forall row ensures row in KeptRows(rows, keys) <==> row in rows && row.cidr in keys {
      KeptRowsMembers(rows, keys, row);
    }
  }

  lemma SameLeast(rows: seq<Row>, keys: set<string>, reachable: int -> bool, cidr: string, ip: int)
    requires "" !in keys && LeastKept(rows, keys, reachable) && cidr in keys
    ensures IsLeast(KeptRows(rows, keys), reachable, cidr, ip) <==> IsLeast(rows, reachable, cidr, ip)
  {
    if IsLeast(rows, reachable, cidr, ip) {
      LeastAmongKept(rows, keys, reachable, cidr, ip);
    }
    if IsLeast(KeptRows(rows, keys), reachable, cidr, ip) {
      KeptListed(rows, keys, reachable, cidr, ip);
      var least :| least in keys && IsLeast(rows, reachable, least, ip);
      LeastAmongKept(rows, keys, reachable, least, ip);
      LeastIsUnique(KeptRows(rows, keys), reachable, cidr, least, ip);
    }
  }

  lemma KeptLeastKeepsGroups(rows: seq<Row>, keys: set<string>, reachable: int -> bool, ports: seq<int>,
                             full: map<GroupKey, Group>, part: map<GroupKey, Group>)
    requires "" !in keys && LeastKept(rows, keys, reachable)
    requires IsFallback(rows, reachable, ports, full) && IsFallback(KeptRows(rows, keys), reachable, ports, part)
    ensures SameKeptGroups(full, part, keys)
  {
    forall key: GroupKey | key.cidr in keys
      ensures (key in part <==> key in full) && (key in full ==> part[key] == full[key])
    {
      forall ip ensures IsLeast(KeptRows(rows, keys), reachable, key.cidr, ip) <==> IsLeast(rows, reachable, key.cidr, ip) {
        SameLeast(rows, keys, reachable, key.cidr, ip);
      }
      KeepsAlike(rows, KeptRows(rows, keys), reachable, key.cidr);
      if key in full {
        assert IsFallbackGroup(rows, reachable, ports, key.cidr, full[key]);
        assert IsFallbackGroup(KeptRows(rows, keys), reachable, ports, key.cidr, part[key]);
        IncreasingUnique(full[key].targets, part[key].targets);
      }
    }
  }

  lemma KeepsAlike(one: seq<Row>, other: seq<Row>, reachable: int -> bool, cidr: string)
    requires forall ip :: IsLeast(one, reachable, cidr, ip) <==> IsLeast(other, reachable, cidr, ip)
    ensures Keeps(one, reachable, cidr) <==> Keeps(other, reachable, cidr)
  {
    if Keeps(one, reachable, cidr) {
      var ip :| IsLeast(one, reachable, cidr, ip);
      assert IsLeast(other, reachable, cidr, ip);
    }
    if Keeps(other, reachable, cidr) {
      var ip :| IsLeast(other, reachable, cidr, ip);
      assert IsLeast(one, reachable, cidr, ip);
    }
  }

  /** In a rebuild on the fast path, an address that kept rows list is in the group of some kept CIDR. */
  lemma KeptAddressIsPlaced(rows: seq<Row>, keys: set<string>, reachable: int -> bool, ports: seq<int>,
                            part: map<GroupKey, Group>, c: string, ip: int) returns (g: string)
    requires "" !in keys && c in keys && Listed(rows, reachable, c, ip)
    requires IsFallback(KeptRows(rows, keys), reachable, ports, part)
    ensures g in keys && GroupKey(g, ports) in part && ip in part[GroupKey(g, ports)].targets
  {
    KeptListed(rows, keys, reachable, c, ip);
    LeastExists(KeptRows(rows, keys), reachable, c, ip);
    g :| IsLeast(KeptRows(rows, keys), reachable, g, ip);
    KeptListed(rows, keys, reachable, g, ip);
    assert Keeps(KeptRows(rows, keys), reachable, g);
    assert IsFallbackGroup(KeptRows(rows, keys), reachable, ports, g, part[GroupKey(g, ports)]);
  }

  lemma FastKeepsIff(rows: seq<Row>, keys: set<string>, reachable: int -> bool, ports: seq<int>,
                     full: map<GroupKey, Group>, part: map<GroupKey, Group>)
    requires "" !in keys
    requires IsFallback(rows, reachable, ports, full) && IsFallback(KeptRows(rows, keys), reachable, ports, part)
    ensures SameKeptGroups(full, part, keys) <==> LeastKept(rows, keys, reachable)
  {
    if LeastKept(rows, keys, reachable) {
      KeptLeastKeepsGroups(rows, keys, reachable, ports, full, part);
    }
    if SameKeptGroups(full, part, keys) {
      forall c, ip | c in keys && Listed(rows, reachable, c, ip) ensures LeastIn(rows, keys, reachable, ip) {
        var g := KeptAddressIsPlaced(rows, keys, reachable, ports, part, c, ip);
        assert IsFallbackGroup(rows, reachable, ports, g, full[GroupKey(g, ports)]);
      }
    }
  }

  // ----- rows with and without ports: dropping rows may switch the path -----

  lemma ClaimIsListed(rows: seq<Row>, reachable: int -> bool, ports: seq<int>, c: Claim)
    requires c in ClaimsOf(rows, reachable, ports) && !HasRowPorts(rows)
    ensures c.port in ports && Listed(rows, reachable, c.group, c.ip)
  {
    ClaimsMembers(rows, reachable, ports, c);
    var r :| r in rows && RowClaims(r, reachable, ports, c);
    assert Lists(r, reachable, c.group, c.ip);
  }

  lemma SameGroupsOwnersKept(rows: seq<Row>, keys: set<string>, reachable: int -> bool, ports: seq<int>,
                             full: map<GroupKey, Group>, part: map<GroupKey, Group>)
    requires "" !in keys && UsesFastPath(KeptRows(rows, keys), ports)
    requires IsResolution(ClaimsOf(rows, reachable, ports), full)
    requires IsFallback(KeptRows(rows, keys), reachable, ports, part) && SameKeptGroups(full, part, keys)
    ensures OwnersKept(ClaimsOf(rows, reachable, ports), keys)
  {
    var claims := ClaimsOf(rows, reachable, ports);
    forall c <- claims | c.group in keys ensures OwnedIn(claims, keys, c.ip, c.port) {
      KeptClaims(rows, keys, reachable, ports);
      KeptMembers(claims, keys, c);
      ClaimIsListed(KeptRows(rows, keys), reachable, ports, c);
      KeptListed(rows, keys, reachable, c.group, c.ip);
      var g := KeptAddressIsPlaced(rows, keys, reachable, ports, part, c.group, c.ip);
      assert IsGroup(claims, GroupKey(g, ports), full[GroupKey(g, ports)]);
      PortsOfOwner(claims, g, c.ip, c.port);
    }
  }

  /** No dropped group owns anything among the kept claims. */
  lemma NoPortsOfDropped(claims: seq<Claim>, keys: set<string>, g: string, ip: int)
    requires g !in keys
    ensures PortsOf(Kept(claims, keys), g, ip) == []
  {
    var ports := PortsOf(Kept(claims, keys), g, ip);
    if ports != [] {
      PortsOfOwner(Kept(claims, keys), g, ip, ports[0]);
      KeptOwner(claims, keys, ip, ports[0]);
      assert false;
    }
  }

  lemma FastCidrIsKept(rows: seq<Row>, keys: set<string>, reachable: int -> bool, ports: seq<int>,
                       part: map<GroupKey, Group>, key: GroupKey)
    requires "" !in keys && IsFallback(KeptRows(rows, keys), reachable, ports, part) && key in part
    ensures key.cidr in keys
  {
    var ip :| IsLeast(KeptRows(rows, keys), reachable, key.cidr, ip);
    KeptListed(rows, keys, reachable, key.cidr, ip);
  }

  /** The key and the group that the claims of one CIDR ask for. */
  ghost predicate Fits(claims: seq<Claim>, groups: map<GroupKey, Group>, key: GroupKey) {
    && (key in groups <==> key.ports != [] && exists ip :: PortsOf(claims, key.cidr, ip) == key.ports)
    && (key in groups ==> IsGroup(claims, key, groups[key]))
  }

  lemma FitsAlike(one: seq<Claim>, other: seq<Claim>, groups: map<GroupKey, Group>, key: GroupKey)
    requires Fits(one, groups, key) && forall ip :: PortsOf(other, key.cidr, ip) == PortsOf(one, key.cidr, ip)
    ensures Fits(other, groups, key)
  {
    if ip :| PortsOf(one, key.cidr, ip) == key.ports {
      assert PortsOf(other, key.cidr, ip) == key.ports;
    }
    if ip :| PortsOf(other, key.cidr, ip) == key.ports {
      assert PortsOf(one, key.cidr, ip) == key.ports;
    }
  }

  lemma KeptKeyFits(claims: seq<Claim>, keys: set<string>, full: map<GroupKey, Group>, part: map<GroupKey, Group>, key: GroupKey)
    requires IsResolution(claims, full) && OwnersKept(claims, keys) && SameKeptGroups(full, part, keys) && key.cidr in keys
    ensures Fits(Kept(claims, keys), part, key)
  {
    forall ip ensures PortsOf(Kept(claims, keys), key.cidr, ip) == PortsOf(claims, key.cidr, ip) {
      PortsStay(claims, keys, key.cidr, ip);
    }
    assert Fits(claims, part, key);
    FitsAlike(claims, Kept(claims, keys), part, key);
  }

  lemma DroppedKeyFits(claims: seq<Claim>, keys: set<string>, part: map<GroupKey, Group>, key: GroupKey)
    requires key.cidr !in keys && key !in part
    ensures Fits(Kept(claims, keys), part, key)
  {
    forall ip ensures PortsOf(Kept(claims, keys), key.cidr, ip) == [] {
      NoPortsOfDropped(claims, keys, key.cidr, ip);
    }
  }

  /** If the kept groups are the same, the rebuild on the fast path fits the kept claims as well. */
  lemma SameGroupsFitClaims(rows: seq<Row>, keys: set<string>, reachable: int -> bool, ports: seq<int>,
                            full: map<GroupKey, Group>, part: map<GroupKey, Group>)
    requires "" !in keys && IsResolution(ClaimsOf(rows, reachable, ports), full)
    requires IsFallback(KeptRows(rows, keys), reachable, ports, part) && SameKeptGroups(full, part, keys)
    requires OwnersKept(ClaimsOf(rows, reachable, ports), keys)
    ensures IsResolution(Kept(ClaimsOf(rows, reachable, ports), keys), part)
  {
    var claims := ClaimsOf(rows, reachable, ports);
    forall key: GroupKey ensures Fits(Kept(claims, keys), part, key) {
      if key.cidr in keys {
        KeptKeyFits(claims, keys, full, part, key);
      } else {
        if key in part {
          FastCidrIsKept(rows, keys, reachable, ports, part, key);
        }
        DroppedKeyFits(claims, keys, part, key);
      }
    }
    AllFit(Kept(claims, keys), part);
  }

  lemma AllFit(claims: seq<Claim>, groups: map<GroupKey, Group>)
    requires forall key: GroupKey :: Fits(claims, groups, key)
    ensures IsResolution(claims, groups)
  {
    forall key: GroupKey
      ensures key in groups <==> key.ports != [] && exists ip :: PortsOf(claims, key.cidr, ip) == key.ports
      ensures key in groups ==> IsGroup(claims, key, groups[key])
    {
      assert Fits(claims, groups, key);
      if ip :| key in groups && PortsOf(claims, key.cidr, ip) == key.ports {
        assert PortsOf(claims, key.cidr, ip) == key.ports;
      }
    }
  }

  lemma MixedKeepsIff(rows: seq<Row>, keys: set<string>, reachable: int -> bool, ports: seq<int>,
                      full: map<GroupKey, Group>, part: map<GroupKey, Group>)
    requires "" !in keys && Distinct(ports) && UsesFastPath(KeptRows(rows, keys), ports)
    requires IsResolution(ClaimsOf(rows, reachable, ports), full)
    requires IsFallback(KeptRows(rows, keys), reachable, ports, part)
    ensures SameKeptGroups(full, part, keys) <==>
            OwnersKept(ClaimsOf(rows, reachable, ports), keys) && OwnersAgree(KeptRows(rows, keys), reachable)
  {
    var claims := ClaimsOf(rows, reachable, ports);
    KeptClaims(rows, keys, reachable, ports);
    if OwnersKept(claims, keys) && OwnersAgree(KeptRows(rows, keys), reachable) {
      FastIsResolution(KeptRows(rows, keys), reachable, ports, part);
      KeptOwnersKeepGroups(claims, keys, full, part);
    }
    if SameKeptGroups(full, part, keys) {
      SameGroupsOwnersKept(rows, keys, reachable, ports, full, part);
      SameGroupsFitClaims(rows, keys, reachable, ports, full, part);
      GroupsCoincide(KeptRows(rows, keys), reachable, ports, part, part);
    }
  }

  // ----- the condition -----

  /**
   On the fast path, the least CIDR of every address that is still listed must be kept. On the general
   path, the first CIDR of every ip:port that is still listed must be kept; and if only rows with
   ports are dropped, so that the rebuild takes the fast path, that first CIDR must also be the least.
   */
  ghost predicate KeepsGroups(rows: seq<Row>, keys: set<string>, reachable: int -> bool, ports: seq<int>) {
    if UsesFastPath(rows, ports) then LeastKept(rows, keys, reachable)
    else
      && OwnersKept(ClaimsOf(rows, reachable, ports), keys)
      && (UsesFastPath(KeptRows(rows, keys), ports) ==> OwnersAgree(KeptRows(rows, keys), reachable))
  }

  lemma KeptStaysFast(rows: seq<Row>, keys: set<string>, ports: seq<int>)
    requires UsesFastPath(rows, ports)
    ensures UsesFastPath(KeptRows(rows, keys), ports)
  {
    forall row <- KeptRows(rows, keys) ensures row.port <= 0 {
      KeptRowsMembers(rows, keys, row);
    }
  }

  /** Whichever paths the plan and the rebuild take: the kept CIDRs keep their groups if and only if the condition holds. */
  lemma KeptGroupsStayExactly(rows: seq<Row>, keys: set<string>, reachable: int -> bool, ports: seq<int>,
                              full: map<GroupKey, Group>, part: map<GroupKey, Group>)
    requires "" !in keys && Distinct(ports) && IsResolved(rows, reachable, ports, full)
    requires IsResolved(KeptRows(rows, keys), reachable, ports, part)
    ensures SameKeptGroups(full, part, keys) <==> KeepsGroups(rows, keys, reachable, ports)
  {
    if UsesFastPath(rows, ports) {
      KeptStaysFast(rows, keys, ports);
      FastKeepsIff(rows, keys, reachable, ports, full, part);
    } else if UsesFastPath(KeptRows(rows, keys), ports) {
      MixedKeepsIff(rows, keys, reachable, ports, full, part);
    } else {
      KeptClaims(rows, keys, reachable, ports);
      GeneralKeepsIff(ClaimsOf(rows, reachable, ports), keys, full, part);
    }
  }
}
