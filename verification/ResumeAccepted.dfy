/**
 A rebuild that switched to the fast path, but whose totals were all accepted: although the two
 paths may divide shared addresses differently, equal totals leave only one way to divide them.
 */
module ResumeAccepted {
  import opened Wrappers
  import opened Sorting
  import opened TextOrder
  import opened Networks
  import opened Ownership
  import opened BasicTargets
  import opened BasicGroups
  import opened BasicFallback
  import opened BasicAgreement
  import opened ResumeRebuild
  import opened ResumeExactness

  lemma {:induction false} LeastText(s: set<string>) returns (least: string)
    requires s != {}
    ensures least in s && forall x <- s :: LexLeq(least, x)
    decreases |s|
  {
    SomeMember(s);
    least :| least in s;
    LexIsTotalOrder();
    assert s == {least} + (s - {least});
    if s - {least} != {} {
      var other := LeastText(s - {least});
      if LexLeq(other, least) {
        least := other;
      }
    }
  }

  /** On the general path the CIDR that lists an address first has it with all ports. */
  ghost predicate Owns(rows: seq<Row>, reachable: int -> bool, ports: seq<int>, cidr: string, ip: int)
    requires ports != []
  {
    Owner(ClaimsOf(rows, reachable, ports), ip, ports[0]) == Some(cidr)
  }

  lemma OwnsAllPorts(rows: seq<Row>, reachable: int -> bool, ports: seq<int>, cidr: string, ip: int)
    requires UsesFastPath(rows, ports) && Distinct(ports)
    ensures PortsOf(ClaimsOf(rows, reachable, ports), cidr, ip) == if Owns(rows, reachable, ports, cidr, ip) then ports else []
  {
    AllOrNoneRows(rows, reachable, ports, cidr, ip);
  }

  lemma OwnedIsListed(rows: seq<Row>, reachable: int -> bool, ports: seq<int>, cidr: string, ip: int)
    requires UsesFastPath(rows, ports) && Owns(rows, reachable, ports, cidr, ip)
    ensures Listed(rows, reachable, cidr, ip)
  {
    var claims := ClaimsOf(rows, reachable, ports);
    OwnerIsFirst(claims, ip, ports[0]);
    var k :| FirstAt(claims, ip, ports[0], k) && Owner(claims, ip, ports[0]).value == claims[k].group;
    assert claims[k] in claims;
    ClaimIsListed(rows, reachable, ports, claims[k]);
  }

  /** Every kept CIDR has one group in both plans, with as many tasks. */
  ghost predicate TotalsAccepted(keys: set<string>, ports: seq<int>, full: map<GroupKey, Group>, part: map<GroupKey, Group>) {
    forall k <- keys :: TotalAccepted(GroupKey(k, ports), full, part)
  }

  ghost predicate TotalAccepted(key: GroupKey, full: map<GroupKey, Group>, part: map<GroupKey, Group>) {
    key in full && key in part && part[key].total == full[key].total
  }

  /** What the two plans say: the first lister owns in one, the least lister in the other. */
  ghost predicate TwoPlans(rows: seq<Row>, keys: set<string>, reachable: int -> bool, ports: seq<int>,
                           full: map<GroupKey, Group>, part: map<GroupKey, Group>)
  {
    && UsesFastPath(rows, ports) && Distinct(ports) && IsFallback(rows, reachable, ports, part)
    && (forall k <- keys :: Fits(ClaimsOf(rows, reachable, ports), full, GroupKey(k, ports)))
    && (forall c, ip :: Listed(rows, reachable, c, ip) ==> c in keys)
    && TotalsAccepted(keys, ports, full, part)
  }

  ghost predicate Agreed(rows: seq<Row>, reachable: int -> bool, ports: seq<int>, cidr: string)
    requires ports != []
  {
    forall ip :: Owns(rows, reachable, ports, cidr, ip) <==> IsLeast(rows, reachable, cidr, ip)
  }

  /** Once all CIDRs before `k` agree, whatever `k` owns it also lists as the least. */
  lemma OwnedIsLeast(rows: seq<Row>, keys: set<string>, reachable: int -> bool, ports: seq<int>, left: set<string>,
                     k: string, ip: int)
    requires UsesFastPath(rows, ports) && k in left && (forall x <- left :: LexLeq(k, x))
    requires forall c, a :: Listed(rows, reachable, c, a) ==> c in keys
    requires forall d <- keys - left :: Agreed(rows, reachable, ports, d)
    requires Owns(rows, reachable, ports, k, ip)
    ensures IsLeast(rows, reachable, k, ip)
  {
    OwnedIsListed(rows, reachable, ports, k, ip);
    LeastExists(rows, reachable, k, ip);
    var least :| IsLeast(rows, reachable, least, ip);
    assert least !in left ==> Agreed(rows, reachable, ports, least);
    LexAntisymmetric(k, least);
  }

  lemma GroupMembers(rows: seq<Row>, keys: set<string>, reachable: int -> bool, ports: seq<int>,
                     full: map<GroupKey, Group>, part: map<GroupKey, Group>, k: string, ip: int)
    requires TwoPlans(rows, keys, reachable, ports, full, part) && k in keys
    ensures TotalAccepted(GroupKey(k, ports), full, part)
    ensures ip in full[GroupKey(k, ports)].targets <==> Owns(rows, reachable, ports, k, ip)
    ensures ip in part[GroupKey(k, ports)].targets <==> IsLeast(rows, reachable, k, ip)
  {
    var key := GroupKey(k, ports);
    assert TotalAccepted(key, full, part) && Fits(ClaimsOf(rows, reachable, ports), full, key);
    assert IsFallbackGroup(rows, reachable, ports, k, part[key]);
    OwnsAllPorts(rows, reachable, ports, k, ip);
  }

  /** As many addresses, and all of the one among those of the other: the same addresses. */
  lemma SameByTotal(rows: seq<Row>, keys: set<string>, reachable: int -> bool, ports: seq<int>,
                    full: map<GroupKey, Group>, part: map<GroupKey, Group>, k: string)
    requires TwoPlans(rows, keys, reachable, ports, full, part) && k in keys
    requires forall ip :: Owns(rows, reachable, ports, k, ip) ==> IsLeast(rows, reachable, k, ip)
    ensures GroupKey(k, ports) in full && GroupKey(k, ports) in part
    ensures part[GroupKey(k, ports)] == full[GroupKey(k, ports)] && Agreed(rows, reachable, ports, k)
  {
    var key := GroupKey(k, ports);
    assert TotalAccepted(key, full, part) && Fits(ClaimsOf(rows, reachable, ports), full, key);
    assert IsFallbackGroup(rows, reachable, ports, k, part[key]);
    forall ip
      ensures ip in full[key].targets <==> Owns(rows, reachable, ports, k, ip)
      ensures ip in part[key].targets <==> IsLeast(rows, reachable, k, ip)
    {
      GroupMembers(rows, keys, reachable, ports, full, part, k, ip);
    }
    SameFactor(|part[key].targets|, |full[key].targets|, |ports|);
    IncreasingSameSize(full[key].targets, part[key].targets);
  }

  /** From the least kept CIDR upwards, each agrees because all before it do. */
  lemma {:induction false} AllAgree(rows: seq<Row>, keys: set<string>, reachable: int -> bool, ports: seq<int>,
                                    full: map<GroupKey, Group>, part: map<GroupKey, Group>, left: set<string>)
    requires TwoPlans(rows, keys, reachable, ports, full, part) && left <= keys
    requires forall d <- keys - left :: Agreed(rows, reachable, ports, d)
    ensures forall k <- keys :: Agreed(rows, reachable, ports, k)
    decreases |left|
  {
    if left != {} {
      var k := LeastText(left);
      forall ip | Owns(rows, reachable, ports, k, ip) ensures IsLeast(rows, reachable, k, ip) {
        OwnedIsLeast(rows, keys, reachable, ports, left, k, ip);
      }
      SameByTotal(rows, keys, reachable, ports, full, part, k);
      assert forall d <- keys - (left - {k}) :: d in keys - left || d == k;
      AllAgree(rows, keys, reachable, ports, full, part, left - {k});
    }
  }

  /** With every total accepted, every kept CIDR has the very group it had. */
  lemma AcceptedTotalsSameGroups(rows: seq<Row>, keys: set<string>, reachable: int -> bool, ports: seq<int>,
                                 full: map<GroupKey, Group>, part: map<GroupKey, Group>, k: string)
    requires TwoPlans(rows, keys, reachable, ports, full, part) && k in keys
    ensures GroupKey(k, ports) in full && GroupKey(k, ports) in part
    ensures part[GroupKey(k, ports)] == full[GroupKey(k, ports)]
  {
    AllAgree(rows, keys, reachable, ports, full, part, keys);
    assert Agreed(rows, reachable, ports, k);
    SameByTotal(rows, keys, reachable, ports, full, part, k);
  }
}
