/** The two paths of the basic resolver compared: the same tasks, and when the same groups. */
module BasicAgreement {
  import opened Wrappers
  import opened Sorting
  import opened TextOrder
  import opened Networks
  import opened Ownership
  import opened BasicTargets
  import opened BasicResolution
  import opened BasicGroups
  import opened BasicFallback

  predicate HasRowPorts(rows: seq<Row>) {
    exists r <- rows :: r.port > 0
  }

  /** The fallback port numbers without repetitions, in their first order. */
  method FirstOfEach(ports: seq<int>) returns (out: seq<int>)
    ensures Distinct(out) && forall p :: p in out <==> p in ports
    ensures Distinct(ports) ==> out == ports
  {
    var seen: set<int> := {};
    out := [];
    for k := 0 to |ports|
      invariant Distinct(out) && forall p :: p in out <==> p in ports[..k]
      invariant forall p :: p in seen <==> p in out
      invariant Distinct(ports) ==> out == ports[..k]
    {
      assert ports[..k + 1] == ports[..k] + [ports[k]];
      if ports[k] in seen {
        continue;
      }
      seen := seen + {ports[k]};
      out := out + [ports[k]];
    }
    assert ports[..|ports|] == ports;
  }

  ghost predicate UsesFastPath(rows: seq<Row>, ports: seq<int>) {
    !HasRowPorts(rows) && ports != []
  }

  ghost predicate IsResolved(rows: seq<Row>, reachable: int -> bool, ports: seq<int>, groups: map<GroupKey, Group>) {
    if UsesFastPath(rows, ports) then IsFallback(rows, reachable, ports, groups)
    else IsResolution(ClaimsOf(rows, reachable, ports), groups)
  }

  /** The resolver: it fails on the first bad row, and only then; otherwise the path depends on the ports. */
  method ResolveBasicTargets(rows: seq<Row>, fallback: seq<int>, reachable: int -> bool)
    returns (r: Outcome<map<GroupKey, Group>, ResolveError>, ports: seq<int>)
    requires forall row <- rows :: ValidRow(row)
    ensures Distinct(ports) && forall p :: p in ports <==> p in fallback
    ensures Distinct(fallback) ==> ports == fallback
    ensures r.Failure? ==> FirstError(rows, reachable, ports) == Some(r.error)
    ensures r.Success? ==> FirstError(rows, reachable, ports).None? && IsResolved(rows, reachable, ports, r.value)
  {
    ports := FirstOfEach(fallback);
    if !HasRowPorts(rows) && |ports| > 0 {
      r := ResolveFallback(rows, reachable, ports);
    } else {
      r := ResolveGeneral(rows, reachable, ports);
    }
  }

  // ----- the fast path is a partition of the same tasks -----

  lemma FastTaskIsLeast(rows: seq<Row>, reachable: int -> bool, ports: seq<int>, groups: map<GroupKey, Group>,
                        key: GroupKey, i: int, ip: int, port: int)
    requires IsFallback(rows, reachable, ports, groups) && At(groups, key, i, ip, port)
    ensures key.ports == ports && port in ports && IsLeast(rows, reachable, key.cidr, ip)
  {
  }

  lemma LeastIsUnique(rows: seq<Row>, reachable: int -> bool, a: string, b: string, ip: int)
    requires IsLeast(rows, reachable, a, ip) && IsLeast(rows, reachable, b, ip)
    ensures a == b
  {
    LexAntisymmetric(a, b);
  }

  /** Some CIDR is least as soon as any lists the address. */
  lemma {:induction false} LeastExists(rows: seq<Row>, reachable: int -> bool, cidr: string, ip: int)
    requires Listed(rows, reachable, cidr, ip)
    ensures exists least :: IsLeast(rows, reachable, least, ip)
  {
    LexIsTotalOrder();
    var front, last := rows[..|rows| - 1], rows[|rows| - 1];
    assert rows == front + [last];
    forall c ensures Listed(rows, reachable, c, ip) <==> Listed(front, reachable, c, ip) || Lists(last, reachable, c, ip) {
    }
    if c :| Listed(front, reachable, c, ip) {
      LeastExists(front, reachable, c, ip);
      var least :| IsLeast(front, reachable, least, ip);
      assert IsLeast(rows, reachable, if YieldsAddress(last, reachable, ip) && LexLeq(last.cidr, least) then last.cidr else least, ip);
    } else {
      assert IsLeast(rows, reachable, last.cidr, ip);
    }
  }

  lemma LeastTaskIsAt(rows: seq<Row>, reachable: int -> bool, ports: seq<int>, groups: map<GroupKey, Group>,
                      cidr: string, ip: int, port: int)
    requires IsFallback(rows, reachable, ports, groups) && IsLeast(rows, reachable, cidr, ip) && port in ports
    ensures exists key, i :: At(groups, key, i, ip, port)
  {
    var key := GroupKey(cidr, ports);
    assert key in groups && IsFallbackGroup(rows, reachable, ports, cidr, groups[key]);
    var g := groups[key];
    var t :| 0 <= t < |g.targets| && g.targets[t] == ip;
    var p :| 0 <= p < |g.ports| && g.ports[p] == port;
    PairInRange(t, p, |g.targets|, |g.ports|);
    assert AtPair(g.targets, g.ports, t * |g.ports| + p, ip, port, t, p);
    assert At(groups, key, t * |g.ports| + p, ip, port);
  }

  lemma YieldsIsListed(rows: seq<Row>, reachable: int -> bool, ports: seq<int>, ip: int, port: int)
    requires !HasRowPorts(rows)
    ensures (exists r :: 0 <= r < |rows| && Yields(rows[r], reachable, ports, ip, port))
       <==> port in ports && exists cidr :: Listed(rows, reachable, cidr, ip)
  {
    assert forall r :: 0 <= r < |rows| ==> rows[r] in rows && RowPorts(rows[r], ports) == ports;
    if r :| 0 <= r < |rows| && Yields(rows[r], reachable, ports, ip, port) {
      assert Lists(rows[r], reachable, rows[r].cidr, ip);
      assert Listed(rows, reachable, rows[r].cidr, ip);
    }
    if cidr :| port in ports && Listed(rows, reachable, cidr, ip) {
      var row :| row in rows && Lists(row, reachable, cidr, ip);
      var r :| 0 <= r < |rows| && rows[r] == row;
      assert Yields(rows[r], reachable, ports, ip, port);
    }
  }

  /** The partition again, with the least CIDR as the owner. */
  lemma FastPartition(rows: seq<Row>, reachable: int -> bool, ports: seq<int>, groups: map<GroupKey, Group>,
                      ip: int, port: int)
    requires UsesFastPath(rows, ports) && Distinct(ports) && IsFallback(rows, reachable, ports, groups)
    ensures (exists r :: 0 <= r < |rows| && Yields(rows[r], reachable, ports, ip, port))
       <==> exists key, i :: At(groups, key, i, ip, port)
    ensures forall key, i, key', i' :: At(groups, key, i, ip, port) && At(groups, key', i', ip, port) ==>
                                         key == key' && i == i'
    ensures forall key, i :: At(groups, key, i, ip, port) ==> IsLeast(rows, reachable, key.cidr, ip)
  {
    YieldsIsListed(rows, reachable, ports, ip, port);
    forall key, i | At(groups, key, i, ip, port)
      ensures key.ports == ports && port in ports && IsLeast(rows, reachable, key.cidr, ip)
    {
      FastTaskIsLeast(rows, reachable, ports, groups, key, i, ip, port);
    }
    if cidr :| port in ports && Listed(rows, reachable, cidr, ip) {
      LeastExists(rows, reachable, cidr, ip);
      var least :| IsLeast(rows, reachable, least, ip);
      LeastTaskIsAt(rows, reachable, ports, groups, least, ip, port);
    }
    forall key, i, key', i' | At(groups, key, i, ip, port) && At(groups, key', i', ip, port)
      ensures key == key' && i == i'
    {
      LeastIsUnique(rows, reachable, key.cidr, key'.cidr, ip);
      TaskAtOneIndex(groups[key].targets, ports, i, i', ip, port);
    }
  }

  /** Both paths resolve the same tasks, each at exactly one place. */
  lemma SameTasks(rows: seq<Row>, reachable: int -> bool, ports: seq<int>, fast: map<GroupKey, Group>,
                  general: map<GroupKey, Group>, ip: int, port: int)
    requires UsesFastPath(rows, ports) && Distinct(ports) && IsFallback(rows, reachable, ports, fast)
    requires IsResolution(ClaimsOf(rows, reachable, ports), general)
    ensures (exists key, i :: At(fast, key, i, ip, port)) <==> exists key, i :: At(general, key, i, ip, port)
  {
    FastPartition(rows, reachable, ports, fast, ip, port);
    Partition(rows, reachable, ports, general, ip, port);
  }

  // ----- when the groups coincide -----

  ghost predicate FirstLists(rows: seq<Row>, reachable: int -> bool, ip: int, r: int) {
    0 <= r < |rows| && YieldsAddress(rows[r], reachable, ip) && forall q :: 0 <= q < r ==> !YieldsAddress(rows[q], reachable, ip)
  }

  /** Every address is listed first by the least of its CIDRs. */
  ghost predicate OwnersAgree(rows: seq<Row>, reachable: int -> bool) {
    forall ip, r :: FirstLists(rows, reachable, ip, r) ==> IsLeast(rows, reachable, rows[r].cidr, ip)
  }

  /** All ports of an address go to one CIDR together: either all of `ports`, in order, or none. */
  ghost predicate AllOrNone(claims: seq<Claim>, ports: seq<int>, group: string, ip: int)
    requires ports != []
  {
    && (forall p <- ports :: Owner(claims, ip, p) == Owner(claims, ip, ports[0]))
    && PortsOf(claims, group, ip) == if Owner(claims, ip, ports[0]) == Some(group) then ports else []
  }

  lemma OwnerInPortClaims(group: string, ip: int, ports: seq<int>, a: int, p: int)
    ensures Owner(PortClaims(group, ip, ports), a, p) == if a == ip && p in ports then Some(group) else None
  {
    var claims := PortClaims(group, ip, ports);
    OwnerIsFirst(claims, a, p);
    if a == ip && p in ports {
      var k :| 0 <= k < |ports| && ports[k] == p;
      assert claims[k] in claims;
    }
  }

  /** The next port of the list is still free unless it was taken before the list began. */
  lemma OnePortMore(claims: seq<Claim>, group: string, ip: int, ports: seq<int>, k: nat)
    requires k < |ports| && Distinct(ports)
    ensures claims + PortClaims(group, ip, ports[..k + 1])
         == claims + PortClaims(group, ip, ports[..k]) + [Claim(group, ip, ports[k])]
    ensures Owner(claims + PortClaims(group, ip, ports[..k]), ip, ports[k]).None? <==> Owner(claims, ip, ports[k]).None?
  {
    OwnerOfBoth(claims, PortClaims(group, ip, ports[..k]), ip, ports[k]);
    OwnerInPortClaims(group, ip, ports[..k], ip, ports[k]);
  }

  lemma TakeOneMore(head: seq<int>, ports: seq<int>, k: nat, free: bool)
    requires k < |ports|
    ensures head + (if free then ports[..k] else []) + (if free then [ports[k]] else [])
         == head + if free then ports[..k + 1] else []
  {
  }

  lemma {:induction false} PortsOfPortClaims(claims: seq<Claim>, group: string, ip: int, ports: seq<int>, k: nat, free: bool)
    requires k <= |ports| && Distinct(ports)
    requires forall p <- ports :: Owner(claims, ip, p).None? <==> free
    ensures PortsOf(claims + PortClaims(group, ip, ports[..k]), group, ip)
         == PortsOf(claims, group, ip) + if free then ports[..k] else []
  {
    if k == 0 {
      assert claims + PortClaims(group, ip, ports[..0]) == claims;
    } else {
      PortsOfPortClaims(claims, group, ip, ports, k - 1, free);
      OnePortMore(claims, group, ip, ports, k - 1);
      assert ports[k - 1] in ports;
      PortsOfPush(claims + PortClaims(group, ip, ports[..k - 1]), Claim(group, ip, ports[k - 1]), group, ip);
      TakeOneMore(PortsOf(claims, group, ip), ports, k - 1, free);
    }
  }

  lemma {:induction false} OtherPortClaims(claims: seq<Claim>, group: string, ip: int, ports: seq<int>, g: string, a: int)
    requires a != ip || g != group
    ensures PortsOf(claims + PortClaims(group, ip, ports), g, a) == PortsOf(claims, g, a)
  {
    if ports == [] {
      assert claims + PortClaims(group, ip, ports) == claims;
    } else {
      var k := |ports| - 1;
      OtherPortClaims(claims, group, ip, ports[..k], g, a);
      assert claims + PortClaims(group, ip, ports) == claims + PortClaims(group, ip, ports[..k]) + [Claim(group, ip, ports[k])];
      PortsOfPush(claims + PortClaims(group, ip, ports[..k]), Claim(group, ip, ports[k]), g, a);
    }
  }

  lemma AllOrNoneStep(claims: seq<Claim>, ports: seq<int>, group: string, ip: int, g: string, a: int)
    requires ports != [] && Distinct(ports) && AllOrNone(claims, ports, g, a)
    requires a == ip ==> AllOrNone(claims, ports, group, ip)
    ensures AllOrNone(claims + PortClaims(group, ip, ports), ports, g, a)
  {
    var b := PortClaims(group, ip, ports);
    forall p <- ports ensures Owner(claims + b, a, p) == Owner(claims + b, a, ports[0]) {
      OwnerOfBoth(claims, b, a, p);
      OwnerOfBoth(claims, b, a, ports[0]);
      OwnerInPortClaims(group, ip, ports, a, p);
      OwnerInPortClaims(group, ip, ports, a, ports[0]);
    }
    OwnerOfBoth(claims, b, a, ports[0]);
    OwnerInPortClaims(group, ip, ports, a, ports[0]);
    if a == ip && g == group {
      assert ports[0] in ports;
      PortsOfPortClaims(claims, group, ip, ports, |ports|, Owner(claims, ip, ports[0]).None?);
      assert ports[..|ports|] == ports;
    } else {
      OtherPortClaims(claims, group, ip, ports, g, a);
    }
  }

  lemma {:induction false} AllOrNoneAddresses(claims: seq<Claim>, ports: seq<int>, group: string, ips: seq<int>, g: string, a: int)
    requires ports != [] && Distinct(ports) && AllOrNone(claims, ports, g, a) && AllOrNone(claims, ports, group, a)
    ensures AllOrNone(claims + AddressClaims(group, ips, ports), ports, g, a)
    ensures AllOrNone(claims + AddressClaims(group, ips, ports), ports, group, a)
  {
    if ips == [] {
      assert claims + AddressClaims(group, ips, ports) == claims;
    } else {
      var front, last := ips[..|ips| - 1], ips[|ips| - 1];
      AllOrNoneAddresses(claims, ports, group, front, g, a);
      LastAddressClaims(claims, ports, group, ips);
      AllOrNoneStep(claims + AddressClaims(group, front, ports), ports, group, last, g, a);
      AllOrNoneStep(claims + AddressClaims(group, front, ports), ports, group, last, group, a);
    }
  }

  lemma LastAddressClaims(claims: seq<Claim>, ports: seq<int>, group: string, ips: seq<int>)
    requires ips != []
    ensures claims + AddressClaims(group, ips, ports)
         == claims + AddressClaims(group, ips[..|ips| - 1], ports) + PortClaims(group, ips[|ips| - 1], ports)
  {
  }

  lemma {:induction false} AllOrNoneRows(rows: seq<Row>, reachable: int -> bool, ports: seq<int>, g: string, a: int)
    requires ports != [] && Distinct(ports) && !HasRowPorts(rows)
    ensures AllOrNone(ClaimsOf(rows, reachable, ports), ports, g, a)
  {
    if rows != [] {
      var front, last := rows[..|rows| - 1], rows[|rows| - 1];
      assert last in rows && forall r <- front :: r in rows;
      AllOrNoneRows(front, reachable, ports, g, a);
      AllOrNoneRows(front, reachable, ports, last.cidr, a);
      if Range(last).Some? {
        AllOrNoneAddresses(ClaimsOf(front, reachable, ports), ports, last.cidr, Survivors(last, reachable), g, a);
      }
    }
  }

  lemma FirstListerOwns(rows: seq<Row>, reachable: int -> bool, ports: seq<int>, ip: int, r: int)
    requires UsesFastPath(rows, ports) && FirstLists(rows, reachable, ip, r)
    ensures Owner(ClaimsOf(rows, reachable, ports), ip, ports[0]) == Some(rows[r].cidr)
  {
    OwnerIsFirstRow(rows, reachable, ports, ip, ports[0]);
    assert forall q :: 0 <= q < |rows| ==> rows[q] in rows;
    assert Yields(rows[r], reachable, ports, ip, ports[0]);
    var k :| FirstRow(rows, reachable, ports, ip, ports[0], k)
             && Owner(ClaimsOf(rows, reachable, ports), ip, ports[0]).value == rows[k].cidr;
    assert k >= r;
  }

  lemma {:induction false} FirstListerExists(rows: seq<Row>, reachable: int -> bool, ip: int, r: nat)
    requires r < |rows| && YieldsAddress(rows[r], reachable, ip)
    ensures exists k :: FirstLists(rows, reachable, ip, k)
  {
    if q :| 0 <= q < r && YieldsAddress(rows[q], reachable, ip) {
      FirstListerExists(rows, reachable, ip, q);
    } else {
      assert FirstLists(rows, reachable, ip, r);
    }
  }

  lemma AgreedOwnerIsLeast(rows: seq<Row>, reachable: int -> bool, ports: seq<int>, cidr: string, ip: int)
    requires UsesFastPath(rows, ports) && Distinct(ports) && OwnersAgree(rows, reachable)
    ensures PortsOf(ClaimsOf(rows, reachable, ports), cidr, ip) == if IsLeast(rows, reachable, cidr, ip) then ports else []
  {
    AllOrNoneRows(rows, reachable, ports, cidr, ip);
    OwnerIsFirstRow(rows, reachable, ports, ip, ports[0]);
    YieldsIsListed(rows, reachable, ports, ip, ports[0]);
    if exists r :: FirstLists(rows, reachable, ip, r) {
      var r :| FirstLists(rows, reachable, ip, r);
      FirstListerOwns(rows, reachable, ports, ip, r);
      if IsLeast(rows, reachable, cidr, ip) {
        LeastIsUnique(rows, reachable, cidr, rows[r].cidr, ip);
      }
    } else {
      forall r | 0 <= r < |rows| ensures !YieldsAddress(rows[r], reachable, ip) {
        if YieldsAddress(rows[r], reachable, ip) {
          FirstListerExists(rows, reachable, ip, r);
        }
      }
    }
  }

  /** The two paths build the same groups exactly when every address is first listed by its least CIDR. */
  lemma GroupsCoincide(rows: seq<Row>, reachable: int -> bool, ports: seq<int>, fast: map<GroupKey, Group>,
                       general: map<GroupKey, Group>)
    requires UsesFastPath(rows, ports) && Distinct(ports) && IsFallback(rows, reachable, ports, fast)
    requires IsResolution(ClaimsOf(rows, reachable, ports), general)
    ensures fast == general <==> OwnersAgree(rows, reachable)
  {
    if OwnersAgree(rows, reachable) {
      FastIsResolution(rows, reachable, ports, fast);
      ResolutionUnique(ClaimsOf(rows, reachable, ports), fast, general);
    }
    if fast == general {
      forall ip, r | FirstLists(rows, reachable, ip, r) ensures IsLeast(rows, reachable, rows[r].cidr, ip) {
        var claims := ClaimsOf(rows, reachable, ports);
        FirstListerOwns(rows, reachable, ports, ip, r);
        OwnedTaskIsAt(claims, general, ip, ports[0]);
        var key, i :| At(general, key, i, ip, ports[0]);
        TaskIsOwned(claims, general, key, i, ip, ports[0]);
        FastTaskIsLeast(rows, reachable, ports, fast, key, i, ip, ports[0]);
      }
    }
  }

  lemma FastIsResolution(rows: seq<Row>, reachable: int -> bool, ports: seq<int>, fast: map<GroupKey, Group>)
    requires UsesFastPath(rows, ports) && Distinct(ports) && IsFallback(rows, reachable, ports, fast)
    requires OwnersAgree(rows, reachable)
    ensures IsResolution(ClaimsOf(rows, reachable, ports), fast)
  {
    var claims := ClaimsOf(rows, reachable, ports);
    forall key: GroupKey, ip
      ensures key.ports != [] && PortsOf(claims, key.cidr, ip) == key.ports <==>
              key.ports == ports && IsLeast(rows, reachable, key.cidr, ip)
    {
      AgreedOwnerIsLeast(rows, reachable, ports, key.cidr, ip);
    }
    forall key ensures key in fast <==> key.ports != [] && exists ip :: PortsOf(claims, key.cidr, ip) == key.ports {
      if key in fast {
        var ip :| IsLeast(rows, reachable, key.cidr, ip);
        assert PortsOf(claims, key.cidr, ip) == key.ports;
      }
    }
    forall key <- fast ensures IsGroup(claims, key, fast[key]) {
      assert IsFallbackGroup(rows, reachable, ports, key.cidr, fast[key]) && key.ports == ports;
    }
  }

  /** No address is listed under two CIDRs. */
  ghost predicate NoSharedAddress(rows: seq<Row>, reachable: int -> bool) {
    forall ip, c, d :: Listed(rows, reachable, c, ip) && Listed(rows, reachable, d, ip) ==> c == d
  }

  lemma NoSharedAddressAgrees(rows: seq<Row>, reachable: int -> bool)
    requires NoSharedAddress(rows, reachable)
    ensures OwnersAgree(rows, reachable)
  {
    forall ip, r | FirstLists(rows, reachable, ip, r) ensures IsLeast(rows, reachable, rows[r].cidr, ip) {
      assert rows[r] in rows && Lists(rows[r], reachable, rows[r].cidr, ip);
      assert Listed(rows, reachable, rows[r].cidr, ip);
      forall c | Listed(rows, reachable, c, ip) ensures LexLeq(rows[r].cidr, c) {
        LexTotal(c, c);
      }
    }
  }

  /** One host under two CIDRs, the greater one first: the two paths build different groups. */
  lemma OwnersDisagree(least: string, other: string, a: Network, b: Network, ip: int, reachable: int -> bool,
                       ports: seq<int>, fast: map<GroupKey, Group>, general: map<GroupKey, Group>)
    requires LexLeq(least, other) && least != other && IsHostIn(a, ip) && IsHostIn(b, ip) && reachable(ip)
    requires ports != [] && Distinct(ports)
    requires var rows := [HostRow(1, other, a, ip, 0), HostRow(2, least, b, ip, 0)];
             IsFallback(rows, reachable, ports, fast) && IsResolution(ClaimsOf(rows, reachable, ports), general)
    ensures fast != general
  {
    var rows := [HostRow(1, other, a, ip, 0), HostRow(2, least, b, ip, 0)];
    HostYields(rows[0], reachable, ip);
    HostYields(rows[1], reachable, ip);
    GroupsCoincide(rows, reachable, ports, fast, general);
    assert FirstLists(rows, reachable, ip, 0);
    assert rows[1] in rows && Lists(rows[1], reachable, least, ip);
    if IsLeast(rows, reachable, other, ip) {
      assert Listed(rows, reachable, least, ip);
      LexAntisymmetric(least, other);
      assert false;
    }
  }
}
