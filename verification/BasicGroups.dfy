/** Owned tasks gathered into groups, and the flat index that names each of them once. */
module BasicGroups {
  import opened Wrappers
  import opened Sorting
  import opened Networks
  import opened Ownership
  import opened BasicTargets
  import opened BasicResolution

  ghost predicate IsGroup(claims: seq<Claim>, key: GroupKey, g: Group) {
    && Increasing(g.targets)
    && (forall ip :: ip in g.targets <==> PortsOf(claims, key.cidr, ip) == key.ports)
    && g.ports == key.ports && g.total == |g.targets| * |g.ports|
  }

  /** One group for every port list that a CIDR owns on some address, holding just those addresses. */
  ghost predicate IsResolution(claims: seq<Claim>, groups: map<GroupKey, Group>) {
    && (forall key :: key in groups <==> key.ports != [] && exists ip :: PortsOf(claims, key.cidr, ip) == key.ports)
    && (forall key <- groups :: IsGroup(claims, key, groups[key]))
  }

  /** Only one map of groups fits the claims, so the order in which maps are walked is invisible. */
  lemma ResolutionUnique(claims: seq<Claim>, one: map<GroupKey, Group>, other: map<GroupKey, Group>)
    requires IsResolution(claims, one) && IsResolution(claims, other)
    ensures one == other
  {
    forall key ensures key in one <==> key in other {
    }
    forall key <- one ensures one[key] == other[key] {
      IncreasingUnique(one[key].targets, other[key].targets);
    }
  }

  // ----- building the groups -----

  ghost predicate Joins(resolved: map<Place, seq<int>>, done: set<Place>, key: GroupKey, ip: int) {
    Place(key.cidr, ip) in done && Place(key.cidr, ip) in resolved && resolved[Place(key.cidr, ip)] == key.ports
  }

  ghost predicate Gathered(resolved: map<Place, seq<int>>, done: set<Place>, groups: map<GroupKey, Group>) {
    && (forall key :: key in groups <==> exists ip :: Joins(resolved, done, key, ip))
    && (forall key <- groups :: Distinct(groups[key].targets) && groups[key].ports == key.ports)
    && (forall key <- groups, ip :: ip in groups[key].targets <==> Joins(resolved, done, key, ip))
  }

  function Appended(groups: map<GroupKey, Group>, key: GroupKey, ip: int): map<GroupKey, Group> {
    var targets := if key in groups then groups[key].targets else [];
    groups[key := Group(targets + [ip], key.ports, 0)]
  }

  lemma GatherOne(resolved: map<Place, seq<int>>, done: set<Place>, groups: map<GroupKey, Group>, place: Place)
    requires Gathered(resolved, done, groups) && place in resolved && place !in done
    ensures Gathered(resolved, done + {place}, Appended(groups, GroupKey(place.cidr, resolved[place]), place.ip))
  {
    var key := GroupKey(place.cidr, resolved[place]);
    var now := Appended(groups, key, place.ip);
    assert !Joins(resolved, done, key, place.ip);
    assert forall k, ip :: Joins(resolved, done + {place}, k, ip) <==>
                           Joins(resolved, done, k, ip) || (k == key && ip == place.ip);
    assert forall ip :: Joins(resolved, done, key, ip) ==> key in groups;
    assert Distinct(now[key].targets);
    forall k ensures k in now <==> exists ip :: Joins(resolved, done + {place}, k, ip) {
      if k == key {
        assert Joins(resolved, done + {place}, key, place.ip);
      } else if k in groups {
        var ip :| Joins(resolved, done, k, ip);
        assert Joins(resolved, done + {place}, k, ip);
      }
    }
  }

  method GatherPlaces(resolved: map<Place, seq<int>>) returns (groups: map<GroupKey, Group>)
    ensures Gathered(resolved, resolved.Keys, groups)
  {
    groups := map[];
    var left := resolved.Keys;
    while left != {}
      invariant left <= resolved.Keys
      invariant Gathered(resolved, resolved.Keys - left, groups)
      decreases left
    {
      SomeMember(left);
      var place: Place :| place in left;
      GatherOne(resolved, resolved.Keys - left, groups, place);
      assert resolved.Keys - (left - {place}) == resolved.Keys - left + {place};
      groups := Appended(groups, GroupKey(place.cidr, resolved[place]), place.ip);
      left := left - {place};
    }
    assert resolved.Keys - left == resolved.Keys;
  }

  /** The same addresses in increasing order, with the task count filled in. */
  ghost predicate Finished(before: Group, after: Group) {
    && Increasing(after.targets) && (forall ip :: ip in after.targets <==> ip in before.targets)
    && after.ports == before.ports && after.total == |after.targets| * |after.ports|
  }

  method FinishGroup(g: Group) returns (f: Group)
    requires Distinct(g.targets)
    ensures Finished(g, f)
  {
    var targets := SortSlice(g.targets, (a: int, b: int) => a <= b);
    SortedSetIncreases(g.targets, targets);
    f := Group(targets, g.ports, |targets| * |g.ports|);
  }

  method FinishGroups(gathered: map<GroupKey, Group>) returns (groups: map<GroupKey, Group>)
    requires forall key <- gathered :: Distinct(gathered[key].targets)
    ensures groups.Keys == gathered.Keys
    ensures forall key <- groups :: Finished(gathered[key], groups[key])
  {
    groups := gathered;
    var left := gathered.Keys;
    while left != {}
      invariant left <= gathered.Keys && groups.Keys == gathered.Keys
      invariant forall key <- left :: groups[key] == gathered[key]
      invariant forall key <- groups :: key !in left ==> Finished(gathered[key], groups[key])
      decreases left
    {
      SomeMember(left);
      var key: GroupKey :| key in left;
      var g := FinishGroup(groups[key]);
      groups := groups[key := g];
      left := left - {key};
    }
  }

  lemma GatheredIsResolution(seen: set<(int, int)>, resolved: map<Place, seq<int>>, claims: seq<Claim>,
                             gathered: map<GroupKey, Group>, groups: map<GroupKey, Group>)
    requires Books(seen, resolved, claims) && Gathered(resolved, resolved.Keys, gathered)
    requires groups.Keys == gathered.Keys && forall key <- groups :: Finished(gathered[key], groups[key])
    ensures IsResolution(claims, groups)
  {
    forall key ensures key in groups <==> key.ports != [] && exists ip :: PortsOf(claims, key.cidr, ip) == key.ports {
      forall ip ensures Joins(resolved, resolved.Keys, key, ip) <==>
                        key.ports != [] && PortsOf(claims, key.cidr, ip) == key.ports {
        JoinsIsPorts(seen, resolved, claims, key, ip);
      }
      if key in gathered {
        var ip :| Joins(resolved, resolved.Keys, key, ip);
        assert PortsOf(claims, key.cidr, ip) == key.ports;
      }
      if ip :| key.ports != [] && PortsOf(claims, key.cidr, ip) == key.ports {
        assert Joins(resolved, resolved.Keys, key, ip);
      }
    }
    forall key <- groups ensures IsGroup(claims, key, groups[key]) {
      assert Finished(gathered[key], groups[key]);
      forall ip ensures ip in groups[key].targets <==> PortsOf(claims, key.cidr, ip) == key.ports {
        assert key.ports != [];
        JoinsIsPorts(seen, resolved, claims, key, ip);
      }
    }
  }

  lemma JoinsIsPorts(seen: set<(int, int)>, resolved: map<Place, seq<int>>, claims: seq<Claim>, key: GroupKey, ip: int)
    requires Books(seen, resolved, claims)
    ensures Joins(resolved, resolved.Keys, key, ip) <==> key.ports != [] && PortsOf(claims, key.cidr, ip) == key.ports
  {
    assert Place(key.cidr, ip) in resolved <==> PortsOf(claims, key.cidr, ip) != [];
  }

  /** The general path of the resolver. */
  method ResolveGeneral(rows: seq<Row>, reachable: int -> bool, fallback: seq<int>)
    returns (r: Outcome<map<GroupKey, Group>, ResolveError>)
    requires forall row <- rows :: ValidRow(row)
    ensures r.Failure? ==> FirstError(rows, reachable, fallback) == Some(r.error)
    ensures r.Success? ==> FirstError(rows, reachable, fallback).None?
    ensures r.Success? ==> IsResolution(ClaimsOf(rows, reachable, fallback), r.value)
  {
    var resolved, seen := CollectClaims(rows, reachable, fallback);
    if resolved.Failure? {
      return Failure(resolved.error);
    }
    var gathered := GatherPlaces(resolved.value);
    var groups := FinishGroups(gathered);
    GatheredIsResolution(seen, resolved.value, ClaimsOf(rows, reachable, fallback), gathered, groups);
    return Success(groups);
  }

  // ----- flat indexes -----

  datatype Target = Target(ip: int, port: int)

  datatype IndexError = EmptyTargets | EmptyPorts | NegativeIndex | IndexOutOfRange

  /** Task `i` of a group counts through the ports of each address before the next address. */
  ghost predicate TaskAt(targets: seq<int>, ports: seq<int>, i: int, ip: int, port: int) {
    exists t, p :: AtPair(targets, ports, i, ip, port, t, p)
  }

  ghost predicate AtPair(targets: seq<int>, ports: seq<int>, i: int, ip: int, port: int, t: int, p: int) {
    0 <= t < |targets| && 0 <= p < |ports| && i == t * |ports| + p && targets[t] == ip && ports[p] == port
  }

  lemma PairInRange(t: int, p: int, targets: nat, ports: nat)
    requires 0 <= t < targets && 0 <= p < ports
    ensures 0 <= t * ports + p < targets * ports
  {
    assert (t + 1) * ports <= targets * ports;
  }

  lemma PairUnique(t: int, p: int, u: int, q: int, n: nat)
    requires 0 <= p < n && 0 <= q < n && t * n + p == u * n + q
    ensures t == u && p == q
  {
    NextMultiple(t, u, n);
    NextMultiple(u, t, n);
  }

  lemma PairOfIndex(i: int, targets: nat, n: nat)
    requires n > 0 && 0 <= i
    ensures i == i / n * n + i % n && 0 <= i % n < n && i / n >= 0
    ensures i / n < targets <==> i < targets * n
  {
    if i / n < targets {
      PairInRange(i / n, i % n, targets, n);
    } else {
      assert i / n * n >= targets * n;
    }
  }

  function Ips(targets: seq<Target>): (ips: seq<int>)
    ensures |ips| == |targets| && forall k :: 0 <= k < |ips| ==> ips[k] == targets[k].ip
  {
    seq(|targets|, k requires 0 <= k < |targets| => targets[k].ip)
  }

  /** Targets that all carry a port of their own ignore the single representative port. */
  ghost predicate Dedicated(targets: seq<Target>, ports: seq<int>) {
    |ports| == 1 && forall k :: 0 <= k < |targets| ==> targets[k].port > 0
  }

  method IndexToRuntimeTarget(targets: seq<Target>, ports: seq<int>, idx: int)
    returns (r: Outcome<(int, int), IndexError>)
    ensures r.Success? <==> 0 <= idx < |targets| * |ports|
    ensures r.Success? && Dedicated(targets, ports) ==> r.value == (targets[idx].ip, targets[idx].port)
    ensures r.Success? && !Dedicated(targets, ports) ==> TaskAt(Ips(targets), ports, idx, r.value.0, r.value.1)
    ensures r.Failure? ==> r.error == if targets == [] then EmptyTargets else if ports == [] then EmptyPorts
                                      else if idx < 0 then NegativeIndex else IndexOutOfRange
  {
    if |targets| == 0 {
      return Failure(EmptyTargets);
    }
    if |ports| == 0 {
      return Failure(EmptyPorts);
    }
    if idx < 0 {
      return Failure(NegativeIndex);
    }
    if |ports| == 1 {
      var dedicated := true;
      var k := 0;
      while k < |targets|
        invariant 0 <= k <= |targets| && dedicated && forall j :: 0 <= j < k ==> targets[j].port > 0
      {
        if targets[k].port <= 0 {
          dedicated := false;
          break;
        }
        k := k + 1;
      }
      if dedicated {
        return if idx >= |targets| then Failure(IndexOutOfRange) else Success((targets[idx].ip, targets[idx].port));
      }
    }
    PairOfIndex(idx, |targets|, |ports|);
    var t, p := idx / |ports|, idx % |ports|;
    if t >= |targets| {
      return Failure(IndexOutOfRange);
    }
    assert AtPair(Ips(targets), ports, idx, targets[t].ip, ports[p], t, p);
    return Success((targets[t].ip, ports[p]));
  }

  // ----- the partition -----

  ghost predicate At(groups: map<GroupKey, Group>, key: GroupKey, i: int, ip: int, port: int) {
    key in groups && 0 <= i < groups[key].total && TaskAt(groups[key].targets, groups[key].ports, i, ip, port)
  }

  lemma TaskIsOwned(claims: seq<Claim>, groups: map<GroupKey, Group>, key: GroupKey, i: int, ip: int, port: int)
    requires IsResolution(claims, groups) && At(groups, key, i, ip, port)
    ensures Owner(claims, ip, port) == Some(key.cidr) && key.ports == PortsOf(claims, key.cidr, ip)
  {
    PortsOfOwner(claims, key.cidr, ip, port);
  }

  lemma OwnedTaskIsAt(claims: seq<Claim>, groups: map<GroupKey, Group>, ip: int, port: int)
    requires IsResolution(claims, groups) && Owner(claims, ip, port).Some?
    ensures exists key, i :: At(groups, key, i, ip, port)
  {
    var cidr := Owner(claims, ip, port).value;
    PortsOfOwner(claims, cidr, ip, port);
    var key := GroupKey(cidr, PortsOf(claims, cidr, ip));
    assert key in groups;
    var g := groups[key];
    var t :| 0 <= t < |g.targets| && g.targets[t] == ip;
    var p :| 0 <= p < |g.ports| && g.ports[p] == port;
    PairInRange(t, p, |g.targets|, |g.ports|);
    assert AtPair(g.targets, g.ports, t * |g.ports| + p, ip, port, t, p);
    assert At(groups, key, t * |g.ports| + p, ip, port);
  }

  lemma TaskAtOneIndex(targets: seq<int>, ports: seq<int>, i: int, j: int, ip: int, port: int)
    requires Increasing(targets) && Distinct(ports)
    requires TaskAt(targets, ports, i, ip, port) && TaskAt(targets, ports, j, ip, port)
    ensures i == j
  {
    var t, p :| AtPair(targets, ports, i, ip, port, t, p);
    var u, q :| AtPair(targets, ports, j, ip, port, u, q);
    assert t == u && p == q;
  }

  lemma OneTaskPerIndex(targets: seq<int>, ports: seq<int>, i: int, ip: int, port: int, ip': int, port': int)
    requires TaskAt(targets, ports, i, ip, port) && TaskAt(targets, ports, i, ip', port')
    ensures ip == ip' && port == port'
  {
    var t, p :| AtPair(targets, ports, i, ip, port, t, p);
    var u, q :| AtPair(targets, ports, i, ip', port', u, q);
    PairUnique(t, p, u, q, |ports|);
  }

  /**
   Every task that some row yields sits at exactly one flat index of exactly one group, under the
   CIDR of the first row that yields it; nothing else sits anywhere.
   */
  lemma Partition(rows: seq<Row>, reachable: int -> bool, fallback: seq<int>, groups: map<GroupKey, Group>,
                  ip: int, port: int)
    requires IsResolution(ClaimsOf(rows, reachable, fallback), groups)
    ensures (exists r :: 0 <= r < |rows| && Yields(rows[r], reachable, fallback, ip, port))
       <==> exists key, i :: At(groups, key, i, ip, port)
    ensures forall key, i, key', i' :: At(groups, key, i, ip, port) && At(groups, key', i', ip, port) ==>
                                         key == key' && i == i'
    ensures forall key, i :: At(groups, key, i, ip, port) ==>
                               exists r :: FirstRow(rows, reachable, fallback, ip, port, r) && key.cidr == rows[r].cidr
  {
    var claims := ClaimsOf(rows, reachable, fallback);
    OwnerIsFirstRow(rows, reachable, fallback, ip, port);
    forall key, i | At(groups, key, i, ip, port)
      ensures Owner(claims, ip, port) == Some(key.cidr) && key == GroupKey(key.cidr, PortsOf(claims, key.cidr, ip))
    {
      TaskIsOwned(claims, groups, key, i, ip, port);
    }
    if Owner(claims, ip, port).Some? {
      OwnedTaskIsAt(claims, groups, ip, port);
    }
    forall key, i, j | At(groups, key, i, ip, port) && At(groups, key, j, ip, port) ensures i == j {
      PortsOfDistinct(claims, key.cidr, ip);
      TaskAtOneIndex(groups[key].targets, groups[key].ports, i, j, ip, port);
    }
  }
}
