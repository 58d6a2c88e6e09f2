/**
 The fast path taken when no row carries a port: group by CIDR first, then give every address
 to the least CIDR that lists it. It resolves the same tasks as the general path.
 */
module BasicFallback {
  import opened Wrappers
  import opened Sorting
  import opened TextOrder
  import opened Networks
  import opened Ownership
  import opened BasicTargets
  import opened BasicResolution
  import opened BasicGroups

  ghost predicate Lists(row: Row, reachable: int -> bool, cidr: string, ip: int) {
    row.cidr == cidr && YieldsAddress(row, reachable, ip)
  }

  ghost predicate Listed(rows: seq<Row>, reachable: int -> bool, cidr: string, ip: int) {
    exists r <- rows :: Lists(r, reachable, cidr, ip)
  }

  ghost predicate IsLeast(rows: seq<Row>, reachable: int -> bool, cidr: string, ip: int) {
    Listed(rows, reachable, cidr, ip) && forall c :: Listed(rows, reachable, c, ip) ==> LexLeq(cidr, c)
  }

  /** Some address is given to this CIDR. */
  ghost predicate Keeps(rows: seq<Row>, reachable: int -> bool, cidr: string) {
    exists ip :: IsLeast(rows, reachable, cidr, ip)
  }

  // ----- the CIDR groups before addresses are given away -----

  ghost predicate InOrder(ips: seq<int>) {
    forall i, j :: 0 <= i < j < |ips| ==> ips[i] <= ips[j]
  }

  ghost predicate Collected(rows: seq<Row>, reachable: int -> bool, groups: map<string, seq<int>>) {
    && (forall cidr :: cidr in groups ==> groups[cidr] != [])
    && (forall cidr, ip :: Listed(rows, reachable, cidr, ip) <==> Holds(groups, cidr, ip))
  }

  ghost predicate Holds(groups: map<string, seq<int>>, cidr: string, ip: int) {
    cidr in groups && ip in groups[cidr]
  }

  /** A CIDR appears in the map only once it has an address. */
  function Extended(groups: map<string, seq<int>>, cidr: string, ips: seq<int>): map<string, seq<int>> {
    var now := (if cidr in groups then groups[cidr] else []) + ips;
    if now == [] then groups else groups[cidr := now]
  }

  lemma CollectOne(rows: seq<Row>, k: nat, reachable: int -> bool, groups: map<string, seq<int>>)
    requires k < |rows| && Range(rows[k]).Some? && Collected(rows[..k], reachable, groups)
    ensures Collected(rows[..k + 1], reachable, Extended(groups, rows[k].cidr, Survivors(rows[k], reachable)))
  {
    var row, ips := rows[k], Survivors(rows[k], reachable);
    var after := Extended(groups, row.cidr, ips);
    assert rows[..k + 1] == rows[..k] + [row];
    forall cidr, ip ensures Listed(rows[..k + 1], reachable, cidr, ip) <==> Holds(after, cidr, ip) {
      SurvivorsMembers(row, reachable, ip);
      assert Listed(rows[..k + 1], reachable, cidr, ip) <==>
        Listed(rows[..k], reachable, cidr, ip) || Lists(row, reachable, cidr, ip);
    }
  }

  method CollectByCidr(rows: seq<Row>, reachable: int -> bool, fallback: seq<int>)
    returns (r: Outcome<map<string, seq<int>>, ResolveError>)
    requires forall row <- rows :: ValidRow(row)
    requires fallback != []
    ensures r.Failure? ==> FirstError(rows, reachable, fallback) == Some(r.error)
    ensures r.Success? ==> FirstError(rows, reachable, fallback).None? && Collected(rows, reachable, r.value)
  {
    var groups: map<string, seq<int>> := map[];
    for k := 0 to |rows|
      invariant FirstError(rows[..k], reachable, fallback).None?
      invariant Collected(rows[..k], reachable, groups)
    {
      var row := rows[k];
      if row.cidr == "" {
        OneErrorMore(rows, k, reachable, fallback);
        return Failure(MissingCidr(row.number));
      }
      var ips := TargetIPs(row);
      if ips.Failure? {
        OneErrorMore(rows, k, reachable, fallback);
        return Failure(ips.error);
      }
      var kept := FilterTargets(ips.value, reachable);
      OneRowMore(rows, k, reachable, fallback);
      CollectOne(rows, k, reachable, groups);
      groups := Extended(groups, row.cidr, kept);
    }
    assert rows[..|rows|] == rows;
    return Success(groups);
  }

  // ----- giving every address to one CIDR -----

  /** Drops, in place, the addresses that an earlier group took and the repetitions within this one. */
  method KeepUnseen(ips: array<int>, seen: set<int>) returns (n: nat, now: set<int>)
    requires InOrder(ips[..])
    modifies ips
    ensures n <= ips.Length && Increasing(ips[..n])
    ensures forall ip :: ip in ips[..n] <==> ip in old(ips[..]) && ip !in seen
    ensures forall ip :: ip in now <==> ip in seen || ip in old(ips[..])
  {
    n, now := 0, seen;
    ghost var was := ips[..];
    for k := 0 to ips.Length
      invariant n <= k && Increasing(ips[..n])
      invariant ips[k..] == was[k..]
      invariant forall ip :: ip in now <==> ip in seen || ip in was[..k]
      invariant forall ip :: ip in ips[..n] <==> ip in was[..k] && ip !in seen
    {
      assert ips[k] == ips[k..][0] == was[k];
      assert was[..k + 1] == was[..k] + [was[k]];
      if ips[k] !in now {
        BelowTheRest(was, k, ips[..n], seen);
        ghost var before := ips[..n];
        assert forall i :: 0 <= i < |before| ==> before[i] in before;
        now := now + {ips[k]};
        ips[n] := ips[k];
        n := n + 1;
        assert ips[..n] == before + [was[k]];
      }
      assert ips[k + 1..] == was[k + 1..];
    }
    assert was[..ips.Length] == was;
  }

  lemma BelowTheRest(was: seq<int>, k: nat, kept: seq<int>, seen: set<int>)
    requires k < |was| && InOrder(was) && was[k] !in was[..k]
    requires forall ip <- kept :: ip in was[..k]
    ensures forall ip <- kept :: ip < was[k]
  {
    forall ip <- kept ensures ip < was[k] {
      var j :| 0 <= j < |was[..k]| && was[..k][j] == ip;
      assert was[j] == ip;
    }
  }

  /** `ips` in order, in a fresh array that the caller may compact. */
  method SortedCopy(ips: seq<int>) returns (a: array<int>)
    ensures fresh(a) && InOrder(a[..]) && forall ip :: ip in a[..] <==> ip in ips
  {
    var out := SortSlice(ips, (x: int, y: int) => x <= y);
    a := new int[|out|](i requires 0 <= i < |out| => out[i]);
    assert a[..] == out;
    SameMembers(out, ips);
  }

  // ----- the resolution -----

  ghost predicate IsFallbackGroup(rows: seq<Row>, reachable: int -> bool, ports: seq<int>, cidr: string, g: Group) {
    && Increasing(g.targets) && (forall ip :: ip in g.targets <==> IsLeast(rows, reachable, cidr, ip))
    && g.ports == ports && g.total == |g.targets| * |g.ports|
  }

  ghost predicate IsFallback(rows: seq<Row>, reachable: int -> bool, ports: seq<int>, groups: map<GroupKey, Group>) {
    && (forall key :: key in groups <==> key.ports == ports && Keeps(rows, reachable, key.cidr))
    && (forall key <- groups :: IsFallbackGroup(rows, reachable, ports, key.cidr, groups[key]))
  }

  /** The CIDRs of the collected groups, each once, in text order. */
  ghost predicate Ordered(cidrs: seq<string>) {
    forall i, j :: 0 <= i < j < |cidrs| ==> LexLeq(cidrs[i], cidrs[j]) && cidrs[i] != cidrs[j]
  }

  method SortedKeys(groups: map<string, seq<int>>) returns (cidrs: seq<string>)
    ensures Ordered(cidrs) && forall cidr :: cidr in cidrs <==> cidr in groups
  {
    var left, listed: seq<string> := groups.Keys, [];
    while left != {}
      invariant left <= groups.Keys && Distinct(listed)
      invariant forall cidr :: cidr in listed <==> cidr in groups && cidr !in left
      decreases left
    {
      SomeMember(left);
      var cidr: string :| cidr in left;
      left := left - {cidr};
      listed := listed + [cidr];
    }
    LexIsTotalOrder();
    cidrs := SortSlice(listed, LexLeq);
    DistinctStays(listed, cidrs);
    SameMembers(listed, cidrs);
  }

  /** Among CIDRs in order, the least one that lists an address is the first that does. */
  lemma LeastIsFirst(rows: seq<Row>, reachable: int -> bool, cidrs: seq<string>, k: nat, ip: int)
    requires k < |cidrs| && Ordered(cidrs)
    requires forall c :: Listed(rows, reachable, c, ip) ==> c in cidrs
    ensures IsLeast(rows, reachable, cidrs[k], ip) <==>
            Listed(rows, reachable, cidrs[k], ip) && forall j :: 0 <= j < k ==> !Listed(rows, reachable, cidrs[j], ip)
  {
    if IsLeast(rows, reachable, cidrs[k], ip) {
      forall j | 0 <= j < k ensures !Listed(rows, reachable, cidrs[j], ip) {
        if Listed(rows, reachable, cidrs[j], ip) {
          LexAntisymmetric(cidrs[j], cidrs[k]);
          assert false;
        }
      }
    } else if Listed(rows, reachable, cidrs[k], ip) {
      var c :| Listed(rows, reachable, c, ip) && !LexLeq(cidrs[k], c);
      var j :| 0 <= j < |cidrs| && cidrs[j] == c;
      LexTotal(cidrs[k], cidrs[k]);
      assert j < k;
    }
  }

  ghost predicate ListedBefore(rows: seq<Row>, reachable: int -> bool, cidrs: seq<string>, k: int, ip: int) {
    exists j :: 0 <= j < k && j < |cidrs| && Listed(rows, reachable, cidrs[j], ip)
  }

  /** The groups of the first `k` CIDRs, and the addresses those took. */
  ghost predicate Given(rows: seq<Row>, reachable: int -> bool, ports: seq<int>, cidrs: seq<string>, k: nat,
                        seen: set<int>, groups: map<GroupKey, Group>)
    requires k <= |cidrs|
  {
    && (forall ip :: ip in seen <==> ListedBefore(rows, reachable, cidrs, k, ip))
    && (forall key :: key in groups <==>
                      key.ports == ports && key.cidr in cidrs[..k] && Keeps(rows, reachable, key.cidr))
    && (forall key <- groups :: IsFallbackGroup(rows, reachable, ports, key.cidr, groups[key]))
  }

  function WithGroup(groups: map<GroupKey, Group>, key: GroupKey, targets: seq<int>): map<GroupKey, Group> {
    if targets == [] then groups else groups[key := Group(targets, key.ports, |targets| * |key.ports|)]
  }

  lemma SeenOneMore(rows: seq<Row>, reachable: int -> bool, cidrs: seq<string>, k: nat, ip: int)
    requires k < |cidrs|
    ensures ListedBefore(rows, reachable, cidrs, k + 1, ip) <==>
            ListedBefore(rows, reachable, cidrs, k, ip) || Listed(rows, reachable, cidrs[k], ip)
  {
  }

  lemma TargetsAreLeast(rows: seq<Row>, reachable: int -> bool, cidrs: seq<string>, k: nat, seen: set<int>,
                        targets: seq<int>)
    requires k < |cidrs| && Ordered(cidrs)
    requires forall c, ip :: Listed(rows, reachable, c, ip) ==> c in cidrs
    requires forall ip :: ip in seen <==> ListedBefore(rows, reachable, cidrs, k, ip)
    requires forall ip :: ip in targets <==> Listed(rows, reachable, cidrs[k], ip) && ip !in seen
    ensures forall ip :: ip in targets <==> IsLeast(rows, reachable, cidrs[k], ip)
  {
    forall ip ensures ip in targets <==> IsLeast(rows, reachable, cidrs[k], ip) {
      LeastIsFirst(rows, reachable, cidrs, k, ip);
    }
  }

  lemma GiveOne(rows: seq<Row>, reachable: int -> bool, ports: seq<int>, cidrs: seq<string>, k: nat,
                seen: set<int>, groups: map<GroupKey, Group>, now: set<int>, targets: seq<int>)
    requires k < |cidrs| && Ordered(cidrs) && Given(rows, reachable, ports, cidrs, k, seen, groups)
    requires forall ip :: ip in now <==> ip in seen || Listed(rows, reachable, cidrs[k], ip)
    requires Increasing(targets) && forall ip :: ip in targets <==> IsLeast(rows, reachable, cidrs[k], ip)
    ensures Given(rows, reachable, ports, cidrs, k + 1, now, WithGroup(groups, GroupKey(cidrs[k], ports), targets))
  {
    var mine := GroupKey(cidrs[k], ports);
    var after := WithGroup(groups, mine, targets);
    forall ip ensures ip in now <==> ListedBefore(rows, reachable, cidrs, k + 1, ip) {
      SeenOneMore(rows, reachable, cidrs, k, ip);
    }
    assert cidrs[..k + 1] == cidrs[..k] + [cidrs[k]];
    assert targets != [] ==> targets[0] in targets;
    forall key ensures key in after <==>
      key.ports == ports && key.cidr in cidrs[..k + 1] && Keeps(rows, reachable, key.cidr) {
      if key == mine {
        assert mine !in groups;
      }
    }
    forall key <- after ensures IsFallbackGroup(rows, reachable, ports, key.cidr, after[key]) {
      assert key == mine || key in groups;
    }
  }

  /** What one CIDR keeps of its addresses: those no earlier CIDR took. */
  method TakeUnseen(listed: seq<int>, seen: set<int>) returns (targets: seq<int>, now: set<int>)
    ensures Increasing(targets)
    ensures forall ip :: ip in targets <==> ip in listed && ip !in seen
    ensures forall ip :: ip in now <==> ip in seen || ip in listed
  {
    var ips := SortedCopy(listed);
    var n;
    n, now := KeepUnseen(ips, seen);
    targets := ips[..n];
  }

  /** Gives each CIDR in turn the addresses that are left. */
  method GiveInOrder(rows: seq<Row>, reachable: int -> bool, ports: seq<int>, collected: map<string, seq<int>>,
                     cidrs: seq<string>)
    returns (groups: map<GroupKey, Group>, seen: set<int>)
    requires Collected(rows, reachable, collected)
    requires Ordered(cidrs) && forall cidr :: cidr in cidrs <==> cidr in collected
    ensures Given(rows, reachable, ports, cidrs, |cidrs|, seen, groups)
  {
    groups, seen := map[], {};
    for k := 0 to |cidrs|
      invariant Given(rows, reachable, ports, cidrs, k, seen, groups)
    {
      var targets, now := TakeUnseen(collected[cidrs[k]], seen);
      assert forall ip :: ip in collected[cidrs[k]] <==> Holds(collected, cidrs[k], ip);
      TargetsAreLeast(rows, reachable, cidrs, k, seen, targets);
      GiveOne(rows, reachable, ports, cidrs, k, seen, groups, now, targets);
      groups, seen := WithGroup(groups, GroupKey(cidrs[k], ports), targets), now;
    }
  }

  lemma AllGiven(rows: seq<Row>, reachable: int -> bool, ports: seq<int>, collected: map<string, seq<int>>,
                 cidrs: seq<string>, seen: set<int>, groups: map<GroupKey, Group>)
    requires Collected(rows, reachable, collected)
    requires forall cidr :: cidr in cidrs <==> cidr in collected
    requires Given(rows, reachable, ports, cidrs, |cidrs|, seen, groups)
    ensures IsFallback(rows, reachable, ports, groups)
  {
    assert cidrs[..|cidrs|] == cidrs;
    assert forall cidr, ip :: IsLeast(rows, reachable, cidr, ip) ==> Holds(collected, cidr, ip);
  }

  /** The fast path of the resolver. */
  method ResolveFallback(rows: seq<Row>, reachable: int -> bool, ports: seq<int>)
    returns (r: Outcome<map<GroupKey, Group>, ResolveError>)
    requires ports != [] && forall row <- rows :: ValidRow(row)
    ensures r.Failure? ==> FirstError(rows, reachable, ports) == Some(r.error)
    ensures r.Success? ==> FirstError(rows, reachable, ports).None? && IsFallback(rows, reachable, ports, r.value)
  {
    var collected := CollectByCidr(rows, reachable, ports);
    if collected.Failure? {
      return Failure(collected.error);
    }
    var cidrs := SortedKeys(collected.value);
    var groups, seen := GiveInOrder(rows, reachable, ports, collected.value, cidrs);
    AllGiven(rows, reachable, ports, collected.value, cidrs, seen, groups);
    return Success(groups);
  }
}
