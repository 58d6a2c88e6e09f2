/** The general resolution of basic rows into groups, and why it is a partition of the tasks. */
module BasicResolution {
  import opened Wrappers
  import opened Sorting
  import opened Networks
  import opened Ownership
  import opened BasicTargets

  // ----- the owner of a task is the first row that yields it -----

  ghost predicate FirstRow(rows: seq<Row>, reachable: int -> bool, fallback: seq<int>, ip: int, port: int, r: int) {
    && 0 <= r < |rows| && Yields(rows[r], reachable, fallback, ip, port)
    && forall q :: 0 <= q < r ==> !Yields(rows[q], reachable, fallback, ip, port)
  }

  lemma OwnerInOneRow(row: Row, reachable: int -> bool, fallback: seq<int>, ip: int, port: int)
    requires Range(row).Some?
    ensures Owner(AddressClaims(row.cidr, Survivors(row, reachable), RowPorts(row, fallback)), ip, port)
         == if Yields(row, reachable, fallback, ip, port) then Some(row.cidr) else None
  {
    var claims := AddressClaims(row.cidr, Survivors(row, reachable), RowPorts(row, fallback));
    OwnerIsFirst(claims, ip, port);
    forall c ensures c in claims <==> RowClaims(row, reachable, fallback, c) {
      AddressClaimsMembers(row.cidr, Survivors(row, reachable), RowPorts(row, fallback), c);
      SurvivorsMembers(row, reachable, c.ip);
    }
    if Yields(row, reachable, fallback, ip, port) {
      assert Names(Claim(row.cidr, ip, port), ip, port) && Claim(row.cidr, ip, port) in claims;
      var k :| FirstAt(claims, ip, port, k) && Owner(claims, ip, port).value == claims[k].group;
      assert claims[k] in claims;
    }
  }

  lemma OwnerWithLastRow(rows: seq<Row>, reachable: int -> bool, fallback: seq<int>, ip: int, port: int)
    requires rows != []
    ensures var earlier := Owner(ClaimsOf(rows[..|rows| - 1], reachable, fallback), ip, port);
            var last := rows[|rows| - 1];
            Owner(ClaimsOf(rows, reachable, fallback), ip, port)
              == if earlier.Some? then earlier
                 else if Yields(last, reachable, fallback, ip, port) then Some(last.cidr) else None
  {
    var front, last := rows[..|rows| - 1], rows[|rows| - 1];
    if Range(last).Some? {
      var claims := AddressClaims(last.cidr, Survivors(last, reachable), RowPorts(last, fallback));
      OwnerOfBoth(ClaimsOf(front, reachable, fallback), claims, ip, port);
      OwnerInOneRow(last, reachable, fallback, ip, port);
    }
  }

  lemma {:induction false} OwnerIsFirstRow(rows: seq<Row>, reachable: int -> bool, fallback: seq<int>, ip: int, port: int)
    ensures Owner(ClaimsOf(rows, reachable, fallback), ip, port).None? <==>
            forall r :: 0 <= r < |rows| ==> !Yields(rows[r], reachable, fallback, ip, port)
    ensures Owner(ClaimsOf(rows, reachable, fallback), ip, port).Some? ==>
              exists r :: FirstRow(rows, reachable, fallback, ip, port, r)
                       && Owner(ClaimsOf(rows, reachable, fallback), ip, port).value == rows[r].cidr
  {
    if rows != [] {
      var front, last := rows[..|rows| - 1], rows[|rows| - 1];
      OwnerIsFirstRow(front, reachable, fallback, ip, port);
      assert forall q :: 0 <= q < |front| ==> rows[q] == front[q];
      OwnerWithLastRow(rows, reachable, fallback, ip, port);
      if Owner(ClaimsOf(front, reachable, fallback), ip, port).Some? {
        var r :| FirstRow(front, reachable, fallback, ip, port, r)
                 && Owner(ClaimsOf(front, reachable, fallback), ip, port).value == front[r].cidr;
        assert FirstRow(rows, reachable, fallback, ip, port, r);
      } else if Yields(last, reachable, fallback, ip, port) {
        assert FirstRow(rows, reachable, fallback, ip, port, |rows| - 1);
      }
    }
  }

  // ----- collecting claims -----

  datatype Place = Place(cidr: string, ip: int)

  /** The two maps of the loop say who owns what among the claims made so far. */
  ghost predicate Books(seen: set<(int, int)>, resolved: map<Place, seq<int>>, claims: seq<Claim>) {
    && (forall ip, port :: (ip, port) in seen <==> Owner(claims, ip, port).Some?)
    && (forall p :: p in resolved <==> PortsOf(claims, p.cidr, p.ip) != [])
    && (forall p <- resolved :: resolved[p] == PortsOf(claims, p.cidr, p.ip))
  }

  method TakeClaim(seen: set<(int, int)>, resolved: map<Place, seq<int>>, c: Claim, ghost claims: seq<Claim>)
    returns (seenNow: set<(int, int)>, resolvedNow: map<Place, seq<int>>)
    requires Books(seen, resolved, claims)
    ensures Books(seenNow, resolvedNow, claims + [c])
  {
    PushOne(claims, c);
    if (c.ip, c.port) in seen {
      return seen, resolved;
    }
    seenNow := seen + {(c.ip, c.port)};
    var place := Place(c.group, c.ip);
    var ports := if place in resolved then resolved[place] else [];
    PortsOfOwner(claims, c.group, c.ip, c.port);
    if c.port !in ports {
      ports := ports + [c.port];
    }
    resolvedNow := resolved[place := ports];
  }

  method TakeAddress(seen: set<(int, int)>, resolved: map<Place, seq<int>>, group: string, ip: int, ports: seq<int>,
                     ghost claims: seq<Claim>)
    returns (seenNow: set<(int, int)>, resolvedNow: map<Place, seq<int>>)
    requires Books(seen, resolved, claims)
    ensures Books(seenNow, resolvedNow, claims + PortClaims(group, ip, ports))
  {
    seenNow, resolvedNow := seen, resolved;
    ghost var added := PortClaims(group, ip, ports);
    assert claims + added[..0] == claims;
    for k := 0 to |ports|
      invariant Books(seenNow, resolvedNow, claims + added[..k])
    {
      assert claims + added[..k + 1] == claims + added[..k] + [added[k]];
      seenNow, resolvedNow := TakeClaim(seenNow, resolvedNow, Claim(group, ip, ports[k]), claims + added[..k]);
    }
    assert added[..|ports|] == added;
  }

  method TakeRow(seen: set<(int, int)>, resolved: map<Place, seq<int>>, group: string, ips: seq<int>, ports: seq<int>,
                 ghost claims: seq<Claim>)
    returns (seenNow: set<(int, int)>, resolvedNow: map<Place, seq<int>>)
    requires Books(seen, resolved, claims)
    ensures Books(seenNow, resolvedNow, claims + AddressClaims(group, ips, ports))
  {
    seenNow, resolvedNow := seen, resolved;
    assert claims + AddressClaims(group, ips[..0], ports) == claims;
    for k := 0 to |ips|
      invariant Books(seenNow, resolvedNow, claims + AddressClaims(group, ips[..k], ports))
    {
      assert ips[..k + 1][..k] == ips[..k];
      assert claims + AddressClaims(group, ips[..k + 1], ports)
          == claims + AddressClaims(group, ips[..k], ports) + PortClaims(group, ips[k], ports);
      seenNow, resolvedNow := TakeAddress(seenNow, resolvedNow, group, ips[k], ports,
        claims + AddressClaims(group, ips[..k], ports));
    }
    assert ips[..|ips|] == ips;
  }

  // ----- errors -----

  /** What makes a row unusable: no CIDR, no range, or surviving addresses without any port. */
  ghost function RowError(row: Row, reachable: int -> bool, fallback: seq<int>): Option<ResolveError> {
    if row.cidr == "" then Some(MissingCidr(row.number))
    else if Range(row).None? then Some(MissingSelector(row.number))
    else if RowPorts(row, fallback) == [] && Survivors(row, reachable) != [] then Some(NoPortSource(row.number))
    else None
  }

  ghost function FirstError(rows: seq<Row>, reachable: int -> bool, fallback: seq<int>): Option<ResolveError> {
    if rows == [] then None
    else
      var earlier := FirstError(rows[..|rows| - 1], reachable, fallback);
      if earlier.Some? then earlier else RowError(rows[|rows| - 1], reachable, fallback)
  }

  lemma {:induction false} EarlierErrorWins(rows: seq<Row>, n: nat, reachable: int -> bool, fallback: seq<int>)
    requires n <= |rows| && FirstError(rows[..n], reachable, fallback).Some?
    ensures FirstError(rows, reachable, fallback) == FirstError(rows[..n], reachable, fallback)
    decreases |rows| - n
  {
    if n < |rows| {
      assert rows[..n + 1][..n] == rows[..n];
      EarlierErrorWins(rows, n + 1, reachable, fallback);
    } else {
      assert rows[..n] == rows;
    }
  }

  /** Everything that happens to a row before its tasks are claimed. */
  method PrepareRow(row: Row, reachable: int -> bool, fallback: seq<int>) returns (r: Outcome<seq<int>, ResolveError>)
    requires ValidRow(row)
    ensures r.Failure? ==> RowError(row, reachable, fallback) == Some(r.error)
    ensures r.Success? ==>
              && RowError(row, reachable, fallback).None? && Range(row).Some?
              && r.value == Survivors(row, reachable)
  {
    if row.cidr == "" {
      return Failure(MissingCidr(row.number));
    }
    var ips := TargetIPs(row);
    if ips.Failure? {
      return Failure(ips.error);
    }
    var targets := FilterTargets(ips.value, reachable);
    if |targets| != 0 && |RowPorts(row, fallback)| == 0 {
      return Failure(NoPortSource(row.number));
    }
    return Success(targets);
  }

  lemma OneRowMore(rows: seq<Row>, k: nat, reachable: int -> bool, fallback: seq<int>)
    requires k < |rows| && Range(rows[k]).Some?
    ensures ClaimsOf(rows[..k + 1], reachable, fallback)
         == ClaimsOf(rows[..k], reachable, fallback)
            + AddressClaims(rows[k].cidr, Survivors(rows[k], reachable), RowPorts(rows[k], fallback))
    ensures FirstError(rows[..k], reachable, fallback).None? ==>
              FirstError(rows[..k + 1], reachable, fallback) == RowError(rows[k], reachable, fallback)
  {
    assert rows[..k + 1][..k] == rows[..k];
  }

  lemma OneErrorMore(rows: seq<Row>, k: nat, reachable: int -> bool, fallback: seq<int>)
    requires k < |rows| && RowError(rows[k], reachable, fallback).Some?
    requires FirstError(rows[..k], reachable, fallback).None?
    ensures FirstError(rows, reachable, fallback) == RowError(rows[k], reachable, fallback)
  {
    assert rows[..k + 1][..k] == rows[..k];
    EarlierErrorWins(rows, k + 1, reachable, fallback);
  }

  method CollectClaims(rows: seq<Row>, reachable: int -> bool, fallback: seq<int>)
    returns (r: Outcome<map<Place, seq<int>>, ResolveError>, ghost seen: set<(int, int)>)
    requires forall row <- rows :: ValidRow(row)
    ensures r.Failure? ==> FirstError(rows, reachable, fallback) == Some(r.error)
    ensures r.Success? ==> FirstError(rows, reachable, fallback).None?
    ensures r.Success? ==> Books(seen, r.value, ClaimsOf(rows, reachable, fallback))
  {
    var seenTasks: set<(int, int)>, resolved: map<Place, seq<int>> := {}, map[];
    seen := {};
    for k := 0 to |rows|
      invariant FirstError(rows[..k], reachable, fallback).None?
      invariant Books(seenTasks, resolved, ClaimsOf(rows[..k], reachable, fallback))
    {
      var targets := PrepareRow(rows[k], reachable, fallback);
      if targets.Failure? {
        OneErrorMore(rows, k, reachable, fallback);
        return Failure(targets.error), seen;
      }
      OneRowMore(rows, k, reachable, fallback);
      if |targets.value| == 0 {
        assert ClaimsOf(rows[..k + 1], reachable, fallback) == ClaimsOf(rows[..k], reachable, fallback);
        continue;
      }
      seenTasks, resolved := TakeRow(seenTasks, resolved, rows[k].cidr, targets.value, RowPorts(rows[k], fallback),
        ClaimsOf(rows[..k], reachable, fallback));
    }
    assert rows[..|rows|] == rows;
    return Success(resolved), seenTasks;
  }
}
