/**
 Basic target resolution: which task every input row contributes, which CIDR owns a task that
 several rows contribute, and how the owned tasks become groups with flat indexes.
 */
module BasicTargets {
  import opened Wrappers
  import opened Sorting
  import opened Networks
  import opened Ownership

  /** A parsed row. `selector` is the address or range it names; `port` is 0 when it names none. */
  datatype Row = Row(number: nat, cidr: string, boundary: Option<Network>, selector: Option<Network>, port: int)

  datatype ResolveError = MissingCidr(row: nat) | MissingSelector(row: nat) | NoPortSource(row: nat)

  datatype GroupKey = GroupKey(cidr: string, ports: seq<int>)

  datatype Group = Group(targets: seq<int>, ports: seq<int>, total: nat)

  // ----- what one row yields -----

  ghost predicate ValidRow(row: Row) {
    && (row.boundary.Some? ==> IsNetwork(row.boundary.value))
    && (row.selector.Some? ==> IsNetwork(row.selector.value))
    && row.port >= 0
  }

  function Range(row: Row): Option<Network> {
    if row.selector.Some? then row.selector else row.boundary
  }

  ghost predicate YieldsAddress(row: Row, reachable: int -> bool, ip: int) {
    && Range(row).Some? && Contains(Range(row).value, ip)
    && (row.boundary.Some? ==> Survives(row.boundary.value, ip))
    && reachable(ip)
  }

  function RowPorts(row: Row, fallback: seq<int>): seq<int> {
    if row.port > 0 then [row.port] else fallback
  }

  ghost predicate Yields(row: Row, reachable: int -> bool, fallback: seq<int>, ip: int, port: int) {
    YieldsAddress(row, reachable, ip) && port in RowPorts(row, fallback)
  }

  /** The addresses of a row that pass the filters, in increasing order. */
  ghost function Survivors(row: Row, reachable: int -> bool): seq<int>
    requires Range(row).Some?
  {
    var all := Addresses(Range(row).value);
    Reached(if row.boundary.Some? then WithoutBroadcast(all, row.boundary.value) else all, reachable)
  }

  ghost function Reached(ips: seq<int>, reachable: int -> bool): seq<int> {
    if ips == [] then []
    else
      var front := Reached(ips[..|ips| - 1], reachable);
      if reachable(ips[|ips| - 1]) then front + [ips[|ips| - 1]] else front
  }

  lemma {:induction false} ReachedMembers(ips: seq<int>, reachable: int -> bool, ip: int)
    ensures ip in Reached(ips, reachable) <==> ip in ips && reachable(ip)
  {
    if ips != [] {
      ReachedMembers(ips[..|ips| - 1], reachable, ip);
      assert ips == ips[..|ips| - 1] + [ips[|ips| - 1]];
    }
  }

  lemma SurvivorsMembers(row: Row, reachable: int -> bool, ip: int)
    requires Range(row).Some?
    ensures ip in Survivors(row, reachable) <==> YieldsAddress(row, reachable, ip)
  {
    var all := Addresses(Range(row).value);
    AddressesMembers(Range(row).value);
    if row.boundary.Some? {
      WithoutBroadcastMembers(all, row.boundary.value, ip);
      ReachedMembers(WithoutBroadcast(all, row.boundary.value), reachable, ip);
    } else {
      ReachedMembers(all, reachable, ip);
    }
  }

  // ----- rows for one host -----

  function HostRow(number: nat, cidr: string, boundary: Network, ip: int, port: nat): Row {
    Row(number, cidr, Some(boundary), Some(Network(ip, 32)), port)
  }

  /** An address of the boundary other than its broadcast address. */
  ghost predicate IsHostIn(boundary: Network, ip: int) {
    IsNetwork(boundary) && Contains(boundary, ip) && Survives(boundary, ip)
  }

  lemma HostYields(row: Row, reachable: int -> bool, ip: int)
    requires row.boundary.Some? && IsHostIn(row.boundary.value, ip) && row.selector == Some(Network(ip, 32)) && reachable(ip)
    ensures row.port >= 0 ==> ValidRow(row)
    ensures forall a :: YieldsAddress(row, reachable, a) <==> a == ip
  {
    assert Pow2(0) == 1;
  }

  lemma HostSurvivors(row: Row, reachable: int -> bool, ip: int)
    requires row.boundary.Some? && IsHostIn(row.boundary.value, ip) && row.selector == Some(Network(ip, 32)) && reachable(ip)
    ensures Survivors(row, reachable) == [ip]
  {
    assert Pow2(0) == 1;
    assert Addresses(Network(ip, 32)) == [ip];
    assert [ip][..0] == [];
    assert WithoutBroadcast([ip], row.boundary.value) == WithoutBroadcast([ip][..0], row.boundary.value) + [ip] == [ip];
    assert Reached([ip], reachable) == Reached([ip][..0], reachable) + [ip];
  }

  /** The addresses of one row before the reachability filter. */
  method TargetIPs(row: Row) returns (r: Outcome<seq<int>, ResolveError>)
    requires ValidRow(row)
    ensures r.Failure? <==> Range(row).None?
    ensures r.Failure? ==> r.error == MissingSelector(row.number)
    ensures r.Success? ==>
              r.value == if row.boundary.Some? then WithoutBroadcast(Addresses(Range(row).value), row.boundary.value)
                         else Addresses(Range(row).value)
  {
    if Range(row).None? {
      return Failure(MissingSelector(row.number));
    }
    var ips := ExpandOne(Range(row).value);
    if row.boundary.Some? {
      ips := FilterBoundaryBroadcast(ips, row.boundary.value);
    }
    return Success(ips);
  }

  method FilterTargets(ips: seq<int>, reachable: int -> bool) returns (kept: seq<int>)
    ensures kept == Reached(ips, reachable)
  {
    kept := [];
    for k := 0 to |ips|
      invariant kept == Reached(ips[..k], reachable)
    {
      assert ips[..k + 1][..k] == ips[..k];
      if reachable(ips[k]) {
        kept := kept + [ips[k]];
      }
    }
    assert ips[..|ips|] == ips;
  }

  // ----- the claims of all rows, in processing order -----

  ghost function PortClaims(group: string, ip: int, ports: seq<int>): seq<Claim> {
    seq(|ports|, k requires 0 <= k < |ports| => Claim(group, ip, ports[k]))
  }

  ghost function AddressClaims(group: string, ips: seq<int>, ports: seq<int>): seq<Claim> {
    if ips == [] then []
    else AddressClaims(group, ips[..|ips| - 1], ports) + PortClaims(group, ips[|ips| - 1], ports)
  }

  ghost function ClaimsOf(rows: seq<Row>, reachable: int -> bool, fallback: seq<int>): seq<Claim> {
    if rows == [] then []
    else
      var front := ClaimsOf(rows[..|rows| - 1], reachable, fallback);
      var last := rows[|rows| - 1];
      if Range(last).None? then front
      else front + AddressClaims(last.cidr, Survivors(last, reachable), RowPorts(last, fallback))
  }

  lemma {:induction false} AddressClaimsMembers(group: string, ips: seq<int>, ports: seq<int>, c: Claim)
    ensures c in AddressClaims(group, ips, ports) <==> c.group == group && c.ip in ips && c.port in ports
  {
    if ips != [] {
      AddressClaimsMembers(group, ips[..|ips| - 1], ports, c);
      assert ips == ips[..|ips| - 1] + [ips[|ips| - 1]];
      var last := PortClaims(group, ips[|ips| - 1], ports);
      if c.group == group && c.ip == ips[|ips| - 1] && c.port in ports {
        var k :| 0 <= k < |ports| && ports[k] == c.port;
        assert last[k] == c;
      }
    }
  }

  ghost predicate RowClaims(row: Row, reachable: int -> bool, fallback: seq<int>, c: Claim) {
    c.group == row.cidr && Yields(row, reachable, fallback, c.ip, c.port)
  }

  lemma {:induction false} ClaimsMembers(rows: seq<Row>, reachable: int -> bool, fallback: seq<int>, c: Claim)
    ensures c in ClaimsOf(rows, reachable, fallback) <==> exists r <- rows :: RowClaims(r, reachable, fallback, c)
  {
    if rows != [] {
      var front, last := rows[..|rows| - 1], rows[|rows| - 1];
      ClaimsMembers(front, reachable, fallback, c);
      assert rows == front + [last];
      if Range(last).Some? {
        AddressClaimsMembers(last.cidr, Survivors(last, reachable), RowPorts(last, fallback), c);
        SurvivorsMembers(last, reachable, c.ip);
      }
      assert (exists r <- rows :: RowClaims(r, reachable, fallback, c)) <==>
        (exists r <- front :: RowClaims(r, reachable, fallback, c)) || RowClaims(last, reachable, fallback, c);
    }
  }
}
