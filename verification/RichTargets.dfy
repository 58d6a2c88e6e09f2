/**
 Rich rows: policy decisions about single destinations or whole segments. Accepted keys are
 grouped by segment; a key that any valid deny row names is in no group. A parsed row's execution
 key is its address, port and "tcp", so the pair of address and port stands for the key.
 */
module RichTargets {
  import opened Wrappers
  import opened Sorting
  import opened Networks
  import opened Ownership
  import opened BasicTargets
  import opened BasicGroups

  /** A parsed row; an invalid one carries nothing but its number. `segment` is the text of `network`. */
  datatype RichRow = RichRow(number: nat, valid: bool, deny: bool, precheck: bool,
                             segment: string, network: Network, ip: int, port: int)

  datatype RichError = NoUsableRows | InconsistentPort(ip: int, port: int)

  const PORTS := 65536

  ghost predicate ParsedRow(row: RichRow) {
    row.valid ==>
      row.segment != "" && IsNetwork(row.network) && Contains(row.network, row.ip) && 1 <= row.port < PORTS
  }

  predicate Denies(row: RichRow) {
    row.valid && row.deny
  }

  predicate Accepts(row: RichRow) {
    row.valid && !row.deny
  }

  ghost predicate Denied(rows: seq<RichRow>, ip: int, port: int) {
    exists r <- rows :: Denies(r) && r.ip == ip && r.port == port
  }

  ghost predicate Grants(row: RichRow, ip: int, port: int) {
    && Accepts(row) && port == row.port
    && (if row.precheck then Contains(row.network, ip) else ip == row.ip)
    && Survives(row.network, ip)
  }

  /** What a row contributes once denied and unreachable keys are gone. */
  ghost predicate RichYields(rows: seq<RichRow>, row: RichRow, reachable: int -> bool, ip: int, port: int) {
    Grants(row, ip, port) && !Denied(rows, ip, port) && reachable(ip)
  }

  // ----- the targets of one row -----

  ghost function Authorized(ips: seq<int>, port: int, denied: set<(int, int)>): seq<int> {
    if ips == [] then []
    else
      var front := Authorized(ips[..|ips| - 1], port, denied);
      if (ips[|ips| - 1], port) in denied then front else front + [ips[|ips| - 1]]
  }

  lemma {:induction false} AuthorizedMembers(ips: seq<int>, port: int, denied: set<(int, int)>, ip: int)
    ensures ip in Authorized(ips, port, denied) <==> ip in ips && (ip, port) !in denied
  {
    if ips != [] {
      AuthorizedMembers(ips[..|ips| - 1], port, denied, ip);
      assert ips == ips[..|ips| - 1] + [ips[|ips| - 1]];
    }
  }

  ghost function DeniedKeys(rows: seq<RichRow>): set<(int, int)> {
    set r <- rows | Denies(r) :: (r.ip, r.port)
  }

  ghost function RichAddresses(row: RichRow): seq<int> {
    WithoutBroadcast(if row.precheck then Addresses(row.network) else [row.ip], row.network)
  }

  ghost function RichSurvivors(row: RichRow, denied: set<(int, int)>, reachable: int -> bool): seq<int> {
    Reached(Authorized(RichAddresses(row), row.port, denied), reachable)
  }

  lemma RichSurvivorsMembers(rows: seq<RichRow>, row: RichRow, reachable: int -> bool, ip: int)
    requires Accepts(row)
    ensures ip in RichSurvivors(row, DeniedKeys(rows), reachable) <==> RichYields(rows, row, reachable, ip, row.port)
  {
    var all := if row.precheck then Addresses(row.network) else [row.ip];
    AddressesMembers(row.network);
    WithoutBroadcastMembers(all, row.network, ip);
    AuthorizedMembers(RichAddresses(row), row.port, DeniedKeys(rows), ip);
    ReachedMembers(Authorized(RichAddresses(row), row.port, DeniedKeys(rows)), reachable, ip);
  }

  method DeniedExecutionKeys(rows: seq<RichRow>) returns (denied: set<(int, int)>)
    ensures denied == DeniedKeys(rows)
  {
    denied := {};
    for k := 0 to |rows|
      invariant denied == DeniedKeys(rows[..k])
    {
      assert rows[..k + 1] == rows[..k] + [rows[k]];
      if Denies(rows[k]) {
        denied := denied + {(rows[k].ip, rows[k].port)};
      }
    }
    assert rows[..|rows|] == rows;
  }

  method RichTargetIPs(row: RichRow) returns (ips: seq<int>)
    requires ParsedRow(row) && Accepts(row)
    ensures ips == RichAddresses(row)
  {
    if row.precheck {
      ips := ExpandOne(row.network);
    } else {
      ips := [row.ip];
    }
    ips := FilterBoundaryBroadcast(ips, row.network);
  }

  method FilterAuthorized(ips: seq<int>, port: int, denied: set<(int, int)>) returns (kept: seq<int>)
    ensures kept == Authorized(ips, port, denied)
  {
    kept := [];
    for k := 0 to |ips|
      invariant kept == Authorized(ips[..k], port, denied)
    {
      assert ips[..k + 1][..k] == ips[..k];
      if (ips[k], port) in denied {
        continue;
      }
      kept := kept + [ips[k]];
    }
    assert ips[..|ips|] == ips;
  }

  method RowTargets(row: RichRow, denied: set<(int, int)>, reachable: int -> bool) returns (ips: seq<int>)
    requires ParsedRow(row) && Accepts(row)
    ensures ips == RichSurvivors(row, denied, reachable)
  {
    ips := RichTargetIPs(row);
    ips := FilterAuthorized(ips, row.port, denied);
    ips := FilterTargets(ips, reachable);
  }

  // ----- the claims of all rows -----

  ghost function RichClaims(rows: seq<RichRow>, denied: set<(int, int)>, reachable: int -> bool): seq<Claim> {
    if rows == [] then []
    else
      var front := RichClaims(rows[..|rows| - 1], denied, reachable);
      var last := rows[|rows| - 1];
      if Accepts(last) then front + AddressClaims(last.segment, RichSurvivors(last, denied, reachable), [last.port])
      else front
  }

  ghost predicate FirstGrant(all: seq<RichRow>, rows: seq<RichRow>, reachable: int -> bool, ip: int, port: int, r: int) {
    && 0 <= r < |rows| && RichYields(all, rows[r], reachable, ip, port)
    && forall q :: 0 <= q < r ==> !RichYields(all, rows[q], reachable, ip, port)
  }

  lemma OwnerInRichRow(all: seq<RichRow>, row: RichRow, reachable: int -> bool, ip: int, port: int)
    requires Accepts(row)
    ensures Owner(AddressClaims(row.segment, RichSurvivors(row, DeniedKeys(all), reachable), [row.port]), ip, port)
         == if RichYields(all, row, reachable, ip, port) then Some(row.segment) else None
  {
    var claims := AddressClaims(row.segment, RichSurvivors(row, DeniedKeys(all), reachable), [row.port]);
    OwnerIsFirst(claims, ip, port);
    RichSurvivorsMembers(all, row, reachable, ip);
    forall c ensures c in claims && Names(c, ip, port) <==>
                     c == Claim(row.segment, ip, port) && RichYields(all, row, reachable, ip, port) {
      AddressClaimsMembers(row.segment, RichSurvivors(row, DeniedKeys(all), reachable), [row.port], c);
    }
    if RichYields(all, row, reachable, ip, port) {
      assert Claim(row.segment, ip, port) in claims;
      var k :| FirstAt(claims, ip, port, k) && Owner(claims, ip, port).value == claims[k].group;
      assert claims[k] in claims;
    }
  }

  /** A key belongs to the segment of the first accepting row that yields it. */
  lemma {:induction false} OwnerIsFirstGrant(all: seq<RichRow>, rows: seq<RichRow>, reachable: int -> bool, ip: int, port: int)
    ensures Owner(RichClaims(rows, DeniedKeys(all), reachable), ip, port).None? <==>
            forall r :: 0 <= r < |rows| ==> !RichYields(all, rows[r], reachable, ip, port)
    ensures Owner(RichClaims(rows, DeniedKeys(all), reachable), ip, port).Some? ==>
              exists r :: FirstGrant(all, rows, reachable, ip, port, r)
                       && Owner(RichClaims(rows, DeniedKeys(all), reachable), ip, port).value == rows[r].segment
  {
    if rows != [] {
      var front, last := rows[..|rows| - 1], rows[|rows| - 1];
      OwnerIsFirstGrant(all, front, reachable, ip, port);
      assert forall q :: 0 <= q < |front| ==> rows[q] == front[q];
      if Accepts(last) {
        var claims := AddressClaims(last.segment, RichSurvivors(last, DeniedKeys(all), reachable), [last.port]);
        OwnerOfBoth(RichClaims(front, DeniedKeys(all), reachable), claims, ip, port);
        OwnerInRichRow(all, last, reachable, ip, port);
      }
      if Owner(RichClaims(front, DeniedKeys(all), reachable), ip, port).Some? {
        var r :| FirstGrant(all, front, reachable, ip, port, r)
                 && Owner(RichClaims(front, DeniedKeys(all), reachable), ip, port).value == front[r].segment;
        assert FirstGrant(all, rows, reachable, ip, port, r);
      } else if RichYields(all, last, reachable, ip, port) {
        assert FirstGrant(all, rows, reachable, ip, port, |rows| - 1);
      }
    }
  }
}
