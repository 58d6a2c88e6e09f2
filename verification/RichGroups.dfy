/** Accepted keys gathered per segment, each with one owner, every group strictly sorted. */
module RichGroups {
  import opened Wrappers
  import opened Sorting
  import opened Networks
  import opened Ownership
  import opened BasicTargets
  import opened BasicGroups
  import opened RichTargets

  // ----- sorted targets -----

  function Code(t: Target): int {
    t.ip * PORTS + t.port
  }

  function Codes(ts: seq<Target>): seq<int> {
    seq(|ts|, k requires 0 <= k < |ts| => Code(ts[k]))
  }

  ghost predicate PortsFit(ts: seq<Target>) {
    forall t <- ts :: 0 <= t.port < PORTS
  }

  predicate TargetLeq(a: Target, b: Target) {
    a.ip < b.ip || (a.ip == b.ip && a.port <= b.port)
  }

  lemma CodeOrder(a: Target, b: Target)
    requires 0 <= a.port < PORTS && 0 <= b.port < PORTS
    ensures TargetLeq(a, b) <==> Code(a) <= Code(b)
    ensures Code(a) == Code(b) <==> a == b
  {
  }

  /** A strictly sorted group is determined by its keys. */
  lemma StrictUnique(a: seq<Target>, b: seq<Target>)
    requires PortsFit(a) && PortsFit(b) && Increasing(Codes(a)) && Increasing(Codes(b))
    requires forall t :: t in a <==> t in b
    ensures a == b
  {
    forall c ensures c in Codes(a) <==> c in Codes(b) {
      CodeMembers(a, c);
      CodeMembers(b, c);
    }
    IncreasingUnique(Codes(a), Codes(b));
    SameCodes(a, b);
  }

  lemma CodeMembers(ts: seq<Target>, c: int)
    ensures c in Codes(ts) <==> exists t <- ts :: Code(t) == c
  {
    if t :| t in ts && Code(t) == c {
      var k :| 0 <= k < |ts| && ts[k] == t;
      assert Codes(ts)[k] == c;
    }
  }

  lemma SameCodes(a: seq<Target>, b: seq<Target>)
    requires PortsFit(a) && PortsFit(b) && Codes(a) == Codes(b)
    ensures a == b
  {
    assert |Codes(a)| == |a| && |Codes(b)| == |b|;
    forall k | 0 <= k < |a| ensures a[k] == b[k] {
      assert Codes(a)[k] == Codes(b)[k];
      assert a[k] in a && b[k] in b;
      CodeOrder(a[k], b[k]);
    }
  }

  /** A strictly sorted group that is contained in one of the same size is that group. */
  lemma StrictSameSize(a: seq<Target>, b: seq<Target>)
    requires PortsFit(a) && PortsFit(b) && Increasing(Codes(a)) && Increasing(Codes(b))
    requires |a| == |b| && forall t <- a :: t in b
    ensures a == b
  {
    forall c | c in Codes(a) ensures c in Codes(b) {
      CodeMembers(a, c);
      CodeMembers(b, c);
    }
    IncreasingSameSize(Codes(a), Codes(b));
    SameCodes(a, b);
  }

  // ----- collecting -----

  datatype Location = Location(segment: string, index: nat)

  ghost predicate Located(groups: map<string, seq<Target>>, at: Location, ip: int, port: int) {
    at.segment in groups && at.index < |groups[at.segment]| && groups[at.segment][at.index] == Target(ip, port)
  }

  ghost predicate RichBooks(groups: map<string, seq<Target>>, owners: map<(int, int), Location>, claims: seq<Claim>) {
    && (forall ip, port :: (ip, port) in owners <==> Owner(claims, ip, port).Some?)
    && (forall k <- owners :: Located(groups, owners[k], k.0, k.1)
                           && Owner(claims, k.0, k.1) == Some(owners[k].segment))
    && (forall s <- groups :: groups[s] != [])
    && (forall s <- groups, i :: 0 <= i < |groups[s]| ==> Recorded(owners, groups[s][i], Location(s, i)))
  }

  ghost predicate Recorded(owners: map<(int, int), Location>, t: Target, at: Location) {
    (t.ip, t.port) in owners && owners[(t.ip, t.port)] == at
  }

  lemma BooksStep(groups: map<string, seq<Target>>, owners: map<(int, int), Location>, claims: seq<Claim>, c: Claim)
    requires RichBooks(groups, owners, claims) && (c.ip, c.port) !in owners
    ensures var group := if c.group in groups then groups[c.group] else [];
            RichBooks(groups[c.group := group + [Target(c.ip, c.port)]],
                      owners[(c.ip, c.port) := Location(c.group, |group|)], claims + [c])
  {
    PushOne(claims, c);
    var group := if c.group in groups then groups[c.group] else [];
    var now := groups[c.group := group + [Target(c.ip, c.port)]];
    var ownersNow := owners[(c.ip, c.port) := Location(c.group, |group|)];
    forall k <- ownersNow ensures Located(now, ownersNow[k], k.0, k.1) {
      assert k in owners ==> Located(groups, owners[k], k.0, k.1);
    }
    forall s <- now, i | 0 <= i < |now[s]| ensures Recorded(ownersNow, now[s][i], Location(s, i)) {
      if s in groups && i < |groups[s]| {
        assert Recorded(owners, groups[s][i], Location(s, i));
      }
    }
  }

  lemma BooksKnown(groups: map<string, seq<Target>>, owners: map<(int, int), Location>, claims: seq<Claim>, c: Claim)
    requires RichBooks(groups, owners, claims) && (c.ip, c.port) in owners
    ensures RichBooks(groups, owners, claims + [c])
  {
    PushOne(claims, c);
  }

  /** Merging needs one port per key. */
  function MergedTarget(owned: Target, port: int): Outcome<Target, RichError> {
    if owned.port != port then Failure(InconsistentPort(owned.ip, port)) else Success(owned)
  }

  /** Records a row's targets; a key already owned only merges, and its port always agrees. */
  method TakeTargets(groups: map<string, seq<Target>>, owners: map<(int, int), Location>, segment: string,
                     ips: seq<int>, port: int, ghost claims: seq<Claim>)
    returns (groupsNow: map<string, seq<Target>>, ownersNow: map<(int, int), Location>)
    requires RichBooks(groups, owners, claims)
    ensures RichBooks(groupsNow, ownersNow, claims + AddressClaims(segment, ips, [port]))
  {
    groupsNow, ownersNow := groups, owners;
    assert claims + AddressClaims(segment, ips[..0], [port]) == claims;
    for k := 0 to |ips|
      invariant RichBooks(groupsNow, ownersNow, claims + AddressClaims(segment, ips[..k], [port]))
    {
      ghost var before, c := claims + AddressClaims(segment, ips[..k], [port]), Claim(segment, ips[k], port);
      OneMoreTarget(claims, segment, ips, k, port);
      if (ips[k], port) in ownersNow {
        var at := ownersNow[(ips[k], port)];
        BooksKnown(groupsNow, ownersNow, before, c);
        var merged := MergedTarget(groupsNow[at.segment][at.index], port);
        assert merged.Success?;
      } else {
        BooksStep(groupsNow, ownersNow, before, c);
        var group := if segment in groupsNow then groupsNow[segment] else [];
        groupsNow := groupsNow[segment := group + [Target(ips[k], port)]];
        ownersNow := ownersNow[(ips[k], port) := Location(segment, |group|)];
      }
    }
    assert ips[..|ips|] == ips;
  }

  lemma OneMoreTarget(claims: seq<Claim>, segment: string, ips: seq<int>, k: nat, port: int)
    requires k < |ips|
    ensures claims + AddressClaims(segment, ips[..k + 1], [port])
         == claims + AddressClaims(segment, ips[..k], [port]) + [Claim(segment, ips[k], port)]
  {
    assert ips[..k + 1][..k] == ips[..k];
    assert PortClaims(segment, ips[k], [port]) == [Claim(segment, ips[k], port)];
  }

  method CollectRich(rows: seq<RichRow>, denied: set<(int, int)>, reachable: int -> bool)
    returns (groups: map<string, seq<Target>>, hasValid: bool, owners: map<(int, int), Location>)
    requires forall row <- rows :: ParsedRow(row)
    ensures RichBooks(groups, owners, RichClaims(rows, denied, reachable))
    ensures hasValid <==> exists row <- rows :: row.valid
  {
    groups, owners, hasValid := map[], map[], false;
    for k := 0 to |rows|
      invariant RichBooks(groups, owners, RichClaims(rows[..k], denied, reachable))
      invariant hasValid <==> exists row <- rows[..k] :: row.valid
    {
      var row := rows[k];
      assert rows[..k + 1] == rows[..k] + [row];
      assert rows[..k + 1][..k] == rows[..k];
      if !row.valid {
        continue;
      }
      hasValid := true;
      if Denies(row) {
        continue;
      }
      var ips := RowTargets(row, denied, reachable);
      groups, owners := TakeTargets(groups, owners, row.segment, ips, row.port, RichClaims(rows[..k], denied, reachable));
    }
    assert rows[..|rows|] == rows;
  }

  // ----- sorting -----

  ghost predicate IsRichGroup(claims: seq<Claim>, segment: string, ts: seq<Target>) {
    Increasing(Codes(ts)) && PortsFit(ts) && forall ip, port :: Target(ip, port) in ts <==> Owner(claims, ip, port) == Some(segment)
  }

  ghost predicate IsRichResolution(claims: seq<Claim>, groups: map<string, seq<Target>>) {
    && (forall s :: s in groups <==> exists ip, port :: Owner(claims, ip, port) == Some(s))
    && (forall s <- groups :: IsRichGroup(claims, s, groups[s]))
  }

  method SortGroup(ts: seq<Target>) returns (out: seq<Target>)
    requires Distinct(ts) && PortsFit(ts)
    ensures Increasing(Codes(out)) && PortsFit(out) && forall t :: t in out <==> t in ts
  {
    out := SortSlice(ts, TargetLeq);
    SameMembers(out, ts);
    DistinctStays(ts, out);
    forall i, j | 0 <= i < j < |out| ensures Codes(out)[i] < Codes(out)[j] {
      assert out[i] in out && out[j] in out;
      CodeOrder(out[i], out[j]);
    }
  }

  /** A group holds each key once. */
  lemma BooksDistinct(groups: map<string, seq<Target>>, owners: map<(int, int), Location>, claims: seq<Claim>, s: string)
    requires RichBooks(groups, owners, claims) && s in groups
    ensures Distinct(groups[s])
  {
    forall i, j | 0 <= i < j < |groups[s]| ensures groups[s][i] != groups[s][j] {
      assert Recorded(owners, groups[s][i], Location(s, i)) && Recorded(owners, groups[s][j], Location(s, j));
    }
  }

  lemma BooksMembers(groups: map<string, seq<Target>>, owners: map<(int, int), Location>, claims: seq<Claim>,
                     s: string, ip: int, port: int)
    requires RichBooks(groups, owners, claims)
    ensures s in groups && Target(ip, port) in groups[s] <==> Owner(claims, ip, port) == Some(s)
  {
    if s in groups && Target(ip, port) in groups[s] {
      var i :| 0 <= i < |groups[s]| && groups[s][i] == Target(ip, port);
      assert Recorded(owners, groups[s][i], Location(s, i));
    }
    if Owner(claims, ip, port) == Some(s) {
      assert Located(groups, owners[(ip, port)], ip, port);
    }
  }

  lemma BooksSegments(groups: map<string, seq<Target>>, owners: map<(int, int), Location>, claims: seq<Claim>, s: string)
    requires RichBooks(groups, owners, claims)
    ensures s in groups <==> exists ip, port :: Owner(claims, ip, port) == Some(s)
  {
    if s in groups {
      var t := groups[s][0];
      BooksMembers(groups, owners, claims, s, t.ip, t.port);
    }
    if ip, port :| Owner(claims, ip, port) == Some(s) {
      BooksMembers(groups, owners, claims, s, ip, port);
    }
  }

  lemma {:induction false} ClaimedPortsFit(rows: seq<RichRow>, denied: set<(int, int)>, reachable: int -> bool)
    requires forall row <- rows :: ParsedRow(row)
    ensures forall c <- RichClaims(rows, denied, reachable) :: 1 <= c.port < PORTS
  {
    if rows != [] {
      var last := rows[|rows| - 1];
      assert last in rows && forall row <- rows[..|rows| - 1] :: row in rows;
      ClaimedPortsFit(rows[..|rows| - 1], denied, reachable);
      forall c <- AddressClaims(last.segment, RichSurvivors(last, denied, reachable), [last.port])
        ensures c.port == last.port
      {
        AddressClaimsMembers(last.segment, RichSurvivors(last, denied, reachable), [last.port], c);
      }
    }
  }

  lemma OwnedPortFits(claims: seq<Claim>, ip: int, port: int)
    requires forall c <- claims :: 1 <= c.port < PORTS
    ensures Owner(claims, ip, port).Some? ==> 1 <= port < PORTS
  {
    OwnerIsFirst(claims, ip, port);
  }

  method SortGroups(gathered: map<string, seq<Target>>) returns (groups: map<string, seq<Target>>)
    requires forall s <- gathered :: Distinct(gathered[s]) && PortsFit(gathered[s])
    ensures groups.Keys == gathered.Keys
    ensures forall s <- groups :: SortedFrom(gathered[s], groups[s])
  {
    groups := gathered;
    var left := gathered.Keys;
    while left != {}
      invariant left <= gathered.Keys && groups.Keys == gathered.Keys
      invariant forall s <- left :: groups[s] == gathered[s]
      invariant forall s <- groups :: s !in left ==> SortedFrom(gathered[s], groups[s])
      decreases left
    {
      SomeMember(left);
      var s: string :| s in left;
      var sorted := SortGroup(groups[s]);
      groups := groups[s := sorted];
      left := left - {s};
    }
  }

  ghost predicate SortedFrom(before: seq<Target>, after: seq<Target>) {
    Increasing(Codes(after)) && PortsFit(after) && forall t :: t in after <==> t in before
  }

  /** The builder: it fails only when no row is valid. */
  method BuildRichGroups(rows: seq<RichRow>, reachable: int -> bool)
    returns (r: Outcome<map<string, seq<Target>>, RichError>)
    requires forall row <- rows :: ParsedRow(row)
    ensures r.Failure? <==> forall row <- rows :: !row.valid
    ensures r.Failure? ==> r.error == NoUsableRows
    ensures r.Success? ==> IsRichResolution(RichClaims(rows, DeniedKeys(rows), reachable), r.value)
  {
    var denied := DeniedExecutionKeys(rows);
    var gathered, hasValid, owners := CollectRich(rows, denied, reachable);
    ghost var claims := RichClaims(rows, denied, reachable);
    if |gathered| == 0 {
      if !hasValid {
        return Failure(NoUsableRows);
      }
      forall s, ip, port ensures Owner(claims, ip, port) != Some(s) {
        BooksMembers(gathered, owners, claims, s, ip, port);
      }
      return Success(map[]);
    }
    ClaimedPortsFit(rows, denied, reachable);
    forall s <- gathered ensures Distinct(gathered[s]) && PortsFit(gathered[s]) {
      GatheredGroup(gathered, owners, claims, s);
    }
    var groups := SortGroups(gathered);
    SortedIsResolution(gathered, owners, claims, groups);
    NoValidRowNoClaim(rows, denied, reachable);
    BooksEmpty(gathered, owners, claims);
    return Success(groups);
  }

  lemma GatheredGroup(gathered: map<string, seq<Target>>, owners: map<(int, int), Location>, claims: seq<Claim>, s: string)
    requires RichBooks(gathered, owners, claims) && s in gathered && forall c <- claims :: 1 <= c.port < PORTS
    ensures Distinct(gathered[s]) && PortsFit(gathered[s])
  {
    BooksDistinct(gathered, owners, claims, s);
    forall t <- gathered[s] ensures 0 <= t.port < PORTS {
      BooksMembers(gathered, owners, claims, s, t.ip, t.port);
      OwnedPortFits(claims, t.ip, t.port);
    }
  }

  lemma SortedIsResolution(gathered: map<string, seq<Target>>, owners: map<(int, int), Location>, claims: seq<Claim>,
                           groups: map<string, seq<Target>>)
    requires RichBooks(gathered, owners, claims) && groups.Keys == gathered.Keys
    requires forall s <- groups :: SortedFrom(gathered[s], groups[s])
    ensures IsRichResolution(claims, groups)
  {
    forall s ensures s in groups <==> exists ip, port :: Owner(claims, ip, port) == Some(s) {
      BooksSegments(gathered, owners, claims, s);
    }
    forall s <- groups ensures IsRichGroup(claims, s, groups[s]) {
      assert SortedFrom(gathered[s], groups[s]);
      forall ip, port ensures Target(ip, port) in groups[s] <==> Owner(claims, ip, port) == Some(s) {
        BooksMembers(gathered, owners, claims, s, ip, port);
      }
    }
  }

  lemma {:induction false} NoValidRowNoClaim(rows: seq<RichRow>, denied: set<(int, int)>, reachable: int -> bool)
    ensures (forall row <- rows :: !row.valid) ==> RichClaims(rows, denied, reachable) == []
  {
    if rows != [] {
      assert forall row <- rows[..|rows| - 1] :: row in rows;
      assert rows[|rows| - 1] in rows;
      NoValidRowNoClaim(rows[..|rows| - 1], denied, reachable);
    }
  }

  lemma BooksEmpty(groups: map<string, seq<Target>>, owners: map<(int, int), Location>, claims: seq<Claim>)
    requires RichBooks(groups, owners, claims) && |groups| != 0
    ensures claims != []
  {
    SomeMember(groups.Keys);
    var s: string :| s in groups.Keys;
    BooksMembers(groups, owners, claims, s, groups[s][0].ip, groups[s][0].port);
  }

  // ----- what the groups are -----

  /**
   Every authorized, reachable key is in exactly one group at exactly one index, that of the first
   accepting row that yields it; no denied key is in any group.
   */
  lemma {:induction false} RichPartition(rows: seq<RichRow>, reachable: int -> bool, groups: map<string, seq<Target>>, ip: int, port: int)
    requires IsRichResolution(RichClaims(rows, DeniedKeys(rows), reachable), groups)
    ensures (exists r :: 0 <= r < |rows| && RichYields(rows, rows[r], reachable, ip, port))
       <==> exists s, i :: RichAt(groups, s, i, ip, port)
    ensures forall s, i, s', i' :: RichAt(groups, s, i, ip, port) && RichAt(groups, s', i', ip, port) ==> s == s' && i == i'
    ensures forall s, i :: RichAt(groups, s, i, ip, port) ==>
                             exists r :: FirstGrant(rows, rows, reachable, ip, port, r) && rows[r].segment == s
    ensures Denied(rows, ip, port) ==> forall s, i :: !RichAt(groups, s, i, ip, port)
  {
    var claims := RichClaims(rows, DeniedKeys(rows), reachable);
    OwnerIsFirstGrant(rows, rows, reachable, ip, port);
    forall s, i | RichAt(groups, s, i, ip, port) ensures Owner(claims, ip, port) == Some(s) {
      assert Target(ip, port) in groups[s] && IsRichGroup(claims, s, groups[s]);
    }
    if Owner(claims, ip, port).Some? {
      var s := Owner(claims, ip, port).value;
      assert IsRichGroup(claims, s, groups[s]);
      var i :| 0 <= i < |groups[s]| && groups[s][i] == Target(ip, port);
      assert RichAt(groups, s, i, ip, port);
    }
    forall s, i, j | RichAt(groups, s, i, ip, port) && RichAt(groups, s, j, ip, port) ensures i == j {
      assert IsRichGroup(claims, s, groups[s]);
      assert Codes(groups[s])[i] == Codes(groups[s])[j];
    }
  }

  ghost predicate RichAt(groups: map<string, seq<Target>>, s: string, i: int, ip: int, port: int) {
    s in groups && 0 <= i < |groups[s]| && groups[s][i] == Target(ip, port)
  }

  /** The sequences depend only on who owns what, not on the order in which maps are walked. */
  lemma RichResolutionUnique(claims: seq<Claim>, one: map<string, seq<Target>>, other: map<string, seq<Target>>)
    requires IsRichResolution(claims, one) && IsRichResolution(claims, other)
    ensures one == other
  {
    forall s ensures s in one <==> s in other {
    }
    forall s <- one ensures one[s] == other[s] {
      assert IsRichGroup(claims, s, one[s]) && IsRichGroup(claims, s, other[s]);
      assert forall t :: t in one[s] <==> Target(t.ip, t.port) in one[s];
      StrictUnique(one[s], other[s]);
    }
  }
}
