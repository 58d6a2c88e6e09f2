/**
 The number of addresses a plan would expand to, counted without enumerating any. Denied keys
 inside an expanded segment are subtracted with two binary searches.
 */
module CandidateEstimate {
  import opened Integers
  import opened Wrappers
  import opened Sorting
  import opened Networks
  import opened Ownership
  import opened BasicTargets
  import opened BasicGroups
  import opened RichTargets
  import opened RichGroups

  const BASE_BYTES: uint64 := 1_000_000_000
  const BYTES_PER_CANDIDATE: uint64 := 1_500
  const DECIMAL_GB := 1_000_000_000

  /** A zero limit is disabled; the memory limit is a whole number of gigabytes. */
  datatype Limits = Limits(candidates: uint64, bytes: uint64)

  datatype LimitsError = NegativeLimit | LimitTooLarge

  ghost predicate ValidLimits(limits: Limits) {
    limits.bytes as int % DECIMAL_GB == 0
  }

  function NewLimits(candidates: int, gigabytes: int): (r: Outcome<Limits, LimitsError>)
    requires candidates < 0x8000_0000_0000_0000 && gigabytes < 0x8000_0000_0000_0000
    ensures r.Success? <==> candidates >= 0 && gigabytes >= 0 && gigabytes * DECIMAL_GB <= MAX64
    ensures r.Success? ==> ValidLimits(r.value) && (gigabytes > 0 ==> r.value.bytes >= BASE_BYTES)
  {
    if candidates < 0 || gigabytes < 0 then Failure(NegativeLimit)
    else if gigabytes > MAX64 / DECIMAL_GB then Failure(LimitTooLarge)
    else Success(Limits(candidates as uint64, (gigabytes * DECIMAL_GB) as uint64))
  }

  datatype Record = Rich(rich: RichRow) | Basic(basic: Row)

  datatype EstimateError = NoSelector(row: nat) | CountOverflow(row: nat) | BytesOverflow(row: nat) | OverLimit(row: nat)

  datatype Estimate = Estimate(candidates: uint64, bytes: uint64)

  ghost predicate ValidRecord(r: Record) {
    match r
    case Rich(row) => ParsedRow(row)
    case Basic(row) => ValidRow(row)
  }

  // ----- what is to be counted -----

  function CidrOf(r: Record): string {
    if r.Rich? then r.rich.segment else r.basic.cidr
  }

  predicate Included(r: Record, cidrs: Option<set<string>>) {
    cidrs.None? || CidrOf(r) in cidrs.value
  }

  /** Rows that are counted at all. */
  predicate Counted(r: Record, cidrs: Option<set<string>>) {
    (r.Rich? ==> Accepts(r.rich)) && Included(r, cidrs)
  }

  ghost function Block(n: Network): set<int> {
    set a <- Addresses(n)
  }

  /** The addresses that one counted row may add to the plan. */
  ghost function Candidates(r: Record, denied: set<(int, int)>): set<int> {
    match r
    case Basic(row) => if Range(row).Some? then Block(Range(row).value) else {}
    case Rich(row) =>
      set a | a in (if row.precheck then Block(row.network) else {row.ip}) && (a, row.port) !in denied
  }

  ghost function TrueTotal(records: seq<Record>, denied: set<(int, int)>, cidrs: Option<set<string>>): nat {
    if records == [] then 0
    else
      var last := records[|records| - 1];
      TrueTotal(records[..|records| - 1], denied, cidrs)
        + if Counted(last, cidrs) then |Candidates(last, denied)| else 0
  }

  // ----- counting sorted addresses between two bounds -----

  /** The first position whose address is at least `bound`. */
  method Search(addresses: seq<int>, bound: int) returns (at: nat)
    requires Increasing(addresses)
    ensures at <= |addresses|
    ensures forall k :: 0 <= k < at ==> addresses[k] < bound
    ensures forall k :: at <= k < |addresses| ==> addresses[k] >= bound
  {
    at := 0;
    var end := |addresses|;
    while at < end
      invariant at <= end <= |addresses|
      invariant forall k :: 0 <= k < at ==> addresses[k] < bound
      invariant forall k :: end <= k < |addresses| ==> addresses[k] >= bound
    {
      var middle := (at + end) / 2;
      if addresses[middle] < bound {
        at := middle + 1;
      } else {
        end := middle;
      }
    }
  }

  lemma SliceIncreases(s: seq<int>, i: nat, j: nat)
    requires i <= j <= |s| && Increasing(s)
    ensures Increasing(s[i..j]) && |(set x <- s[i..j])| == j - i
  {
    assert forall k :: 0 <= k < j - i ==> s[i..j][k] == s[i + k];
    IncreasingSize(s[i..j]);
  }

  method CountBetween(addresses: seq<int>, first: int, last: int) returns (n: nat)
    requires Increasing(addresses) && first <= last + 1
    ensures n == |set a <- addresses | first <= a <= last|
  {
    var low := Search(addresses, first);
    var high := Search(addresses, last + 1);
    if high < |addresses| {
      assert addresses[high] >= first;
    }
    n := high - low;
    SliceIncreases(addresses, low, high);
    assert (set a <- addresses | first <= a <= last) == (set x <- addresses[low..high]) by {
      forall a ensures a in addresses && first <= a <= last <==> a in addresses[low..high] {
        if a in addresses && first <= a <= last {
          var k :| 0 <= k < |addresses| && addresses[k] == a;
          assert addresses[low..high][k - low] == a;
        }
      }
    }
  }

  lemma BlockSize(n: Network)
    ensures |Block(n)| == Size(n)
  {
    IncreasingSize(Addresses(n));
    assert Block(n) == (set x <- Addresses(n));
  }

  /** Taking out the denied addresses of a block never takes out more than it has. */
  lemma BlockWithoutDenied(n: Network, out: set<int>)
    ensures |(set a <- out | n.start <= a <= Last(n))| <= Size(n)
    ensures |Block(n) - out| == Size(n) - |(set a <- out | n.start <= a <= Last(n))|
  {
    BlockSize(n);
    AddressesMembers(n);
    var inside := set a <- out | n.start <= a <= Last(n);
    assert Block(n) == (Block(n) - out) + inside;
    assert (Block(n) - out) !! inside;
  }

  // ----- the index of denied addresses -----

  ghost function DeniedOf(records: seq<Record>): set<(int, int)> {
    set r <- records | r.Rich? && Denies(r.rich) :: (r.rich.ip, r.rich.port)
  }

  ghost function DeniedAt(denied: set<(int, int)>, port: int): set<int> {
    set k <- denied | k.1 == port :: k.0
  }

  ghost predicate IsIndex(index: map<int, seq<int>>, denied: set<(int, int)>) {
    && (forall port <- index :: Increasing(index[port]))
    && (forall a, port :: (a, port) in denied <==> port in index && a in index[port])
  }

  method CollectDenied(records: seq<Record>) returns (denied: set<(int, int)>, sets: map<int, set<int>>)
    ensures denied == DeniedOf(records)
    ensures forall a, port :: (a, port) in denied <==> port in sets && a in sets[port]
  {
    denied, sets := {}, map[];
    for k := 0 to |records|
      invariant denied == DeniedOf(records[..k])
      invariant forall a, port :: (a, port) in denied <==> port in sets && a in sets[port]
    {
      var r := records[k];
      assert records[..k + 1] == records[..k] + [r];
      if r.Rich? && Denies(r.rich) {
        denied := denied + {(r.rich.ip, r.rich.port)};
        var before := if r.rich.port in sets then sets[r.rich.port] else {};
        sets := sets[r.rich.port := before + {r.rich.ip}];
      }
    }
    assert records[..|records|] == records;
  }

  method NewDeniedIndex(sets: map<int, set<int>>, ghost denied: set<(int, int)>) returns (index: map<int, seq<int>>)
    requires forall a, port :: (a, port) in denied <==> port in sets && a in sets[port]
    ensures IsIndex(index, denied)
  {
    index := map[];
    var left := sets.Keys;
    while left != {}
      invariant left <= sets.Keys && index.Keys == sets.Keys - left
      invariant forall port <- index :: Increasing(index[port]) && forall a :: a in index[port] <==> a in sets[port]
      decreases left
    {
      SomeNumber(left);
      var port: int :| port in left;
      var sorted := SortSet(sets[port]);
      index := index[port := sorted];
      left := left - {port};
    }
  }

  /** The denied addresses of one port inside one network. */
  method CountDenied(index: map<int, seq<int>>, port: int, n: Network, ghost denied: set<(int, int)>) returns (count: uint64)
    requires IsIndex(index, denied) && IsNetwork(n)
    ensures count as int == |set a <- DeniedAt(denied, port) | n.start <= a <= Last(n)| <= Size(n)
  {
    var addresses := if port in index then index[port] else [];
    var c := CountBetween(addresses, n.start, Last(n));
    assert (set a <- DeniedAt(denied, port) | n.start <= a <= Last(n)) == (set a <- addresses | n.start <= a <= Last(n)) by {
      forall a ensures a in DeniedAt(denied, port) <==> a in addresses {
        assert a in DeniedAt(denied, port) <==> (a, port) in denied;
      }
    }
    BlockWithoutDenied(n, DeniedAt(denied, port));
    count := c as uint64;
  }

  // ----- adding up -----

  ghost predicate Fits(total: nat, limits: Limits) {
    && BASE_BYTES as int + BYTES_PER_CANDIDATE as int * total <= MAX64
    && (limits.candidates > 0 ==> total <= limits.candidates as int)
    && (limits.bytes > 0 ==> BASE_BYTES as int + BYTES_PER_CANDIDATE as int * total <= limits.bytes as int)
  }

  function EstimateBytes(total: uint64): (r: Option<uint64>)
    ensures r.Some? <==> BASE_BYTES as int + BYTES_PER_CANDIDATE as int * total as int <= MAX64
    ensures r.Some? ==> r.value as int == BASE_BYTES as int + BYTES_PER_CANDIDATE as int * total as int
  {
    if total > (0xFFFF_FFFF_FFFF_FFFF - BASE_BYTES) / BYTES_PER_CANDIDATE then None
    else Some(BASE_BYTES + total * BYTES_PER_CANDIDATE)
  }

  /** One more row: exact in 64 bits, and refused exactly when the new total does not fit. */
  function AddCandidateCount(total: uint64, count: uint64, row: nat, limits: Limits): (r: Outcome<Estimate, EstimateError>)
    ensures r.Success? <==> Fits(total as int + count as int, limits)
    ensures r.Success? ==> r.value.candidates as int == total as int + count as int
    ensures r.Success? ==>
              r.value.bytes as int == BASE_BYTES as int + BYTES_PER_CANDIDATE as int * r.value.candidates as int
  {
    if count > 0xFFFF_FFFF_FFFF_FFFF - total then Failure(CountOverflow(row))
    else
      var sum := total + count;
      var bytes := EstimateBytes(sum);
      if bytes.None? then Failure(BytesOverflow(row))
      else if (limits.candidates > 0 && sum > limits.candidates) || (limits.bytes > 0 && bytes.value > limits.bytes)
      then Failure(OverLimit(row))
      else Success(Estimate(sum, bytes.value))
  }

  ghost predicate Selected(records: seq<Record>, cidrs: Option<set<string>>) {
    forall r <- records :: r.Basic? && Included(r, cidrs) ==> Range(r.basic).Some?
  }

  lemma {:induction false} TotalGrows(records: seq<Record>, k: nat, denied: set<(int, int)>, cidrs: Option<set<string>>)
    requires k <= |records|
    ensures TrueTotal(records[..k], denied, cidrs) <= TrueTotal(records, denied, cidrs)
    decreases |records| - k
  {
    if k == |records| {
      assert records[..k] == records;
    } else {
      assert records[..k + 1][..k] == records[..k];
      TotalGrows(records, k + 1, denied, cidrs);
    }
  }

  lemma ExpandedCandidates(row: RichRow, denied: set<(int, int)>)
    requires row.precheck
    ensures Candidates(Rich(row), denied) == Block(row.network) - DeniedAt(denied, row.port)
  {
    forall a ensures a in Candidates(Rich(row), denied) <==> a in Block(row.network) - DeniedAt(denied, row.port) {
      assert a in DeniedAt(denied, row.port) <==> (a, row.port) in denied;
    }
  }

  /** The exact size of one row's expansion after denied keys are taken out; the subtraction never underflows. */
  method CountRow(r: Record, index: map<int, seq<int>>, denied: set<(int, int)>) returns (count: Option<uint64>)
    requires ValidRecord(r) && IsIndex(index, denied) && (r.Rich? ==> Accepts(r.rich))
    ensures count.None? <==> r.Basic? && Range(r.basic).None?
    ensures count.Some? ==> count.value as int == |Candidates(r, denied)|
  {
    match r
    case Basic(row) =>
      if Range(row).None? {
        return None;
      }
      BlockSize(Range(row).value);
      return Some(Size(Range(row).value) as uint64);
    case Rich(row) =>
      if !row.precheck {
        if (row.ip, row.port) in denied {
          assert Candidates(r, denied) == {};
          return Some(0);
        }
        assert Candidates(r, denied) == {row.ip};
        return Some(1);
      }
      var removed := CountDenied(index, row.port, row.network, denied);
      ExpandedCandidates(row, denied);
      BlockWithoutDenied(row.network, DeniedAt(denied, row.port));
      return Some(Size(row.network) as uint64 - removed);
  }

  /**
   Succeeds exactly when every counted row names addresses and the true total fits 64 bits and both
   limits; then the count is the true total.
   */
  method EstimateAuthorized(records: seq<Record>, limits: Limits, cidrs: Option<set<string>>)
    returns (r: Outcome<Estimate, EstimateError>)
    requires ValidLimits(limits) && forall x <- records :: ValidRecord(x)
    ensures r.Success? <==> Selected(records, cidrs) && Fits(TrueTotal(records, DeniedOf(records), cidrs), limits)
    ensures r.Success? ==> r.value.candidates as int == TrueTotal(records, DeniedOf(records), cidrs)
    ensures r.Success? ==>
              r.value.bytes as int == BASE_BYTES as int + BYTES_PER_CANDIDATE as int * r.value.candidates as int
  {
    var denied, sets := CollectDenied(records);
    var index := NewDeniedIndex(sets, denied);
    var estimate := Estimate(0, BASE_BYTES);
    for k := 0 to |records|
      invariant Selected(records[..k], cidrs) && Fits(estimate.candidates as int, limits)
      invariant estimate.candidates as int == TrueTotal(records[..k], denied, cidrs)
      invariant estimate.bytes as int == BASE_BYTES as int + BYTES_PER_CANDIDATE as int * estimate.candidates as int
    {
      var record := records[k];
      assert records[..k + 1] == records[..k] + [record];
      assert records[..k + 1][..k] == records[..k];
      if !Counted(record, cidrs) {
        continue;
      }
      var row := if record.Rich? then record.rich.number else record.basic.number;
      row := if row == 0 then k + 1 else row;
      var count := CountRow(record, index, denied);
      if count.None? {
        assert record in records && !Selected(records, cidrs);
        return Failure(NoSelector(row));
      }
      var next := AddCandidateCount(estimate.candidates, count.value, row, limits);
      if next.Failure? {
        TotalGrows(records, k + 1, denied, cidrs);
        return Failure(next.error);
      }
      estimate := next.value;
    }
    assert records[..|records|] == records;
    return Success(estimate);
  }

  // ----- the estimate bounds what the group builder makes -----

  ghost function RichRecords(rows: seq<RichRow>): seq<Record> {
    seq(|rows|, k requires 0 <= k < |rows| => Rich(rows[k]))
  }

  ghost function Keys(ips: set<int>, port: int): set<Target> {
    set ip <- ips :: Target(ip, port)
  }

  lemma {:induction false} KeysSize(ips: set<int>, port: int)
    ensures |Keys(ips, port)| == |ips|
  {
    if ips != {} {
      SomeNumber(ips);
      var ip: int :| ip in ips;
      KeysSize(ips - {ip}, port);
      assert Keys(ips, port) == Keys(ips - {ip}, port) + {Target(ip, port)};
    }
  }

  lemma UnionAtMost<T>(a: set<T>, b: set<T>)
    ensures |a + b| <= |a| + |b|
  {
    assert a + b == a + (b - a);
    SubsetAtMost(b - a, b);
  }

  ghost predicate KeyOf(row: RichRow, denied: set<(int, int)>, t: Target) {
    Accepts(row) && t.port == row.port && t.ip in Candidates(Rich(row), denied)
  }

  /** Any keys that the rows offer are no more than the estimate. */
  lemma {:induction false} OfferedAtMost(rows: seq<RichRow>, denied: set<(int, int)>, keys: set<Target>)
    requires forall t <- keys :: exists row <- rows :: KeyOf(row, denied, t)
    ensures |keys| <= TrueTotal(RichRecords(rows), denied, None)
  {
    if rows == [] {
      assert keys == {};
    } else {
      var front, last := rows[..|rows| - 1], rows[|rows| - 1];
      assert rows == front + [last];
      assert RichRecords(rows)[..|rows| - 1] == RichRecords(front);
      var mine := set t <- keys | KeyOf(last, denied, t);
      OfferedAtMost(front, denied, keys - mine);
      if Accepts(last) {
        SubsetAtMost(mine, Keys(Candidates(Rich(last), denied), last.port));
        KeysSize(Candidates(Rich(last), denied), last.port);
      } else {
        assert mine == {};
      }
      UnionAtMost(keys - mine, mine);
      assert keys == (keys - mine) + mine;
    }
  }

  ghost function TargetsOf(groups: map<string, seq<Target>>, segments: seq<string>): set<Target>
    requires forall s <- segments :: s in groups
  {
    set s <- segments, t <- groups[s] :: t
  }

  ghost function CountTargets(groups: map<string, seq<Target>>, segments: seq<string>): nat
    requires forall s <- segments :: s in groups
  {
    if segments == [] then 0
    else CountTargets(groups, segments[..|segments| - 1]) + |groups[segments[|segments| - 1]]|
  }

  lemma GroupSize(ts: seq<Target>)
    requires Increasing(Codes(ts))
    ensures |(set t <- ts)| == |ts|
  {
    forall i, j | 0 <= i < j < |ts| ensures ts[i] != ts[j] {
      assert Codes(ts)[i] < Codes(ts)[j];
    }
    DistinctSize(ts);
  }

  lemma {:induction false} DistinctSize<T>(s: seq<T>)
    requires Distinct(s)
    ensures |(set x <- s)| == |s|
  {
    if s != [] {
      var front := s[..|s| - 1];
      DistinctSize(front);
      assert s == front + [s[|s| - 1]];
      assert (set x <- s) == (set x <- front) + {s[|s| - 1]};
    }
  }

  lemma {:induction false} GroupsAddUp(claims: seq<Claim>, groups: map<string, seq<Target>>, segments: seq<string>)
    requires IsRichResolution(claims, groups) && Distinct(segments) && forall s <- segments :: s in groups
    ensures CountTargets(groups, segments) == |TargetsOf(groups, segments)|
  {
    if segments != [] {
      var front, last := segments[..|segments| - 1], segments[|segments| - 1];
      assert segments == front + [last];
      GroupsAddUp(claims, groups, front);
      assert IsRichGroup(claims, last, groups[last]);
      GroupSize(groups[last]);
      var mine := set t <- groups[last];
      OneMoreGroup(groups, front, last);
      assert front + [last] == segments;
      forall t | t in mine ensures t !in TargetsOf(groups, front) {
        if s :| s in front && t in groups[s] {
          OneGroupEach(claims, groups, s, last, t);
        }
      }
      DisjointSizes(TargetsOf(groups, front), mine);
    }
  }

  lemma OneMoreGroup(groups: map<string, seq<Target>>, front: seq<string>, last: string)
    requires last in groups && forall s <- front :: s in groups
    ensures TargetsOf(groups, front + [last]) == TargetsOf(groups, front) + set t <- groups[last]
  {
  }

  lemma OneGroupEach(claims: seq<Claim>, groups: map<string, seq<Target>>, s: string, s': string, t: Target)
    requires IsRichResolution(claims, groups) && s in groups && s' in groups && t in groups[s] && t in groups[s']
    ensures s == s'
  {
    assert IsRichGroup(claims, s, groups[s]) && IsRichGroup(claims, s', groups[s']);
    assert Target(t.ip, t.port) in groups[s] && Target(t.ip, t.port) in groups[s'];
  }

  lemma DisjointSizes<T>(a: set<T>, b: set<T>)
    requires forall x <- b :: x !in a
    ensures |a + b| == |a| + |b|
  {
    assert a !! b;
  }

  /** The chunks that the builder makes hold no more tasks, together, than the estimate. */
  lemma EstimateBoundsGroups(rows: seq<RichRow>, reachable: int -> bool, groups: map<string, seq<Target>>,
                             segments: seq<string>)
    requires IsRichResolution(RichClaims(rows, DeniedKeys(rows), reachable), groups)
    requires Distinct(segments) && forall s <- segments :: s in groups
    ensures CountTargets(groups, segments) <= TrueTotal(RichRecords(rows), DeniedKeys(rows), None)
  {
    var claims := RichClaims(rows, DeniedKeys(rows), reachable);
    GroupsAddUp(claims, groups, segments);
    forall t <- TargetsOf(groups, segments) ensures exists row <- rows :: KeyOf(row, DeniedKeys(rows), t) {
      var s :| s in segments && t in groups[s];
      OwnedKeyIsOffered(rows, reachable, groups, s, t);
    }
    OfferedAtMost(rows, DeniedKeys(rows), TargetsOf(groups, segments));
  }

  lemma OwnedKeyIsOffered(rows: seq<RichRow>, reachable: int -> bool, groups: map<string, seq<Target>>, s: string, t: Target)
    requires IsRichResolution(RichClaims(rows, DeniedKeys(rows), reachable), groups) && s in groups && t in groups[s]
    ensures exists row <- rows :: KeyOf(row, DeniedKeys(rows), t)
  {
    var i :| 0 <= i < |groups[s]| && groups[s][i] == t;
    RichPartition(rows, reachable, groups, t.ip, t.port);
    assert RichAt(groups, s, i, t.ip, t.port);
    var r :| 0 <= r < |rows| && RichYields(rows, rows[r], reachable, t.ip, t.port);
    AddressesMembers(rows[r].network);
    assert rows[r] in rows && KeyOf(rows[r], DeniedKeys(rows), t);
  }
}
