/** Which rows are accepted: distinct keys, and every selector inside its boundary. */
module RowValidation {
  import opened Integers
  import opened Wrappers
  import opened Networks
  import opened DuplicateTable

  datatype RichKey = RichKey(boundary: int, src: string, dst: string, port: int, prefix: int)

  /** A missing source or destination is replaced by the selector's text. */
  function RichKeyOf(row: InputRow): RichKey
    requires Parsed(row)
  {
    RichKey(row.net.value.start, if row.src == "" then row.text else row.src,
            if row.dst == "" then row.text else row.dst, row.port, row.net.value.prefix % 0x100)
  }

  datatype RowError = NotParsed(row: nat) | Duplicate(first: int, second: int) | Outside(row: nat)

  ghost predicate SameKey(a: InputRow, b: InputRow)
    requires Parsed(a) && Parsed(b)
  {
    if IsBasic(a) then IsBasic(b) && KeyOf(a) == KeyOf(b) else !IsBasic(b) && RichKeyOf(a) == RichKeyOf(b)
  }

  ghost predicate AllParsed(rows: seq<InputRow>) {
    forall i :: 0 <= i < |rows| ==> Parsed(rows[i])
  }

  ghost predicate NoDuplicates(rows: seq<InputRow>)
    requires AllParsed(rows)
  {
    forall i, j :: 0 <= i < j < |rows| ==> !SameKey(rows[i], rows[j])
  }

  /** Every address of the selector lies inside the boundary. */
  ghost predicate Inside(row: InputRow)
    requires Parsed(row)
  {
    forall a :: Contains(row.selector.value, a) ==> Contains(row.net.value, a)
  }

  ghost function BasicCount(rows: seq<InputRow>): nat {
    if rows == [] then 0
    else BasicCount(rows[..|rows| - 1]) + if IsBasic(rows[|rows| - 1]) then 1 else 0
  }

  lemma {:induction false} BasicCountGrows(rows: seq<InputRow>, k: nat)
    requires k <= |rows|
    ensures BasicCount(rows[..k]) <= BasicCount(rows)
    decreases |rows| - k
  {
    if k == |rows| {
      assert rows[..k] == rows;
    } else {
      assert rows[..k + 1][..k] == rows[..k];
      BasicCountGrows(rows, k + 1);
    }
  }

  lemma {:induction false} BasicCountAtMost(rows: seq<InputRow>)
    ensures BasicCount(rows) <= |rows|
    ensures (forall row <- rows :: IsBasic(row)) ==> BasicCount(rows) == |rows|
  {
    if rows != [] {
      BasicCountAtMost(rows[..|rows| - 1]);
      assert forall row <- rows[..|rows| - 1] :: row in rows;
    }
  }

  method CountBasic(rows: seq<InputRow>) returns (r: Outcome<nat, RowError>)
    ensures r.Failure? ==> exists i :: 0 <= i < |rows| && !Parsed(rows[i]) && AllParsed(rows[..i]) && r.error == NotParsed(i + 1)
    ensures r.Success? ==> AllParsed(rows) && r.value == BasicCount(rows)
  {
    var basic := 0;
    for i := 0 to |rows|
      invariant AllParsed(rows[..i]) && basic == BasicCount(rows[..i])
    {
      assert rows[..i + 1] == rows[..i] + [rows[i]];
      assert rows[..i + 1][..i] == rows[..i];
      if !Parsed(rows[i]) {
        return Failure(NotParsed(i + 1));
      }
      if IsBasic(rows[i]) {
        basic := basic + 1;
      }
    }
    assert rows[..|rows|] == rows;
    return Success(basic);
  }

  /** The basic rows below `n` are exactly what the table contains. */
  ghost predicate SeenBasic(contents: map<BasicKey, int>, rows: seq<InputRow>, n: nat)
    requires AllParsed(rows) && n <= |rows|
  {
    && (forall i :: 0 <= i < n && IsBasic(rows[i]) ==> KeyOf(rows[i]) in contents && contents[KeyOf(rows[i])] == i + 1)
    && (forall k <- contents :: exists i :: 0 <= i < n && IsBasic(rows[i]) && KeyOf(rows[i]) == k)
  }

  ghost predicate SeenRich(seen: map<RichKey, int>, rows: seq<InputRow>, n: nat)
    requires AllParsed(rows) && n <= |rows|
  {
    && (forall i :: 0 <= i < n && !IsBasic(rows[i]) ==> RichKeyOf(rows[i]) in seen && seen[RichKeyOf(rows[i])] == i + 1)
    && (forall k <- seen :: exists i :: 0 <= i < n && !IsBasic(rows[i]) && RichKeyOf(rows[i]) == k)
  }

  ghost predicate DuplicateAt(rows: seq<InputRow>, first: int, second: int)
    requires AllParsed(rows)
  {
    0 < first < second <= |rows| && SameKey(rows[first - 1], rows[second - 1]) && NoDuplicates(rows[..second - 1])
  }

  lemma NewBasic(contents: map<BasicKey, int>, rows: seq<InputRow>, n: nat)
    requires AllParsed(rows) && n < |rows| && IsBasic(rows[n]) && SeenBasic(contents, rows, n)
    requires NoDuplicates(rows[..n])
    ensures KeyOf(rows[n]) !in contents ==>
              SeenBasic(contents[KeyOf(rows[n]) := n + 1], rows, n + 1) && NoDuplicates(rows[..n + 1])
    ensures KeyOf(rows[n]) in contents ==> DuplicateAt(rows, contents[KeyOf(rows[n])], n + 1)
  {
    var key := KeyOf(rows[n]);
    if key in contents {
      var i :| 0 <= i < n && IsBasic(rows[i]) && KeyOf(rows[i]) == key;
    } else {
      forall i, j | 0 <= i < j < n + 1 ensures !SameKey(rows[i], rows[j]) {
        assert j < n ==> rows[..n][i] == rows[i] && rows[..n][j] == rows[j];
      }
    }
  }

  lemma NewRich(seen: map<RichKey, int>, rows: seq<InputRow>, n: nat)
    requires AllParsed(rows) && n < |rows| && !IsBasic(rows[n]) && SeenRich(seen, rows, n)
    requires NoDuplicates(rows[..n])
    ensures RichKeyOf(rows[n]) !in seen ==>
              SeenRich(seen[RichKeyOf(rows[n]) := n + 1], rows, n + 1) && NoDuplicates(rows[..n + 1])
    ensures RichKeyOf(rows[n]) in seen ==> DuplicateAt(rows, seen[RichKeyOf(rows[n])], n + 1)
  {
    var key := RichKeyOf(rows[n]);
    if key in seen {
      var i :| 0 <= i < n && !IsBasic(rows[i]) && RichKeyOf(rows[i]) == key;
    } else {
      forall i, j | 0 <= i < j < n + 1 ensures !SameKey(rows[i], rows[j]) {
        assert j < n ==> rows[..n][i] == rows[i] && rows[..n][j] == rows[j];
      }
    }
  }

  ghost predicate CountsRows(table: Table, rows: seq<InputRow>, n: nat)
    requires AllParsed(rows) && n <= |rows|
    reads table, table.slots
  {
    && table.Valid() && table.rows == rows && table.limit == BasicCount(rows) && table.added == BasicCount(rows[..n])
    && (table.fallback.None? ==> |rows| <= MAX32)
    && SeenBasic(table.Contents(), rows, n)
  }

  method CheckBasic(table: Table, rows: seq<InputRow>, i: nat) returns (previous: int, duplicate: bool)
    requires AllParsed(rows) && i < |rows| && IsBasic(rows[i]) && CountsRows(table, rows, i) && NoDuplicates(rows[..i])
    modifies table, table.slots
    ensures !duplicate ==> CountsRows(table, rows, i + 1) && NoDuplicates(rows[..i + 1])
    ensures duplicate ==> DuplicateAt(rows, previous, i + 1)
  {
    BasicCountStep(rows, i);
    ghost var before := table.Contents();
    NewBasic(before, rows, i);
    previous, duplicate := table.Add(rows, KeyOf(rows[i]), i + 1);
    assert duplicate ==> previous == before[KeyOf(rows[i])];
    assert !duplicate ==> table.Contents() == before[KeyOf(rows[i]) := i + 1];
  }

  lemma BasicCountStep(rows: seq<InputRow>, i: nat)
    requires i < |rows| && IsBasic(rows[i])
    ensures BasicCount(rows[..i + 1]) == BasicCount(rows[..i]) + 1 <= BasicCount(rows)
  {
    assert rows[..i + 1][..i] == rows[..i];
    BasicCountGrows(rows, i + 1);
  }

  lemma SkipRich(contents: map<BasicKey, int>, rows: seq<InputRow>, n: nat)
    requires AllParsed(rows) && n < |rows| && !IsBasic(rows[n]) && SeenBasic(contents, rows, n)
    ensures SeenBasic(contents, rows, n + 1) && BasicCount(rows[..n + 1]) == BasicCount(rows[..n])
  {
    assert rows[..n + 1][..n] == rows[..n];
  }

  lemma SkipBasic(seen: map<RichKey, int>, rows: seq<InputRow>, n: nat)
    requires AllParsed(rows) && n < |rows| && IsBasic(rows[n]) && SeenRich(seen, rows, n)
    ensures SeenRich(seen, rows, n + 1)
  {
  }

  lemma DuplicateRefutes(rows: seq<InputRow>, first: int, second: int)
    requires AllParsed(rows) && DuplicateAt(rows, first, second)
    ensures !NoDuplicates(rows)
  {
    assert SameKey(rows[first - 1], rows[second - 1]);
  }

  method NewTable(rows: seq<InputRow>, basic: nat, hash: BasicKey -> nat) returns (table: Table)
    requires AllParsed(rows) && basic == BasicCount(rows)
    requires |rows| <= MAX32 || forall row <- rows :: IsBasic(row)
    ensures fresh(table) && fresh(table.slots) && CountsRows(table, rows, 0)
  {
    BasicCountAtMost(rows);
    table := new Table(basic, hash, rows);
  }

  /** Checks one row against the rows before it. */
  method CheckRow(table: Table, seen: map<RichKey, int>, rows: seq<InputRow>, i: nat)
    returns (error: Option<RowError>, now: map<RichKey, int>)
    requires AllParsed(rows) && i < |rows| && CountsRows(table, rows, i) && SeenRich(seen, rows, i) && NoDuplicates(rows[..i])
    modifies table, table.slots
    ensures error.None? ==> CountsRows(table, rows, i + 1) && SeenRich(now, rows, i + 1) && NoDuplicates(rows[..i + 1])
    ensures error.Some? ==> error.value.Duplicate? && DuplicateAt(rows, error.value.first, error.value.second)
  {
    now := seen;
    if IsBasic(rows[i]) {
      SkipBasic(seen, rows, i);
      var previous, duplicate := CheckBasic(table, rows, i);
      return if duplicate then Some(Duplicate(previous, i + 1)) else None, seen;
    }
    SkipRich(table.Contents(), rows, i);
    NewRich(seen, rows, i);
    var key := RichKeyOf(rows[i]);
    if key in seen {
      return Some(Duplicate(seen[key], i + 1)), seen;
    }
    return None, seen[key := i + 1];
  }

  method FindDuplicate(rows: seq<InputRow>, basic: nat, hash: BasicKey -> nat) returns (error: Option<RowError>)
    requires AllParsed(rows) && basic == BasicCount(rows)
    requires |rows| <= MAX32 || forall row <- rows :: IsBasic(row)
    ensures error.None? <==> NoDuplicates(rows)
    ensures error.Some? ==> error.value.Duplicate? && DuplicateAt(rows, error.value.first, error.value.second)
  {
    var table := NewTable(rows, basic, hash);
    var seen: map<RichKey, int> := map[];
    for i := 0 to |rows|
      invariant fresh(table) && fresh(table.slots) && CountsRows(table, rows, i)
      invariant SeenRich(seen, rows, i) && NoDuplicates(rows[..i])
    {
      error, seen := CheckRow(table, seen, rows, i);
      if error.Some? {
        DuplicateRefutes(rows, error.value.first, error.value.second);
        return;
      }
    }
    assert rows[..|rows|] == rows;
    return None;
  }

  ghost predicate ProperNetworks(row: InputRow) {
    (row.net.Some? ==> IsNetwork(row.net.value)) && (row.selector.Some? ==> IsNetwork(row.selector.value))
  }

  /**
   Accepts exactly the inputs whose rows are parsed, whose keys are distinct and whose selectors lie
   inside their boundaries, and otherwise names the first offence of the first failing check.
   */
  method ValidateIPRows(rows: seq<InputRow>, hash: BasicKey -> nat) returns (error: Option<RowError>)
    requires forall row <- rows :: ProperNetworks(row)
    requires |rows| <= MAX32 || forall row <- rows :: IsBasic(row)
    ensures error.None? <==> AllParsed(rows) && NoDuplicates(rows) && forall i :: 0 <= i < |rows| ==> Inside(rows[i])
    ensures error.Some? && error.value.NotParsed? ==>
              0 < error.value.row <= |rows| && !Parsed(rows[error.value.row - 1]) && AllParsed(rows[..error.value.row - 1])
    ensures error.Some? && error.value.Duplicate? ==>
              AllParsed(rows) && DuplicateAt(rows, error.value.first, error.value.second)
    ensures error.Some? && error.value.Outside? ==>
              && AllParsed(rows) && NoDuplicates(rows) && 0 < error.value.row <= |rows|
              && !Inside(rows[error.value.row - 1]) && forall j :: 0 <= j < error.value.row - 1 ==> Inside(rows[j])
  {
    var basic := CountBasic(rows);
    if basic.Failure? {
      return Some(basic.error);
    }
    error := FindDuplicate(rows, basic.value, hash);
    if error.Some? {
      return;
    }
    for i := 0 to |rows|
      invariant forall j :: 0 <= j < i ==> Inside(rows[j])
    {
      assert rows[i] in rows;
      NetworkContainsIff(rows[i].net.value, rows[i].selector.value);
      if !NetworkContains(rows[i].net.value, rows[i].selector.value) {
        return Some(Outside(i + 1));
      }
    }
  }
}
