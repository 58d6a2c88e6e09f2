/** The bytes that the workflow digest is computed from, for any chunk size and any row order. */
module NormalizedDigest {
  import opened Integers
  import opened Wrappers
  import opened Sorting
  import opened TextOrder
  import opened LengthDelimited
  import opened NormalizedMerge

  const DURATION_COLUMN := "response_time_ms"
  const DURATION := "<duration>"

  // ----- normalizing one row -----

  ghost predicate FirstDuration(header: seq<string>, column: Option<nat>) {
    match column
    case None => DURATION_COLUMN !in header
    case Some(c) => c < |header| && header[c] == DURATION_COLUMN && forall k :: 0 <= k < c ==> header[k] != DURATION_COLUMN
  }

  method FindDurationColumn(header: seq<string>) returns (column: Option<nat>)
    ensures FirstDuration(header, column)
  {
    for k := 0 to |header|
      invariant forall j :: 0 <= j < k ==> header[j] != DURATION_COLUMN
    {
      if header[k] == DURATION_COLUMN {
        return Some(k);
      }
    }
    return None;
  }

  function Join(fields: seq<string>): string {
    if fields == [] then ""
    else if |fields| == 1 then fields[0]
    else Join(fields[..|fields| - 1]) + [0 as char] + fields[|fields| - 1]
  }

  /** A row too short to have the duration column is left as it is. */
  function Normalized(row: seq<string>, column: Option<nat>): string {
    Join(if column.Some? && column.value < |row| then row[column.value := DURATION] else row)
  }

  ghost function AllNormalized(rows: seq<seq<string>>, column: Option<nat>): seq<string> {
    seq(|rows|, k requires 0 <= k < |rows| => Normalized(rows[k], column))
  }

  // ----- writing the runs -----

  method WriteValues(values: seq<string>) returns (file: string)
    ensures file == WriteAll(values)
  {
    file := "";
    for k := 0 to |values|
      invariant file == WriteAll(values[..k])
    {
      WriteAllPush(values[..k], values[k]);
      assert values[..k + 1] == values[..k] + [values[k]];
      file := file + Write(values[k]);
    }
    assert values[..|values|] == values;
  }

  method WriteRun(chunk: seq<string>) returns (file: string)
    requires chunk != [] && forall v <- chunk :: |v| <= MAX_INT
    ensures GoodFile(file) && multiset(ReadAll(file)) == multiset(chunk) && |ReadAll(file)| == |chunk|
  {
    LexIsTotalOrder();
    var sorted := SortSlice(chunk, LexLeq);
    SameMembers(sorted, chunk);
    SameLength(sorted, chunk);
    file := WriteValues(sorted);
    ReadAllWritten(sorted);
  }

  ghost predicate GoodRunFile(file: string, chunkSize: nat) {
    GoodFile(file) && |ReadAll(file)| <= chunkSize
  }

  /** A chunk becomes one more run; nothing is written for an empty chunk. */
  method FlushChunk(files: seq<string>, chunk: seq<string>, ghost chunkSize: nat) returns (more: seq<string>)
    requires (forall f <- files :: GoodRunFile(f, chunkSize)) && (forall v <- chunk :: |v| <= MAX_INT) && |chunk| <= chunkSize
    ensures (forall f <- more :: GoodRunFile(f, chunkSize)) && AllValues(more) == AllValues(files) + multiset(chunk)
  {
    if |chunk| == 0 {
      return files;
    }
    var file := WriteRun(chunk);
    assert (files + [file])[..|files + [file]| - 1] == files;
    more := files + [file];
  }

  /** Adds one value to the chunk and writes the chunk out when it is full. */
  method TakeValue(files: seq<string>, chunk: seq<string>, value: string, chunkSize: nat)
    returns (more: seq<string>, left: seq<string>)
    requires (forall f <- files :: GoodRunFile(f, chunkSize)) && forall v <- chunk :: |v| <= MAX_INT
    requires |chunk| < chunkSize && |value| <= MAX_INT
    ensures (forall f <- more :: GoodRunFile(f, chunkSize)) && forall v <- left :: |v| <= MAX_INT
    ensures |left| < chunkSize
    ensures AllValues(more) + multiset(left) == (AllValues(files) + multiset(chunk)) + multiset{value}
  {
    more, left := files, chunk + [value];
    assert multiset(left) == multiset(chunk) + multiset{value};
    Regroup(AllValues(files), multiset(chunk), multiset{value});
    if |left| == chunkSize {
      more := FlushChunk(files, left, chunkSize);
      left := [];
    }
  }

  /** Rows go to sorted run files of at most `chunkSize` values each; together they hold every row. */
  method WriteRuns(rows: seq<seq<string>>, column: Option<nat>, chunkSize: nat) returns (files: seq<string>)
    requires chunkSize >= 1 && forall row <- rows :: |Normalized(row, column)| <= MAX_INT
    ensures (forall f <- files :: GoodRunFile(f, chunkSize)) && AllValues(files) == multiset(AllNormalized(rows, column))
  {
    files := [];
    var chunk: seq<string> := [];
    for k := 0 to |rows|
      invariant |chunk| < chunkSize && (forall v <- chunk :: |v| <= MAX_INT)
      invariant forall f <- files :: GoodRunFile(f, chunkSize)
      invariant AllValues(files) + multiset(chunk) == multiset(AllNormalized(rows[..k], column))
    {
      OneMoreRow(rows, k, column);
      files, chunk := TakeValue(files, chunk, Normalized(rows[k], column), chunkSize);
    }
    assert rows[..|rows|] == rows;
    files := FlushChunk(files, chunk, chunkSize);
  }

  lemma OneMoreRow(rows: seq<seq<string>>, k: nat, column: Option<nat>)
    requires k < |rows|
    ensures multiset(AllNormalized(rows[..k + 1], column))
         == multiset(AllNormalized(rows[..k], column)) + multiset{Normalized(rows[k], column)}
  {
    assert AllNormalized(rows[..k + 1], column) == AllNormalized(rows[..k], column) + [Normalized(rows[k], column)];
  }

  // ----- the digest's input -----

  datatype DigestError = BadChunkSize | NoHeader | UnreadableRun

  /** The values in order, as many times as they occur, one per line. */
  ghost predicate IsSortedStream(feed: string, values: seq<string>) {
    exists out :: SortedText(out) && multiset(out) == multiset(values) && feed == Lines(out)
  }

  method DigestInput(header: seq<string>, rows: seq<seq<string>>, chunkSize: int)
    returns (r: Outcome<string, DigestError>, ghost column: Option<nat>)
    requires forall row <- rows, c: Option<nat> :: |Normalized(row, c)| <= MAX_INT
    ensures r.Failure? <==> chunkSize < 1 || header == []
    ensures r.Failure? ==> r.error == if chunkSize < 1 then BadChunkSize else NoHeader
    ensures r.Success? ==> FirstDuration(header, column) && IsSortedStream(r.value, AllNormalized(rows, column))
  {
    column := None;
    if chunkSize < 1 {
      return Failure(BadChunkSize), column;
    }
    if |header| == 0 {
      return Failure(NoHeader), column;
    }
    var found := FindDurationColumn(header);
    column := found;
    var files := WriteRuns(rows, found, chunkSize);
    var feed, failed, out := MergeRuns(files);
    assert !failed;
    return Success(feed), column;
  }

  lemma SameHead(a: seq<string>, b: seq<string>)
    requires SortedText(a) && SortedText(b) && multiset(a) == multiset(b) && a != [] && b != []
    ensures a[0] == b[0]
  {
    SameMembers(a, b);
    assert a[0] in a && b[0] in b;
    var i :| 0 <= i < |b| && b[i] == a[0];
    var j :| 0 <= j < |a| && a[j] == b[0];
    LexTotal(a[0], a[0]);
    LexTotal(b[0], b[0]);
    LexAntisymmetric(a[0], b[0]);
  }

  lemma RestOf(a: seq<string>)
    requires a != []
    ensures multiset(a[1..]) == multiset(a) - multiset{a[0]} && a == [a[0]] + a[1..]
  {
    assert a == [a[0]] + a[1..];
  }

  /** Sorting leaves one sequence only. */
  lemma {:induction false} SortedTextUnique(a: seq<string>, b: seq<string>)
    requires SortedText(a) && SortedText(b) && multiset(a) == multiset(b)
    ensures a == b
  {
    SameLength(a, b);
    if a != [] {
      SameHead(a, b);
      RestOf(a);
      RestOf(b);
      SortedTextUnique(a[1..], b[1..]);
    }
  }

  // ----- permuted rows -----

  lemma SplitRows(rows: seq<seq<string>>, row: seq<string>) returns (before: seq<seq<string>>, after: seq<seq<string>>)
    requires row in rows
    ensures rows == before + [row] + after
  {
    var k :| 0 <= k < |rows| && rows[k] == row;
    before, after := rows[..k], rows[k + 1..];
  }

  lemma NormalizedBoth(a: seq<seq<string>>, b: seq<seq<string>>, column: Option<nat>)
    ensures AllNormalized(a + b, column) == AllNormalized(a, column) + AllNormalized(b, column)
  {
  }

  lemma NormalizedAround(before: seq<seq<string>>, row: seq<string>, after: seq<seq<string>>, column: Option<nat>)
    ensures multiset(AllNormalized(before + [row] + after, column))
         == multiset(AllNormalized(before + after, column)) + multiset{Normalized(row, column)}
  {
    NormalizedBoth(before + [row], after, column);
    NormalizedBoth(before, [row], column);
    NormalizedBoth(before, after, column);
    assert AllNormalized([row], column) == [Normalized(row, column)];
  }

  lemma CancelRow(front: seq<seq<string>>, row: seq<string>, before: seq<seq<string>>, after: seq<seq<string>>)
    requires multiset(front + [row]) == multiset(before + [row] + after)
    ensures multiset(front) == multiset(before + after)
  {
    assert multiset(front) == multiset(front + [row]) - multiset{row};
    assert multiset(before + after) == multiset(before + [row] + after) - multiset{row};
  }

  /** Permuted rows normalize to permuted values. */
  lemma {:induction false} NormalizedPermuted(rows: seq<seq<string>>, rows': seq<seq<string>>, column: Option<nat>)
    requires multiset(rows) == multiset(rows')
    ensures multiset(AllNormalized(rows, column)) == multiset(AllNormalized(rows', column))
  {
    SameLength(rows, rows');
    if rows != [] {
      SameMembers(rows, rows');
      var front, row := rows[..|rows| - 1], rows[|rows| - 1];
      assert rows == front + [row] && row in rows;
      var before, after := SplitRows(rows', row);
      CancelRow(front, row, before, after);
      NormalizedPermuted(front, before + after, column);
      NormalizedAround(before, row, after, column);
      NormalizedAround(front, row, [], column);
      assert front + [row] + [] == rows && front + [] == front;
    }
  }

  lemma SameColumn(header: seq<string>, one: Option<nat>, other: Option<nat>)
    requires FirstDuration(header, one) && FirstDuration(header, other)
    ensures one == other
  {
    if one.Some? && other.Some? {
      assert header[one.value] == header[other.value] == DURATION_COLUMN;
    }
  }

  /** With one header, permuted rows feed the digest the same bytes. */
  lemma DigestInputUnique(header: seq<string>, rows: seq<seq<string>>, rows': seq<seq<string>>,
                          column: Option<nat>, column': Option<nat>, one: string, other: string)
    requires multiset(rows) == multiset(rows') && FirstDuration(header, column) && FirstDuration(header, column')
    requires IsSortedStream(one, AllNormalized(rows, column)) && IsSortedStream(other, AllNormalized(rows', column'))
    ensures one == other
  {
    SameColumn(header, column, column');
    NormalizedPermuted(rows, rows', column);
    var a :| SortedText(a) && multiset(a) == multiset(AllNormalized(rows, column)) && one == Lines(a);
    var b :| SortedText(b) && multiset(b) == multiset(AllNormalized(rows', column')) && other == Lines(b);
    SortedTextUnique(a, b);
  }

  /** Neither the order of the rows nor the chunk size can be told from the digest. */
  method DigestBoth(header: seq<string>, rows: seq<seq<string>>, rows': seq<seq<string>>, n: int, m: int)
    returns (one: Outcome<string, DigestError>, other: Outcome<string, DigestError>)
    requires multiset(rows) == multiset(rows') && n >= 1 && m >= 1
    requires forall row <- rows, c: Option<nat> :: |Normalized(row, c)| <= MAX_INT
    ensures one == other && (one.Success? <==> header != [])
  {
    SameMembers(rows, rows');
    ghost var column, column';
    one, column := DigestInput(header, rows, n);
    other, column' := DigestInput(header, rows', m);
    if one.Success? {
      DigestInputUnique(header, rows, rows', column, column', one.value, other.value);
    }
  }
}
