/** Values in a sort run: an 8-byte big-endian length, then the bytes. A byte is a character below 256. */
module LengthDelimited {
  import opened Integers

  function Pow256(k: nat): (r: nat)
    ensures r >= 1
  {
    if k == 0 then 1 else 256 * Pow256(k - 1)
  }

  /** The `k` low bytes of `n`, most significant first. */
  function BigEndian(n: nat, k: nat): (s: string)
    ensures |s| == k
  {
    if k == 0 then "" else BigEndian(n / 256, k - 1) + [(n % 256) as char]
  }

  function Number(s: string): nat {
    if s == "" then 0 else Number(s[..|s| - 1]) * 256 + s[|s| - 1] as int
  }

  lemma {:induction false} NumberOfBigEndian(n: nat, k: nat)
    requires n < Pow256(k)
    ensures Number(BigEndian(n, k)) == n
  {
    if k > 0 {
      NumberOfBigEndian(n / 256, k - 1);
      assert BigEndian(n, k)[..k - 1] == BigEndian(n / 256, k - 1);
    }
  }

  lemma Pow256Of8()
    ensures Pow256(8) == 0x1_0000_0000_0000_0000
  {
    assert Pow256(4) == 0x1_0000_0000;
  }

  function Write(value: string): string {
    BigEndian(|value|, 8) + value
  }

  datatype ReadResult = Value(value: string, rest: string) | EndOfFile | UnexpectedEnd | TooLong

  /** Reading nothing at all where bytes were due counts as the end of the file. */
  function Read(stream: string): (r: ReadResult)
    ensures r.Value? ==> |r.rest| + 8 <= |stream|
  {
    if stream == "" then EndOfFile
    else if |stream| < 8 then UnexpectedEnd
    else
      var size, body := Number(stream[..8]), stream[8..];
      if size > MAX_INT then TooLong
      else if size > 0 && body == "" then EndOfFile
      else if |body| < size then UnexpectedEnd
      else Value(body[..size], body[size..])
  }

  /** Reading gives back what was written, however the stream goes on. */
  lemma ReadWritten(value: string, rest: string)
    requires |value| <= MAX_INT
    ensures Read(Write(value) + rest) == Value(value, rest)
  {
    var stream := Write(value) + rest;
    Pow256Of8();
    NumberOfBigEndian(|value|, 8);
    assert stream[..8] == BigEndian(|value|, 8);
    assert stream[8..] == value + rest;
    assert (value + rest)[..|value|] == value && (value + rest)[|value|..] == rest;
  }

  function WriteAll(values: seq<string>): string {
    if values == [] then "" else Write(values[0]) + WriteAll(values[1..])
  }

  function ReadAll(stream: string): seq<string>
    decreases |stream|
  {
    match Read(stream)
    case Value(value, rest) => [value] + ReadAll(rest)
    case _ => []
  }

  /**
   Reading comes to the end without an error. A last value of which only the length is left does
   not count as an error: see `CutReads`.
   */
  ghost predicate WellFormed(stream: string)
    decreases |stream|
  {
    match Read(stream)
    case Value(_, rest) => WellFormed(rest)
    case EndOfFile => true
    case _ => false
  }

  lemma {:induction false} ReadAllWritten(values: seq<string>)
    requires forall v <- values :: |v| <= MAX_INT
    ensures WellFormed(WriteAll(values)) && ReadAll(WriteAll(values)) == values
  {
    if values != [] {
      ReadAllWritten(values[1..]);
      ReadWritten(values[0], WriteAll(values[1..]));
      assert values == [values[0]] + values[1..];
    }
  }

  // ----- files that were cut -----

  /** How many values lie whole within the first `k` bytes. */
  function WholeValues(values: seq<string>, k: nat): (n: nat)
    ensures n <= |values|
  {
    if values == [] || k < |Write(values[0])| then 0 else 1 + WholeValues(values[1..], k - |Write(values[0])|)
  }

  /** How many of the first `k` bytes lie behind the last whole value. */
  function BytesBehind(values: seq<string>, k: nat): nat {
    if values == [] || k < |Write(values[0])| then k else BytesBehind(values[1..], k - |Write(values[0])|)
  }

  /** The cut is `BytesBehind` bytes behind a boundary, and short of the next one. */
  lemma {:induction false} CutPosition(values: seq<string>, k: nat)
    requires k <= |WriteAll(values)|
    ensures var n := WholeValues(values, k);
            && k == |WriteAll(values[..n])| + BytesBehind(values, k)
            && if n < |values| then BytesBehind(values, k) < |Write(values[n])| else BytesBehind(values, k) == 0
  {
    if values != [] && k >= |Write(values[0])| {
      var n := WholeValues(values[1..], k - |Write(values[0])|);
      CutPosition(values[1..], k - |Write(values[0])|);
      assert values[..n + 1][0] == values[0] && values[..n + 1][1..] == values[1..][..n];
    }
  }

  /** The beginning of one value: only nothing at all, and the bare length, look like the end. */
  lemma ReadBeginning(value: string, rest: string, k: nat)
    requires |value| <= MAX_INT && k < |Write(value)|
    ensures var r := Read((Write(value) + rest)[..k]);
            !r.Value? && (r.EndOfFile? <==> k == 0 || k == 8)
  {
    var cut := (Write(value) + rest)[..k];
    Pow256Of8();
    NumberOfBigEndian(|value|, 8);
    if k >= 8 {
      assert cut[..8] == BigEndian(|value|, 8);
      assert |cut[8..]| == k - 8;
    }
  }

  lemma ReadOne(value: string, rest: string)
    requires |value| <= MAX_INT
    ensures ReadAll(Write(value) + rest) == [value] + ReadAll(rest)
    ensures WellFormed(Write(value) + rest) <==> WellFormed(rest)
  {
    ReadWritten(value, rest);
  }

  lemma CutBehind(first: string, rest: string, k: nat)
    requires |first| <= k <= |first + rest|
    ensures (first + rest)[..k] == first + rest[..k - |first|]
  {
  }

  lemma TakeOneMore(values: seq<string>, n: nat)
    requires values != [] && n < |values|
    ensures [values[0]] + values[1..][..n] == values[..n + 1]
  {
  }

  /**
   A file of written values, cut anywhere, gives back exactly the values that are still whole. It
   reads without an error if and only if the cut is at the end of a value or just behind a length.
   */
  lemma {:induction false} CutReads(values: seq<string>, k: nat)
    requires (forall v <- values :: |v| <= MAX_INT) && k <= |WriteAll(values)|
    ensures ReadAll(WriteAll(values)[..k]) == values[..WholeValues(values, k)]
    ensures WellFormed(WriteAll(values)[..k]) <==> BytesBehind(values, k) == 0 || BytesBehind(values, k) == 8
  {
    if values == [] {
      assert WriteAll(values)[..k] == "";
    } else if k < |Write(values[0])| {
      ReadBeginning(values[0], WriteAll(values[1..]), k);
    } else {
      var rest, left := WriteAll(values[1..]), k - |Write(values[0])|;
      CutReads(values[1..], left);
      CutBehind(Write(values[0]), rest, k);
      ReadOne(values[0], rest[..left]);
      TakeOneMore(values, WholeValues(values[1..], left));
    }
  }

  /** So a value of which only the length is left is dropped, and nobody notices. */
  lemma CutAfterLength(values: seq<string>, lost: string)
    requires (forall v <- values :: |v| <= MAX_INT) && 0 < |lost| <= MAX_INT
    ensures var cut := WriteAll(values) + BigEndian(|lost|, 8);
            cut < WriteAll(values + [lost]) && WellFormed(cut) && ReadAll(cut) == values
  {
    WriteAllPush(values, lost);
    CutOne(values, lost);
  }

  lemma BareLength(lost: string)
    requires 0 < |lost| <= MAX_INT
    ensures Read(BigEndian(|lost|, 8)) == EndOfFile
  {
    ReadBeginning(lost, "", 8);
    assert (Write(lost) + "")[..8] == BigEndian(|lost|, 8);
  }

  lemma {:induction false} CutOne(values: seq<string>, lost: string)
    requires (forall v <- values :: |v| <= MAX_INT) && 0 < |lost| <= MAX_INT
    ensures var cut := WriteAll(values) + BigEndian(|lost|, 8); WellFormed(cut) && ReadAll(cut) == values
  {
    var end := BigEndian(|lost|, 8);
    if values == [] {
      BareLength(lost);
      assert WriteAll(values) + end == end;
    } else {
      CutOne(values[1..], lost);
      ReadOne(values[0], WriteAll(values[1..]) + end);
      WrittenFirst(values, end);
    }
  }

  lemma WrittenFirst(values: seq<string>, end: string)
    requires values != []
    ensures WriteAll(values) + end == Write(values[0]) + (WriteAll(values[1..]) + end) && values == [values[0]] + values[1..]
  {
    Assoc(Write(values[0]), WriteAll(values[1..]), end);
  }

  lemma Assoc(a: string, b: string, c: string)
    ensures (a + b) + c == a + (b + c)
  {
  }

  lemma {:induction false} WriteAllPush(values: seq<string>, v: string)
    ensures WriteAll(values + [v]) == WriteAll(values) + Write(v)
  {
    if values == [] {
      WriteAllOne(v);
      assert [] + [v] == [v];
      Emptied(Write(v));
    } else {
      WriteAllPush(values[1..], v);
      assert (values + [v])[1..] == values[1..] + [v];
      Assoc(Write(values[0]), WriteAll(values[1..]), Write(v));
    }
  }

  lemma WriteAllOne(v: string)
    ensures WriteAll([v]) == Write(v)
  {
    assert [v][1..] == [];
    Emptied(Write(v));
  }

  lemma Emptied(a: string)
    ensures a + "" == a && "" + a == a
  {
  }
}
