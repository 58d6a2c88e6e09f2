/**
 The open-addressing table that finds duplicate basic rows. It stores row numbers only and reads
 each stored row's key back from the rows; it behaves as a map from keys to row numbers.
 */
module DuplicateTable {
  import opened Integers
  import opened Wrappers
  import opened Sorting
  import opened Networks

  /** A loaded row. `net` is its boundary, `selector` the addresses it names, `text` the selector's text. */
  datatype InputRow = InputRow(net: Option<Network>, selector: Option<Network>, text: string,
                               src: string, dst: string, port: int)

  predicate Parsed(row: InputRow) {
    row.net.Some? && row.selector.Some?
  }

  predicate IsBasic(row: InputRow) {
    row.src == "" && row.dst == ""
  }

  datatype BasicKey = BasicKey(boundary: int, selector: int, port: int, prefix: int, selectorPrefix: int)

  /** The port is cut to 16 bits, the prefixes to 8. */
  function KeyOf(row: InputRow): BasicKey
    requires Parsed(row)
  {
    BasicKey(row.net.value.start, row.selector.value.start, row.port % 0x1_0000,
             row.net.value.prefix % 0x100, row.selector.value.prefix % 0x100)
  }

  /** Row 0 marks an empty slot. */
  datatype Slot = Slot(hash: int, row: nat)

  // ----- positions on a ring -----

  /** The place `d` steps after `start`. */
  function Wrap(start: nat, d: nat, size: nat): nat {
    if start + d < size then start + d else start + d - size
  }

  /** How many steps lead from `start` to `place`. */
  function Distance(start: nat, place: nat, size: nat): nat
    requires start < size
  {
    if place >= start then place - start else place + size - start
  }

  lemma WrapReaches(start: nat, place: nat, size: nat)
    requires start < size && place < size
    ensures Distance(start, place, size) < size && Wrap(start, Distance(start, place, size), size) == place
    ensures forall d :: 0 <= d < size && Wrap(start, d, size) == place ==> d == Distance(start, place, size)
  {
  }

  lemma NextOnRing(start: nat, d: nat, size: nat)
    requires start < size && d + 1 <= size
    ensures (Wrap(start, d, size) + 1) % size == if d + 1 < size then Wrap(start, d + 1, size) else start
  {
    if Wrap(start, d, size) + 1 == size {
      assert size % size == 0;
    }
  }

  ghost function Indexes(n: nat): seq<int> {
    seq(n, i => i)
  }

  /** Fewer members than places leave a place free. */
  lemma FreePlace(taken: set<int>, n: nat)
    requires |taken| < n
    ensures exists i :: i in Indexes(n) && i !in taken
  {
    IncreasingSize(Indexes(n));
    var all := set x <- Indexes(n);
    if all <= taken {
      SubsetAtMost(all, taken);
      assert false;
    }
    var i :| i in all && i !in taken;
    assert i in Indexes(n);
  }

  // ----- the table -----

  /** `at` says where each key of the table sits. */
  ghost predicate Holds(slots: seq<Slot>, rows: seq<InputRow>, hash: BasicKey -> nat, at: map<BasicKey, nat>) {
    |slots| > 0 && Placed(slots, rows, at) && AllFiled(slots, hash, at) && NoGaps(slots, hash, at)
  }

  ghost predicate Placed(slots: seq<Slot>, rows: seq<InputRow>, at: map<BasicKey, nat>) {
    forall k <- at :: at[k] < |slots| && IsKeyAt(slots[at[k]], k, rows)
  }

  ghost predicate AllFiled(slots: seq<Slot>, hash: BasicKey -> nat, at: map<BasicKey, nat>) {
    forall i :: 0 <= i < |slots| && slots[i].row != 0 ==> Filed(slots[i], i, hash, at)
  }

  /** No empty slot lies between where a key's probing starts and where the key sits. */
  ghost predicate NoGaps(slots: seq<Slot>, hash: BasicKey -> nat, at: map<BasicKey, nat>)
    requires |slots| > 0
  {
    forall k <- at, i :: 0 <= i < |slots| && slots[i].row == 0 ==> !Before(hash(k) % |slots|, i, at[k], |slots|)
  }

  ghost predicate IsKeyAt(slot: Slot, k: BasicKey, rows: seq<InputRow>) {
    0 < slot.row <= |rows| && Parsed(rows[slot.row - 1]) && KeyOf(rows[slot.row - 1]) == k
  }

  /** An occupied slot names a row, carries the hash of its key, and is where that key sits. */
  ghost predicate Filed(slot: Slot, i: nat, hash: BasicKey -> nat, at: map<BasicKey, nat>) {
    exists k <- at :: at[k] == i && slot.hash == hash(k)
  }

  /** Probing from `start` passes `i` before it comes to `place`. */
  ghost predicate Before(start: nat, i: nat, place: nat, size: nat)
    requires start < size
  {
    Distance(start, i, size) < Distance(start, place, size)
  }

  ghost function Taken(slots: seq<Slot>): set<int> {
    set i <- Indexes(|slots|) | 0 <= i < |slots| && slots[i].row != 0
  }

  ghost function ContentsOf(slots: seq<Slot>, at: map<BasicKey, nat>): map<BasicKey, int> {
    map k <- at :: if at[k] < |slots| then slots[at[k]].row else 0
  }

  /** The first `d` places of the probe sequence are occupied by other keys. */
  ghost predicate Passed(slots: seq<Slot>, rows: seq<InputRow>, start: nat, d: nat, key: BasicKey)
    requires start < |slots| && d <= |slots|
  {
    forall e :: 0 <= e < d ==>
                  var slot := slots[Wrap(start, e, |slots|)];
                  slot.row != 0 && !IsKeyAt(slot, key, rows)
  }

  /** A gap in the probe sequence proves that the key is absent. */
  lemma AbsentAtGap(slots: seq<Slot>, rows: seq<InputRow>, hash: BasicKey -> nat, at: map<BasicKey, nat>,
                    key: BasicKey, d: nat)
    requires Holds(slots, rows, hash, at) && d < |slots|
    requires Passed(slots, rows, hash(key) % |slots|, d, key)
    requires slots[Wrap(hash(key) % |slots|, d, |slots|)].row == 0
    ensures key !in at
  {
    var size := |slots|;
    var start := hash(key) % size;
    WrapReaches(start, Wrap(start, d, size), size);
    assert key in at ==> !Before(start, Wrap(start, d, size), at[key], size);
    if key in at {
      WrapReaches(start, at[key], size);
      assert false;
    }
  }

  /** Fewer keys than places leave a gap within one turn. */
  lemma GapAhead(slots: seq<Slot>, rows: seq<InputRow>, start: nat, key: BasicKey)
    requires start < |slots| && |Taken(slots)| < |slots|
    ensures !Passed(slots, rows, start, |slots|, key)
  {
    FreePlace(Taken(slots), |slots|);
    var i :| i in Indexes(|slots|) && i !in Taken(slots);
    WrapReaches(start, i, |slots|);
    assert slots[Wrap(start, Distance(start, i, |slots|), |slots|)].row == 0;
  }

  lemma FillTaken(slots: seq<Slot>, index: nat, slot: Slot)
    requires index < |slots| && slots[index].row == 0 && slot.row > 0
    ensures |Taken(slots[index := slot])| == |Taken(slots)| + 1
  {
    assert Indexes(|slots|)[index] == index;
    assert Taken(slots[index := slot]) == Taken(slots) + {index};
  }

  lemma FillFiled(slots: seq<Slot>, hash: BasicKey -> nat, at: map<BasicKey, nat>, key: BasicKey, index: nat, row: nat)
    requires index < |slots| && AllFiled(slots, hash, at) && key !in at
    ensures AllFiled(slots[index := Slot(hash(key), row)], hash, at[key := index])
  {
    var filled, now := slots[index := Slot(hash(key), row)], at[key := index];
    forall i | 0 <= i < |filled| && filled[i].row != 0 ensures Filed(filled[i], i, hash, now) {
      if i == index {
        assert now[key] == i;
      } else {
        var k :| k in at && at[k] == i && slots[i].hash == hash(k);
        assert k in now && now[k] == i;
      }
    }
  }

  lemma FillNoGaps(slots: seq<Slot>, rows: seq<InputRow>, hash: BasicKey -> nat, at: map<BasicKey, nat>,
                   key: BasicKey, d: nat, row: nat)
    requires d < |slots| && row > 0 && NoGaps(slots, hash, at) && key !in at
    requires Passed(slots, rows, hash(key) % |slots|, d, key)
    ensures var index := Wrap(hash(key) % |slots|, d, |slots|);
            NoGaps(slots[index := Slot(hash(key), row)], hash, at[key := index])
  {
    var size := |slots|;
    var start := hash(key) % size;
    var index := Wrap(start, d, size);
    var filled, now := slots[index := Slot(hash(key), row)], at[key := index];
    WrapReaches(start, index, size);
    forall k <- now, i | 0 <= i < size && filled[i].row == 0 ensures !Before(hash(k) % size, i, now[k], size) {
      WrapReaches(start, i, size);
      if k != key {
        assert k in at && slots[i].row == 0;
      }
    }
  }

  /** Filling the gap adds the key and moves nothing. */
  lemma FillGap(slots: seq<Slot>, rows: seq<InputRow>, hash: BasicKey -> nat, at: map<BasicKey, nat>,
                key: BasicKey, d: nat, row: nat)
    requires Holds(slots, rows, hash, at) && d < |slots|
    requires Passed(slots, rows, hash(key) % |slots|, d, key)
    requires slots[Wrap(hash(key) % |slots|, d, |slots|)].row == 0
    requires IsKeyAt(Slot(hash(key), row), key, rows)
    ensures var index := Wrap(hash(key) % |slots|, d, |slots|);
            var filled := slots[index := Slot(hash(key), row)];
            && Holds(filled, rows, hash, at[key := index])
            && |Taken(filled)| == |Taken(slots)| + 1
            && ContentsOf(filled, at[key := index]) == ContentsOf(slots, at)[key := row]
  {
    var index := Wrap(hash(key) % |slots|, d, |slots|);
    AbsentAtGap(slots, rows, hash, at, key, d);
    FillTaken(slots, index, Slot(hash(key), row));
    FillFiled(slots, hash, at, key, index, row);
    FillNoGaps(slots, rows, hash, at, key, d, row);
  }

  class Table {
    const hash: BasicKey -> nat
    ghost const rows: seq<InputRow>
    ghost const limit: nat
    const slots: array<Slot>
    var fallback: Option<map<BasicKey, int>>
    ghost var at: map<BasicKey, nat>
    ghost var added: nat

    ghost predicate Valid()
      reads this, slots
    {
      && added <= limit
      && (fallback.None? ==> limit <= slots.Length && limit <= MAX32)
      && (fallback.None? && limit > 0 ==> Holds(slots[..], rows, hash, at) && |Taken(slots[..])| == added)
    }

    /** The row that each added key came from. */
    ghost function Contents(): map<BasicKey, int>
      reads this, slots
    {
      if fallback.Some? then fallback.value else ContentsOf(slots[..], at)
    }

    constructor (count: nat, hash: BasicKey -> nat, ghost rows: seq<InputRow>)
      ensures Valid() && fresh(slots) && Contents() == map[]
      ensures this.hash == hash && this.rows == rows && limit == count && added == 0
      ensures fallback.Some? <==> count > MAX32
    {
      var capacity := if count == 0 || count > MAX32 then 0 else 1;
      if count != 0 && count <= MAX32 {
        while capacity < count + count / 4
          invariant 1 <= capacity <= 2 * (count + count / 4)
          decreases 2 * count - capacity
        {
          assert capacity <= MAX_INT / 2;
          capacity := capacity * 2;
        }
      }
      this.hash, this.rows, limit, added, at := hash, rows, count, 0, map[];
      fallback := if count > MAX32 then Some(map[]) else None;
      slots := new Slot[capacity](i => Slot(0, 0));
      new;
      assert Taken(slots[..]) == {};
    }
  
    /** Follows the probe sequence to the key or to the first gap. */
    method Probe(rows: seq<InputRow>, key: BasicKey) returns (index: nat, found: bool, ghost d: nat)
      requires Valid() && rows == this.rows && added < limit && fallback.None?
      ensures index < slots.Length && d < slots.Length
      ensures found ==> key in at && at[key] == index && slots[index].row != 0
      ensures !found ==>
                && index == Wrap(hash(key) % slots.Length, d, slots.Length) && slots[index].row == 0
                && Passed(slots[..], rows, hash(key) % slots.Length, d, key)
    {
      var size, start := slots.Length, hash(key) % slots.Length;
      index, d := start, 0;
      while true
        invariant d < size && index == Wrap(start, d, size)
        invariant Passed(slots[..], rows, start, d, key)
        decreases size - d
      {
        var slot := slots[index];
        if slot.row == 0 {
          return index, false, d;
        }
        assert Filed(slots[..][index], index, hash, at);
        ghost var k :| k in at && at[k] == index && slot.hash == hash(k);
        assert IsKeyAt(slots[..][at[k]], k, rows);
        if slot.hash == hash(key) && KeyOf(rows[slot.row - 1]) == key {
          return index, true, d;
        }
        assert !IsKeyAt(slot, key, rows);
        NextOnRing(start, d, size);
        GapAhead(slots[..], rows, start, key);
        index, d := (index + 1) % size, d + 1;
      }
    }

    /**
     Reports the row that has the same key, if one was added before; otherwise remembers this row.
     At most `limit` keys are added, so probing always ends.
     */
    method Add(rows: seq<InputRow>, key: BasicKey, row: nat) returns (previous: int, duplicate: bool)
      requires Valid() && rows == this.rows && added < limit
      requires IsKeyAt(Slot(0, row), key, rows) && (fallback.None? ==> row <= MAX32)
      modifies this, slots
      ensures Valid() && fallback.Some? == old(fallback.Some?)
      ensures duplicate <==> key in old(Contents())
      ensures duplicate ==> previous == old(Contents())[key] && added == old(added)
      ensures !duplicate ==> Contents() == old(Contents())[key := row] && added == old(added) + 1
      ensures duplicate && fallback.None? ==> Contents() == old(Contents())
    {
      if fallback.Some? {
        duplicate := key in fallback.value;
        previous := if duplicate then fallback.value[key] else 0;
        fallback := Some(fallback.value[key := row]);
        added := if duplicate then added else added + 1;
        return;
      }
      ghost var before := slots[..];
      var index, found, d := Probe(rows, key);
      if found {
        return slots[index].row, true;
      }
      AbsentAtGap(before, rows, hash, at, key, d);
      FillGap(before, rows, hash, at, key, d, row);
      slots[index] := Slot(hash(key), row % 0x1_0000_0000);
      assert slots[..] == before[index := Slot(hash(key), row)];
      at := at[key := index];
      added := added + 1;
      return 0, false;
    }
  }
}
