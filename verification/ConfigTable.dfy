/** Configuration tables: rows, and the indices built over them. */
module ConfigTable {
  import opened Wrappers

  /** A row has a value for each of its table's field numbers. */
  type Row<V> = map<int, V>

  // ---- Scanning ----

  function First<T>(rows: seq<T>, p: T -> bool): Option<T> {
    if rows == [] then None
    else if p(rows[0]) then Some(rows[0])
    else First(rows[1..], p)
  }

  predicate Has<V(==)>(row: Row<V>, fields: seq<int>, key: seq<V>) {
    |fields| == |key| && forall i | 0 <= i < |fields| :: fields[i] in row && row[fields[i]] == key[i]
  }

  /** The first row with these values in these fields. */
  function Scan<V(==)>(rows: seq<Row<V>>, fields: seq<int>, key: seq<V>): Option<Row<V>> {
    First(rows, row => Has(row, fields, key))
  }

  lemma {:induction false} FirstAt<T>(rows: seq<T>, p: T -> bool, i: nat)
    requires i < |rows| && p(rows[i]) && forall j | 0 <= j < i :: !p(rows[j])
    ensures First(rows, p) == Some(rows[i])
  {
    if i == 0 {
    } else {
      assert !p(rows[0]);
      FirstAt(rows[1..], p, i - 1);
    }
  }

  lemma {:induction false} NoFirst<T>(rows: seq<T>, p: T -> bool)
    requires forall j | 0 <= j < |rows| :: !p(rows[j])
    ensures First(rows, p) == None
  {
    if rows == [] {
    } else {
      assert !p(rows[0]);
      NoFirst(rows[1..], p);
    }
  }

  // ---- Indexing ----

  predicate Uniform<V>(rows: seq<Row<V>>, fields: set<int>) {
    forall i | 0 <= i < |rows| :: rows[i].Keys == fields
  }

  predicate Known(fields: set<int>, numbers: seq<int>) {
    forall k | 0 <= k < |numbers| :: numbers[k] in fields
  }

  function KeyOf<V>(row: Row<V>, numbers: seq<int>): seq<V>
    requires Known(row.Keys, numbers)
  {
    seq(|numbers|, k requires 0 <= k < |numbers| => row[numbers[k]])
  }

  /** The value of one field, row by row, and the values of several. */
  function Column<V>(rows: seq<Row<V>>, fields: set<int>, number: int): seq<V>
    requires Uniform(rows, fields) && number in fields
  {
    seq(|rows|, i requires 0 <= i < |rows| => rows[i][number])
  }

  function Columns<V>(rows: seq<Row<V>>, fields: set<int>, numbers: seq<int>): seq<seq<V>>
    requires Uniform(rows, fields) && Known(fields, numbers)
  {
    seq(|rows|, i requires 0 <= i < |rows| => KeyOf(rows[i], numbers))
  }

  predicate Distinct<K(==)>(keys: seq<K>) {
    forall i, j | 0 <= i < j < |keys| :: keys[i] != keys[j]
  }

  /** The index maps exactly the first n keys, each to its row. */
  predicate Agrees<K>(keys: seq<K>, n: nat, index: map<K, nat>)
    requires n <= |keys|
  {
    && (forall i | 0 <= i < n :: keys[i] in index && index[keys[i]] == i)
    && (forall key | key in index :: index[key] < n && keys[index[key]] == key)
  }

  /** Only the row at position i has these values. */
  predicate Only<V(==)>(rows: seq<Row<V>>, fields: seq<int>, key: seq<V>, i: nat) {
    forall j | 0 <= j < |rows| :: Has(rows[j], fields, key) <==> j == i
  }

  lemma HasKey<V>(row: Row<V>, fields: seq<int>, key: seq<V>)
    requires Known(row.Keys, fields)
    ensures Has(row, fields, key) <==> KeyOf(row, fields) == key
  {
  }

  /** An index lookup is the scan, and the row found is the only one with its key. */
  lemma LookupIsScan<V, K>(rows: seq<Row<V>>, numbers: seq<int>, key: seq<V>, keys: seq<K>, k: K, index: map<K, nat>)
    requires |keys| == |rows| && Agrees(keys, |rows|, index)
    requires forall i | 0 <= i < |rows| :: Has(rows[i], numbers, key) <==> keys[i] == k
    ensures Scan(rows, numbers, key) == if k in index then Some(rows[index[k]]) else None
    ensures k in index ==> Only(rows, numbers, key, index[k])
  {
    if k in index {
      FirstAt(rows, row => Has(row, numbers, key), index[k]);
    } else {
      NoFirst(rows, row => Has(row, numbers, key));
    }
  }

  class ConfigTable<V(==)> {
    const rows: seq<Row<V>>
    const fields: set<int>
    var fieldIndex: map<int, map<V, nat>>
    var compositeIndices: map<seq<int>, map<seq<V>, nat>>

    ghost predicate Valid()
      reads this
    {
      && Uniform(rows, fields)
      && (forall f | f in fieldIndex :: f in fields && Agrees(Column(rows, fields, f), |rows|, fieldIndex[f]))
      && (forall fs | fs in compositeIndices ::
            Known(fields, fs) && Agrees(Columns(rows, fields, fs), |rows|, compositeIndices[fs]))
    }

    constructor (rows: seq<Row<V>>, fields: set<int>)
      requires Uniform(rows, fields)
      ensures Valid() && this.rows == rows && this.fields == fields
      ensures fieldIndex == map[] && compositeIndices == map[]
    {
      this.rows, this.fields := rows, fields;
      fieldIndex, compositeIndices := map[], map[];
    }

    /** The first row that satisfies the predicate. */
    method FindRow(p: Row<V> -> bool) returns (row: Option<Row<V>>)
      ensures row == First(rows, p)
    {
      for i := 0 to |rows|
        invariant First(rows, p) == First(rows[i..], p)
      {
        if p(rows[i]) { return Some(rows[i]); }
      }
      return None;
    }

    /** Fails on an unknown field, and exactly when two rows have the same value in it. */
    method BuildIndex(number: int) returns (ok: bool)
      requires Valid()
      modifies this`fieldIndex
      ensures Valid()
      ensures ok <==> number in fields && Distinct(Column(rows, fields, number))
      ensures fieldIndex.Keys == old(fieldIndex.Keys) + if ok then {number} else {}
      ensures forall f | f in old(fieldIndex) :: fieldIndex[f] == old(fieldIndex[f])
    {
      if number !in fields { return false; }
      ghost var keys := Column(rows, fields, number);
      var index: map<V, nat> := map[];
      for i := 0 to |rows|
        invariant Agrees(keys, i, index)
      {
        var key := rows[i][number];
        assert key == keys[i];
        if key in index {
          assert keys[index[key]] == keys[i];
          return false;
        }
        index := index[key := i];
      }
      if number !in fieldIndex {
        fieldIndex := fieldIndex[number := index];
      }
      return true;
    }

    method FindRowByIndex(number: int, key: V) returns (row: Option<Row<V>>)
      requires Valid()
      ensures row == if number in fieldIndex then Scan(rows, [number], [key]) else None
      ensures row.Some? ==> exists i | 0 <= i < |rows| ::
          rows[i] == row.value && Only(rows, [number], [key], i)
    {
      if number !in fieldIndex { return None; }
      forall i | 0 <= i < |rows|
        ensures Has(rows[i], [number], [key]) <==> Column(rows, fields, number)[i] == key
      {
        assert rows[i][[number][0]] == Column(rows, fields, number)[i];
      }
      LookupIsScan(rows, [number], [key], Column(rows, fields, number), key, fieldIndex[number]);
      if key !in fieldIndex[number] { return None; }
      return Some(rows[fieldIndex[number][key]]);
    }

    static method CompositeKey(row: Row<V>, numbers: seq<int>) returns (key: seq<V>)
      requires Known(row.Keys, numbers)
      ensures key == KeyOf(row, numbers)
    {
      key := [];
      for k := 0 to |numbers|
        invariant key == KeyOf(row, numbers)[..k]
      {
        key := key + [row[numbers[k]]];
      }
    }

    /** Fails on an unknown field, and exactly when two rows have the same values in the fields. */
    method BuildCompositeIndex(numbers: seq<int>) returns (ok: bool)
      requires Valid()
      modifies this`compositeIndices
      ensures Valid()
      ensures ok <==> Known(fields, numbers) && Distinct(Columns(rows, fields, numbers))
      ensures compositeIndices.Keys == old(compositeIndices.Keys) + if ok then {numbers} else {}
      ensures forall fs | fs in old(compositeIndices) :: compositeIndices[fs] == old(compositeIndices[fs])
    {
      for k := 0 to |numbers|
        invariant forall j | 0 <= j < k :: numbers[j] in fields
      {
        if numbers[k] !in fields { return false; }
      }
      ghost var keys := Columns(rows, fields, numbers);
      var index: map<seq<V>, nat> := map[];
      for i := 0 to |rows|
        invariant Agrees(keys, i, index) && compositeIndices == old(compositeIndices)
      {
        var key := CompositeKey(rows[i], numbers);
        assert key == keys[i];
        if key in index {
          assert keys[index[key]] == keys[i];
          return false;
        }
        index := index[key := i];
      }
      if numbers !in compositeIndices {
        compositeIndices := compositeIndices[numbers := index];
      }
      return true;
    }

    method FindRowByCompositeIndex(numbers: seq<int>, key: seq<V>) returns (row: Option<Row<V>>)
      requires Valid() && |key| > 1
      ensures row == if numbers in compositeIndices then Scan(rows, numbers, key) else None
      ensures row.Some? ==> exists i | 0 <= i < |rows| ::
          rows[i] == row.value && Only(rows, numbers, key, i)
    {
      if numbers !in compositeIndices { return None; }
      forall i | 0 <= i < |rows|
        ensures Has(rows[i], numbers, key) <==> Columns(rows, fields, numbers)[i] == key
      {
        HasKey(rows[i], numbers, key);
      }
      LookupIsScan(rows, numbers, key, Columns(rows, fields, numbers), key, compositeIndices[numbers]);
      if key !in compositeIndices[numbers] { return None; }
      return Some(rows[compositeIndices[numbers][key]]);
    }
  }
}
