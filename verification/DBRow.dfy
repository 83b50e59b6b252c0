/** A database row with a version and a dirty mark per field, and the conditional SQL update. */
module DBRow {

  datatype Row<V> = Row(version: nat, fields: seq<V>, dirty: seq<bool>) {
    predicate Shaped(n: nat) {
      |fields| == n && |dirty| == n
    }
  }

  /** Is field i part of a copy of the dirty fields? */
  predicate Takes<V>(r: Row<V>, i: nat, withKey: bool, key: nat)
    requires i < |r.dirty|
  {
    r.dirty[i] || (withKey && i == key)
  }

  /** Row r after taking over the dirty fields of t. */
  function Merge<V>(r: Row<V>, t: Row<V>, withKey: bool, key: nat): Row<V>
    requires r.Shaped(|t.dirty|) && t.Shaped(|t.dirty|)
  {
    Row(t.version,
        seq(|t.dirty|, i requires 0 <= i < |t.dirty| =>
          if Takes(t, i, withKey, key) then t.fields[i] else r.fields[i]),
        seq(|t.dirty|, i requires 0 <= i < |t.dirty| => r.dirty[i] || Takes(t, i, withKey, key)))
  }

  /** The dirty fields of a row alone; the others have the blank value. */
  function DirtyCopy<V>(t: Row<V>, blank: seq<V>, withKey: bool, key: nat): Row<V>
    requires t.Shaped(|blank|)
  {
    Merge(Row(0, blank, t.dirty), t, withKey, key)
  }

  /** The row in the database, found by its primary key. */
  datatype Stored<V> = Stored(version: nat, fields: seq<V>)

  predicate Matches<V(==)>(s: Stored<V>, r: Row<V>, oldVersion: nat, key: nat)
    requires key < |s.fields| && r.Shaped(|s.fields|)
  {
    s.version == oldVersion && s.version < r.version && s.fields[key] == r.fields[key]
  }

  /** The conditional update of the dirty columns. */
  function Updated<V(==)>(s: Stored<V>, r: Row<V>, oldVersion: nat, key: nat): Stored<V>
    requires key < |s.fields| && r.Shaped(|s.fields|)
  {
    if Matches(s, r, oldVersion, key)
    then
      Stored(r.version,
             seq(|s.fields|, i requires 0 <= i < |s.fields| => if r.dirty[i] then r.fields[i] else s.fields[i]))
    else s
  }

  class DBRow<V(==)> {
    var version: nat
    const fields: array<V>
    const dirty: array<bool>
    const blank: seq<V>   // the field values of a new message

    ghost predicate Valid()
      reads this
    {
      fields.Length == dirty.Length == |blank| && fields as object != dirty
    }

    ghost function Arrays(): set<object> {
      {fields, dirty}
    }

    ghost function Value(): Row<V>
      reads this, fields, dirty
    {
      Row(version, fields[..], dirty[..])
    }

    constructor (blank: seq<V>)
      ensures Valid() && fresh(fields) && fresh(dirty) && this.blank == blank
      ensures Value() == Row(0, blank, seq(|blank|, _ => false))
    {
      version := 0;
      this.blank := blank;
      fields := new V[|blank|](i requires 0 <= i < |blank| => blank[i]);
      dirty := new bool[|blank|](_ => false);
      new;
      assert fields[..] == blank;
    }

    /** Takes over the dirty fields of target, and its version. */
    method CopyFromDirty(target: DBRow<V>, withKey: bool, key: nat)
      requires Valid() && target.Valid() && fields.Length == target.fields.Length
      requires target != this && target.Arrays() !! Arrays()
      modifies this`version, fields, dirty
      ensures Value() == Merge(old(Value()), target.Value(), withKey, key)
      ensures version == target.version
      ensures forall i | 0 <= i < fields.Length ::
                var taken := target.dirty[i] || (withKey && i == key);
                && fields[i] == (if taken then target.fields[i] else old(fields[i]))
                && dirty[i] == (old(dirty[i]) || taken)
    {
      ghost var was, t := Value(), target.Value();
      var i := 0;
      while i < dirty.Length
        invariant i <= dirty.Length && version == was.version && target.Value() == t
        invariant forall j | 0 <= j < dirty.Length ::
            fields[j] == if j < i then Merge(was, t, withKey, key).fields[j] else was.fields[j]
        invariant forall j | 0 <= j < dirty.Length ::
            dirty[j] == if j < i then Merge(was, t, withKey, key).dirty[j] else was.dirty[j]
      {
        if (withKey && key == i) || target.dirty[i] {
          fields[i] := target.fields[i];
          dirty[i] := true;
        }
        i := i + 1;
      }
      version := target.version;
      assert fields[..] == Merge(was, t, withKey, key).fields;
      assert dirty[..] == Merge(was, t, withKey, key).dirty;
    }

    method CopyDirtyTo(withKey: bool, key: nat) returns (row: DBRow<V>)
      requires Valid()
      ensures fresh(row) && fresh(row.fields) && fresh(row.dirty) && row.Valid() && row.blank == blank
      ensures row.Value() == DirtyCopy(Value(), blank, withKey, key) && row.version == version
      ensures forall i | 0 <= i < fields.Length ::
                var taken := dirty[i] || (withKey && i == key);
                row.fields[i] == (if taken then fields[i] else blank[i]) && row.dirty[i] == taken
    {
      row := new DBRow(blank);
      forall i | 0 <= i < dirty.Length {
        row.dirty[i] := dirty[i];
      }
      row.version := 0;
      assert row.Value() == Row(0, blank, dirty[..]);
      row.CopyFromDirty(this, withKey, key);
    }

    method IsDirty() returns (b: bool)
      ensures b <==> exists i | 0 <= i < dirty.Length :: dirty[i]
    {
      for i := 0 to dirty.Length
        invariant forall j | 0 <= j < i :: !dirty[j]
      {
        if dirty[i] { return true; }
      }
      return false;
    }

    method MarkDirty()
      modifies dirty
      ensures forall i | 0 <= i < dirty.Length :: dirty[i]
    {
      for i := 0 to dirty.Length
        invariant forall j | 0 <= j < i :: dirty[j]
      {
        dirty[i] := true;
      }
    }

    method ClearDirty()
      modifies dirty
      ensures forall i | 0 <= i < dirty.Length :: !dirty[i]
    {
      for i := 0 to dirty.Length
        invariant forall j | 0 <= j < i :: !dirty[j]
      {
        dirty[i] := false;
      }
    }

    /** Sets one field and marks it; an index outside the row throws. */
    method Edit(i: nat, v: V) returns (ok: bool)
      requires Valid()
      modifies fields, dirty
      ensures ok <==> i < fields.Length
      ensures Value() == if ok then old(Value()).(fields := old(fields[..])[i := v], dirty := old(dirty[..])[i := true])
                         else old(Value())
    {
      if i >= dirty.Length { return false; }
      fields[i] := v;
      dirty[i] := true;
      assert fields[..] == old(fields[..])[i := v];
      assert dirty[..] == old(dirty[..])[i := true];
      return true;
    }

    /** A new version of the whole row goes to the database service. */
    method Commit() returns (row: Row<V>, oldVersion: nat)
      modifies this`version
      ensures oldVersion == old(version) && Value() == old(Value()).(version := oldVersion + 1) == row
    {
      oldVersion := version;
      version := version + 1;
      row := Row(version, fields[..], dirty[..]);
    }
  }

  /** The stored row of one primary key, and the update statement built for a message. */
  class SqlTable<V(==)> {
    var row: Stored<V>
    const key: nat

    constructor (row: Stored<V>, key: nat)
      ensures this.row == row && this.key == key
    {
      this.row, this.key := row, key;
    }

    /** The SET list: the dirty columns in field order. */
    method SetList(r: Row<V>) returns (columns: seq<nat>)
      ensures forall i: nat :: i in columns <==> i < |r.dirty| && r.dirty[i]
      ensures forall j, k | 0 <= j < k < |columns| :: columns[j] < columns[k]
    {
      columns := [];
      for i := 0 to |r.dirty|
        invariant forall j: nat :: j in columns <==> j < i && r.dirty[j]
        invariant forall j, k | 0 <= j < k < |columns| :: columns[j] < columns[k]
      {
        if !r.dirty[i] { continue; }
        assert forall j | 0 <= j < |columns| :: columns[j] in columns;
        columns := columns + [i];
      }
    }

    method Update(r: Row<V>, oldVersion: nat) returns (ok: bool)
      requires key < |row.fields| && r.Shaped(|row.fields|)
      modifies this
      ensures row == Updated(old(row), r, oldVersion, key)
      ensures ok <==> old(row).version == oldVersion < r.version && old(row).fields[key] == r.fields[key]
      ensures !ok ==> row == old(row)
      ensures ok ==>
                && row.version == r.version && |row.fields| == |old(row).fields|
                && forall i | 0 <= i < |row.fields| ::
                     row.fields[i] == if r.dirty[i] then r.fields[i] else old(row).fields[i]
    {
      var columns := SetList(r);
      if row.version != oldVersion || row.version >= r.version || row.fields[key] != r.fields[key] {
        return false;
      }
      var fields := row.fields;
      for k := 0 to |columns|
        invariant |fields| == |row.fields|
        invariant forall i | 0 <= i < |fields| ::
            fields[i] == if i in columns[..k] then r.fields[i] else row.fields[i]
      {
        assert columns[k] in columns;
        assert columns[..k + 1] == columns[..k] + [columns[k]];
        fields := fields[columns[k] := r.fields[columns[k]]];
      }
      assert columns[..|columns|] == columns;
      assert fields == Updated(row, r, oldVersion, key).fields;
      row := Stored(r.version, fields);
      return true;
    }
  }

  /** What a message of dirty fields writes is exactly the whole row when, and only when, every
      field in which the stored row differs from it is dirty. */
  lemma UpdateExact<V>(s: Stored<V>, t: Row<V>, blank: seq<V>, key: nat)
    requires t.Shaped(|blank|) && |s.fields| == |blank| && key < |blank|
    requires s.version < t.version && s.fields[key] == t.fields[key]
    ensures Updated(s, DirtyCopy(t, blank, true, key), s.version, key).fields == t.fields <==>
            forall i | 0 <= i < |blank| :: s.fields[i] != t.fields[i] ==> t.dirty[i]
  {
    var g := Updated(s, DirtyCopy(t, blank, true, key), s.version, key).fields;
    assert forall i | 0 <= i < |blank| :: g[i] == if Takes(t, i, true, key) then t.fields[i] else s.fields[i];
    if forall i | 0 <= i < |blank| :: s.fields[i] != t.fields[i] ==> t.dirty[i] {
      assert g == t.fields;
    }
  }

  // ---- Statements of any number of writers ----

  datatype Statement<V> = Statement(row: Row<V>, oldVersion: nat)

  /** The row after some statements, whoever sends them. */
  function Executed<V(==)>(s: Stored<V>, ws: seq<Statement<V>>, key: nat): (r: Stored<V>)
    requires key < |s.fields| && forall w | w in ws :: w.row.Shaped(|s.fields|)
    ensures |r.fields| == |s.fields|
  {
    if ws == [] then s
    else
      var n := |ws| - 1;
      Updated(Executed(s, ws[..n], key), ws[n].row, ws[n].oldVersion, key)
  }

  /** Statement i finds the version it expects, and changes the row. */
  predicate Wins<V(==)>(s: Stored<V>, ws: seq<Statement<V>>, key: nat, i: nat)
    requires key < |s.fields| && i < |ws| && forall w | w in ws :: w.row.Shaped(|s.fields|)
  {
    Executed(s, ws[..i + 1], key).version != Executed(s, ws[..i], key).version
  }

  lemma WinsIs<V>(s: Stored<V>, ws: seq<Statement<V>>, key: nat, i: nat)
    requires key < |s.fields| && i < |ws| && forall w | w in ws :: w.row.Shaped(|s.fields|)
    ensures var before, after := Executed(s, ws[..i], key), Executed(s, ws[..i + 1], key);
            if Wins(s, ws, key, i) then before.version == ws[i].oldVersion < ws[i].row.version == after.version
            else after == before
  {
    assert ws[..i + 1][..i] == ws[..i];
  }

  /** The version never goes down. */
  lemma {:induction false} VersionsGrow<V>(s: Stored<V>, ws: seq<Statement<V>>, key: nat, i: nat, j: nat)
    requires key < |s.fields| && i <= j <= |ws| && forall w | w in ws :: w.row.Shaped(|s.fields|)
    ensures Executed(s, ws[..i], key).version <= Executed(s, ws[..j], key).version
    decreases j - i
  {
    if i == j {
    } else {
      VersionsGrow(s, ws, key, i, j - 1);
      WinsIs(s, ws, key, j - 1);
    }
  }

  /** No update is lost: of any statements that expect one version, whoever sends them and
      whatever comes in between, at most one changes the row. */
  lemma OneWinner<V>(s: Stored<V>, ws: seq<Statement<V>>, key: nat, i: nat, j: nat)
    requires key < |s.fields| && i < j < |ws| && forall w | w in ws :: w.row.Shaped(|s.fields|)
    requires ws[i].oldVersion == ws[j].oldVersion
    ensures !(Wins(s, ws, key, i) && Wins(s, ws, key, j))
  {
    WinsIs(s, ws, key, i);
    WinsIs(s, ws, key, j);
    VersionsGrow(s, ws, key, i + 1, j);
  }
}
