/** Queries by anyone and one owner's write-back on the same cached row. */
module RowService {
  import opened DBRow
  import opened Wrappers
  import Rows = RowTable
  import Back = WriteBack

  datatype Service<K, V> = Service(table: Rows.Cached<K, V>, sys: Back.Sys<V>)

  datatype Action<K, V> =
    | Query(step: Rows.Step<K, V>)
    | Write(act: Back.Action<V>)

  /** The row's write-back, on what the table has under k. */
  function Entered<K, V>(s: Service<K, V>, k: K): Back.Sys<V>
    requires k in s.table.rows
  {
    s.sys.(cache := s.sys.cache.(row := s.table.rows[k].row, sqlVersion := s.table.rows[k].sqlVersion))
  }

  predicate Can<K, V>(t: Back.Table<V>, k: K, s: Service<K, V>, a: Action<K, V>) {
    match a
    case Query(step) => Rows.Can(s.table, step)
    case Write(act) => k in s.table.rows && Back.Can(t, Entered(s, k), act)
  }

  function Next<K, V(==)>(t: Back.Table<V>, k: K, s: Service<K, V>, a: Action<K, V>): Service<K, V>
    requires Can(t, k, s, a)
  {
    match a
    case Query(step) => s.(table := Rows.Next(s.table, step))
    case Write(act) =>
      var g, e := Back.Next(t, Entered(s, k), act), s.table.rows[k];
      var e' := e.(row := g.cache.row, sqlVersion := g.cache.sqlVersion);
      Service(s.table.(rows := s.table.rows[k := e']), g)
  }

  predicate Runs<K, V(==)>(t: Back.Table<V>, k: K, s: Service<K, V>, run: seq<Action<K, V>>)
    decreases |run|
  {
    run == [] || (Can(t, k, s, run[0]) && Runs(t, k, Next(t, k, s, run[0]), run[1..]))
  }

  function After<K, V(==)>(t: Back.Table<V>, k: K, s: Service<K, V>, run: seq<Action<K, V>>): Service<K, V>
    requires Runs(t, k, s, run)
    decreases |run|
  {
    if run == [] then s else After(t, k, Next(t, k, s, run[0]), run[1..])
  }

  /** Every query is by primary key, and SQL answers it with a row of that key. */
  predicate Loads<K, V(==)>(t: Back.Table<V>, k: K, s: Service<K, V>, run: seq<Action<K, V>>)
    requires Runs(t, k, s, run)
    decreases |run|
  {
    run == [] ||
    (&& (run[0].Query? ==> Rows.ByKey(run[0].step) && Rows.Honest(s.table, run[0].step))
     && Loads(t, k, Next(t, k, s, run[0]), run[1..]))
  }

  /** What of a run is about the one row. */
  function Writes<K, V>(run: seq<Action<K, V>>): seq<Back.Action<V>> {
    if run == [] then []
    else (if run[0].Write? then [run[0].act] else []) + Writes(run[1..])
  }

  /** The row's entry is what the write-back machine has in its cache. */
  ghost predicate Agrees<K, V>(s: Service<K, V>, k: K) {
    && Rows.Settled(s.table, k)
    && s.table.rows[k].row == s.sys.cache.row && s.table.rows[k].sqlVersion == s.sys.cache.sqlVersion
  }

  lemma StepAgrees<K, V>(t: Back.Table<V>, k: K, s: Service<K, V>, a: Action<K, V>)
    requires Agrees(s, k) && Can(t, k, s, a)
    requires a.Query? ==> Rows.ByKey(a.step) && Rows.Honest(s.table, a.step)
    ensures Entered(s, k) == s.sys && Agrees(Next(t, k, s, a), k)
    ensures Next(t, k, s, a).sys == if a.Write? then Back.Next(t, s.sys, a.act) else s.sys
  {
    if a.Query? {
      Rows.StepSettled(s.table, a.step, k);
    }
  }

  /** The queries make no difference to the row's write-back. */
  lemma {:induction false} RunAgrees<K, V>(t: Back.Table<V>, k: K, s: Service<K, V>, run: seq<Action<K, V>>)
    requires Agrees(s, k) && Runs(t, k, s, run) && Loads(t, k, s, run)
    ensures Back.Runs(t, s.sys, Writes(run)) && Agrees(After(t, k, s, run), k)
    ensures After(t, k, s, run).sys == Back.After(t, s.sys, Writes(run))
    decreases |run|
  {
    if run == [] {
    } else {
      StepAgrees(t, k, s, run[0]);
      RunAgrees(t, k, Next(t, k, s, run[0]), run[1..]);
      assert run[0].Write? ==> Writes(run)[0] == run[0].act && Writes(run)[1..] == Writes(run[1..]);
      assert run[0].Query? ==> Writes(run) == Writes(run[1..]);
    }
  }

  /** One owner, and loads of any rows by anyone at any time after the owner's own: the cached row
      is the owner's latest delivered one, and the SQL row is always, as a whole, one the owner
      committed or loaded. */
  lemma WholeAmongQueries<K, V>(t: Back.Table<V>, k: K, c: Rows.Cached<K, V>, run: seq<Action<K, V>>)
    requires Rows.Settled(c, k) && c.rows[k].sqlVersion == c.rows[k].row.version
    requires t.key < |t.blank| && c.rows[k].row.Shaped(|t.blank|)
    requires var s0 := Service(c, Back.Loaded(c.rows[k].row)); Runs(t, k, s0, run) && Loads(t, k, s0, run)
    ensures var s := After(t, k, Service(c, Back.Loaded(c.rows[k].row)), run);
            && Rows.Settled(s.table, k)
            && Back.Knows(s.sys, s.sys.sql.version) && s.sys.sql.fields == Back.At(s.sys, s.sys.sql.version)
            && s.table.rows[k].sqlVersion <= s.sys.sql.version <= s.table.rows[k].row.version
            && Back.Knows(s.sys, s.table.rows[k].row.version)
            && s.table.rows[k].row.fields == Back.At(s.sys, s.table.rows[k].row.version)
            && s.sys.refused == 0
            && s.table.rows[k].row.version + |s.sys.mail| == s.sys.owner.version
  {
    var s0 := Service(c, Back.Loaded(c.rows[k].row));
    RunAgrees(t, k, s0, run);
    Back.LoadedInv(t, c.rows[k].row);
    Back.RunKeeps(t, s0.sys, Writes(run));
  }

  lemma Chain<K, V>(t: Back.Table<V>, k: K, s: Service<K, V>, a: Action<K, V>, run: seq<Action<K, V>>)
    requires Can(t, k, s, a) && Runs(t, k, Next(t, k, s, a), run)
    ensures Runs(t, k, s, [a] + run) && After(t, k, s, [a] + run) == After(t, k, Next(t, k, s, a), run)
    ensures (a.Query? ==> Rows.ByKey(a.step) && Rows.Honest(s.table, a.step)) && Loads(t, k, Next(t, k, s, a), run) ==>
              Loads(t, k, s, [a] + run)
  {
    assert ([a] + run)[1..] == run;
  }

  /** Row k has been loaded, and another load of it still waits. */
  function LoadedTwice<K, V>(k: K, row: Row<V>): Service<K, V> {
    var q := Rows.Query(true, k, true);
    var c := Rows.Asked(Rows.Asked(Rows.Empty(), q), q);
    Service(Rows.Filled(c, 0, Some(Rows.Found(k, row))), Back.Loaded(row))
  }

  lemma LoadedTwiceIs<K, V>(k: K, row: Row<V>)
    ensures var s := LoadedTwice<K, V>(k, row);
            && s.table.rows == map[k := Rows.Entry(row, row.version, true)]
            && s.table.loops == multiset{k} && s.table.pending == [Rows.Query(true, k, true)]
            && s.sys == Back.Loaded(row) && !Rows.Settled(s.table, k)
  {
    var s, q := LoadedTwice<K, V>(k, row), Rows.Query(true, k, true);
    assert Without([q] + [q], 0) == [q];
    assert q in s.table.pending;
  }

  /** Two first loads at once are not safe: a commit is accepted into the cached row, and the
      second answer puts the old row back over it, without a word to the owner. */
  lemma TwoFirstLoads<K, V>(t: Back.Table<V>, k: K, row: Row<V>)
    ensures var s0: Service<K, V> := LoadedTwice(k, row);
            var run := [Write(Back.Commit)] + ([Write(Back.Deliver)] + [Query(Rows.Fill(0, Some(Rows.Found(k, row))))]);
            && Runs(t, k, s0, run) && Loads(t, k, s0, run)
            && var s := After(t, k, s0, run);
               && s.sys.owner.version == row.version + 1 && s.sys.mail == [] && s.sys.refused == 0
               && k in s.table.rows && s.table.rows[k].row == row
  {
    hide LoadedTwice;
    LoadedTwiceIs<K, V>(k, row);
    var s0: Service<K, V> := LoadedTwice(k, row);
    var commit: Action<K, V>, deliver: Action<K, V> := Write(Back.Commit), Write(Back.Deliver);
    var fill: Action<K, V> := Query(Rows.Fill(0, Some(Rows.Found(k, row))));
    var s1 := Next(t, k, s0, commit);
    var s2 := Next(t, k, s1, deliver);
    assert s2.table.pending == [Rows.Query(true, k, true)] && s2.sys.mail == [] && s2.sys.refused == 0;
    var s3 := Next(t, k, s2, fill);
    assert k in s3.table.rows && s3.table.rows[k].row == row && s3.sys == s2.sys;
    assert Rows.Honest(s2.table, fill.step) && Runs(t, k, s2, [fill]) && After(t, k, s2, [fill]) == s3;
    assert Loads(t, k, s3, []) && Loads(t, k, s2, [fill]);
    assert [fill][1..] == [];
    Chain(t, k, s1, deliver, [fill]);
    Chain(t, k, s0, commit, [deliver] + [fill]);
  }
}
