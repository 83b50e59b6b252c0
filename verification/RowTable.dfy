/** The database service's cache of rows, and the sync loops it starts for them. */
module RowTable {
  import opened DBRow
  import opened Wrappers

  datatype Entry<V> = Entry(row: Row<V>, sqlVersion: nat, tick: bool)

  /** A row found in SQL, under its primary key. */
  datatype Found<K, V> = Found(key: K, row: Row<V>)

  /** A query, by primary key or by another field. */
  datatype Query<K> = Query(byKey: bool, key: K, tick: bool)

  /** The cached rows, the sync loops started so far, and the queries that wait for SQL. */
  datatype Cached<K, V> = Cached(rows: map<K, Entry<V>>, loops: multiset<K>, pending: seq<Query<K>>)

  function Empty<K, V>(): Cached<K, V> {
    Cached(map[], multiset{}, [])
  }

  predicate Hits<K, V>(c: Cached<K, V>, q: Query<K>) {
    q.byKey && q.key in c.rows
  }

  /** A query up to its answer or its wait: a hit starts the row's loop if it has none. */
  function Asked<K, V>(c: Cached<K, V>, q: Query<K>): Cached<K, V> {
    if !Hits(c, q) then c.(pending := c.pending + [q])
    else if c.rows[q.key].tick then c
    else c.(rows := c.rows[q.key := c.rows[q.key].(tick := true)], loops := c.loops + multiset{q.key})
  }

  /** A row from SQL is cached over what is there. */
  function Stored<K, V>(c: Cached<K, V>, k: K, row: Row<V>, tick: bool): Cached<K, V> {
    if k in c.rows then c.(rows := c.rows[k := Entry(row, row.version, c.rows[k].tick || tick)])
    else c.(rows := c.rows[k := Entry(row, row.version, tick)],
            loops := c.loops + if tick then multiset{k} else multiset{})
  }

  /** SQL answers query i, or the call fails. */
  function Filled<K, V>(c: Cached<K, V>, i: nat, found: Option<Found<K, V>>): Cached<K, V>
    requires i < |c.pending|
  {
    var c' := c.(pending := Without(c.pending, i));
    if found.None? then c' else Stored(c', found.value.key, found.value.row, c.pending[i].tick)
  }

  datatype Step<K, V> =
    | Ask(q: Query<K>)
    | Fill(i: nat, found: Option<Found<K, V>>)

  predicate Can<K, V>(c: Cached<K, V>, a: Step<K, V>) {
    a.Fill? ==> a.i < |c.pending|
  }

  /** The query that a step is about, and the row it hands out for it, if any. */
  function Asker<K, V>(c: Cached<K, V>, a: Step<K, V>): Query<K>
    requires Can(c, a)
  {
    if a.Ask? then a.q else c.pending[a.i]
  }

  function Answer<K, V>(c: Cached<K, V>, a: Step<K, V>): Option<Row<V>> {
    match a
    case Ask(q) => if Hits(c, q) then Some(c.rows[q.key].row) else None
    case Fill(_, found) => if found.Some? then Some(found.value.row) else None
  }

  class DBTable<K(==), V> {
    var rows: map<K, Entry<V>>
    var loops: multiset<K>
    var pending: seq<Query<K>>

    ghost function Value(): Cached<K, V>
      reads this
    {
      Cached(rows, loops, pending)
    }

    constructor ()
      ensures Value() == Empty()
    {
      rows, loops, pending := map[], multiset{}, [];
    }

    method LocalCacheDBRow(key: K, row: Row<V>, sqlVersion: nat, tick: bool)
      modifies this`rows, this`loops
      ensures key in rows && rows[key].row == row && rows[key].sqlVersion == sqlVersion
      ensures rows == old(rows)[key := rows[key]]
      ensures rows[key].tick <==> tick || (key in old(rows) && old(rows)[key].tick)
      ensures loops == old(loops) + if tick && key !in old(rows) then multiset{key} else multiset{}
    {
      if key in rows {
        rows := rows[key := rows[key].(row := row, sqlVersion := sqlVersion)];
        if !rows[key].tick && tick {
          rows := rows[key := rows[key].(tick := true)];
        }
        return;
      }
      rows := rows[key := Entry(row, sqlVersion, tick)];
      if tick {
        loops := loops + multiset{key};
      }
    }

    /** A query: answered from the cache, or left waiting for SQL. */
    method QueryDBRow(q: Query<K>) returns (row: Option<Row<V>>)
      modifies this
      ensures Value() == Asked(old(Value()), q) && row == Answer(old(Value()), Ask(q))
      ensures if q.byKey && q.key in old(rows) then
                && row == Some(old(rows)[q.key].row) && pending == old(pending)
                && rows == old(rows)[q.key := old(rows)[q.key].(tick := true)]
                && loops == old(loops) + if old(rows)[q.key].tick then multiset{} else multiset{q.key}
              else
                row == None && rows == old(rows) && loops == old(loops) && pending == old(pending) + [q]
    {
      if q.byKey && q.key in rows {
        if !rows[q.key].tick {
          loops := loops + multiset{q.key};
          rows := rows[q.key := rows[q.key].(tick := true)];
        }
        return Some(rows[q.key].row);
      }
      pending := pending + [q];
      return None;
    }

    /** The query goes on with SQL's answer. */
    method SqlQueryResp(i: nat, found: Option<Found<K, V>>) returns (row: Option<Row<V>>)
      requires i < |pending|
      modifies this
      ensures Value() == Filled(old(Value()), i, found) && row == Answer(old(Value()), Fill(i, found))
      ensures row == if found.Some? then Some(found.value.row) else None
      ensures pending == old(pending)[..i] + old(pending)[i + 1..]
      ensures found.None? ==> rows == old(rows) && loops == old(loops)
      ensures found.Some? ==>
                && found.value.key in rows && rows[found.value.key].row == found.value.row
                && rows[found.value.key].sqlVersion == found.value.row.version
                && rows == old(rows)[found.value.key := rows[found.value.key]]
    {
      var q := pending[i];
      pending := Without(pending, i);
      if found.None? {
        return None;
      }
      LocalCacheDBRow(found.value.key, found.value.row, found.value.row.version, q.tick);
      return Some(found.value.row);
    }
  }

  // ---- Any number of queries, each waiting as long as it likes ----

  function Next<K, V>(c: Cached<K, V>, a: Step<K, V>): Cached<K, V>
    requires Can(c, a)
  {
    match a
    case Ask(q) => Asked(c, q)
    case Fill(i, found) => Filled(c, i, found)
  }

  predicate Runs<K, V>(c: Cached<K, V>, run: seq<Step<K, V>>)
    decreases |run|
  {
    run == [] || (Can(c, run[0]) && Runs(Next(c, run[0]), run[1..]))
  }

  function After<K, V>(c: Cached<K, V>, run: seq<Step<K, V>>): Cached<K, V>
    requires Runs(c, run)
    decreases |run|
  {
    if run == [] then c else After(Next(c, run[0]), run[1..])
  }

  /** At most one loop writes a row back, and only if the row is marked. */
  predicate AtMostOne<K, V>(c: Cached<K, V>) {
    forall k | k in c.loops :: c.loops[k] == 1 && k in c.rows && c.rows[k].tick
  }

  /** The mark tells whether the row has its loop. */
  predicate Told<K, V>(c: Cached<K, V>, k: K) {
    k in c.rows && c.rows[k].tick <==> c.loops[k] == 1
  }

  /** A step marks a row without starting its loop exactly if it caches, with a loop asked for,
      over a row cached without one. */
  lemma MarkedSilently<K, V>(c: Cached<K, V>, a: Step<K, V>, k: K)
    requires AtMostOne(c) && Told(c, k) && Can(c, a)
    ensures AtMostOne(Next(c, a))
    ensures !Told(Next(c, a), k) <==>
            a.Fill? && a.found.Some? && a.found.value.key == k && c.pending[a.i].tick && k in c.rows && !c.rows[k].tick
  {
    KeepsAtMostOne(c, a);
    assert k in c.loops ==> c.loops[k] == 1;
  }

  lemma KeepsAtMostOne<K, V>(c: Cached<K, V>, a: Step<K, V>)
    requires AtMostOne(c) && Can(c, a)
    ensures AtMostOne(Next(c, a))
  {
    var g := Next(c, a);
    forall x | x in g.loops
      ensures g.loops[x] == 1 && x in g.rows && g.rows[x].tick
    {
      assert x in c.loops ==> c.loops[x] == 1 && x in c.rows && c.rows[x].tick;
    }
  }

  /** Every query asks for a loop. */
  predicate AsksLoops<K, V>(a: Step<K, V>) {
    a.Ask? ==> a.q.tick
  }

  predicate Looped<K, V>(c: Cached<K, V>) {
    AtMostOne(c) && (forall k | k in c.rows :: c.rows[k].tick && c.loops[k] == 1) && forall q | q in c.pending :: q.tick
  }

  lemma StepLooped<K, V>(c: Cached<K, V>, a: Step<K, V>)
    requires Looped(c) && Can(c, a) && AsksLoops(a)
    ensures Looped(Next(c, a))
  {
    if a.Fill? {
      assert c.pending[a.i] in c.pending;
      assert forall q | q in Without(c.pending, a.i) :: q in c.pending;
    }
  }

  lemma {:induction false} RunLooped<K, V>(c: Cached<K, V>, run: seq<Step<K, V>>)
    requires Looped(c) && Runs(c, run) && forall a | a in run :: AsksLoops(a)
    ensures Looped(After(c, run))
    decreases |run|
  {
    if run == [] {
    } else {
      StepLooped(c, run[0]);
      RunLooped(Next(c, run[0]), run[1..]);
    }
  }

  /** As the handlers query, always asking for a loop: every cached row is marked and has exactly
      one sync loop, however its queries overlap and however often it is overwritten. */
  lemma OneLoopPerRow<K, V>(run: seq<Step<K, V>>, k: K)
    requires Runs(Empty<K, V>(), run) && forall a | a in run :: AsksLoops(a)
    ensures var c := After(Empty<K, V>(), run);
            c.loops[k] == (if k in c.rows then 1 else 0) && (k in c.rows ==> c.rows[k].tick)
  {
    RunLooped(Empty<K, V>(), run);
  }

  // ---- When a cached row stays ----

  /** SQL answers a query by primary key with a row of that key, or none. */
  predicate Honest<K, V>(c: Cached<K, V>, a: Step<K, V>)
    requires Can(c, a)
  {
    a.Fill? && a.found.Some? && c.pending[a.i].byKey ==> a.found.value.key == c.pending[a.i].key
  }

  predicate ByKey<K, V>(a: Step<K, V>) {
    a.Ask? ==> a.q.byKey
  }

  predicate HonestRun<K, V>(c: Cached<K, V>, run: seq<Step<K, V>>)
    requires Runs(c, run)
    decreases |run|
  {
    run == [] || (Honest(c, run[0]) && HonestRun(Next(c, run[0]), run[1..]))
  }

  /** Row k is cached, and no query that waits could bring another row k. */
  predicate Settled<K, V>(c: Cached<K, V>, k: K) {
    k in c.rows && forall q | q in c.pending :: q.byKey && q.key != k
  }

  lemma StepSettled<K, V>(c: Cached<K, V>, a: Step<K, V>, k: K)
    requires Settled(c, k) && Can(c, a) && Honest(c, a) && ByKey(a)
    ensures var c' := Next(c, a);
            Settled(c', k) && c'.rows[k].row == c.rows[k].row && c'.rows[k].sqlVersion == c.rows[k].sqlVersion
  {
    if a.Fill? {
      assert c.pending[a.i] in c.pending;
      assert forall q | q in Without(c.pending, a.i) :: q in c.pending;
    }
  }

  lemma {:induction false} RunSettled<K, V>(c: Cached<K, V>, run: seq<Step<K, V>>, k: K)
    requires Settled(c, k) && Runs(c, run) && HonestRun(c, run) && forall a | a in run :: ByKey(a)
    ensures Settled(After(c, run), k) && After(c, run).rows[k].row == c.rows[k].row
    decreases |run|
  {
    if run == [] {
    } else {
      StepSettled(c, run[0], k);
      RunSettled(Next(c, run[0]), run[1..], k);
    }
  }

  /** Loading rows by primary key, whoever does it and however often, leaves a cached row as it
      is, commits included, exactly if no query was already waiting that could bring that row. */
  lemma LoadAgain<K, V>(c: Cached<K, V>, k: K)
    requires k in c.rows
    ensures Settled(c, k) <==>
            forall run | Runs(c, run) && HonestRun(c, run) && (forall a | a in run :: ByKey(a)) ::
              k in After(c, run).rows && After(c, run).rows[k].row == c.rows[k].row
  {
    if Settled(c, k) {
      forall run | Runs(c, run) && HonestRun(c, run) && forall a | a in run :: ByKey(a)
        ensures k in After(c, run).rows && After(c, run).rows[k].row == c.rows[k].row
      {
        RunSettled(c, run, k);
      }
    } else {
      var q :| q in c.pending && (q.byKey ==> q.key == k);
      var i :| 0 <= i < |c.pending| && c.pending[i] == q;
      var row := c.rows[k].row;
      var a: Step<K, V> := Fill(i, Some(Found(k, row.(version := row.version + 1))));
      assert [a][1..] == [] && After(c, [a]) == Next(c, a);
      assert Runs(c, [a]) && HonestRun(c, [a]);
      assert After(c, [a]).rows[k].row != row;
    }
  }

  /** The first load of a row settles it, if no other query was waiting for it. */
  lemma FirstLoad<K, V>(c: Cached<K, V>, k: K, row: Row<V>, tick: bool)
    requires k !in c.rows && forall q | q in c.pending :: q.byKey && q.key != k
    ensures var c' := Filled(Asked(c, Query(true, k, tick)), |c.pending|, Some(Found(k, row)));
            Settled(c', k) && c'.rows[k] == Entry(row, row.version, tick)
  {
    assert Without(c.pending + [Query(true, k, tick)], |c.pending|) == c.pending;
  }

  // ---- Whose row is handed out ----

  ghost predicate Brings<K, V>(a: Step<K, V>, k: K, row: Row<V>) {
    a.Fill? && a.found.Some? && a.found.value.key == k && a.found.value.row == row
  }

  /** SQL found this row under k in the course of the run. */
  ghost predicate Brought<K, V>(run: seq<Step<K, V>>, k: K, row: Row<V>) {
    exists a :: a in run && Brings(a, k, row)
  }

  /** Every cached row was found in SQL under its key. */
  ghost predicate Sourced<K, V>(c: Cached<K, V>, run: seq<Step<K, V>>) {
    forall k | k in c.rows :: Brought(run, k, c.rows[k].row)
  }

  lemma StepSourced<K, V>(c: Cached<K, V>, past: seq<Step<K, V>>, a: Step<K, V>)
    requires Sourced(c, past) && Can(c, a)
    ensures Sourced(Next(c, a), past + [a])
  {
    forall k | k in Next(c, a).rows
      ensures Brought(past + [a], k, Next(c, a).rows[k].row)
    {
      var row := Next(c, a).rows[k].row;
      if Brings(a, k, row) {
        assert a in past + [a];
      } else {
        assert Brought(past, k, row);
        var b :| b in past && Brings(b, k, row);
        assert b in past + [a];
      }
    }
  }

  lemma {:induction false} RunSourced<K, V>(c: Cached<K, V>, past: seq<Step<K, V>>, run: seq<Step<K, V>>)
    requires Sourced(c, past) && Runs(c, run)
    ensures Sourced(After(c, run), past + run)
    decreases |run|
  {
    if run == [] {
      assert past + run == past;
    } else {
      StepSourced(c, past, run[0]);
      RunSourced(Next(c, run[0]), past + [run[0]], run[1..]);
      assert past + [run[0]] + run[1..] == past + run;
    }
  }

  /** Whoever queries by whatever field: a query by another field is handed a row only when SQL has
      answered that very query with it, and one by primary key only a row that SQL found under
      that key. */
  lemma RightRow<K, V>(run: seq<Step<K, V>>, a: Step<K, V>)
    requires Runs(Empty<K, V>(), run)
    requires var c := After(Empty<K, V>(), run); Can(c, a) && Honest(c, a) && Answer(c, a).Some?
    ensures var c := After(Empty<K, V>(), run); var q, row := Asker(c, a), Answer(c, a).value;
            && (!q.byKey ==> a.Fill? && a.found.Some? && a.found.value.row == row && c.pending[a.i] == q)
            && (q.byKey ==> Brought(run + [a], q.key, row))
  {
    var c := After(Empty<K, V>(), run);
    RunSourced(Empty<K, V>(), [], run);
    assert [] + run == run;
    var q, row := Asker(c, a), Answer(c, a).value;
    if a.Fill? {
      assert a in run + [a] && (q.byKey ==> Brings(a, q.key, row));
    } else {
      var b :| b in run && Brings(b, q.key, row);
      assert b in run + [a];
    }
  }
}
