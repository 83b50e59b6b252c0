/** One row, written back: its owner commits versions to the database service, which caches the
    latest and, tick by tick, sends the dirty fields to SQL, while requests may be executed late. */
module WriteBack {
  import opened DBRow
  import opened Wrappers

  /** The primary key's position and the field values of a new message. */
  datatype Table<V> = Table(key: nat, blank: seq<V>)

  datatype Update<V> = Update(row: Row<V>, oldVersion: nat)

  datatype Request<V> = Request(id: nat, row: Row<V>, oldVersion: nat)

  datatype Response = Response(id: nat, ok: bool)

  /** The sync coroutine of the row: between ticks, awaiting SQL, or ended by a failed update. */
  datatype Sync = Idle | Waiting(id: nat, version: nat) | Aborted

  datatype Cache<V> = Cache(row: Row<V>, sqlVersion: nat, sync: Sync)

  predicate Accepts<V>(c: Cache<V>, u: Update<V>) {
    u.oldVersion <= u.row.version && u.row.version > c.row.version
  }

  /** A commit arrives. */
  function Delivered<V>(c: Cache<V>, u: Update<V>): Cache<V> {
    if Accepts(c, u) then c.(row := u.row) else c
  }

  /** What a tick sends, if anything. */
  function Unsynced<V>(t: Table<V>, c: Cache<V>, id: nat): seq<Request<V>>
    requires c.row.Shaped(|t.blank|)
  {
    if c.row.version > c.sqlVersion
    then [Request(id, DirtyCopy(c.row, t.blank, true, t.key), c.sqlVersion)]
    else []
  }

  /** What the sync coroutine awaits: an answer, or none if the call times out. */
  function Answered<V>(c: Cache<V>, r: Option<Response>): Cache<V> {
    if !c.sync.Waiting? then c
    else if r.None? then c.(sync := Idle)
    else if c.sync.id != r.value.id then c
    else if r.value.ok then c.(sqlVersion := c.sync.version, sync := Idle)
    else c.(sync := Aborted)
  }

  /** The database service's side. */
  class DBRowCache<V> {
    const t: Table<V>
    var row: Row<V>
    var sqlVersion: nat
    var sync: Sync

    ghost function Value(): Cache<V>
      reads this
    {
      Cache(row, sqlVersion, sync)
    }

    /** Caches a row read from SQL. */
    constructor (t: Table<V>, row: Row<V>)
      ensures this.t == t && Value() == Cache(row, row.version, Idle)
    {
      this.t, this.row, sqlVersion, sync := t, row, row.version, Idle;
    }

    method DBRowUpdateReq(u: Update<V>) returns (ok: bool)
      modifies this`row
      ensures ok <==> u.oldVersion <= u.row.version && old(row).version < u.row.version
      ensures row == if ok then u.row else old(row)
      ensures Value() == Delivered(old(Value()), u)
    {
      if u.oldVersion > u.row.version || u.row.version <= row.version {
        return false;
      }
      row := u.row;
      return true;
    }

    method DBRowTickSync(id: nat) returns (sent: seq<Request<V>>)
      requires sync.Idle? && row.Shaped(|t.blank|)
      modifies this`sync
      ensures sent == Unsynced(t, Value(), id)
      ensures sent != [] <==> row.version > sqlVersion
      ensures sync == if sent == [] then Idle else Waiting(id, row.version)
    {
      sent := [];
      if row.version > sqlVersion {
        var copy := DirtyCopy(row, t.blank, true, t.key);
        sync := Waiting(id, copy.version);
        sent := [Request(id, copy, sqlVersion)];
      }
    }

    /** The sync coroutine goes on: after a timeout it tries again at the next tick. */
    method SqlUpdateResp(r: Option<Response>)
      modifies this`sqlVersion, this`sync
      ensures Value() == Answered(old(Value()), r)
      ensures r.None? && old(sync).Waiting? ==> sync == Idle && sqlVersion == old(sqlVersion)
      ensures r.Some? && old(sync).Waiting? && old(sync).id == r.value.id ==>
                if r.value.ok then sync == Idle && sqlVersion == old(sync).version
                else sync == Aborted && sqlVersion == old(sqlVersion)
      ensures !old(sync).Waiting? || (r.Some? && old(sync).id != r.value.id) ==>
                sync == old(sync) && sqlVersion == old(sqlVersion)
    {
      if !sync.Waiting? || (r.Some? && sync.id != r.value.id) {
        return;
      }
      if r.None? {
        sync := Idle;
      } else if !r.value.ok {
        sync := Aborted;
      } else {
        sqlVersion, sync := sync.version, Idle;
      }
    }
  }

  // ---- The owner, the service and SQL together ----

  datatype Sys<V> = Sys(
    owner: Row<V>,
    mail: seq<Update<V>>,
    cache: Cache<V>,
    next: nat,                    // session ids
    requests: seq<Request<V>>,    // sent to SQL and not executed yet
    responses: seq<Response>,
    sql: Stored<V>,
    refused: nat,                 // commits the service turned down
    base: nat,                    // the version loaded
    whole: seq<seq<V>>)           // the whole row at each version since

  datatype Action<V> =
    | Edit(field: nat, value: V)
    | Commit
    | Deliver
    | Tick
    | Execute(i: nat)             // SQL may take its requests in any order, however late
    | Answer(i: nat)
    | GiveUp                      // the call to SQL times out

  predicate Can<V>(t: Table<V>, s: Sys<V>, a: Action<V>) {
    match a
    case Edit(f, _) => f < |s.owner.fields| && f < |s.owner.dirty| && f != t.key
    case Commit => true
    case Deliver => s.mail != []
    case Tick => s.cache.sync.Idle? && s.cache.row.Shaped(|t.blank|)
    case Execute(i) => i < |s.requests| && t.key < |s.sql.fields| && s.requests[i].row.Shaped(|s.sql.fields|)
    case Answer(i) => i < |s.responses|
    case GiveUp => s.cache.sync.Waiting?
  }

  function Next<V(==)>(t: Table<V>, s: Sys<V>, a: Action<V>): Sys<V>
    requires Can(t, s, a)
  {
    match a
    case Edit(f, v) => s.(owner := s.owner.(fields := s.owner.fields[f := v], dirty := s.owner.dirty[f := true]))
    case Commit =>
      var row := s.owner.(version := s.owner.version + 1);
      s.(owner := row, mail := s.mail + [Update(row, s.owner.version)], whole := s.whole + [row.fields])
    case Deliver =>
      s.(cache := Delivered(s.cache, s.mail[0]), mail := s.mail[1..],
         refused := s.refused + if Accepts(s.cache, s.mail[0]) then 0 else 1)
    case Tick =>
      var sent := Unsynced(t, s.cache, s.next);
      if sent == [] then s
      else s.(cache := s.cache.(sync := Waiting(s.next, s.cache.row.version)),
              requests := s.requests + sent, next := s.next + 1)
    case Execute(i) =>
      var r := s.requests[i];
      s.(sql := Updated(s.sql, r.row, r.oldVersion, t.key), requests := Without(s.requests, i),
         responses := s.responses + [Response(r.id, Matches(s.sql, r.row, r.oldVersion, t.key))])
    case Answer(i) => s.(cache := Answered(s.cache, Some(s.responses[i])), responses := Without(s.responses, i))
    case GiveUp => s.(cache := Answered(s.cache, None))
  }

  /** The owner has loaded the row; nothing has happened since. */
  function Loaded<V>(row: Row<V>): Sys<V> {
    Sys(row, [], Cache(row, row.version, Idle), 0, [], [],
        Stored(row.version, row.fields), 0, row.version, [row.fields])
  }

  predicate Runs<V(==)>(t: Table<V>, s: Sys<V>, run: seq<Action<V>>)
    decreases |run|
  {
    run == [] || (Can(t, s, run[0]) && Runs(t, Next(t, s, run[0]), run[1..]))
  }

  function After<V(==)>(t: Table<V>, s: Sys<V>, run: seq<Action<V>>): Sys<V>
    requires Runs(t, s, run)
    decreases |run|
  {
    if run == [] then s else After(t, Next(t, s, run[0]), run[1..])
  }

  // ---- Commits of any number of owners ----

  /** The cache after some commits, whoever they come from. */
  function Cached<V>(c: Cache<V>, us: seq<Update<V>>): Cache<V> {
    if us == [] then c else Delivered(Cached(c, us[..|us| - 1]), us[|us| - 1])
  }

  /** The commits taken over, in order. */
  function Taken<V>(c: Cache<V>, us: seq<Update<V>>): seq<Row<V>> {
    if us == [] then []
    else
      var n := |us| - 1;
      Taken(c, us[..n]) + if Cached(c, us).row.version != Cached(c, us[..n]).row.version then [us[n].row] else []
  }

  /** Whatever commits arrive, of any number of owners and in any order: one is taken over exactly
      if it is newer than the cached row and its own old version is not newer than it; then the
      whole cached row is the new one, and else nothing changes. */
  lemma CommitByCommit<V>(c: Cache<V>, us: seq<Update<V>>, i: nat)
    requires i < |us|
    ensures var before, after, u := Cached(c, us[..i]), Cached(c, us[..i + 1]), us[i];
            after == if before.row.version < u.row.version && u.oldVersion <= u.row.version
                     then before.(row := u.row) else before
  {
    assert us[..i + 1][..i] == us[..i];
  }

  /** Versions that go up, from one on. */
  predicate Rising<V>(from: nat, rows: seq<Row<V>>) {
    && (forall i | 0 <= i < |rows| :: from < rows[i].version)
    && (forall i, j | 0 <= i < j < |rows| :: rows[i].version < rows[j].version)
  }

  function Latest<V>(row: Row<V>, rows: seq<Row<V>>): Row<V> {
    if rows == [] then row else rows[|rows| - 1]
  }

  lemma RisingMore<V>(row: Row<V>, rows: seq<Row<V>>, next: Row<V>)
    requires Rising(row.version, rows) && Latest(row, rows).version < next.version
    ensures Rising(row.version, rows + [next]) && Latest(row, rows + [next]) == next
  {
  }

  /** So the versions taken over go up, the cached version never goes down, and the cached row is
      the last one taken over. */
  lemma {:induction false} VersionsIncrease<V>(c: Cache<V>, us: seq<Update<V>>)
    ensures var taken := Taken(c, us);
            Rising(c.row.version, taken) && Cached(c, us).row == Latest(c.row, taken)
    ensures c.row.version <= Cached(c, us).row.version
  {
    hide Rising, Latest, Delivered;
    if us == [] {
      NoneRising(c.row);
    } else {
      var n := |us| - 1;
      VersionsIncrease(c, us[..n]);
      CommitByCommit(c, us, n);
      assert us[..n + 1] == us;
      if Cached(c, us).row.version != Cached(c, us[..n]).row.version {
        RisingMore(c.row, Taken(c, us[..n]), us[n].row);
      } else {
        assert Taken(c, us) == Taken(c, us[..n]);
      }
    }
  }

  lemma NoneRising<V>(row: Row<V>)
    ensures Rising<V>(row.version, []) && Latest(row, []) == row
  {
  }

  /** And each of them is one that was committed. */
  lemma {:induction false} TakenFrom<V>(c: Cache<V>, us: seq<Update<V>>, row: Row<V>)
    requires row in Taken(c, us)
    ensures exists i | 0 <= i < |us| :: us[i].row == row
  {
    hide Cached;
    if us == [] {
    } else {
      var n := |us| - 1;
      if row in Taken(c, us[..n]) {
        TakenFrom(c, us[..n], row);
        var i :| 0 <= i < n && us[..n][i].row == row;
        assert us[i].row == row;
      } else {
        assert us[n].row == row;
      }
    }
  }

  // ---- The invariant ----

  ghost predicate Knows<V>(s: Sys<V>, v: nat) {
    s.base <= v <= s.owner.version && |s.whole| == s.owner.version - s.base + 1
  }

  function At<V>(s: Sys<V>, v: nat): seq<V>
    requires Knows(s, v)
  {
    s.whole[v - s.base]
  }

  /** Field f has not changed up to version v since the row was loaded. */
  ghost predicate Unedited<V>(s: Sys<V>, f: nat, v: nat)
    requires Knows(s, v)
  {
    f < |At(s, v)| && forall u | s.base <= u <= v :: f < |At(s, u)| && At(s, u)[f] == At(s, v)[f]
  }

  /** A full row at its version: what it does not mark dirty never changed. */
  ghost predicate Full<V>(t: Table<V>, s: Sys<V>, r: Row<V>) {
    && r.Shaped(|t.blank|) && Knows(s, r.version) && r.fields == At(s, r.version)
    && forall f | 0 <= f < |t.blank| :: !r.dirty[f] ==> Unedited(s, f, r.version)
  }

  /** A row as sent to SQL. */
  ghost predicate Partial<V>(t: Table<V>, s: Sys<V>, r: Row<V>) {
    && r.Shaped(|t.blank|) && Knows(s, r.version) && |At(s, r.version)| == |t.blank|
    && t.key < |t.blank| && r.dirty[t.key]
    && forall f | 0 <= f < |t.blank| ::
         if r.dirty[f] then r.fields[f] == At(s, r.version)[f] else Unedited(s, f, r.version)
  }

  ghost predicate OwnerInv<V>(t: Table<V>, s: Sys<V>) {
    && t.key < |t.blank| && s.owner.Shaped(|t.blank|) && Knows(s, s.owner.version)
    && (forall k | 0 <= k < |s.whole| :: |s.whole[k]| == |t.blank| && s.whole[k][t.key] == s.owner.fields[t.key])
    && (forall f | 0 <= f < |t.blank| :: !s.owner.dirty[f] ==>
          Unedited(s, f, s.owner.version) && s.owner.fields[f] == At(s, s.owner.version)[f])
  }

  ghost predicate MailInv<V>(t: Table<V>, s: Sys<V>) {
    && s.cache.row.version + |s.mail| == s.owner.version
    && (forall i | 0 <= i < |s.mail| ::
          s.mail[i].row.version == s.cache.row.version + 1 + i && s.mail[i].oldVersion <= s.mail[i].row.version
          && Full(t, s, s.mail[i].row))
    && Full(t, s, s.cache.row) && s.refused == 0
  }

  /** The SQL row is one of the owner's whole versions, between what the service has recorded
      and what it has cached. */
  ghost predicate SqlInv<V>(s: Sys<V>) {
    && s.base <= s.cache.sqlVersion <= s.sql.version <= s.cache.row.version
    && Knows(s, s.sql.version) && s.sql.fields == At(s, s.sql.version)
  }

  ghost predicate FlightInv<V>(t: Table<V>, s: Sys<V>) {
    && (forall i | 0 <= i < |s.requests| ::
          && Partial(t, s, s.requests[i].row) && s.requests[i].row.version <= s.cache.row.version
          && s.requests[i].oldVersion <= s.cache.sqlVersion && s.requests[i].id < s.next
          && (s.cache.sync.Waiting? && s.cache.sync.id == s.requests[i].id ==>
                s.cache.sync.version == s.requests[i].row.version))
    && (forall i | 0 <= i < |s.responses| :: s.responses[i].id < s.next)
    && (s.cache.sync.Waiting? ==>
          && s.cache.sync.id < s.next && s.cache.sqlVersion <= s.cache.sync.version <= s.cache.row.version
          && forall i | 0 <= i < |s.responses| :: s.responses[i] == Response(s.cache.sync.id, true) ==>
               s.cache.sync.version <= s.sql.version)
  }

  ghost predicate Inv<V>(t: Table<V>, s: Sys<V>) {
    OwnerInv(t, s) && MailInv(t, s) && SqlInv(s) && FlightInv(t, s)
  }

  // ---- Every step keeps it ----

  lemma LaterFull<V>(t: Table<V>, s: Sys<V>, s': Sys<V>, r: Row<V>)
    requires s'.base == s.base && s'.whole == s.whole + [s'.owner.fields] && s'.owner.version == s.owner.version + 1
    ensures Full(t, s, r) ==> Full(t, s', r)
    ensures Partial(t, s, r) ==> Partial(t, s', r)
  {
    if Knows(s, r.version) {
      assert forall u | s.base <= u <= r.version :: At(s', u) == At(s, u);
      forall f: nat | Unedited(s, f, r.version) ensures Unedited(s', f, r.version) {}
    }
  }

  lemma CommitOwner<V>(t: Table<V>, s: Sys<V>)
    requires Inv(t, s)
    ensures var s' := Next(t, s, Commit); OwnerInv(t, s') && Full(t, s', s'.owner)
  {
    var s' := Next(t, s, Commit);
    assert At(s', s'.owner.version) == s.owner.fields;
    forall f | 0 <= f < |t.blank| && !s.owner.dirty[f] ensures Unedited(s', f, s'.owner.version) {
      forall u | s.base <= u <= s'.owner.version
        ensures f < |At(s', u)| && At(s', u)[f] == s.owner.fields[f]
      {
        if u <= s.owner.version {
          assert At(s', u) == At(s, u);
          assert Unedited(s, f, s.owner.version);
        }
      }
    }
  }

  lemma CommitKeeps<V>(t: Table<V>, s: Sys<V>)
    requires Inv(t, s)
    ensures Inv(t, Next(t, s, Commit))
  {
    var s' := Next(t, s, Commit);
    CommitOwner(t, s);
    LaterFull(t, s, s', s.cache.row);
    forall i | 0 <= i < |s'.mail|
      ensures s'.mail[i].row.version == s'.cache.row.version + 1 + i && Full(t, s', s'.mail[i].row)
    {
      if i < |s.mail| { LaterFull(t, s, s', s.mail[i].row); }
    }
    forall i | 0 <= i < |s'.requests| ensures Partial(t, s', s'.requests[i].row) {
      LaterFull(t, s, s', s.requests[i].row);
    }
  }

  /** Rows keep their standing when the owner's history is the same. */
  lemma SameHistory<V>(t: Table<V>, s: Sys<V>, s': Sys<V>, r: Row<V>)
    requires s'.base == s.base && s'.whole == s.whole && s'.owner.version == s.owner.version
    ensures Full(t, s, r) ==> Full(t, s', r)
    ensures Partial(t, s, r) ==> Partial(t, s', r)
  {
    if Knows(s, r.version) {
      assert forall u | s.base <= u <= r.version :: At(s', u) == At(s, u);
      forall f: nat | Unedited(s, f, r.version) ensures Unedited(s', f, r.version) {}
    }
  }

  lemma SameRows<V>(t: Table<V>, s: Sys<V>, s': Sys<V>)
    requires s'.base == s.base && s'.whole == s.whole && s'.owner.version == s.owner.version
    ensures Full(t, s, s.cache.row) ==> Full(t, s', s.cache.row)
    ensures forall i | 0 <= i < |s.mail| :: Full(t, s, s.mail[i].row) ==> Full(t, s', s.mail[i].row)
    ensures forall i | 0 <= i < |s.requests| :: Partial(t, s, s.requests[i].row) ==> Partial(t, s', s.requests[i].row)
  {
    SameHistory(t, s, s', s.cache.row);
    forall i | 0 <= i < |s.mail| ensures Full(t, s, s.mail[i].row) ==> Full(t, s', s.mail[i].row) {
      SameHistory(t, s, s', s.mail[i].row);
    }
    forall i | 0 <= i < |s.requests|
      ensures Partial(t, s, s.requests[i].row) ==> Partial(t, s', s.requests[i].row)
    {
      SameHistory(t, s, s', s.requests[i].row);
    }
  }

  lemma EditKeeps<V>(t: Table<V>, s: Sys<V>, a: Action<V>)
    requires Inv(t, s) && a.Edit? && Can(t, s, a)
    ensures Inv(t, Next(t, s, a))
  {
    var s' := Next(t, s, a);
    SameRows(t, s, s');
    forall f | 0 <= f < |t.blank| && !s'.owner.dirty[f]
      ensures Unedited(s', f, s'.owner.version)
    {
      assert Unedited(s, f, s.owner.version);
      assert forall u | s.base <= u <= s.owner.version :: At(s', u) == At(s, u);
    }
  }

  lemma OwnerSame<V>(t: Table<V>, s: Sys<V>, s': Sys<V>)
    requires OwnerInv(t, s) && s'.base == s.base && s'.whole == s.whole && s'.owner == s.owner
    ensures OwnerInv(t, s')
  {
    forall f | 0 <= f < |t.blank| && !s.owner.dirty[f] ensures Unedited(s', f, s'.owner.version) {
      assert Unedited(s, f, s.owner.version);
      assert forall u | s.base <= u <= s.owner.version :: At(s', u) == At(s, u);
    }
  }

  lemma DeliverKeeps<V>(t: Table<V>, s: Sys<V>)
    requires Inv(t, s) && s.mail != []
    ensures Inv(t, Next(t, s, Deliver))
  {
    var s' := Next(t, s, Deliver);
    assert Accepts(s.cache, s.mail[0]);
    OwnerSame(t, s, s');
    SameRows(t, s, s');
  }

  lemma SentPartial<V>(t: Table<V>, s: Sys<V>)
    requires OwnerInv(t, s) && Full(t, s, s.cache.row)
    ensures Partial(t, s, DirtyCopy(s.cache.row, t.blank, true, t.key))
  {
  }

  lemma TickKeeps<V>(t: Table<V>, s: Sys<V>)
    requires Inv(t, s) && Can(t, s, Tick)
    ensures Inv(t, Next(t, s, Tick))
  {
    var s' := Next(t, s, Tick);
    OwnerSame(t, s, s');
    SameRows(t, s, s');
    if s'.requests != s.requests {
      SentPartial(t, s);
      SameHistory(t, s, s', DirtyCopy(s.cache.row, t.blank, true, t.key));
    }
  }

  /** The dirty fields sent complete the older row to the newer one. */
  lemma WholeRow<V>(t: Table<V>, s: Sys<V>, r: Request<V>)
    requires OwnerInv(t, s) && SqlInv(s) && Partial(t, s, r.row)
    requires t.key < |s.sql.fields| && r.row.Shaped(|s.sql.fields|)
    requires Matches(s.sql, r.row, r.oldVersion, t.key)
    ensures Updated(s.sql, r.row, r.oldVersion, t.key).fields == At(s, r.row.version)
  {
    var g := Updated(s.sql, r.row, r.oldVersion, t.key).fields;
    forall f | 0 <= f < |t.blank| ensures g[f] == At(s, r.row.version)[f] {
      if !r.row.dirty[f] {
        assert Unedited(s, f, r.row.version);
        assert At(s, s.sql.version)[f] == At(s, r.row.version)[f];
      }
    }
  }

  lemma PartialIs<V>(t: Table<V>, s: Sys<V>, r: Row<V>)
    requires Partial(t, s, r)
    ensures r.Shaped(|t.blank|) && Knows(s, r.version)
  {
  }

  lemma ExecuteKeeps<V>(t: Table<V>, s: Sys<V>, i: nat)
    requires Inv(t, s) && Can(t, s, Execute(i))
    ensures Inv(t, Next(t, s, Execute(i)))
  {
    hide Partial, Full, Unedited;
    var s', r := Next(t, s, Execute(i)), s.requests[i];
    OwnerSame(t, s, s');
    SameRows(t, s, s');
    PartialIs(t, s, r.row);
    if Matches(s.sql, r.row, r.oldVersion, t.key) { WholeRow(t, s, r); }
    assert forall k | 0 <= k < |s'.requests| :: s'.requests[k] == s.requests[if k < i then k else k + 1];
  }

  lemma AnswerKeeps<V>(t: Table<V>, s: Sys<V>, i: nat)
    requires Inv(t, s) && Can(t, s, Answer(i))
    ensures Inv(t, Next(t, s, Answer(i)))
  {
    var s' := Next(t, s, Answer(i));
    OwnerSame(t, s, s');
    SameRows(t, s, s');
    assert forall k | 0 <= k < |s'.responses| :: s'.responses[k] == s.responses[if k < i then k else k + 1];
  }

  lemma GiveUpKeeps<V>(t: Table<V>, s: Sys<V>)
    requires Inv(t, s) && Can(t, s, GiveUp)
    ensures Inv(t, Next(t, s, GiveUp))
  {
    OwnerSame(t, s, Next(t, s, GiveUp));
    SameRows(t, s, Next(t, s, GiveUp));
  }

  lemma StepKeeps<V>(t: Table<V>, s: Sys<V>, a: Action<V>)
    requires Inv(t, s) && Can(t, s, a)
    ensures Inv(t, Next(t, s, a))
  {
    match a
    case Edit(_, _) => EditKeeps(t, s, a);
    case Commit => CommitKeeps(t, s);
    case Deliver => DeliverKeeps(t, s);
    case Tick => TickKeeps(t, s);
    case Execute(i) => ExecuteKeeps(t, s, i);
    case Answer(i) => AnswerKeeps(t, s, i);
    case GiveUp => GiveUpKeeps(t, s);
  }

  lemma {:induction false} RunKeeps<V>(t: Table<V>, s: Sys<V>, run: seq<Action<V>>)
    requires Inv(t, s) && Runs(t, s, run)
    ensures Inv(t, After(t, s, run))
    decreases |run|
  {
    if run == [] {
    } else {
      StepKeeps(t, s, run[0]);
      RunKeeps(t, Next(t, s, run[0]), run[1..]);
    }
  }

  /** In every interleaving of edits, commits, syncs, timeouts and late executions, the SQL row
      is, as a whole, the row the owner committed (or loaded) under that version; the service
      has recorded no more and cached no less, and has refused no commit. */
  lemma WholeVersionsInSql<V>(t: Table<V>, row: Row<V>, run: seq<Action<V>>)
    requires t.key < |t.blank| && row.Shaped(|t.blank|) && Runs(t, Loaded(row), run)
    ensures var s := After(t, Loaded(row), run);
            && Knows(s, s.sql.version) && s.sql.fields == At(s, s.sql.version)
            && s.cache.sqlVersion <= s.sql.version <= s.cache.row.version
            && Knows(s, s.cache.row.version) && s.cache.row.fields == At(s, s.cache.row.version)
            && s.refused == 0
  {
    LoadedInv(t, row);
    RunKeeps(t, Loaded(row), run);
  }

  lemma LoadedInv<V>(t: Table<V>, row: Row<V>)
    requires t.key < |t.blank| && row.Shaped(|t.blank|)
    ensures Inv(t, Loaded(row))
  {
  }

  // ---- A timeout can end the write-back of a row for good ----

  /** SQL is ahead of what the service has recorded, and no answer will tell it. */
  ghost predicate Stalled<V>(s: Sys<V>) {
    && s.cache.sqlVersion < s.sql.version
    && (s.cache.sync.Waiting? ==> Response(s.cache.sync.id, true) !in s.responses)
  }

  lemma StaysStalled<V>(t: Table<V>, s: Sys<V>, a: Action<V>)
    requires Inv(t, s) && Stalled(s) && Can(t, s, a)
    ensures Stalled(Next(t, s, a)) && Next(t, s, a).sql == s.sql
  {
    var s' := Next(t, s, a);
    match a
    case Answer(i) => assert forall r | r in s'.responses :: r in s.responses;
    case Execute(i) => assert s.requests[i].oldVersion <= s.cache.sqlVersion;
    case _ =>
  }

  lemma {:induction false} StalledForever<V>(t: Table<V>, s: Sys<V>, run: seq<Action<V>>)
    requires Inv(t, s) && Stalled(s) && Runs(t, s, run)
    ensures After(t, s, run).sql == s.sql
    decreases |run|
  {
    if run == [] {
    } else {
      StaysStalled(t, s, run[0]);
      StepKeeps(t, s, run[0]);
      StalledForever(t, Next(t, s, run[0]), run[1..]);
    }
  }

  lemma Chain<V>(t: Table<V>, s: Sys<V>, a: Action<V>, run: seq<Action<V>>)
    requires Can(t, s, a) && Runs(t, Next(t, s, a), run)
    ensures Runs(t, s, [a] + run) && After(t, s, [a] + run) == After(t, Next(t, s, a), run)
  {
    assert ([a] + run)[1..] == run;
  }

  /** A version to be written, and SQL where the service believes it to be. */
  ghost predicate Due<V>(t: Table<V>, s: Sys<V>) {
    Inv(t, s) && s.cache.sync.Idle? && s.cache.sqlVersion == s.sql.version < s.cache.row.version
  }

  lemma SentMatches<V>(t: Table<V>, s: Sys<V>)
    requires Due(t, s)
    ensures var r := Next(t, s, Tick).requests[|s.requests|];
            && r.row.Shaped(|s.sql.fields|) && t.key < |s.sql.fields|
            && Matches(s.sql, r.row, r.oldVersion, t.key) && r.row.version == s.cache.row.version
  {
    assert Next(t, s, Tick).requests[|s.requests|] == Unsynced(t, s.cache, s.next)[0];
  }

  lemma Resync<V>(t: Table<V>, s: Sys<V>)
    requires Due(t, s)
    ensures var run := [Tick] + [Execute(|s.requests|)];
            Runs(t, s, run) && After(t, s, run).sql.version == s.cache.row.version
  {
    var s1, a := Next(t, s, Tick), Execute(|s.requests|);
    SentMatches(t, s);
    assert [a][1..] == [];
    Chain(t, s, Tick, [a]);
  }

  /** Between syncs, with a version still to be written: SQL can ever advance again exactly when
      the recorded version is SQL's own. */
  lemma CanAdvance<V>(t: Table<V>, s: Sys<V>)
    requires Inv(t, s) && s.cache.sync.Idle? && s.cache.sqlVersion < s.cache.row.version
    ensures (exists run :: Runs(t, s, run) && After(t, s, run).sql.version > s.sql.version) <==>
            s.cache.sqlVersion == s.sql.version
  {
    if s.cache.sqlVersion == s.sql.version {
      Resync(t, s);
    } else {
      forall run | Runs(t, s, run) ensures After(t, s, run).sql.version == s.sql.version {
        StalledForever(t, s, run);
      }
    }
  }

  /** From every such state one timeout and a late execution are enough to stop it, though no
      one else writes to the row. */
  lemma LateExecution<V>(t: Table<V>, s: Sys<V>)
    requires Due(t, s)
    ensures var run := [Tick] + ([GiveUp] + [Execute(|s.requests|)]);
            Runs(t, s, run) && Stalled(After(t, s, run))
  {
    var s1, a := Next(t, s, Tick), Execute(|s.requests|);
    SentMatches(t, s);
    assert [a][1..] == [];
    Chain(t, s1, GiveUp, [a]);
    Chain(t, s, Tick, [GiveUp] + [a]);
  }

  /** A timeout by itself costs nothing: as long as SQL is where the service believes it to be, the
      sync that timed out can be tried again, and brings SQL to the latest cached version. */
  lemma RetriesAfterTimeout<V>(t: Table<V>, s: Sys<V>)
    requires Inv(t, s) && s.cache.sync.Waiting? && s.cache.sqlVersion == s.sql.version < s.cache.row.version
    ensures var run := [GiveUp] + ([Tick] + [Execute(|s.requests|)]);
            Runs(t, s, run) && After(t, s, run).sql.version == s.cache.row.version
  {
    GiveUpKeeps(t, s);
    var s1 := Next(t, s, GiveUp);
    Resync(t, s1);
    Chain(t, s, GiveUp, [Tick] + [Execute(|s.requests|)]);
  }

  lemma {:induction false} AbortedStays<V>(t: Table<V>, s: Sys<V>, run: seq<Action<V>>)
    requires s.cache.sync.Aborted? && Runs(t, s, run)
    ensures After(t, s, run).cache.sync.Aborted? && After(t, s, run).next == s.next
    ensures After(t, s, run).cache.sqlVersion == s.cache.sqlVersion
    decreases |run|
  {
    if run == [] {
    } else {
      AbortedStays(t, Next(t, s, run[0]), run[1..]);
    }
  }

  /** A failed update ends the write-back of the row: no further request is ever sent. */
  lemma FailureEnds<V>(t: Table<V>, s: Sys<V>, i: nat, run: seq<Action<V>>)
    requires s.cache.sync.Waiting? && i < |s.responses| && s.responses[i] == Response(s.cache.sync.id, false)
    requires Runs(t, Next(t, s, Answer(i)), run)
    ensures After(t, Next(t, s, Answer(i)), run).next == s.next
    ensures After(t, Next(t, s, Answer(i)), run).cache.sync.Aborted?
  {
    AbortedStays(t, Next(t, s, Answer(i)), run);
  }

  /** While no call times out, the recorded version and SQL's agree whenever no call is open. */
  ghost predicate Calm<V>(s: Sys<V>) {
    match s.cache.sync
    case Idle => s.requests == [] && s.responses == [] && s.cache.sqlVersion == s.sql.version
    case Waiting(id, v) =>
      || (|s.requests| == 1 && s.responses == [] && s.requests[0].id == id
          && s.requests[0].row.version == v > s.sql.version
          && s.requests[0].oldVersion == s.cache.sqlVersion == s.sql.version)
      || (s.requests == [] && s.responses == [Response(id, true)] && s.sql.version == v)
    case Aborted => false
  }

  lemma StaysCalm<V>(t: Table<V>, s: Sys<V>, a: Action<V>)
    requires Inv(t, s) && Calm(s) && Can(t, s, a) && !a.GiveUp?
    ensures Calm(Next(t, s, a))
  {
    if a.Execute? {
      var r := s.requests[a.i];
      assert Partial(t, s, r.row);
      assert s.sql.fields[t.key] == r.row.fields[t.key];
    }
  }

  lemma {:induction false} RunCalm<V>(t: Table<V>, s: Sys<V>, run: seq<Action<V>>)
    requires Inv(t, s) && Calm(s) && Runs(t, s, run) && GiveUp !in run
    ensures Calm(After(t, s, run))
    decreases |run|
  {
    if run == [] {
    } else {
      StaysCalm(t, s, run[0]);
      StepKeeps(t, s, run[0]);
      RunCalm(t, Next(t, s, run[0]), run[1..]);
    }
  }

  /** With a single owner, an update only ever fails after a call to SQL has timed out. */
  lemma NoTimeoutNoFailure<V>(t: Table<V>, row: Row<V>, run: seq<Action<V>>)
    requires t.key < |t.blank| && row.Shaped(|t.blank|) && Runs(t, Loaded(row), run) && GiveUp !in run
    ensures var s := After(t, Loaded(row), run);
            && !s.cache.sync.Aborted? && (forall r | r in s.responses :: r.ok)
            && (s.cache.sync.Idle? ==> s.cache.sqlVersion == s.sql.version)
  {
    RunCalm(t, Loaded(row), run);
  }
}
