/** The task executor of one service: suspended handlers keyed by the session they wait for. */
module Executor {
  import opened SessionDef
  import opened Wrappers

  /** Where a handler's coroutine chain is when control is back in the executor. The id is the
      one the root promise's awaiter carries; no reply means no return value or a null one. */
  datatype State<M> =
    | Suspended(waiting: SessionId, timeout: nat)
    | Finished(failed: bool, reply: Option<M>)

  /** A task given to the executor; the handle is the coroutine's identity. */
  datatype TaskElement<M> = TaskElement(sender: nat, sessionId: SessionId, handle: nat, state: State<M>)

  type Tasks<M> = map<SessionId, TaskElement<M>>

  const NEVER: nat := 0xffffffff

  // ---- What the operations do to the task map ----

  predicate Pushable<M>(tasks: Tasks<M>, id: SessionId) {
    id != INVALID && id !in tasks
  }

  function PushTo<M>(tasks: Tasks<M>, id: SessionId, ele: TaskElement<M>): Tasks<M> {
    if Pushable(tasks, id) then tasks[id := ele] else tasks
  }

  function AddTo<M>(tasks: Tasks<M>, ele: TaskElement<M>): Tasks<M> {
    if ele.state.Suspended? then PushTo(tasks, ele.state.waiting, ele) else tasks
  }

  /** The task under id runs on and ends up in state s. */
  function ResumeIn<M>(tasks: Tasks<M>, id: SessionId, s: State<M>): Tasks<M> {
    if id !in tasks then tasks
    else
      var ele := tasks[id].(state := s);
      if s.Suspended? then PushTo(tasks - {id}, s.waiting, ele) else tasks - {id}
  }

  /** Keys and awaited ids agree: entries are unfinished, under valid request ids. */
  predicate KeysMatch<M>(tasks: Tasks<M>) {
    forall id | id in tasks ::
      && tasks[id].state.Suspended? && tasks[id].state.waiting == id
      && id != INVALID && !IsReplyId(id)
  }

  predicate MayWait<M>(s: State<M>) {
    s.Suspended? ==> !IsReplyId(s.waiting)
  }

  /** Every wait that is not endless has been handed to the session monitor. */
  predicate Timed<M>(tasks: Tasks<M>, armed: seq<(SessionId, nat)>) {
    forall id | id in tasks && tasks[id].state.Suspended? && tasks[id].state.timeout != NEVER ::
      (id, tasks[id].state.timeout) in armed
  }

  datatype Scheduled<M> =
    | NotFound                          // nobody waits for that session
    | Completed(ele: TaskElement<M>)
    | Kept(ok: bool)                    // waits again; not ok if it was dropped

  class TaskExecutor<M> {
    var tasks: Tasks<M>
    /** Sessions handed to the session monitor, with their timeouts. */
    var armed: seq<(SessionId, nat)>

    ghost predicate Valid()
      reads this
    {
      KeysMatch(tasks) && Timed(tasks, armed)
    }

    constructor ()
      ensures Valid() && tasks == map[] && armed == []
    {
      tasks, armed := map[], [];
    }

    /** Files a suspended task under the session it waits for. */
    method Push(id: SessionId, ele: TaskElement<M>) returns (ok: bool)
      requires Valid() && !IsReplyId(id)
      requires ele.state.Suspended? && ele.state.waiting == id
      modifies this
      ensures Valid() && tasks == PushTo(old(tasks), id, ele)
      ensures ok <==> Pushable(old(tasks), id)
      ensures armed == if id != INVALID && ele.state.timeout != NEVER then old(armed) + [(id, ele.state.timeout)]
                       else old(armed)
    {
      if id == INVALID {
        return false;
      }
      if ele.state.timeout != NEVER {
        armed := armed + [(id, ele.state.timeout)];
      }
      if id in tasks {
        return false;
      }
      tasks := tasks[id := ele];
      return true;
    }

    /** Moves a task to the session it waits for now. */
    method RePush(oldId: SessionId, newId: SessionId) returns (ok: bool)
      requires Valid0(oldId) && !IsReplyId(newId)
      requires oldId in tasks ==> tasks[oldId].state.Suspended? && tasks[oldId].state.waiting == newId
      modifies this
      ensures Valid()
      ensures oldId !in old(tasks) ==> !ok && tasks == old(tasks)
      ensures oldId in old(tasks) ==> tasks == PushTo(old(tasks) - {oldId}, newId, old(tasks)[oldId])
      ensures ok <==> oldId in old(tasks) && Pushable(old(tasks) - {oldId}, newId)
      ensures armed == if oldId in old(tasks) && newId != INVALID && old(tasks)[oldId].state.timeout != NEVER
                       then old(armed) + [(newId, old(tasks)[oldId].state.timeout)] else old(armed)
    {
      if oldId !in tasks {
        assert tasks - {oldId} == tasks;
        return false;
      }
      var task := tasks[oldId];
      tasks := tasks - {oldId};
      ok := Push(newId, task);
    }

    /** All entries but the one being resumed are in order. */
    ghost predicate Valid0(id: SessionId)
      reads this
    {
      KeysMatch(tasks - {id}) && Timed(tasks - {id}, armed)
    }

    /** Resumes one task. A message for a session it does not wait for is handed back. */
    method Resume(id: SessionId, isReply: bool, outcome: State<M>) returns (unprocessed: bool)
      requires id in tasks && Valid()
      modifies this`tasks
      ensures !unprocessed && tasks == old(tasks)[id := old(tasks)[id].(state := outcome)]
    {
      if isReply && tasks[id].state.waiting != id {
        return true;
      }
      tasks := tasks[id := tasks[id].(state := outcome)];
      return false;
    }

    /** A reply for a session: the task that waits for it runs until it ends in `outcome`. */
    method TrySchedule(id: SessionId, outcome: State<M>)
        returns (r: Scheduled<M>, unprocessed: bool)
      requires Valid() && MayWait(outcome)
      modifies this
      ensures Valid() && tasks == ResumeIn(old(tasks), id, outcome)
      ensures !unprocessed
      ensures r.NotFound? <==> id !in old(tasks)
      ensures r.Completed? <==> id in old(tasks) && outcome.Finished?
      ensures r.Completed? ==> r.ele == old(tasks)[id].(state := outcome)
      ensures r.Kept? ==> (r.ok <==> Pushable(old(tasks) - {id}, outcome.waiting))
      ensures armed == if id in old(tasks) && outcome.Suspended? && outcome.waiting != INVALID
                          && outcome.timeout != NEVER
                       then old(armed) + [(outcome.waiting, outcome.timeout)] else old(armed)
    {
      unprocessed := false;
      if id !in tasks {
        return NotFound, false;
      }
      unprocessed := Resume(id, true, outcome);
      if tasks[id].state.Suspended? {
        assert tasks - {id} == old(tasks) - {id};
        var ok := RePush(id, tasks[id].state.waiting);
        r := Kept(ok);
      } else {
        r := Completed(tasks[id]);
        tasks := tasks - {id};
      }
    }

    /** A session timed out. A task that ends now is dropped without a reply; `ok` says that it
        waits again. */
    method TaskTimeout(id: SessionId, outcome: State<M>) returns (ok: bool, hasException: bool)
      requires Valid() && MayWait(outcome)
      modifies this
      ensures Valid() && tasks == ResumeIn(old(tasks), id, outcome)
      ensures ok <==> id in old(tasks) && outcome.Suspended? && Pushable(old(tasks) - {id}, outcome.waiting)
      ensures hasException <==> id in old(tasks) && outcome.Finished? && outcome.failed
      ensures armed == if id in old(tasks) && outcome.Suspended? && outcome.waiting != INVALID
                          && outcome.timeout != NEVER
                       then old(armed) + [(outcome.waiting, outcome.timeout)] else old(armed)
    {
      if id !in tasks {
        return false, false;
      }
      var unprocessed := Resume(id, false, outcome);
      if tasks[id].state.Suspended? {
        assert tasks - {id} == old(tasks) - {id};
        ok := RePush(id, tasks[id].state.waiting);
        hasException := false;
      } else {
        ok, hasException := false, tasks[id].state.failed;
        tasks := tasks - {id};
      }
    }

    /** A handler that has just run for the first time: kept if it waits, else handed back. */
    method AddTask(ele: TaskElement<M>) returns (done: bool)
      requires Valid() && MayWait(ele.state)
      modifies this
      ensures Valid() && tasks == AddTo(old(tasks), ele)
      ensures done <==> ele.state.Finished?
      ensures armed == if ele.state.Suspended? && ele.state.waiting != INVALID && ele.state.timeout != NEVER
                       then old(armed) + [(ele.state.waiting, ele.state.timeout)] else old(armed)
    {
      if ele.state.Suspended? {
        var ok := Push(ele.state.waiting, ele);
        return false;
      }
      return true;
    }
  }

  // ---- Whole runs ----

  datatype Op<M> =
    | Add(ele: TaskElement<M>)
    | Reply(id: SessionId, outcome: State<M>)
    | Timeout(id: SessionId, outcome: State<M>)

  /** The task map with, for each task ever given to the executor, what became of it. */
  datatype History<M> = History(
    tasks: Tasks<M>,
    added: set<nat>,
    answered: seq<TaskElement<M>>,  // handed back finished, to be replied to
    silent: set<nat>,               // finished by a timeout, without a reply
    dropped: set<nat>)              // invalid or duplicate session

  predicate Allowed<M>(h: History<M>, op: Op<M>) {
    match op
    case Add(ele) => ele.handle !in h.added && MayWait(ele.state)
    case Reply(_, s) => MayWait(s)
    case Timeout(_, s) => MayWait(s)
  }

  /** Does the element find its session free? */
  function Fate<M>(h: History<M>, tasks: Tasks<M>, ele: TaskElement<M>): History<M>
    requires ele.state.Suspended?
  {
    if Pushable(tasks, ele.state.waiting) then h else h.(dropped := h.dropped + {ele.handle})
  }

  function Apply<M>(h: History<M>, op: Op<M>): History<M> {
    match op
    case Add(ele) =>
      var h' := h.(tasks := AddTo(h.tasks, ele), added := h.added + {ele.handle});
      if ele.state.Finished? then h'.(answered := h.answered + [ele]) else Fate(h', h.tasks, ele)
    case Reply(id, s) =>
      if id !in h.tasks then h
      else
        var h', ele := h.(tasks := ResumeIn(h.tasks, id, s)), h.tasks[id].(state := s);
        if s.Finished? then h'.(answered := h.answered + [ele]) else Fate(h', h.tasks - {id}, ele)
    case Timeout(id, s) =>
      if id !in h.tasks then h
      else
        var h', ele := h.(tasks := ResumeIn(h.tasks, id, s)), h.tasks[id].(state := s);
        if s.Finished? then h'.(silent := h.silent + {ele.handle}) else Fate(h', h.tasks - {id}, ele)
  }

  ghost predicate Pending<M>(h: History<M>, x: nat) {
    exists id :: id in h.tasks && h.tasks[id].handle == x
  }

  ghost predicate Answered<M>(h: History<M>, x: nat) {
    exists i | 0 <= i < |h.answered| :: h.answered[i].handle == x
  }

  /** Each added task is in exactly one place, and in it once. */
  ghost predicate Partition<M>(h: History<M>) {
    && (forall x :: Pending(h, x) || Answered(h, x) || x in h.silent || x in h.dropped <==> x in h.added)
    && (forall x :: Pending(h, x) ==> !Answered(h, x) && x !in h.silent && x !in h.dropped)
    && (forall x :: Answered(h, x) ==> x !in h.silent && x !in h.dropped)
    && h.silent !! h.dropped
    && (forall id, jd | id in h.tasks && jd in h.tasks ::
          h.tasks[id].handle == h.tasks[jd].handle ==> id == jd)
    && (forall i, j | 0 <= i < j < |h.answered| :: h.answered[i].handle != h.answered[j].handle)
  }

  lemma AddPlaces<M>(h: History<M>, ele: TaskElement<M>)
    requires Allowed(h, Add(ele))
    ensures var g := Apply(h, Add(ele));
            && (forall x :: Pending(g, x) <==>
                  Pending(h, x) || (x == ele.handle && ele.state.Suspended? && Pushable(h.tasks, ele.state.waiting)))
            && (forall x :: Answered(g, x) <==> Answered(h, x) || (x == ele.handle && ele.state.Finished?))
  {
    var g := Apply(h, Add(ele));
    forall x
      ensures Pending(g, x) <==>
        Pending(h, x) || (x == ele.handle && ele.state.Suspended? && Pushable(h.tasks, ele.state.waiting))
    {
      if Pending(h, x) {
        var id :| id in h.tasks && h.tasks[id].handle == x;
        assert id in g.tasks && g.tasks[id].handle == x;
      }
      if x == ele.handle && ele.state.Suspended? && Pushable(h.tasks, ele.state.waiting) {
        assert ele.state.waiting in g.tasks && g.tasks[ele.state.waiting].handle == x;
      }
    }
    AnsweredMore(h, g, ele);
  }

  lemma AnsweredMore<M>(h: History<M>, g: History<M>, ele: TaskElement<M>)
    requires g.answered == h.answered || g.answered == h.answered + [ele]
    ensures forall x :: Answered(g, x) <==> Answered(h, x) || (x == ele.handle && g.answered != h.answered)
  {
    forall x
      ensures Answered(g, x) <==> Answered(h, x) || (x == ele.handle && g.answered != h.answered)
    {
      if Answered(h, x) {
        var i :| 0 <= i < |h.answered| && h.answered[i].handle == x;
        assert g.answered[i].handle == x;
      }
      if x == ele.handle && g.answered != h.answered {
        assert g.answered[|h.answered|].handle == x;
      }
    }
  }

  /** Where the resumed task and all others are afterwards. */
  lemma ResumePlaces<M>(h: History<M>, id: SessionId, st: State<M>, op: Op<M>)
    requires Partition(h) && id in h.tasks && (op == Reply(id, st) || op == Timeout(id, st))
    ensures var g, y := Apply(h, op), h.tasks[id].handle;
            && (forall x :: Pending(g, x) <==>
                  if x == y then st.Suspended? && Pushable(h.tasks - {id}, st.waiting) else Pending(h, x))
            && (forall x :: Answered(g, x) <==> Answered(h, x) || (x == y && op.Reply? && st.Finished?))
            && Pending(h, y)
  {
    var g, y := Apply(h, op), h.tasks[id].handle;
    assert id in h.tasks && h.tasks[id].handle == y;
    forall x
      ensures Pending(g, x) <==>
        if x == y then st.Suspended? && Pushable(h.tasks - {id}, st.waiting) else Pending(h, x)
    {
      if x == y {
        if st.Suspended? && Pushable(h.tasks - {id}, st.waiting) {
          assert st.waiting in g.tasks && g.tasks[st.waiting].handle == y;
        }
      } else if Pending(h, x) {
        var jd :| jd in h.tasks && h.tasks[jd].handle == x;
        assert jd in g.tasks && g.tasks[jd].handle == x;
      }
    }
    AnsweredMore(h, g, h.tasks[id].(state := st));
  }

  lemma StepPartition<M>(h: History<M>, op: Op<M>)
    requires Partition(h) && Allowed(h, op)
    ensures Partition(Apply(h, op))
  {
    hide Partition;
    match op
    case Add(ele) => AddPartition(h, ele);
    case Reply(id, st) => if id in h.tasks { ResumePartition(h, id, st, op); }
    case Timeout(id, st) => if id in h.tasks { ResumePartition(h, id, st, op); }
  }

  lemma AddPartition<M>(h: History<M>, ele: TaskElement<M>)
    requires Partition(h) && Allowed(h, Add(ele))
    ensures Partition(Apply(h, Add(ele)))
  {
    hide Pending, Answered;
    AddPlaces(h, ele);
    NewHandle(h, ele.handle);
  }

  lemma ResumePartition<M>(h: History<M>, id: SessionId, st: State<M>, op: Op<M>)
    requires Partition(h) && id in h.tasks && (op == Reply(id, st) || op == Timeout(id, st))
    ensures Partition(Apply(h, op))
  {
    hide Pending, Answered;
    ResumePlaces(h, id, st, op);
    FreshAnswer(h, id);
  }

  lemma NewHandle<M>(h: History<M>, x: nat)
    requires Partition(h) && x !in h.added
    ensures !Pending(h, x) && !Answered(h, x)
    ensures forall id | id in h.tasks :: h.tasks[id].handle != x
    ensures forall i | 0 <= i < |h.answered| :: h.answered[i].handle != x
  {
  }

  lemma FreshAnswer<M>(h: History<M>, id: SessionId)
    requires Partition(h) && id in h.tasks
    ensures forall i | 0 <= i < |h.answered| :: h.answered[i].handle != h.tasks[id].handle
  {
    assert Pending(h, h.tasks[id].handle);
  }

  lemma StepKeys<M>(h: History<M>, op: Op<M>)
    requires KeysMatch(h.tasks) && Allowed(h, op)
    ensures KeysMatch(Apply(h, op).tasks)
  {
  }

  predicate Runs<M>(h: History<M>, ops: seq<Op<M>>)
    decreases |ops|
  {
    ops == [] || (Allowed(h, ops[0]) && Runs(Apply(h, ops[0]), ops[1..]))
  }

  function After<M>(h: History<M>, ops: seq<Op<M>>): History<M>
    decreases |ops|
  {
    if ops == [] then h else After(Apply(h, ops[0]), ops[1..])
  }

  function Fresh<M>(): History<M> {
    History(map[], {}, [], {}, {})
  }

  lemma {:induction false} RunInv<M>(h: History<M>, ops: seq<Op<M>>)
    requires Runs(h, ops) && KeysMatch(h.tasks) && Partition(h)
    ensures KeysMatch(After(h, ops).tasks) && Partition(After(h, ops))
    decreases |ops|
  {
    if ops == [] {
    } else {
      StepKeys(h, ops[0]);
      StepPartition(h, ops[0]);
      RunInv(Apply(h, ops[0]), ops[1..]);
    }
  }

  /** After any adds, replies and timeouts: every entry is an unfinished task under the valid
      request id it waits for, and every task ever added is pending, was handed back for its
      one reply, ended silently or was dropped - exactly one of these, once. */
  lemma KeysAndFates<M>(ops: seq<Op<M>>)
    requires Runs(Fresh(), ops)
    ensures KeysMatch(After(Fresh<M>(), ops).tasks) && Partition(After(Fresh<M>(), ops))
  {
    RunInv(Fresh<M>(), ops);
  }

  /** A task is dropped exactly when it waits for the invalid session or for one that another
      task of the service already waits for; waiting for its own session again is fine. */
  lemma DroppedWhen<M>(h: History<M>, id: SessionId, again: SessionId, timeout: nat)
    requires KeysMatch(h.tasks) && Partition(h) && id in h.tasks
    ensures var g := Apply(h, Reply(id, Suspended(again, timeout)));
            h.tasks[id].handle in g.dropped <==> again == INVALID || (again != id && again in h.tasks)
  {
    assert Pending(h, h.tasks[id].handle);
  }
}
