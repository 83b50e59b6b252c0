/** Each request causes at most one reply, and it goes to whoever sent the request. */
module ReplyOnce {
  import opened Scheduler
  import opened ReplyProtocol
  import opened Wrappers

  /** The i-th message the service s ever accepted is the request id. */
  predicate ReqAt(y: Sys, s: Service, i: int, id: Id) {
    var all := At(y.pool.accepted, s);
    0 <= i < |all| && all[i].Request? && all[i].id == id
  }

  ghost predicate Unique(y: Sys) {
    && (forall s: Service, i: int, id: Id :: ReqAt(y, s, i, id) ==> id < y.nextId)
    && (forall s: Service, i: int, t: Service, j: int, id: Id ::
          ReqAt(y, s, i, id) && ReqAt(y, t, j, id) ==> s == t && i == j)
  }

  /** What a busy worker processes is the message its service popped last. */
  ghost predicate LastPopped(y: Sys) {
    forall w | IsBusy(y, w) ::
      var p := At(y.pool.popped, y.pool.workers[w].s);
      p != [] && p[|p| - 1] == y.pool.workers[w].m
  }

  predicate Undispatched(y: Sys, w: nat, s: Service) {
    IsBusy(y, w) && y.pool.workers[w].s == s && w !in y.handlers
  }

  /** Message i of s has been handed to a handler (or dropped). */
  ghost predicate Passed(y: Sys, s: Service, i: int) {
    && i < |At(y.pool.popped, s)|
    && forall w | Undispatched(y, w, s) :: i < |At(y.pool.popped, s)| - 1
  }

  ghost predicate Begun(y: Sys) {
    forall id | id in y.begun ::
      ReqAt(y, y.begun[id].0, y.begun[id].1, id) && Passed(y, y.begun[id].0, y.begun[id].1)
  }

  predicate Replied(y: Sys, id: Id) {
    exists k | 0 <= k < |y.replies| :: y.replies[k].0 == id
  }

  /** The request was handed to a handler and came from `from`. */
  predicate CameFrom(y: Sys, id: Id, from: Service) {
    && id in y.begun
    && var (s, i) := y.begun[id];
       0 <= i < |At(y.pool.accepted, s)| && At(y.pool.accepted, s)[i] == Request(from, id)
  }

  predicate Open(y: Sys, k: Task) {
    CameFrom(y, k.request, k.requester) && !Replied(y, k.request)
  }

  predicate EntryOf(y: Sys, s: Service, id: Id, request: Id) {
    id in Tasks(y, s) && Tasks(y, s)[id].request == request
  }

  ghost predicate OpenTasks(y: Sys) {
    && (forall s, id | id in Tasks(y, s) :: Open(y, Tasks(y, s)[id]))
    && (forall w | w in y.handlers :: Open(y, y.handlers[w].task))
  }

  /** Nobody else works on the same request. */
  ghost predicate OneTask(y: Sys) {
    && (forall s: Service, id: Id, t: Service, jd: Id, r: Id ::
          EntryOf(y, s, id, r) && EntryOf(y, t, jd, r) ==> s == t && id == jd)
    && (forall w: nat, s: Service, id: Id | w in y.handlers && EntryOf(y, s, id, y.handlers[w].task.request) ::
          y.handlers[w].key == Some(id) && IsBusy(y, w) && s == y.pool.workers[w].s)
    && (forall w | w in y.handlers && y.handlers[w].key.Some? ::
          IsBusy(y, w) && EntryOf(y, y.pool.workers[w].s, y.handlers[w].key.value, y.handlers[w].task.request))
    && (forall v, w | v in y.handlers && w in y.handlers ::
          y.handlers[v].task.request == y.handlers[w].task.request ==> v == w)
  }

  ghost predicate Once(y: Sys) {
    && (forall i, j | 0 <= i < j < |y.replies| :: y.replies[i].0 != y.replies[j].0)
    && (forall i | 0 <= i < |y.replies| :: CameFrom(y, y.replies[i].0, y.replies[i].1))
  }

  ghost predicate OnceInv(y: Sys) {
    SysInv(y) && Unique(y) && LastPopped(y) && Begun(y) && OpenTasks(y) && OneTask(y) && Once(y)
  }

  lemma OnceSys(y: Sys)
    requires OnceInv(y)
    ensures SysInv(y)
  {
  }

  // ---- What an action does to the histories ----

  function PostedTo(y: Sys, a: Action): Service
    requires Can(y, a)
  {
    match a
    case External(_, _, to, _) => to
    case TimerFires(_, to, _, _) => to
    case Notify(_, _, to, _) => to
    case Call(_, _, to, _) => to
    case Return(w, _, _, _) => y.handlers[w].task.requester
    case _ => 0
  }

  lemma AcceptedAfter(y: Sys, a: Action, s: Service)
    requires Can(y, a)
    ensures var b, b' := At(y.pool.accepted, s), At(Next(y, a).pool.accepted, s);
            || b' == b
            || (b' == b + [Posted(y, a)] && s == PostedTo(y, a) && !a.Turn?)
  {
    if a.Turn? {
      TurnAccepted(y.pool, a.st);
    } else if a.Return? {
      ReturnAccepted(y, a, s);
    }
  }

  lemma TurnAccepted(p: Pool<Msg>, st: Step<Msg>)
    requires Enabled(p, st) && !st.PushMsg?
    ensures Apply(p, st).accepted == p.accepted
    ensures !st.PopMsg? ==> Apply(p, st).popped == p.popped
  {
    hide At;
    if !st.PopMsg? { MailKept(p, st); }
  }

  lemma ReturnAccepted(y: Sys, a: Action, s: Service)
    requires Can(y, a) && a.Return?
    ensures var b, b' := At(y.pool.accepted, s), At(Next(y, a).pool.accepted, s);
            b' == b || (b' == b + [Posted(y, a)] && s == y.handlers[a.w].task.requester)
  {
  }

  lemma PoppedAfter(y: Sys, a: Action)
    requires Can(y, a)
    ensures !(a.Turn? && a.st.PopMsg?) ==> Next(y, a).pool.popped == y.pool.popped
  {
    hide At, Tasks, Erase;
    if a.Turn? { TurnAccepted(y.pool, a.st); }
  }

  lemma ReqAfter(y: Sys, a: Action, s: Service, i: int, id: Id)
    requires Can(y, a)
    ensures ReqAt(y, s, i, id) ==> ReqAt(Next(y, a), s, i, id)
    ensures ReqAt(Next(y, a), s, i, id) ==>
              || ReqAt(y, s, i, id)
              || (id == y.nextId && s == PostedTo(y, a) && i == |At(y.pool.accepted, s)|
                  && Posted(y, a).Request? && id < Next(y, a).nextId)
  {
    AcceptedAfter(y, a, s);
    IdAfter(y, a);
  }

  lemma IdAfter(y: Sys, a: Action)
    requires Can(y, a)
    ensures Next(y, a).nextId >= y.nextId
    ensures Posted(y, a).Request? ==> Posted(y, a).id == y.nextId < Next(y, a).nextId
  {
  }

  lemma StepUnique(y: Sys, a: Action)
    requires OnceInv(y) && Can(y, a)
    ensures Unique(Next(y, a))
  {
    var z := Next(y, a);
    IdAfter(y, a);
    forall s: Service, i: int, id: Id | ReqAt(z, s, i, id)
      ensures id < z.nextId
    {
      ReqAfter(y, a, s, i, id);
    }
    forall s: Service, i: int, t: Service, j: int, id: Id | ReqAt(z, s, i, id) && ReqAt(z, t, j, id)
      ensures s == t && i == j
    {
      ReqAfter(y, a, s, i, id);
      ReqAfter(y, a, t, j, id);
    }
  }

  lemma OneWorker(y: Sys, v: nat, w: nat)
    requires SysInv(y) && IsBusy(y, v) && IsBusy(y, w) && y.pool.workers[v].s == y.pool.workers[w].s
    ensures v == w
  {
    var s := y.pool.workers[v].s;
    assert Holds(y.pool, v, s) && Holds(y.pool, w, s);
  }

  lemma PopAppends(p: Pool<Msg>, w: nat)
    requires Enabled(p, PopMsg(w))
    ensures var q := Apply(p, PopMsg(w)); var s := p.workers[w].s;
            && (w in q.workers && q.workers[w].Busy? ==>
                  q.workers[w].s == s && At(q.popped, s) == At(p.popped, s) + [q.workers[w].m])
            && (forall t: Service | t != s :: At(q.popped, t) == At(p.popped, t))
            && |At(q.popped, s)| >= |At(p.popped, s)|
  {
  }

  lemma TurnIs(y: Sys, a: Action)
    requires Can(y, a) && a.Turn?
    ensures Next(y, a).pool == Apply(y.pool, a.st)
  {
    hide Apply;
  }

  /** Two workers never have the same service. */
  lemma OtherHolder(p: Pool<Msg>, w: nat, v: nat)
    requires Scheduler.Inv(p) && w != v && w in p.workers && v in p.workers
    requires p.workers[w].Busy? && p.workers[v].Held?
    ensures p.workers[w].s != p.workers[v].s
  {
    assert Holds(p, w, p.workers[w].s) && Holds(p, v, p.workers[v].s);
  }

  lemma StepLastPopped(y: Sys, a: Action)
    requires OnceInv(y) && Can(y, a)
    ensures LastPopped(Next(y, a))
  {
    hide Next, Unique, Begun, OpenTasks, OneTask, Once, Apply;
    var z := Next(y, a);
    PoppedAfter(y, a);
    if a.Turn? { TurnIs(y, a); }
    forall w | IsBusy(z, w)
      ensures var p := At(z.pool.popped, z.pool.workers[w].s);
        p != [] && p[|p| - 1] == z.pool.workers[w].m
    {
      BusyAfter(y, a, w);
      if a.Turn? && a.st.PopMsg? {
        var v := a.st.w;
        PopAppends(y.pool, v);
        if w != v { OtherHolder(y.pool, w, v); }
      }
    }
  }

  /** The request a worker has just popped has not been handed to a handler. */
  lemma NotBegun(y: Sys, w: nat)
    requires OnceInv(y) && IsBusy(y, w) && w !in y.handlers && y.pool.workers[w].m.Request?
    ensures y.pool.workers[w].m.id !in y.begun
    ensures ReqAt(y, y.pool.workers[w].s, |At(y.pool.popped, y.pool.workers[w].s)| - 1, y.pool.workers[w].m.id)
    ensures var s := y.pool.workers[w].s;
            At(y.pool.accepted, s)[|At(y.pool.popped, s)| - 1] == y.pool.workers[w].m
  {
    var s, m := y.pool.workers[w].s, y.pool.workers[w].m;
    var p := At(y.pool.popped, s);
    assert p + At(y.pool.boxes, s) == At(y.pool.accepted, s);
    assert At(y.pool.accepted, s)[|p| - 1] == p[|p| - 1];
    assert ReqAt(y, s, |p| - 1, m.id);
    assert Undispatched(y, w, s);
  }

  lemma UndispatchedAfter(y: Sys, a: Action, w: nat, s: Service)
    requires SysInv(y) && Can(y, a) && Undispatched(Next(y, a), w, s)
    ensures Undispatched(y, w, s) || (a.Turn? && a.st == PopMsg(w))
  {
    BusyAfter(y, a, w);
    if IsBusy(y, w) && w in y.handlers { HandlerLost(y, a, w); }
  }

  lemma HandlerLost(y: Sys, a: Action, w: nat)
    requires SysInv(y) && Can(y, a) && w in y.handlers
    ensures w in Next(y, a).handlers || !IsBusy(Next(y, a), w)
  {
    hide SysInv;
    if a.Return? { ReturnCloses(y, a); }
  }

  lemma ReturnCloses(y: Sys, a: Action)
    requires Can(y, a) && a.Return?
    ensures !IsBusy(Next(y, a), a.w) && Next(y, a).handlers == y.handlers - {a.w}
  {
  }

  lemma PassedAfter(y: Sys, a: Action, s: Service, i: int)
    requires OnceInv(y) && Can(y, a) && Passed(y, s, i)
    ensures Passed(Next(y, a), s, i)
  {
    var z := Next(y, a);
    PoppedAfter(y, a);
    if a.Turn? && a.st.PopMsg? { PopAppends(y.pool, a.st.w); }
    forall w | Undispatched(z, w, s)
      ensures i < |At(z.pool.popped, s)| - 1
    {
      UndispatchedAfter(y, a, w, s);
    }
  }

  lemma BegunAfter(y: Sys, a: Action)
    requires Can(y, a)
    ensures var z := Next(y, a);
            if a.Begin? && y.pool.workers[a.w].m.Request? then
              var s, m := y.pool.workers[a.w].s, y.pool.workers[a.w].m;
              && z.begun == y.begun[m.id := (s, |At(y.pool.popped, s)| - 1)]
              && z.pool == y.pool && z.tasks == y.tasks && z.replies == y.replies
              && z.handlers == y.handlers[a.w := Running(Task(y.nextTid, m.sender, m.id), None)]
            else z.begun == y.begun
  {
  }

  lemma StepBegun(y: Sys, a: Action)
    requires OnceInv(y) && Can(y, a)
    ensures Begun(Next(y, a))
  {
    var z := Next(y, a);
    BegunAfter(y, a);
    forall id | id in z.begun
      ensures ReqAt(z, z.begun[id].0, z.begun[id].1, id) && Passed(z, z.begun[id].0, z.begun[id].1)
    {
      if id in y.begun && z.begun[id] == y.begun[id] {
        ReqAfter(y, a, y.begun[id].0, y.begun[id].1, id);
        PassedAfter(y, a, y.begun[id].0, y.begun[id].1);
      } else {
        var s := y.pool.workers[a.w].s;
        NotBegun(y, a.w);
        forall w | Undispatched(z, w, s)
          ensures false
        {
          OneWorker(y, w, a.w);
        }
      }
    }
  }

  /** What is known of a request stays known. */
  lemma CameFromAfter(y: Sys, a: Action, id: Id, from: Service)
    requires OnceInv(y) && Can(y, a) && CameFrom(y, id, from)
    ensures CameFrom(Next(y, a), id, from)
  {
    BegunAfter(y, a);
    if a.Begin? && y.pool.workers[a.w].m.Request? { NotBegun(y, a.w); }
    AcceptedAfter(y, a, y.begun[id].0);
  }

  lemma RepliesAfter(y: Sys, a: Action)
    requires Can(y, a)
    ensures Next(y, a).replies == y.replies
            || (a.Return? && Next(y, a).replies ==
                  y.replies + [(y.handlers[a.w].task.request, y.handlers[a.w].task.requester)])
  {
  }

  lemma OpenAfter(y: Sys, a: Action, k: Task)
    requires OnceInv(y) && Can(y, a) && Open(y, k)
    requires a.Return? ==> k.request != y.handlers[a.w].task.request
    ensures Open(Next(y, a), k)
  {
    hide OnceInv, Next, CameFrom;
    CameFromAfter(y, a, k.request, k.requester);
    RepliesAfter(y, a);
  }

  lemma OnceReturn(y: Sys, a: Action, i: nat)
    requires OnceInv(y) && Can(y, a) && i < |Next(y, a).replies|
    ensures CameFrom(Next(y, a), Next(y, a).replies[i].0, Next(y, a).replies[i].1)
  {
    RepliesAfter(y, a);
    if i < |y.replies| {
      CameFromAfter(y, a, y.replies[i].0, y.replies[i].1);
    } else {
      var k := y.handlers[a.w].task;
      assert Open(y, k);
      CameFromAfter(y, a, k.request, k.requester);
    }
  }

  lemma StepOnce(y: Sys, a: Action)
    requires OnceInv(y) && Can(y, a)
    ensures Once(Next(y, a))
  {
    hide SysInv, Unique, LastPopped, Begun, OneTask, CameFrom;
    forall i | 0 <= i < |Next(y, a).replies|
      ensures CameFrom(Next(y, a), Next(y, a).replies[i].0, Next(y, a).replies[i].1)
    {
      OnceReturn(y, a, i);
    }
    RepliesAfter(y, a);
    if a.Return? { assert Open(y, y.handlers[a.w].task); }
  }

  /** An erased entry is gone. */
  lemma KeyErased(y: Sys, a: Action)
    requires SysInv(y) && Can(y, a) && (a.Return? || a.Register?) && y.handlers[a.w].key.Some?
    ensures var s, k := y.pool.workers[a.w].s, y.handlers[a.w].key.value;
            k in Tasks(Next(y, a), s) ==> a.Register? && k == y.handlers[a.w].id
  {
  }

  lemma EntryAfter(y: Sys, a: Action, s: Service, id: Id, r: Id)
    requires OnceInv(y) && Can(y, a) && EntryOf(Next(y, a), s, id, r)
    ensures || (EntryOf(y, s, id, r) && (a.Return? || a.Register? ==> r != y.handlers[a.w].task.request))
            || (a.Register? && s == y.pool.workers[a.w].s && id == y.handlers[a.w].id
                && r == y.handlers[a.w].task.request)
  {
    TasksAfter(y, a, s, id);
    if (a.Return? || a.Register?) && EntryOf(y, s, id, r) && r == y.handlers[a.w].task.request {
      assert y.handlers[a.w].key == Some(id) && s == y.pool.workers[a.w].s;
      KeyErased(y, a);
    }
  }

  lemma StepOpen(y: Sys, a: Action)
    requires OnceInv(y) && Can(y, a)
    ensures OpenTasks(Next(y, a))
  {
    var z := Next(y, a);
    forall s: Service, id: Id | id in Tasks(z, s)
      ensures Open(z, Tasks(z, s)[id])
    {
      EntryAfter(y, a, s, id, Tasks(z, s)[id].request);
      TasksAfter(y, a, s, id);
      if id in Tasks(y, s) { assert Open(y, Tasks(y, s)[id]); }
      OpenAfter(y, a, Tasks(z, s)[id]);
    }
    forall w | w in z.handlers
      ensures Open(z, z.handlers[w].task)
    {
      OpenHandler(y, a, w);
    }
  }

  lemma OpenHandler(y: Sys, a: Action, w: nat)
    requires OnceInv(y) && Can(y, a) && w in Next(y, a).handlers
    ensures Open(Next(y, a), Next(y, a).handlers[w].task)
  {
    HandlerShape(y, a, w);
    if a == Begin(w) {
      OpenBegun(y, w);
    } else {
      assert Open(y, y.handlers[w].task);
      if a.Return? { ReturnCloses(y, a); }
      OpenAfter(y, a, y.handlers[w].task);
    }
  }

  lemma OpenBegun(y: Sys, w: nat)
    requires OnceInv(y) && Can(y, Begin(w)) && w in Next(y, Begin(w)).handlers
    ensures Open(Next(y, Begin(w)), Next(y, Begin(w)).handlers[w].task)
  {
    if y.pool.workers[w].m.Request? {
      OpenNew(y, w);
    } else {
      var k := Tasks(y, y.pool.workers[w].s)[y.pool.workers[w].m.id];
      assert Open(y, k);
      OpenAfter(y, Begin(w), k);
    }
  }

  lemma RepliedBegun(y: Sys, id: Id)
    requires Once(y) && Replied(y, id)
    ensures id in y.begun
  {
    var k :| 0 <= k < |y.replies| && y.replies[k].0 == id;
    assert CameFrom(y, y.replies[k].0, y.replies[k].1);
  }

  lemma OpenNew(y: Sys, w: nat)
    requires OnceInv(y) && Can(y, Begin(w)) && y.pool.workers[w].m.Request?
    ensures w in Next(y, Begin(w)).handlers
    ensures Open(Next(y, Begin(w)), Next(y, Begin(w)).handlers[w].task)
  {
    hide SysInv, Unique, LastPopped, Begun, OpenTasks, OneTask;
    NotBegun(y, w);
    BegunAfter(y, Begin(w));
    if Replied(y, y.pool.workers[w].m.id) { RepliedBegun(y, y.pool.workers[w].m.id); }
  }

  /** The handler of a worker in terms of the state before. */
  lemma HandlerRequest(y: Sys, a: Action, w: nat)
    requires OnceInv(y) && Can(y, a) && w in Next(y, a).handlers
    ensures IsBusy(y, w) && IsBusy(Next(y, a), w) && Next(y, a).pool.workers[w] == y.pool.workers[w]
    ensures var h, m := Next(y, a).handlers[w], y.pool.workers[w].m;
            if a == Begin(w) then
              if m.Request? then h.key == None && h.task.request == m.id && h.task.request !in y.begun
              else h.key == Some(m.id) && EntryOf(y, y.pool.workers[w].s, m.id, h.task.request)
            else w in y.handlers && h.task == y.handlers[w].task && h.key == y.handlers[w].key
    ensures (a.Return? || a.Register?) ==> w != a.w
  {
    hide OnceInv, SysInv, Apply;
    OnceSys(y);
    HandlerShape(y, a, w);
    if a == Begin(w) {
      if y.pool.workers[w].m.Request? { NotBegun(y, w); }
    } else if a.Return? {
      ReturnCloses(y, a);
    }
  }

  lemma RequestsBegun(y: Sys)
    requires OnceInv(y)
    ensures forall s: Service, id: Id, r: Id :: EntryOf(y, s, id, r) ==> r in y.begun
    ensures forall w | w in y.handlers :: y.handlers[w].task.request in y.begun
  {
    forall s: Service, id: Id, r: Id | EntryOf(y, s, id, r)
      ensures r in y.begun
    {
      assert Open(y, Tasks(y, s)[id]);
    }
    forall w | w in y.handlers
      ensures y.handlers[w].task.request in y.begun
    {
      assert Open(y, y.handlers[w].task);
    }
  }

  lemma StepEntriesOnce(y: Sys, a: Action, s: Service, id: Id, t: Service, jd: Id, r: Id)
    requires OnceInv(y) && Can(y, a) && EntryOf(Next(y, a), s, id, r) && EntryOf(Next(y, a), t, jd, r)
    ensures s == t && id == jd
  {
    EntryAfter(y, a, s, id, r);
    EntryAfter(y, a, t, jd, r);
  }

  lemma StepHandlerEntry(y: Sys, a: Action, w: nat, s: Service, id: Id)
    requires OnceInv(y) && Can(y, a) && w in Next(y, a).handlers
    requires EntryOf(Next(y, a), s, id, Next(y, a).handlers[w].task.request)
    ensures Next(y, a).handlers[w].key == Some(id) && IsBusy(Next(y, a), w)
            && s == Next(y, a).pool.workers[w].s
  {
    hide Next, EntryOf, SysInv, Unique, LastPopped, Begun, Once;
    var r := Next(y, a).handlers[w].task.request;
    HandlerRequest(y, a, w);
    RequestsBegun(y);
    EntryAfter(y, a, s, id, r);
  }

  /** The entry a handler was resumed from stays until that handler is through. */
  lemma EntryKept(y: Sys, a: Action, s: Service, id: Id)
    requires Can(y, a) && id in Tasks(y, s)
    requires a.Return? || a.Register? ==> s != y.pool.workers[a.w].s
    ensures id in Tasks(Next(y, a), s) && Tasks(Next(y, a), s)[id] == Tasks(y, s)[id]
  {
  }

  lemma StepHandlerKey(y: Sys, a: Action, w: nat)
    requires OnceInv(y) && Can(y, a) && w in Next(y, a).handlers && Next(y, a).handlers[w].key.Some?
    ensures IsBusy(Next(y, a), w)
    ensures var h := Next(y, a).handlers[w];
            EntryOf(Next(y, a), Next(y, a).pool.workers[w].s, h.key.value, h.task.request)
  {
    HandlerRequest(y, a, w);
    var s := y.pool.workers[w].s;
    if (a.Return? || a.Register?) && s == y.pool.workers[a.w].s { OneWorker(y, w, a.w); }
    EntryKept(y, a, s, Next(y, a).handlers[w].key.value);
  }

  lemma StepHandlersOnce(y: Sys, a: Action, v: nat, w: nat)
    requires OnceInv(y) && Can(y, a) && v in Next(y, a).handlers && w in Next(y, a).handlers
    requires Next(y, a).handlers[v].task.request == Next(y, a).handlers[w].task.request
    requires w != v ==> a != Begin(v)
    ensures v == w
  {
    HandlerRequest(y, a, v);
    HandlerRequest(y, a, w);
    RequestsBegun(y);
    if v != w && a == Begin(w) && !y.pool.workers[w].m.Request? {
      OneWorker(y, v, w);
    }
  }

  lemma StepOneTask(y: Sys, a: Action)
    requires OnceInv(y) && Can(y, a)
    ensures OneTask(Next(y, a))
  {
    var z := Next(y, a);
    forall s: Service, id: Id, t: Service, jd: Id, r: Id | EntryOf(z, s, id, r) && EntryOf(z, t, jd, r)
      ensures s == t && id == jd
    {
      StepEntriesOnce(y, a, s, id, t, jd, r);
    }
    forall w: nat, s: Service, id: Id | w in z.handlers && EntryOf(z, s, id, z.handlers[w].task.request)
      ensures z.handlers[w].key == Some(id) && IsBusy(z, w) && s == z.pool.workers[w].s
    {
      StepHandlerEntry(y, a, w, s, id);
    }
    forall w | w in z.handlers && z.handlers[w].key.Some?
      ensures IsBusy(z, w)
      ensures EntryOf(z, z.pool.workers[w].s, z.handlers[w].key.value, z.handlers[w].task.request)
    {
      StepHandlerKey(y, a, w);
    }
    forall v, w | v in z.handlers && w in z.handlers && z.handlers[v].task.request == z.handlers[w].task.request
      ensures v == w
    {
      if a == Begin(v) { StepHandlersOnce(y, a, w, v); } else { StepHandlersOnce(y, a, v, w); }
    }
  }

  lemma {:induction false} RunOnce(y: Sys, actions: seq<Action>)
    requires OnceInv(y) && Acts(y, actions)
    ensures OnceInv(Final(y, actions))
    decreases |actions|
  {
    if actions == [] {
    } else {
      var a := actions[0];
      StepSys(y, a);
      StepUnique(y, a);
      StepLastPopped(y, a);
      StepBegun(y, a);
      StepOpen(y, a);
      StepOneTask(y, a);
      StepOnce(y, a);
      RunOnce(Next(y, a), actions[1..]);
    }
  }

  /** Some service accepted the request id from `from`. */
  ghost predicate AskedBy(y: Sys, id: Id, from: Service) {
    exists s: Service :: Request(from, id) in At(y.pool.accepted, s)
  }

  /** In every interleaving, no request is answered twice, and every answer goes to the service
      that sent the request. */
  lemma AtMostOneReply(y0: Sys, actions: seq<Action>)
    requires Start(y0) && Acts(y0, actions)
    ensures var y := Final(y0, actions);
            && (forall i, j | 0 <= i < j < |y.replies| :: y.replies[i].0 != y.replies[j].0)
            && (forall i | 0 <= i < |y.replies| :: AskedBy(y, y.replies[i].0, y.replies[i].1))
  {
    StartInv(y0);
    RunOnce(y0, actions);
    var y := Final(y0, actions);
    forall i | 0 <= i < |y.replies|
      ensures AskedBy(y, y.replies[i].0, y.replies[i].1)
    {
      var (id, from) := y.replies[i];
      assert CameFrom(y, id, from);
      assert Request(from, id) in At(y.pool.accepted, y.begun[id].0);
    }
  }
}
