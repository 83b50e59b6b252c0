/** Requests and replies between services on the worker pool. A handler sends a request under
    a fresh session id and suspends at once; its task is registered under that id only when
    control is back in the executor, while other workers may already be replying. */
module ReplyProtocol {
  import opened Scheduler
  import opened Wrappers

  type Id = nat

  datatype Msg = Request(sender: Service, id: Id) | Reply(id: Id) | Timeout(id: Id)

  /** A handler's coroutine: who it is and which request it will answer. */
  datatype Task = Task(tid: nat, requester: Service, request: Id)

  /** What a worker is doing with its message. */
  datatype Handler =
    | Running(task: Task, key: Option<Id>)          // key: the task map entry it was resumed from
    | Called(task: Task, key: Option<Id>, id: Id)   // request sent, suspended, not yet registered

  datatype Owner = Owner(s: Service, tid: nat)

  datatype Sys = Sys(
    pool: Pool<Msg>,
    tasks: map<Service, map<Id, Task>>,
    handlers: map<nat, Handler>,
    nextId: Id,
    nextTid: nat,
    owners: map<Id, Owner>,     // history: which task sent the request and waits for it,
    registered: set<Id>,        // and the ids under which a task has been registered
    begun: map<Id, (Service, int)>, // requests given to a handler: where and as which message,
    replies: seq<(Id, Service)>) // and replies sent: to which request, to whom

  datatype Action =
    | Turn(st: Step<Msg>)                                       // scheduling only
    | External(t: nat, sender: Service, to: Service, accept: bool) // a request nobody waits for
    | TimerFires(t: nat, to: Service, id: Id, accept: bool)
    | Drop(w: nat, exits: bool)                                 // the service's stage ignores the message
    | Begin(w: nat)
    | Notify(w: nat, t: nat, to: Service, accept: bool)         // send without waiting
    | Call(w: nat, t: nat, to: Service, accept: bool)           // send, then wait
    | Register(w: nat)
    | Return(w: nat, t: nat, reply: bool, accept: bool)

  function Tasks(y: Sys, s: Service): map<Id, Task> {
    if s in y.tasks then y.tasks[s] else map[]
  }

  predicate IsBusy(y: Sys, w: nat) {
    w in y.pool.workers && y.pool.workers[w].Busy?
  }

  predicate CanSend(y: Sys, t: nat, to: Service) {
    t !in y.pool.senders && to in y.pool.services
  }

  predicate Can(y: Sys, a: Action) {
    match a
    case Turn(st) => !st.PushMsg? && !st.Finish? && Enabled(y.pool, st)
    case External(t, _, to, _) => CanSend(y, t, to)
    case TimerFires(t, to, _, _) => CanSend(y, t, to)
    case Drop(w, _) => IsBusy(y, w) && w !in y.handlers
    case Begin(w) => IsBusy(y, w) && w !in y.handlers
    case Notify(w, t, to, _) => IsBusy(y, w) && w in y.handlers && y.handlers[w].Running? && CanSend(y, t, to)
    case Call(w, t, to, _) => IsBusy(y, w) && w in y.handlers && y.handlers[w].Running? && CanSend(y, t, to)
    case Register(w) => IsBusy(y, w) && w in y.handlers && y.handlers[w].Called?
    case Return(w, t, _, _) =>
      && IsBusy(y, w) && w in y.handlers && y.handlers[w].Running?
      && CanSend(y, t, y.handlers[w].task.requester)
  }

  function Post(y: Sys, t: nat, to: Service, m: Msg, accept: bool): Sys
    requires CanSend(y, t, to)
  {
    y.(pool := Apply(y.pool, PushMsg(t, to, m, accept)))
  }

  function Fresh(y: Sys): Sys {
    y.(nextId := y.nextId + 1)
  }

  /** The worker is through with its message. */
  function Close(y: Sys, w: nat, exits: bool): Sys
    requires IsBusy(y, w)
  {
    y.(pool := Apply(y.pool, Finish(w, exits)), handlers := y.handlers - {w})
  }

  function Erase(tasks: map<Id, Task>, key: Option<Id>): map<Id, Task> {
    if key.Some? then tasks - {key.value} else tasks
  }

  function Next(y: Sys, a: Action): Sys
    requires Can(y, a)
  {
    match a
    case Turn(st) => y.(pool := Apply(y.pool, st))
    case External(t, sender, to, accept) => Fresh(Post(y, t, to, Request(sender, y.nextId), accept))
    case TimerFires(t, to, id, accept) => Post(y, t, to, Timeout(id), accept)
    case Drop(w, exits) => Close(y, w, exits)
    case Begin(w) => (
      var s, m := y.pool.workers[w].s, y.pool.workers[w].m;
      if m.Request? then
        y.(nextTid := y.nextTid + 1,
           begun := y.begun[m.id := (s, |At(y.pool.popped, s)| - 1)],
           handlers := y.handlers[w := Running(Task(y.nextTid, m.sender, m.id), None)])
      else if m.id in Tasks(y, s) then
        y.(handlers := y.handlers[w := Running(Tasks(y, s)[m.id], Some(m.id))])
      else Close(y, w, false))
    case Notify(w, t, to, accept) =>
      Fresh(Post(y, t, to, Request(y.pool.workers[w].s, y.nextId), accept))
    case Call(w, t, to, accept) => (
      var s, h := y.pool.workers[w].s, y.handlers[w];
      var y' := Fresh(Post(y, t, to, Request(s, y.nextId), accept));
      if !accept then y'
      else y'.(handlers := y.handlers[w := Called(h.task, h.key, y.nextId)],
               owners := y.owners[y.nextId := Owner(s, h.task.tid)]))
    case Register(w) => (
      var s, h := y.pool.workers[w].s, y.handlers[w];
      Close(y.(tasks := y.tasks[s := Erase(Tasks(y, s), h.key)[h.id := h.task]],
               registered := y.registered + {h.id}), w, false))
    case Return(w, t, reply, accept) =>
      var s, h := y.pool.workers[w].s, y.handlers[w];
      var y' := y.(tasks := y.tasks[s := Erase(Tasks(y, s), h.key)]);
      var y'' :=
        if reply then Post(y', t, h.task.requester, Reply(h.task.request), accept).(
                        replies := y.replies + [(h.task.request, h.task.requester)])
        else y';
      Close(y'', w, false)
  }

  // ---- Invariant ----

  /** A message knows nothing of ids not yet given out, and goes back to who asked. */
  predicate MsgOk(y: Sys, at: Service, m: Msg) {
    match m
    case Request(sender, id) => id < y.nextId && (id in y.owners ==> y.owners[id].s == sender)
    case Reply(id) => id < y.nextId && (id in y.owners ==> y.owners[id].s == at)
    case Timeout(_) => true
  }

  predicate TaskOk(y: Sys, k: Task) {
    k.request < y.nextId && (k.request in y.owners ==> y.owners[k.request].s == k.requester)
  }

  ghost predicate Messages(y: Sys) {
    && (forall s, i | 0 <= i < |At(y.pool.boxes, s)| :: MsgOk(y, s, At(y.pool.boxes, s)[i]))
    && (forall w | IsBusy(y, w) :: MsgOk(y, y.pool.workers[w].s, y.pool.workers[w].m))
  }

  ghost predicate Handlers(y: Sys) {
    forall w | w in y.handlers ::
      var h := y.handlers[w];
      && IsBusy(y, w)
      && TaskOk(y, h.task)
      && (h.Called? ==>
            h.id in y.owners && y.owners[h.id] == Owner(y.pool.workers[w].s, h.task.tid)
            && h.id !in y.registered)
  }

  /** An entry of a task map belongs to the task that sent the request with that id. */
  predicate EntryOk(y: Sys, s: Service, id: Id, k: Task) {
    && TaskOk(y, k)
    && id in y.owners && y.owners[id] == Owner(s, k.tid)
    && id in y.registered
  }

  ghost predicate Entries(y: Sys) {
    forall s, id | id in Tasks(y, s) :: EntryOk(y, s, id, Tasks(y, s)[id])
  }

  ghost predicate Calling(y: Sys, id: Id) {
    exists w :: w in y.handlers && y.handlers[w].Called? && y.handlers[w].id == id
  }

  /** A request somebody waits for has its task registered, or the worker that sent it is
      still busy with the caller's service. */
  ghost predicate Owners(y: Sys) {
    && (forall id | id in y.owners :: id < y.nextId)
    && (forall id | id in y.owners :: id in y.registered || Calling(y, id))
    && (forall id | id in y.registered :: id in y.owners)
  }

  ghost predicate SysInv(y: Sys) {
    Scheduler.Inv(y.pool) && Messages(y) && Handlers(y) && Entries(y) && Owners(y)
  }

  ghost predicate Start(y: Sys) {
    && Initial(y.pool) && y.tasks == map[] && y.handlers == map[] && y.owners == map[]
    && y.registered == {} && y.replies == [] && y.begun == map[]
  }

  lemma StartInv(y: Sys)
    requires Start(y)
    ensures SysInv(y)
  {
    InitialInv(y.pool);
  }

  /** The pool only takes scheduler steps. */
  lemma PoolStep(y: Sys, a: Action)
    requires SysInv(y) && Can(y, a)
    ensures Scheduler.Inv(Next(y, a).pool)
  {
    hide Apply, Scheduler.Inv, Messages, Handlers, Entries, Owners, Tasks, Erase;
    match a
    case Turn(st) => StepInv(y.pool, st);
    case External(t, sender, to, accept) => StepInv(y.pool, PushMsg(t, to, Request(sender, y.nextId), accept));
    case TimerFires(t, to, id, accept) => StepInv(y.pool, PushMsg(t, to, Timeout(id), accept));
    case Drop(w, exits) => StepInv(y.pool, Finish(w, exits));
    case Begin(w) => StepInv(y.pool, Finish(w, false));
    case Notify(w, t, to, accept) =>
      StepInv(y.pool, PushMsg(t, to, Request(y.pool.workers[w].s, y.nextId), accept));
    case Call(w, t, to, accept) =>
      StepInv(y.pool, PushMsg(t, to, Request(y.pool.workers[w].s, y.nextId), accept));
    case Register(w) => StepInv(y.pool, Finish(w, false));
    case Return(_, _, _, _) => PoolReturn(y, a);
  }

  lemma PoolReturn(y: Sys, a: Action)
    requires SysInv(y) && Can(y, a) && a.Return?
    ensures Scheduler.Inv(Next(y, a).pool)
  {
    hide Scheduler.Inv, Messages, Handlers, Entries, Owners, At, Tasks, Erase;
    var k := y.handlers[a.w].task;
    StepInv(y.pool, Finish(a.w, false));
    if a.reply {
      var st := PushMsg(a.t, k.requester, Reply(k.request), a.accept);
      StepInv(y.pool, st);
      StepInv(Apply(y.pool, st), Finish(a.w, false));
    }
  }

  /** Ids and owners are only ever added, the owners under fresh ids. */
  ghost predicate Extends(y: Sys, z: Sys) {
    && y.nextId <= z.nextId
    && (forall id | id in y.owners :: id in z.owners && z.owners[id] == y.owners[id])
    && (forall id | id in z.owners :: id in y.owners || id >= y.nextId)
  }

  lemma NextExtends(y: Sys, a: Action)
    requires SysInv(y) && Can(y, a)
    ensures Extends(y, Next(y, a))
    ensures !a.Call? ==> Next(y, a).owners == y.owners
  {
    hide Apply, Scheduler.Inv, Messages, Handlers, Entries, Tasks;
  }

  lemma MsgKeeps(y: Sys, z: Sys, at: Service, m: Msg)
    requires Extends(y, z) && MsgOk(y, at, m)
    ensures MsgOk(z, at, m)
  {
  }

  lemma TaskKeeps(y: Sys, z: Sys, k: Task)
    requires Extends(y, z) && TaskOk(y, k)
    ensures TaskOk(z, k)
  {
  }

  /** The message an action puts into a mailbox. */
  function Posted(y: Sys, a: Action): Msg
    requires Can(y, a)
  {
    match a
    case External(_, sender, _, _) => Request(sender, y.nextId)
    case TimerFires(_, _, id, _) => Timeout(id)
    case Notify(w, _, _, _) => Request(y.pool.workers[w].s, y.nextId)
    case Call(w, _, _, _) => Request(y.pool.workers[w].s, y.nextId)
    case Return(w, _, _, _) => Reply(y.handlers[w].task.request)
    case _ => Timeout(0)
  }

  lemma PostedOk(y: Sys, a: Action)
    requires SysInv(y) && Can(y, a)
    ensures a.Return? ==> MsgOk(Next(y, a), y.handlers[a.w].task.requester, Posted(y, a))
    ensures !a.Return? ==> forall s :: MsgOk(Next(y, a), s, Posted(y, a))
  {
    if a.Return? { assert TaskOk(y, y.handlers[a.w].task); }
  }

  lemma TurnBoxes(p: Pool<Msg>, st: Step<Msg>, s: Service)
    requires Enabled(p, st) && !st.PushMsg?
    ensures var b, b' := At(p.boxes, s), At(Apply(p, st).boxes, s);
            b' == b || (b != [] && b' == b[1..])
  {
  }

  lemma BoxShape(y: Sys, a: Action, s: Service)
    requires SysInv(y) && Can(y, a)
    ensures var b, b' := At(y.pool.boxes, s), At(Next(y, a).pool.boxes, s);
            || b' == b
            || (a.Turn? && b != [] && b' == b[1..])
            || (b' == b + [Posted(y, a)] && (a.Return? ==> s == y.handlers[a.w].task.requester))
  {
    if a.Turn? {
      TurnBoxes(y.pool, a.st, s);
    } else if a.Return? {
      ReturnBoxes(y, a, s);
    } else {
      PostBoxes(y, a, s);
    }
  }

  lemma ReturnBoxes(y: Sys, a: Action, s: Service)
    requires Can(y, a) && a.Return?
    ensures var b, b' := At(y.pool.boxes, s), At(Next(y, a).pool.boxes, s);
            b' == b || (b' == b + [Posted(y, a)] && s == y.handlers[a.w].task.requester)
  {
  }

  lemma PostBoxes(y: Sys, a: Action, s: Service)
    requires Can(y, a) && !a.Turn? && !a.Return?
    ensures var b, b' := At(y.pool.boxes, s), At(Next(y, a).pool.boxes, s);
            b' == b || b' == b + [Posted(y, a)]
  {
    if a.Drop? || a.Begin? || a.Register? {
      ClosedBoxes(y, a);
    } else {
      SentBoxes(y, a, s);
    }
  }

  lemma ClosedBoxes(y: Sys, a: Action)
    requires Can(y, a) && (a.Drop? || a.Begin? || a.Register?)
    ensures Next(y, a).pool.boxes == y.pool.boxes
  {
  }

  lemma SentBoxes(y: Sys, a: Action, s: Service)
    requires Can(y, a) && (a.External? || a.TimerFires? || a.Notify? || a.Call?)
    ensures var b, b' := At(y.pool.boxes, s), At(Next(y, a).pool.boxes, s);
            b' == b || b' == b + [Posted(y, a)]
  {
  }

  lemma BoxesAfter(y: Sys, a: Action, s: Service, i: nat)
    requires SysInv(y) && Can(y, a)
    requires i < |At(Next(y, a).pool.boxes, s)|
    ensures MsgOk(Next(y, a), s, At(Next(y, a).pool.boxes, s)[i])
  {
    var b, b' := At(y.pool.boxes, s), At(Next(y, a).pool.boxes, s);
    BoxShape(y, a, s);
    PostedOk(y, a);
    NextExtends(y, a);
    if b != [] && b' == b[1..] {
      MsgKeeps(y, Next(y, a), s, b[i + 1]);
    } else if i < |b| {
      MsgKeeps(y, Next(y, a), s, b[i]);
    }
  }

  lemma TurnBusy(p: Pool<Msg>, st: Step<Msg>, w: nat)
    requires Enabled(p, st) && !st.PushMsg?
    ensures w in Apply(p, st).workers && Apply(p, st).workers[w].Busy? ==>
              var ph := Apply(p, st).workers[w];
              || (w in p.workers && p.workers[w] == ph)
              || (st == PopMsg(w) && At(p.boxes, ph.s) != [] && ph.m == At(p.boxes, ph.s)[0])
  {
  }

  lemma BusyAfter(y: Sys, a: Action, w: nat)
    requires SysInv(y) && Can(y, a) && IsBusy(Next(y, a), w)
    ensures var ph := Next(y, a).pool.workers[w]; MsgOk(y, ph.s, ph.m)
    ensures IsBusy(y, w) ==> Next(y, a).pool.workers[w] == y.pool.workers[w]
    ensures !IsBusy(y, w) ==> a.Turn? && a.st == PopMsg(w)
  {
    hide Scheduler.Inv, Handlers, Entries, Owners, MsgOk, Apply;
    if a.Turn? {
      TurnBusy(y.pool, a.st, w);
      if !IsBusy(y, w) {
        var s := Next(y, a).pool.workers[w].s;
        assert MsgOk(y, s, At(y.pool.boxes, s)[0]);
      }
    } else {
      BusySame(y, a, w);
    }
  }

  lemma BusySame(y: Sys, a: Action, w: nat)
    requires Can(y, a) && !a.Turn? && IsBusy(Next(y, a), w)
    ensures IsBusy(y, w) && Next(y, a).pool.workers[w] == y.pool.workers[w]
  {
    hide At;
  }

  lemma StepMessages(y: Sys, a: Action)
    requires SysInv(y) && Can(y, a)
    ensures Messages(Next(y, a))
  {
    var z := Next(y, a);
    forall s, i | 0 <= i < |At(z.pool.boxes, s)|
      ensures MsgOk(z, s, At(z.pool.boxes, s)[i])
    {
      BoxesAfter(y, a, s, i);
    }
    forall w | IsBusy(z, w)
      ensures MsgOk(z, z.pool.workers[w].s, z.pool.workers[w].m)
    {
      BusyAfter(y, a, w);
      NextExtends(y, a);
    }
  }

  /** A handler on a worker was there before, or is what this action makes of it. */
  lemma HandlerMap(y: Sys, a: Action, w: nat)
    requires SysInv(y) && Can(y, a) && w in Next(y, a).handlers
    ensures IsBusy(y, w)
    ensures var h := Next(y, a).handlers[w];
            || (w in y.handlers && h == y.handlers[w])
            || (a == Begin(w) && h.Running?)
            || (a.Call? && a.w == w && w in y.handlers && h.task == y.handlers[w].task
                && h == Called(h.task, h.key, y.nextId))
  {
    hide Apply, Scheduler.Inv, Messages, Entries, Owners, TaskOk, Tasks;
  }

  lemma PhaseKept(y: Sys, a: Action, w: nat)
    requires SysInv(y) && Can(y, a) && IsBusy(y, w)
    ensures || (IsBusy(Next(y, a), w) && Next(y, a).pool.workers[w] == y.pool.workers[w])
            || w !in Next(y, a).handlers
  {
    if a.Turn? {
      TurnKeepsBusy(y.pool, a.st, w);
    } else if a.Return? {
      ReturnPhase(y, a, w);
    } else {
      OtherPhase(y, a, w);
    }
  }

  lemma OtherPhase(y: Sys, a: Action, w: nat)
    requires SysInv(y) && Can(y, a) && !a.Return? && !a.Turn? && IsBusy(y, w)
    ensures || (IsBusy(Next(y, a), w) && Next(y, a).pool.workers[w] == y.pool.workers[w])
            || w !in Next(y, a).handlers
  {
    hide SysInv, Apply;
    if a.Drop? || a.Begin? || a.Register? {
      if a.w != w { ClosedPhase(y, a, w); } else if a.Begin? && w in Next(y, a).handlers { BegunPhase(y, w); }
    } else {
      SentPhase(y, a);
    }
  }

  lemma ClosedPhase(y: Sys, a: Action, w: nat)
    requires Can(y, a) && (a.Drop? || a.Begin? || a.Register?) && IsBusy(y, w) && a.w != w
    ensures IsBusy(Next(y, a), w) && Next(y, a).pool.workers[w] == y.pool.workers[w]
  {
  }

  lemma BegunPhase(y: Sys, w: nat)
    requires Can(y, Begin(w)) && w in Next(y, Begin(w)).handlers
    ensures Next(y, Begin(w)).pool == y.pool
  {
  }

  lemma SentPhase(y: Sys, a: Action)
    requires Can(y, a) && (a.External? || a.TimerFires? || a.Notify? || a.Call?)
    ensures Next(y, a).pool.workers == y.pool.workers
  {
    hide At;
  }

  lemma ReturnPhase(y: Sys, a: Action, w: nat)
    requires SysInv(y) && Can(y, a) && a.Return? && IsBusy(y, w)
    ensures || (IsBusy(Next(y, a), w) && Next(y, a).pool.workers[w] == y.pool.workers[w])
            || w !in Next(y, a).handlers
  {
  }

  lemma HandlerShape(y: Sys, a: Action, w: nat)
    requires SysInv(y) && Can(y, a) && w in Next(y, a).handlers
    ensures IsBusy(y, w) && IsBusy(Next(y, a), w)
    ensures Next(y, a).pool.workers[w] == y.pool.workers[w]
    ensures var h := Next(y, a).handlers[w];
            || (w in y.handlers && h == y.handlers[w])
            || (a == Begin(w) && h.Running?)
            || (a.Call? && a.w == w && w in y.handlers && h.task == y.handlers[w].task
                && h == Called(h.task, h.key, y.nextId))
  {
    HandlerMap(y, a, w);
    PhaseKept(y, a, w);
  }

  lemma TurnKeepsBusy(p: Pool<Msg>, st: Step<Msg>, w: nat)
    requires Enabled(p, st) && !st.PushMsg? && !st.Finish? && w in p.workers && p.workers[w].Busy?
    ensures w in Apply(p, st).workers && Apply(p, st).workers[w] == p.workers[w]
  {
  }

  lemma HandlerAfter(y: Sys, a: Action, w: nat)
    requires SysInv(y) && Can(y, a) && w in Next(y, a).handlers
    ensures TaskOk(Next(y, a), Next(y, a).handlers[w].task)
  {
    HandlerShape(y, a, w);
    NextExtends(y, a);
    if a == Begin(w) {
      var ph := y.pool.workers[w];
      assert MsgOk(y, ph.s, ph.m);
      if !ph.m.Request? { assert EntryOk(y, ph.s, ph.m.id, Tasks(y, ph.s)[ph.m.id]); }
    } else {
      TaskKeeps(y, Next(y, a), y.handlers[w].task);
    }
  }

  lemma WaitsAfter(y: Sys, a: Action, w: nat)
    requires SysInv(y) && Can(y, a) && w in Next(y, a).handlers && Next(y, a).handlers[w].Called?
    ensures var z := Next(y, a); var h := z.handlers[w];
            && IsBusy(z, w)
            && h.id in z.owners && z.owners[h.id] == Owner(z.pool.workers[w].s, h.task.tid)
            && h.id !in z.registered
  {
    if a.Call? && a.w == w {
      WaitsCall(y, a);
    } else {
      var z := Next(y, a);
      assert IsBusy(z, w) && w in y.handlers && z.handlers[w] == y.handlers[w]
        && z.pool.workers[w] == y.pool.workers[w] by { HandlerShape(y, a, w); }
      assert Extends(y, z) by { NextExtends(y, a); }
      assert y.handlers[w].id !in z.registered by {
        RegisteredAfter(y, a);
        if a.Register? && y.handlers[w].id == y.handlers[a.w].id { OneCaller(y, w, a.w); }
      }
      WaitsKeep(y, z, w);
    }
  }

  lemma WaitsCall(y: Sys, a: Action)
    requires SysInv(y) && Can(y, a) && a.Call? && Next(y, a).handlers[a.w].Called?
    ensures var z := Next(y, a); var h := z.handlers[a.w];
            && IsBusy(z, a.w)
            && h.id in z.owners && z.owners[h.id] == Owner(z.pool.workers[a.w].s, h.task.tid)
            && h.id !in z.registered
  {
    assert y.nextId !in y.owners;
  }

  lemma WaitsKeep(y: Sys, z: Sys, w: nat)
    requires SysInv(y) && Extends(y, z) && w in y.handlers && w in z.handlers && IsBusy(z, w)
    requires z.handlers[w] == y.handlers[w] && z.pool.workers[w] == y.pool.workers[w]
    requires y.handlers[w].Called? && y.handlers[w].id !in z.registered
    ensures var h := z.handlers[w];
            && h.id in z.owners && z.owners[h.id] == Owner(z.pool.workers[w].s, h.task.tid)
            && h.id !in z.registered
  {
  }

  lemma RegisteredAfter(y: Sys, a: Action)
    requires SysInv(y) && Can(y, a)
    ensures Next(y, a).registered == y.registered + if a.Register? then {y.handlers[a.w].id} else {}
    ensures a.Register? ==> a.w !in Next(y, a).handlers
  {
    hide Apply, SysInv, Tasks;
  }

  lemma StepHandlers(y: Sys, a: Action)
    requires SysInv(y) && Can(y, a)
    ensures Handlers(Next(y, a))
  {
    var z := Next(y, a);
    forall w | w in z.handlers
      ensures IsBusy(z, w) && TaskOk(z, z.handlers[w].task)
      ensures var h := z.handlers[w];
        h.Called? ==>
          && h.id in z.owners && z.owners[h.id] == Owner(z.pool.workers[w].s, h.task.tid)
          && h.id !in z.registered
    {
      HandlerShape(y, a, w);
      HandlerAfter(y, a, w);
      if z.handlers[w].Called? { WaitsAfter(y, a, w); }
    }
  }

  /** Two workers never wait to register the same id. */
  lemma OneCaller(y: Sys, v: nat, w: nat)
    requires SysInv(y) && v in y.handlers && w in y.handlers
    requires y.handlers[v].Called? && y.handlers[w].Called? && y.handlers[v].id == y.handlers[w].id
    ensures v == w
  {
    var s := y.pool.workers[v].s;
    assert Owner(s, y.handlers[v].task.tid) == y.owners[y.handlers[v].id];
    assert Holds(y.pool, v, s) && Holds(y.pool, w, s);
  }

  lemma TasksAfter(y: Sys, a: Action, s: Service, id: Id)
    requires Can(y, a) && id in Tasks(Next(y, a), s)
    ensures || (id in Tasks(y, s) && Tasks(Next(y, a), s)[id] == Tasks(y, s)[id])
            || (a.Register? && s == y.pool.workers[a.w].s && id == y.handlers[a.w].id
                && Tasks(Next(y, a), s)[id] == y.handlers[a.w].task)
  {
    hide Apply;
  }

  lemma StepEntries(y: Sys, a: Action)
    requires SysInv(y) && Can(y, a)
    ensures Entries(Next(y, a))
  {
    var z := Next(y, a);
    NextExtends(y, a);
    forall s, id | id in Tasks(z, s)
      ensures EntryOk(z, s, id, Tasks(z, s)[id])
    {
      TasksAfter(y, a, s, id);
      RegisteredAfter(y, a);
      if id in Tasks(y, s) && Tasks(z, s)[id] == Tasks(y, s)[id] {
        assert EntryOk(y, s, id, Tasks(y, s)[id]);
        TaskKeeps(y, z, Tasks(y, s)[id]);
      } else {
        TaskKeeps(y, z, y.handlers[a.w].task);
      }
    }
  }

  /** Whoever has called and not registered yet still has, unless this action registers it. */
  lemma CallingKept(y: Sys, a: Action, w: nat)
    requires SysInv(y) && Can(y, a) && w in y.handlers && y.handlers[w].Called?
    ensures || (w in Next(y, a).handlers && Next(y, a).handlers[w] == y.handlers[w])
            || (a == Register(w) && y.handlers[w].id in Next(y, a).registered)
  {
    hide Apply, SysInv, Tasks;
  }

  lemma NewOwner(y: Sys, a: Action, id: Id)
    requires SysInv(y) && Can(y, a) && id in Next(y, a).owners
    ensures || id in y.owners
            || (id < Next(y, a).nextId && a.Call? && a.w in Next(y, a).handlers
                && Next(y, a).handlers[a.w].Called? && Next(y, a).handlers[a.w].id == id)
  {
    hide Apply, Scheduler.Inv, Messages, Handlers, Entries, Tasks;
  }

  lemma StepOwners(y: Sys, a: Action)
    requires SysInv(y) && Can(y, a)
    ensures Owners(Next(y, a))
  {
    var z := Next(y, a);
    NextExtends(y, a);
    RegisteredAfter(y, a);
    forall id | id in z.owners
      ensures id < z.nextId && (id in z.registered || Calling(z, id))
    {
      NewOwner(y, a, id);
      if id in y.owners && id !in z.registered {
        var w :| w in y.handlers && y.handlers[w].Called? && y.handlers[w].id == id;
        CallingKept(y, a, w);
      }
    }
  }

  lemma StepSys(y: Sys, a: Action)
    requires SysInv(y) && Can(y, a)
    ensures SysInv(Next(y, a))
  {
    PoolStep(y, a);
    StepMessages(y, a);
    StepHandlers(y, a);
    StepEntries(y, a);
    StepOwners(y, a);
  }

  // ---- Every reply meets its caller ----

  predicate Acts(y: Sys, actions: seq<Action>)
    decreases |actions|
  {
    actions == [] || (Can(y, actions[0]) && Acts(Next(y, actions[0]), actions[1..]))
  }

  function Final(y: Sys, actions: seq<Action>): Sys
    requires Acts(y, actions)
    decreases |actions|
  {
    if actions == [] then y else Final(Next(y, actions[0]), actions[1..])
  }

  lemma {:induction false} RunSys(y: Sys, actions: seq<Action>)
    requires SysInv(y) && Acts(y, actions)
    ensures SysInv(Final(y, actions))
    decreases |actions|
  {
    if actions == [] {
    } else {
      StepSys(y, actions[0]);
      RunSys(Next(y, actions[0]), actions[1..]);
    }
  }

  /** In every interleaving: when a worker is about to pop a reply to a request some task
      waits for, that task's service is the one the reply is in, and the task has been
      registered under the id. */
  lemma ReplyMeetsCaller(y0: Sys, actions: seq<Action>, w: nat, id: Id)
    requires Start(y0) && Acts(y0, actions)
    ensures var y := Final(y0, actions);
            w in y.pool.workers && y.pool.workers[w].Held? && id in y.owners
            && At(y.pool.boxes, y.pool.workers[w].s) != []
            && At(y.pool.boxes, y.pool.workers[w].s)[0] == Reply(id)
            ==> y.owners[id].s == y.pool.workers[w].s && id in y.registered
  {
    StartInv(y0);
    RunSys(y0, actions);
    var y := Final(y0, actions);
    if w in y.pool.workers && y.pool.workers[w].Held? && id in y.owners {
      var s := y.pool.workers[w].s;
      if At(y.pool.boxes, s) != [] && At(y.pool.boxes, s)[0] == Reply(id) {
        assert MsgOk(y, s, At(y.pool.boxes, s)[0]);
        if id !in y.registered {
          var v :| v in y.handlers && y.handlers[v].Called? && y.handlers[v].id == id;
          assert Holds(y.pool, v, s) && Holds(y.pool, w, s);
          assert false;
        }
      }
    }
  }

  /** A reply (or timeout) resumes only the task that sent the request and waits for it, and no
      two task maps share an id. */
  lemma ResumesItsSender(y0: Sys, actions: seq<Action>, w: nat)
    requires Start(y0) && Acts(y0, actions)
    ensures var y := Final(y0, actions);
            && (Can(y, Begin(w)) && !y.pool.workers[w].m.Request? && w in Next(y, Begin(w)).handlers ==>
                  var id, h := y.pool.workers[w].m.id, Next(y, Begin(w)).handlers[w];
                  id in y.owners && y.owners[id] == Owner(y.pool.workers[w].s, h.task.tid))
            && (forall s, t, id | id in Tasks(y, s) && id in Tasks(y, t) :: s == t)
  {
    StartInv(y0);
    RunSys(y0, actions);
    var y := Final(y0, actions);
    forall s, t, id | id in Tasks(y, s) && id in Tasks(y, t)
      ensures s == t
    {
      assert EntryOk(y, s, id, Tasks(y, s)[id]) && EntryOk(y, t, id, Tasks(y, t)[id]);
    }
    if Can(y, Begin(w)) && !y.pool.workers[w].m.Request? && w in Next(y, Begin(w)).handlers {
      var s, id := y.pool.workers[w].s, y.pool.workers[w].m.id;
      assert EntryOk(y, s, id, Tasks(y, s)[id]);
    }
  }

  /** Registering never collides with an entry that is already there. */
  lemma RegisterIsFree(y: Sys, w: nat)
    requires SysInv(y) && Can(y, Register(w))
    ensures y.handlers[w].id !in Tasks(y, y.pool.workers[w].s)
  {
    var s, id := y.pool.workers[w].s, y.handlers[w].id;
    assert id !in y.registered;
    assert id in Tasks(y, s) ==> EntryOk(y, s, id, Tasks(y, s)[id]);
  }
}
