/** What the services send each other arrives, each message once and in the order it was accepted. */
module ReplyMail {
  import opened Scheduler
  import opened ReplyProtocol
  import opened ReplyOnce
  import opened Wrappers

  /** Does the action put a message into a mailbox that takes it? */
  predicate Sends(a: Action) {
    match a
    case External(_, _, _, accept) => accept
    case TimerFires(_, _, _, accept) => accept
    case Notify(_, _, _, accept) => accept
    case Call(_, _, _, accept) => accept
    case Return(_, _, reply, accept) => reply && accept
    case _ => false
  }

  /** The messages sent to s in the course of a run, in order. */
  function Mailed(y: Sys, actions: seq<Action>, s: Service): seq<Msg>
    requires Acts(y, actions)
    decreases |actions|
  {
    if actions == [] then []
    else
      var a := actions[0];
      (if Sends(a) && PostedTo(y, a) == s then [Posted(y, a)] else []) + Mailed(Next(y, a), actions[1..], s)
  }

  lemma AcceptedExactly(y: Sys, a: Action, s: Service)
    requires Can(y, a)
    ensures At(Next(y, a).pool.accepted, s) ==
            At(y.pool.accepted, s) + if Sends(a) && PostedTo(y, a) == s then [Posted(y, a)] else []
  {
    if a.Turn? {
      hide Next;
      TurnIs(y, a);
      TurnAccepted(y.pool, a.st);
    } else if a.Return? {
      ReturnSends(y, a, s);
    } else {
      OthersSend(y, a, s);
    }
  }

  lemma ReturnSends(y: Sys, a: Action, s: Service)
    requires Can(y, a) && a.Return?
    ensures At(Next(y, a).pool.accepted, s) ==
            At(y.pool.accepted, s) + if Sends(a) && PostedTo(y, a) == s then [Posted(y, a)] else []
  {
    hide Tasks, Erase;
  }

  lemma OthersSend(y: Sys, a: Action, s: Service)
    requires Can(y, a) && !a.Turn? && !a.Return?
    ensures At(Next(y, a).pool.accepted, s) ==
            At(y.pool.accepted, s) + if Sends(a) && PostedTo(y, a) == s then [Posted(y, a)] else []
  {
    hide Tasks, Erase;
  }

  lemma {:induction false} MailExact(y: Sys, actions: seq<Action>, s: Service)
    requires Acts(y, actions)
    ensures At(Final(y, actions).pool.accepted, s) == At(y.pool.accepted, s) + Mailed(y, actions, s)
    decreases |actions|
  {
    hide Next, Can, At;
    if actions == [] {
    } else {
      AcceptedExactly(y, actions[0], s);
      MailExact(Next(y, actions[0]), actions[1..], s);
    }
  }

  /** In every interleaving: what a service has popped, followed by what its mailbox holds, is
      exactly what was sent to it, in order: calls, notices, timeouts, and the replies that its own
      requests were returned. */
  lemma EverythingArrives(y0: Sys, actions: seq<Action>, s: Service)
    requires Start(y0) && Acts(y0, actions)
    ensures var p := Final(y0, actions).pool; At(p.popped, s) + At(p.boxes, s) == Mailed(y0, actions, s)
  {
    hide SysInv, Start, At, Acts, Final, Mailed;
    StartInv(y0);
    RunSys(y0, actions);
    MailExact(y0, actions, s);
    StartsEmpty(y0, s);
    InvOrder(Final(y0, actions), s);
  }

  lemma StartsEmpty(y: Sys, s: Service)
    requires Start(y)
    ensures At(y.pool.accepted, s) == []
  {
  }

  lemma InvOrder(y: Sys, s: Service)
    requires SysInv(y)
    ensures At(y.pool.popped, s) + At(y.pool.boxes, s) == At(y.pool.accepted, s)
  {
  }

  // ---- The protocol runs on the pool ----

  /** The steps of the pool that an action consists of. */
  function PoolSteps(y: Sys, a: Action): seq<Step<Msg>>
    requires Can(y, a)
  {
    match a
    case Turn(st) => [st]
    case External(t, _, to, accept) => [PushMsg(t, to, Posted(y, a), accept)]
    case TimerFires(t, to, _, accept) => [PushMsg(t, to, Posted(y, a), accept)]
    case Notify(_, t, to, accept) => [PushMsg(t, to, Posted(y, a), accept)]
    case Call(_, t, to, accept) => [PushMsg(t, to, Posted(y, a), accept)]
    case Drop(w, exits) => [Finish(w, exits)]
    case Register(w) => [Finish(w, false)]
    case Begin(w) =>
      var s, m := y.pool.workers[w].s, y.pool.workers[w].m;
      if m.Request? || m.id in Tasks(y, s) then [] else [Finish(w, false)]
    case Return(w, t, reply, accept) =>
      (if reply then [PushMsg(t, y.handlers[w].task.requester, Posted(y, a), accept)] else []) + [Finish(w, false)]
  }

  lemma StepOfPool(p: Pool<Msg>, st: Step<Msg>)
    requires Enabled(p, st)
    ensures Scheduler.Runs(p, [st]) && After(p, [st]) == Apply(p, st)
  {
    assert [st][1..] == [];
  }

  lemma StepsOfPool(p: Pool<Msg>, st: Step<Msg>, st2: Step<Msg>)
    requires Enabled(p, st) && Enabled(Apply(p, st), st2)
    ensures Scheduler.Runs(p, [st] + [st2]) && After(p, [st] + [st2]) == Apply(Apply(p, st), st2)
  {
    StepOfPool(Apply(p, st), st2);
    assert ([st] + [st2])[1..] == [st2];
  }

  /** Whatever the services do, the pool only sees its own steps, and exactly these. */
  lemma PoolRefines(y: Sys, a: Action)
    requires Can(y, a)
    ensures Scheduler.Runs(y.pool, PoolSteps(y, a)) && Next(y, a).pool == After(y.pool, PoolSteps(y, a))
  {
    hide At, Scheduler.Runs, After;
    if a.Return? {
      ReturnRefines(y, a);
    } else if PoolSteps(y, a) == [] {
      NoStep(y.pool);
    } else {
      StepOfPool(y.pool, PoolSteps(y, a)[0]);
    }
  }

  lemma NoStep(p: Pool<Msg>)
    ensures Scheduler.Runs(p, []) && After(p, []) == p
  {
  }

  lemma ReturnRefines(y: Sys, a: Action)
    requires Can(y, a) && a.Return?
    ensures Scheduler.Runs(y.pool, PoolSteps(y, a)) && Next(y, a).pool == After(y.pool, PoolSteps(y, a))
  {
    hide At, Scheduler.Runs, After, Tasks, Erase;
    var done := Finish(a.w, false);
    if a.reply {
      StepsOfPool(y.pool, PushMsg(a.t, y.handlers[a.w].task.requester, Posted(y, a), a.accept), done);
    } else {
      assert [] + [done] == [done];
      StepOfPool(y.pool, done);
    }
  }

  // ---- A call waits for its answer ----

  /** A call that is accepted suspends its task; once control is back, the task is registered under
      the request's id and the worker is through. */
  lemma CallWaits(y: Sys, a: Action)
    requires SysInv(y) && Can(y, a) && a.Call? && a.accept
    ensures var z, h, s := Next(y, a), y.handlers[a.w], y.pool.workers[a.w].s;
            && Posted(y, a) == Request(s, y.nextId) && z.nextId == y.nextId + 1
            && a.w in z.handlers && z.handlers[a.w] == Called(h.task, h.key, y.nextId) && Can(z, Register(a.w))
            && y.nextId in z.owners && z.owners[y.nextId] == Owner(s, h.task.tid)
            && var r := Next(z, Register(a.w));
               Tasks(r, s) == Erase(Tasks(y, s), h.key)[y.nextId := h.task] && a.w !in r.handlers
  {
    hide SysInv, Next, Apply;
    CallSuspends(y, a);
    RegisterFiles(Next(y, a), a.w);
  }

  lemma RegisterFiles(y: Sys, w: nat)
    requires Can(y, Register(w))
    ensures var z, h, s := Next(y, Register(w)), y.handlers[w], y.pool.workers[w].s;
            Tasks(z, s) == Erase(Tasks(y, s), h.key)[h.id := h.task] && w !in z.handlers
  {
    hide Apply;
  }

  lemma CallSuspends(y: Sys, a: Action)
    requires Can(y, a) && a.Call? && a.accept
    ensures var z, h, s := Next(y, a), y.handlers[a.w], y.pool.workers[a.w].s;
            && z.nextId == y.nextId + 1 && z.tasks == y.tasks && z.pool.workers == y.pool.workers
            && z.handlers == y.handlers[a.w := Called(h.task, h.key, y.nextId)]
            && z.owners == y.owners[y.nextId := Owner(s, h.task.tid)]
  {
    hide At;
  }

  /** No worker has taken up the task that waits in s for id. */
  ghost predicate Untaken(y: Sys, s: Service, id: Id) {
    forall w | w in y.handlers && y.handlers[w].key == Some(id) :: IsBusy(y, w) && y.pool.workers[w].s != s
  }

  /** A worker takes up the task that waits in s for id. */
  predicate Wakes(y: Sys, a: Action, s: Service, id: Id) {
    a.Begin? && IsBusy(y, a.w) && y.pool.workers[a.w].s == s && !y.pool.workers[a.w].m.Request?
    && y.pool.workers[a.w].m.id == id
  }

  lemma EntryStays(y: Sys, a: Action, s: Service, id: Id)
    requires SysInv(y) && Can(y, a) && id in Tasks(y, s) && Untaken(y, s, id)
    ensures id in Tasks(Next(y, a), s) && Tasks(Next(y, a), s)[id] == Tasks(y, s)[id]
  {
    if a.Register? { RegisterIsFree(y, a.w); }
    EntryOutlasts(y, a, s, id);
  }

  lemma EntryOutlasts(y: Sys, a: Action, s: Service, id: Id)
    requires Can(y, a) && id in Tasks(y, s) && Untaken(y, s, id)
    requires a.Register? && y.pool.workers[a.w].s == s ==> y.handlers[a.w].id != id
    ensures id in Tasks(Next(y, a), s) && Tasks(Next(y, a), s)[id] == Tasks(y, s)[id]
  {
    hide Apply;
  }

  lemma UntakenStays(y: Sys, a: Action, s: Service, id: Id)
    requires SysInv(y) && Can(y, a) && Untaken(y, s, id) && !Wakes(y, a, s, id)
    ensures Untaken(Next(y, a), s, id)
  {
    var z := Next(y, a);
    forall w | w in z.handlers && z.handlers[w].key == Some(id)
      ensures IsBusy(z, w) && z.pool.workers[w].s != s
    {
      HandlerShape(y, a, w);
      if a == Begin(w) { BegunKey(y, w); }
    }
  }

  lemma BegunKey(y: Sys, w: nat)
    requires Can(y, Begin(w)) && w in Next(y, Begin(w)).handlers
    ensures Next(y, Begin(w)).handlers[w].key ==
            if y.pool.workers[w].m.Request? then None else Some(y.pool.workers[w].m.id)
  {
    hide Apply;
  }

  /** Whatever else happens, a registered task waits, unchanged, until a worker of its service takes
      up an answer or a timeout of its id. */
  lemma {:induction false} WaitsUntilWoken(y: Sys, actions: seq<Action>, s: Service, id: Id)
    requires SysInv(y) && Acts(y, actions) && id in Tasks(y, s) && Untaken(y, s, id)
    requires forall k | 0 <= k < |actions| ::
               Acts(y, actions[..k]) && !Wakes(Final(y, actions[..k]), actions[k], s, id)
    ensures id in Tasks(Final(y, actions), s) && Tasks(Final(y, actions), s)[id] == Tasks(y, s)[id]
    ensures Untaken(Final(y, actions), s, id)
    decreases |actions|
  {
    hide SysInv, Next, Can, Untaken, Wakes;
    if actions == [] {
    } else {
      var a, rest := actions[0], actions[1..];
      assert actions[..0] == [] && !Wakes(y, a, s, id);
      EntryStays(y, a, s, id);
      UntakenStays(y, a, s, id);
      StepSys(y, a);
      forall k | 0 <= k < |rest|
        ensures Acts(Next(y, a), rest[..k]) && !Wakes(Final(Next(y, a), rest[..k]), rest[k], s, id)
      {
        assert actions[..k + 1][1..] == rest[..k] && actions[..k + 1][0] == a;
        assert actions[k + 1] == rest[k];
      }
      WaitsUntilWoken(Next(y, a), rest, s, id);
    }
  }

  /** And then that task runs on: exactly the task registered under the id, if there is one. */
  lemma WokenByAnswer(y: Sys, w: nat)
    requires Can(y, Begin(w)) && !y.pool.workers[w].m.Request?
    ensures var s, id, z := y.pool.workers[w].s, y.pool.workers[w].m.id, Next(y, Begin(w));
            if id in Tasks(y, s) then w in z.handlers && z.handlers[w] == Running(Tasks(y, s)[id], Some(id))
            else w !in z.handlers
  {
    hide Apply;
  }
}
