/** A service that works off messages does what the reply protocol says, whatever the other workers
    do meanwhile: its executor's tasks are the protocol's, and so are its replies. */
module ServiceProtocol {
  import opened SessionDef
  import opened Wrappers
  import Executor
  import Core = ServiceCore
  import Pool = Scheduler
  import opened ReplyProtocol
  import ReplyOnce

  function TaskAs<M>(ele: Executor.TaskElement<M>): Task {
    Task(ele.handle, ele.sender, ele.sessionId)
  }

  /** The executor's tasks as the protocol has them. */
  function TasksAs<M>(tasks: Executor.Tasks<M>): map<Id, Task> {
    map id: Id | id in tasks :: TaskAs(tasks[id])
  }

  function MsgAs<M>(e: Core.Element<M>): Msg {
    if e.body.TimeoutMsg? then Timeout(e.body.id)
    else if e.body.UserMsg? && IsReplyId(e.sid) then Msg.Reply(ReplyToSend(e.sid))
    else Request(e.sender, e.sid)
  }

  /** A service's replies as the protocol records them. */
  function RepliesAs<M>(sent: seq<Core.Sent<M>>): seq<(Id, Pool.Service)> {
    if sent == [] then [] else [(ReplyToSend(sent[0].sid), sent[0].to)] + RepliesAs(sent[1..])
  }

  /** Does the stage let a message of this kind start or resume a task? */
  predicate Passes<M>(c: Core.Service<M>, e: Core.Element<M>) {
    match e.body
    case StartMsg => (c.stage.Ready? || c.stage.Stopped?) && IsSendId(e.sid)
    case StopMsg => c.stage.Running? && IsSendId(e.sid)
    case ExitMsg => false
    case TimeoutMsg(_) => true
    case UserMsg(_) => c.stage.Running? || (IsReplyId(e.sid) && (c.stage.Starting? || c.stage.Stopping?))
  }

  /** The tasks answer requests. */
  predicate Answering<M>(tasks: Executor.Tasks<M>) {
    forall id | id in tasks :: IsSendId(tasks[id].sessionId)
  }

  /** The service's part of the protocol's state. */
  ghost predicate Shows<M>(c: Core.Service<M>, y: Sys, s: Pool.Service) {
    Tasks(y, s) == TasksAs(c.tasks) && Executor.KeysMatch(c.tasks) && Answering(c.tasks)
  }

  // ---- While one worker has the service, the others leave its tasks alone ----

  predicate Closes(a: Action, w: nat) {
    (a.Register? || a.Return?) && a.w == w
  }

  lemma OthersKeep(y: Sys, a: Action, w: nat)
    requires SysInv(y) && Can(y, a) && IsBusy(y, w) && w in y.handlers && !Closes(a, w)
    ensures var z, s := Next(y, a), y.pool.workers[w].s;
            && IsBusy(z, w) && z.pool.workers[w].s == s && Tasks(z, s) == Tasks(y, s)
            && w in z.handlers && z.handlers[w].task == y.handlers[w].task && z.handlers[w].key == y.handlers[w].key
  {
    HandlerStays(y, a, w);
    HandlerShape(y, a, w);
    TasksStay(y, a, w);
  }

  lemma HandlerStays(y: Sys, a: Action, w: nat)
    requires SysInv(y) && Can(y, a) && IsBusy(y, w) && w in y.handlers && !Closes(a, w)
    ensures w in Next(y, a).handlers
  {
    hide SysInv, Pool.Apply;
    if a.Return? { ReplyOnce.ReturnCloses(y, a); }
  }

  lemma TasksStay(y: Sys, a: Action, w: nat)
    requires SysInv(y) && Can(y, a) && IsBusy(y, w) && w in y.handlers && !Closes(a, w)
    ensures Tasks(Next(y, a), y.pool.workers[w].s) == Tasks(y, y.pool.workers[w].s)
  {
    hide SysInv, Next;
    if a.Register? || a.Return? {
      if y.pool.workers[a.w].s == y.pool.workers[w].s { ReplyOnce.OneWorker(y, a.w, w); }
      TasksElsewhere(y, a, y.pool.workers[w].s);
    } else {
      TasksSame(y, a);
    }
  }

  lemma TasksElsewhere(y: Sys, a: Action, s: Pool.Service)
    requires Can(y, a) && (a.Register? || a.Return?) && y.pool.workers[a.w].s != s
    ensures Tasks(Next(y, a), s) == Tasks(y, s)
  {
    hide Pool.Apply;
  }

  lemma TasksSame(y: Sys, a: Action)
    requires Can(y, a) && !a.Register? && !a.Return?
    ensures Next(y, a).tasks == y.tasks
  {
    hide Pool.Apply;
  }

  lemma {:induction false} RunKeeps(y: Sys, run: seq<Action>, w: nat)
    requires SysInv(y) && Acts(y, run) && IsBusy(y, w) && w in y.handlers
    requires forall a | a in run :: !Closes(a, w)
    ensures var z, s := Final(y, run), y.pool.workers[w].s;
            && SysInv(z) && IsBusy(z, w) && z.pool.workers[w].s == s && Tasks(z, s) == Tasks(y, s)
            && w in z.handlers && z.handlers[w].task == y.handlers[w].task && z.handlers[w].key == y.handlers[w].key
    decreases |run|
  {
    if run == [] {
    } else {
      OthersKeep(y, run[0], w);
      StepSys(y, run[0]);
      RunKeeps(Next(y, run[0]), run[1..], w);
    }
  }

  // ---- One message ----

  /** How the protocol's last action for a message matches what the service's code did. */
  predicate EndsAs<M>(a: Action, y: Sys, w: nat, e: Core.Element<M>, st: Executor.State<M>) {
    Closes(a, w) && Can(y, a) &&
    match st
    case Suspended(id, _) => a.Register? && id == y.handlers[w].id && id != INVALID && IsSendId(id)
    case Finished(failed, reply) => a.Return? && (a.reply <==> !failed && reply.Some? && !e.body.TimeoutMsg?)
  }

  lemma ProcessNone<M>(c: Core.Service<M>, e: Core.Element<M>, env: Core.Env<M>)
    requires !Passes(c, e)
    ensures var d := Core.Process(c, e, env); d.tasks == c.tasks && d.sent == c.sent
  {
  }

  lemma ProcessNew<M>(c: Core.Service<M>, e: Core.Element<M>, env: Core.Env<M>)
    requires Passes(c, e) && MsgAs(e).Request?
    ensures var d, ele := Core.Process(c, e, env), Core.TaskOf(e, env);
            d.tasks == Executor.AddTo(c.tasks, ele) && d.sent == c.sent + Core.ReplyOf(ele) && IsSendId(e.sid)
  {
    hide Executor.AddTo;
  }

  lemma ProcessOld<M>(c: Core.Service<M>, e: Core.Element<M>, env: Core.Env<M>)
    requires Passes(c, e) && !MsgAs(e).Request?
    ensures var d, id := Core.Process(c, e, env), MsgAs(e).id;
            && d.tasks == Executor.ResumeIn(c.tasks, id, env.state)
            && d.sent == c.sent + if e.body.TimeoutMsg? || id !in c.tasks then []
                                  else Core.ReplyOf(c.tasks[id].(state := env.state))
  {
    hide Executor.PushTo;
  }

  /** Filing and erasing, in the executor's map and in the protocol's. */
  lemma FiledAs<M>(tasks: Executor.Tasks<M>, ele: Executor.TaskElement<M>)
    requires ele.state.Suspended? && Executor.Pushable(tasks, ele.state.waiting)
    ensures TasksAs(Executor.PushTo(tasks, ele.state.waiting, ele)) == TasksAs(tasks)[ele.state.waiting := TaskAs(ele)]
  {
  }

  lemma ErasedAs<M>(tasks: Executor.Tasks<M>, id: SessionId)
    ensures TasksAs(tasks - {id}) == TasksAs(tasks) - {id}
  {
  }

  /** The handler that the protocol begins is the task that the service starts or resumes. */
  lemma BeginsAs<M>(c: Core.Service<M>, e: Core.Element<M>, env: Core.Env<M>, y: Sys, w: nat)
    requires Can(y, Begin(w)) && y.pool.workers[w].m == MsgAs(e) && Shows(c, y, y.pool.workers[w].s)
    requires MsgAs(e).Request? ==> env.handle == y.nextTid
    ensures var z, s, id := Next(y, Begin(w)), y.pool.workers[w].s, MsgAs(e).id;
            && Tasks(z, s) == Tasks(y, s) && z.replies == y.replies
            && (w in z.handlers <==> MsgAs(e).Request? || id in c.tasks)
            && (w in z.handlers ==>
                  && IsBusy(z, w) && z.pool.workers[w].s == s
                  && z.handlers[w] == if MsgAs(e).Request? then Running(TaskAs(Core.TaskOf(e, env)), None)
                                      else Running(TaskAs(c.tasks[id]), Some(id)))
  {
  }

  /** What the protocol's last action does, in terms of the task and the entry it came from. */
  lemma ClosesAs(y: Sys, a: Action, w: nat)
    requires IsBusy(y, w) && w in y.handlers && Closes(a, w) && Can(y, a)
    ensures var z, s, h := Next(y, a), y.pool.workers[w].s, y.handlers[w];
            if a.Register? then
              Tasks(z, s) == Erase(Tasks(y, s), h.key)[h.id := h.task] && z.replies == y.replies
            else
              && Tasks(z, s) == Erase(Tasks(y, s), h.key)
              && z.replies == y.replies + if a.reply then [(h.task.request, h.task.requester)] else []
  {
  }

  lemma RepliesAsOf<M>(ele: Executor.TaskElement<M>)
    requires IsSendId(ele.sessionId)
    ensures RepliesAs(Core.ReplyOf(ele)) == if Core.ReplyOf(ele) == [] then [] else [(ele.sessionId, ele.sender)]
  {
    ReplyRoundTrip(ele.sessionId, 0);
  }

  /** The end of one message: the task is filed under the id it waits for now, or gone. */
  lemma EndRefines<M>(before: Executor.Tasks<M>, ele: Executor.TaskElement<M>,
                      y: Sys, w: nat, a: Action, e: Core.Element<M>)
    requires SysInv(y) && IsBusy(y, w) && w in y.handlers && EndsAs(a, y, w, e, ele.state)
    requires y.handlers[w].task == TaskAs(ele)
    requires Erase(Tasks(y, y.pool.workers[w].s), y.handlers[w].key) == TasksAs(before)
    requires Executor.KeysMatch(before) && Answering(before) && IsSendId(ele.sessionId)
    ensures var z, s, tasks := Next(y, a), y.pool.workers[w].s, Executor.AddTo(before, ele);
            && Tasks(z, s) == TasksAs(tasks) && Executor.KeysMatch(tasks) && Answering(tasks)
            && z.replies == y.replies + if e.body.TimeoutMsg? then [] else RepliesAs(Core.ReplyOf(ele))
  {
    hide SysInv, Next;
    ClosesAs(y, a, w);
    if a.Register? {
      assert ele.state.waiting in before <==> y.handlers[w].id in TasksAs(before);
      RegisterIsFree(y, w);
      FiledAs(before, ele);
    } else {
      RepliesAsOf(ele);
    }
  }

  /** A message that starts or resumes a task: from the moment the worker hands it over, through
      whatever this handler and the other workers do, to the handler's end, the service's code and
      the protocol come to the same tasks and the same replies. */
  lemma MessageRefines<M>(c: Core.Service<M>, e: Core.Element<M>, env: Core.Env<M>,
                          y: Sys, w: nat, run: seq<Action>, a: Action)
    requires SysInv(y) && Can(y, Begin(w)) && y.pool.workers[w].m == MsgAs(e)
    requires Shows(c, y, y.pool.workers[w].s) && Passes(c, e)
    requires if MsgAs(e).Request? then env.handle == y.nextTid else MsgAs(e).id in c.tasks
    requires Acts(Next(y, Begin(w)), run) && forall b | b in run :: !Closes(b, w)
    requires EndsAs(a, Final(Next(y, Begin(w)), run), w, e, env.state)
    ensures var d, z := Core.Process(c, e, env), Final(Next(y, Begin(w)), run);
            && Shows(d, Next(z, a), y.pool.workers[w].s)
            && c.sent <= d.sent && Next(z, a).replies == z.replies + RepliesAs(d.sent[|c.sent|..])
  {
    hide SysInv, Next, Core.Process, Passes, Executor.KeysMatch, Core.ReplyOf;
    var y1, s := Next(y, Begin(w)), y.pool.workers[w].s;
    BeginsAs(c, e, env, y, w);
    StepSys(y, Begin(w));
    RunKeeps(y1, run, w);
    var z := Final(y1, run);
    if MsgAs(e).Request? {
      ProcessNew(c, e, env);
      EndRefines(c.tasks, Core.TaskOf(e, env), z, w, a, e);
    } else {
      var id := MsgAs(e).id;
      var ele := c.tasks[id].(state := env.state);
      ProcessOld(c, e, env);
      ErasedAs(c.tasks, id);
      ErasedKeys(c.tasks, id);
      EndRefines(c.tasks - {id}, ele, z, w, a, e);
    }
  }

  lemma ErasedKeys<M>(tasks: Executor.Tasks<M>, id: SessionId)
    requires Executor.KeysMatch(tasks) && Answering(tasks)
    ensures Executor.KeysMatch(tasks - {id}) && Answering(tasks - {id})
  {
  }

  /** A message that the stage ignores, or that is for no task of the service. */
  lemma NothingRefines<M>(c: Core.Service<M>, e: Core.Element<M>, env: Core.Env<M>, y: Sys, w: nat, a: Action)
    requires Can(y, Begin(w)) && y.pool.workers[w].m == MsgAs(e) && Shows(c, y, y.pool.workers[w].s)
    requires if Passes(c, e) then a == Begin(w) && !MsgAs(e).Request? && MsgAs(e).id !in c.tasks
             else a.Drop? && a.w == w
    ensures var d, z := Core.Process(c, e, env), Next(y, a);
            Shows(d, z, y.pool.workers[w].s) && d.sent == c.sent && z.replies == y.replies && w !in z.handlers
  {
    hide Core.Process, Passes;
    if Passes(c, e) {
      ProcessOld(c, e, env);
    } else {
      ProcessNone(c, e, env);
    }
  }
}
