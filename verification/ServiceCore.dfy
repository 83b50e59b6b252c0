/** One service: its stage, its mailbox and what each kind of message does to them. */
module ServiceCore {
  import opened SessionDef
  import opened Executor
  import opened Wrappers

  datatype Stage = Ready | Starting | Running | Stopping | Stopped | Exited

  datatype Body<M> = StartMsg | StopMsg | ExitMsg | TimeoutMsg(id: SessionId) | UserMsg(m: M)

  datatype Element<M> = Element(sender: nat, sid: SessionId, body: Body<M>)

  datatype Sent<M> = Sent(to: nat, sid: SessionId, m: M)

  /** Stage changes, handlers started, and tasks handed back finished, as they happen. */
  datatype Event =
    | Enter(from: Stage, to: Stage)
    | OnStart(handle: nat)
    | OnStop(handle: nat)
    | OnMsg(handle: nat)
    | OnExit
    | Ended(handle: nat)

  datatype Service<M> = Service(
    stage: Stage,
    tasks: Tasks<M>,
    sent: seq<Sent<M>>,   // replies
    exits: nat,           // times the service asked for its own exit
    log: seq<Event>)

  /** What the service's own code does with a message: the coroutine it starts or resumes, and
      where that ends up. */
  datatype Env<M> = Env(handle: nat, state: State<M>)

  function Go<M>(s: Service<M>, to: Stage): Service<M> {
    s.(stage := to, log := s.log + [Enter(s.stage, to)])
  }

  function Note<M>(s: Service<M>, e: Event): Service<M> {
    s.(log := s.log + [e])
  }

  /** The reply to a finished task's request: none if it failed or returned nothing. */
  function ReplyOf<M>(ele: TaskElement<M>): seq<Sent<M>> {
    if ele.state.Finished? && !ele.state.failed && ele.state.reply.Some?
    then [Sent(ele.sender, SendToReply(ele.sessionId), ele.state.reply.value)]
    else []
  }

  function End<M>(s: Service<M>, ele: TaskElement<M>): Service<M> {
    s.(sent := s.sent + ReplyOf(ele), log := s.log + [Ended(ele.handle)])
  }

  /** A handler is called and its task given to the executor. */
  function Begin<M>(s: Service<M>, ev: Event, ele: TaskElement<M>): Service<M> {
    Note(s, ev).(tasks := AddTo(s.tasks, ele))
  }

  /** Lets a finished task go: it ends, and the stage it was holding up is entered. */
  function Settle<M>(s: Service<M>, ele: TaskElement<M>, to: Stage): Service<M> {
    if ele.state.Suspended? then s
    else if to == s.stage then End(s, ele) else Go(End(s, ele), to)
  }

  function TaskOf<M>(e: Element<M>, env: Env<M>): TaskElement<M> {
    TaskElement(e.sender, e.sid, env.handle, env.state)
  }

  /** A reply resumes the task that waits for it. */
  function Resume<M>(s: Service<M>, sid: SessionId, env: Env<M>, to: Stage): Service<M> {
    var id := ReplyToSend(sid);
    if id !in s.tasks then s
    else Settle(s.(tasks := ResumeIn(s.tasks, id, env.state)), s.tasks[id].(state := env.state), to)
  }

  /** Does a service in this stage take the message into its mailbox? */
  predicate Accepting<M>(stage: Stage, e: Element<M>) {
    stage.Ready? || stage.Starting? || stage.Running? || e.body.ExitMsg?
  }

  function Process<M>(s: Service<M>, e: Element<M>, env: Env<M>): Service<M> {
    match e.body
    case StartMsg =>
      if !s.stage.Ready? && !s.stage.Stopped? then s
      else if !IsSendId(e.sid) then Go(s, Starting)
      else Settle(Begin(Go(s, Starting), OnStart(env.handle), TaskOf(e, env)), TaskOf(e, env), Running)
    case StopMsg =>
      if !s.stage.Running? then s
      else if !IsSendId(e.sid) then Go(s, Stopping)
      else Settle(Begin(Go(s, Stopping), OnStop(env.handle), TaskOf(e, env)), TaskOf(e, env), Stopped)
    case ExitMsg =>
      if !s.stage.Stopped? then s
      else if !IsSendId(e.sid) then Go(s, Exited)
      else Note(Go(s, Exited), OnExit)
    case TimeoutMsg(id) =>
      var s' := s.(tasks := ResumeIn(s.tasks, id, env.state));
      if s.stage.Starting? || s.stage.Stopping? || (id in s.tasks && env.state.Finished? && env.state.failed)
      then Go(s', Stopped).(exits := s.exits + 1)
      else s'
    case UserMsg(_) =>
      if s.stage.Starting? then
        (if IsReplyId(e.sid) then Resume(s, e.sid, env, Running) else s)
      else if s.stage.Stopping? then
        (if IsReplyId(e.sid) then Resume(s, e.sid, env, Stopped) else s)
      else if !s.stage.Running? then s
      else if IsReplyId(e.sid) then Resume(s, e.sid, env, Running)
      else Settle(Begin(s, OnMsg(env.handle), TaskOf(e, env)), TaskOf(e, env), Running)
  }

  class ServiceCore<M> {
    var stage: Stage
    var msgs: seq<Element<M>>
    const executor: TaskExecutor<M>
    var sent: seq<Sent<M>>
    var exits: nat
    ghost var log: seq<Event>

    ghost function Value(): Service<M>
      reads this, executor
    {
      Service(stage, executor.tasks, sent, exits, log)
    }

    constructor ()
      ensures Value() == Service(Ready, map[], [], 0, []) && msgs == []
      ensures executor.Valid() && fresh(executor)
    {
      stage, msgs, sent, exits, log := Ready, [], [], 0, [];
      executor := new TaskExecutor();
    }

    /** Accepts a message unless the service is stopping, stopped or gone. */
    method PushMsg(e: Element<M>) returns (ok: bool)
      modifies this`msgs
      ensures ok <==> stage.Ready? || stage.Starting? || stage.Running? || e.body.ExitMsg?
      ensures ok <==> Accepting(stage, e)
      ensures msgs == if ok then old(msgs) + [e] else old(msgs)
    {
      if !stage.Ready? && !stage.Starting? && !stage.Running? && !e.body.ExitMsg? {
        return false;
      }
      msgs := msgs + [e];
      return true;
    }

    method PopMsg() returns (e: Option<Element<M>>)
      modifies this`msgs
      ensures old(msgs) == [] ==> e == None && msgs == []
      ensures old(msgs) != [] ==> e == Some(old(msgs)[0]) && msgs == old(msgs)[1..]
    {
      if msgs == [] {
        return None;
      }
      e := Some(msgs[0]);
      msgs := msgs[1..];
    }

    method Enter(to: Stage)
      modifies this`stage, this`log
      ensures stage == to && log == old(log) + [Event.Enter(old(stage), to)]
    {
      log := log + [Event.Enter(stage, to)];
      stage := to;
    }

    method ReplyMsg(ele: TaskElement<M>)
      requires ele.state.Finished?
      modifies this`sent, this`log
      ensures sent == old(sent) + ReplyOf(ele) && log == old(log) + [Ended(ele.handle)]
      ensures sent == if ele.state.failed || ele.state.reply.None? then old(sent)
                      else old(sent) + [Sent(ele.sender, SendToReply(ele.sessionId), ele.state.reply.value)]
    {
      log := log + [Ended(ele.handle)];
      if ele.state.failed { return; }
      if ele.state.reply.None? { return; }
      sent := sent + [Sent(ele.sender, SendToReply(ele.sessionId), ele.state.reply.value)];
    }

    /** Calls a handler; if its task is finished already, replies and enters a stage. */
    method Handle(ghost ev: Event, e: Element<M>, env: Env<M>, to: Stage)
      requires executor.Valid() && MayWait(env.state)
      modifies this`stage, this`log, this`sent, executor
      ensures executor.Valid()
      ensures Value() == Settle(Begin(old(Value()), ev, TaskOf(e, env)), TaskOf(e, env), to)
    {
      log := log + [ev];
      var ele := TaskOf(e, env);
      var done := executor.AddTask(ele);
      if done {
        ReplyMsg(ele);
        if to != stage { Enter(to); }
      }
    }

    method Reschedule(sid: SessionId, env: Env<M>, to: Stage)
      requires executor.Valid() && MayWait(env.state)
      modifies this`stage, this`log, this`sent, executor
      ensures executor.Valid() && Value() == Resume(old(Value()), sid, env, to)
    {
      var r, unprocessed := executor.TrySchedule(ReplyToSend(sid), env.state);
      if r.Completed? {
        ReplyMsg(r.ele);
        if to != stage { Enter(to); }
      }
    }

    method ProcessMsg(e: Element<M>, env: Env<M>)
      requires executor.Valid() && MayWait(env.state)
      modifies this`stage, this`log, this`sent, this`exits, executor
      ensures executor.Valid() && Value() == Process(old(Value()), e, env)
    {
      match e.body {
        case StartMsg =>
          if !stage.Ready? && !stage.Stopped? { return; }
          Enter(Starting);
          if !IsSendId(e.sid) { return; }
          Handle(OnStart(env.handle), e, env, Running);
        case StopMsg =>
          if !stage.Running? { return; }
          Enter(Stopping);
          if !IsSendId(e.sid) { return; }
          Handle(OnStop(env.handle), e, env, Stopped);
        case ExitMsg =>
          if !stage.Stopped? { return; }
          Enter(Exited);
          if !IsSendId(e.sid) { return; }
          log := log + [OnExit];
        case TimeoutMsg(id) =>
          var ok, hasException := executor.TaskTimeout(id, env.state);
          if stage.Starting? || stage.Stopping? || hasException {
            Enter(Stopped);
            exits := exits + 1;
          }
        case UserMsg(_) =>
          if stage.Starting? {
            if !IsReplyId(e.sid) { return; }
            Reschedule(e.sid, env, Running);
          } else if stage.Stopping? {
            if !IsReplyId(e.sid) { return; }
            Reschedule(e.sid, env, Stopped);
          } else {
            if !stage.Running? { return; }
            if IsReplyId(e.sid) {
              Reschedule(e.sid, env, Running);
            } else {
              Handle(OnMsg(env.handle), e, env, Running);
            }
          }
      }
    }

    /** Processes up to count messages, none once the service has exited. */
    method ProcessMsgs(count: nat, envs: seq<Env<M>>) returns (n: nat)
      requires executor.Valid() && |envs| == count && forall i | 0 <= i < count :: MayWait(envs[i].state)
      modifies this`stage, this`log, this`sent, this`exits, this`msgs, executor
      ensures executor.Valid()
      ensures n <= count && n <= |old(msgs)| && msgs == old(msgs)[n..]
      ensures Value() == Works(old(Value()), old(msgs)[..n], envs[..n])
      ensures n < count ==> stage.Exited? || msgs == []
    {
      n := 0;
      ghost var s0, m0 := Value(), msgs;
      while n < count && !stage.Exited?
        invariant executor.Valid() && n <= count && n <= |m0| && msgs == m0[n..]
        invariant Value() == Works(s0, m0[..n], envs[..n])
      {
        var e := PopMsg();
        if e.None? { break; }
        assert m0[..n + 1][..n] == m0[..n] && envs[..n + 1][..n] == envs[..n];
        ProcessMsg(e.value, envs[n]);
        n := n + 1;
      }
    }
  }

  function Turn<M>(s: Service<M>, e: Element<M>, env: Env<M>): Service<M> {
    if s.stage.Exited? then s else Process(s, e, env)
  }

  /** Messages processed one after another, until the service has exited. */
  function Works<M>(s: Service<M>, es: seq<Element<M>>, envs: seq<Env<M>>): Service<M>
    requires |es| == |envs|
  {
    if es == [] then s
    else Turn(Works(s, es[..|es| - 1], envs[..|es| - 1]), es[|es| - 1], envs[|es| - 1])
  }
}
