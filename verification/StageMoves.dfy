/** What must follow in a service's life: a handler that ends moves the stage on, a timeout stops a
    service that is starting or stopping. */
module StageMoves {
  import opened SessionDef
  import opened Wrappers
  import opened Executor
  import opened ServiceCore
  import opened Lifecycle

  // ---- What one message adds to the log ----

  /** A task ends, if it does, and the stage it was holding up is entered. */
  function Ending<M>(handle: nat, st: State<M>, move: seq<Event>): seq<Event> {
    if st.Finished? then [Ended(handle)] + move else []
  }

  /** Everything that happens on a message, stage by stage. */
  function Added<M>(s: Service<M>, e: Element<M>, env: Env<M>): seq<Event> {
    var started := [Event.Enter(Starting, Running)];
    var stopped := [Event.Enter(Stopping, Stopped)];
    match e.body
    case StartMsg =>
      if !s.stage.Ready? && !s.stage.Stopped? then []
      else [Event.Enter(s.stage, Starting)]
           + if IsSendId(e.sid) then [OnStart(env.handle)] + Ending(env.handle, env.state, started) else []
    case StopMsg =>
      if !s.stage.Running? then []
      else [Event.Enter(Running, Stopping)]
           + if IsSendId(e.sid) then [OnStop(env.handle)] + Ending(env.handle, env.state, stopped) else []
    case ExitMsg =>
      if !s.stage.Stopped? then [] else [Event.Enter(Stopped, Exited)] + if IsSendId(e.sid) then [OnExit] else []
    case TimeoutMsg(id) =>
      var fails := id in s.tasks && env.state.Finished? && env.state.failed;
      if s.stage.Starting? || s.stage.Stopping? || fails then [Event.Enter(s.stage, Stopped)] else []
    case UserMsg(_) =>
      var id := ReplyToSend(e.sid);
      if IsReplyId(e.sid) && id in s.tasks && (s.stage.Starting? || s.stage.Running? || s.stage.Stopping?) then
        Ending(s.tasks[id].handle, env.state,
               if s.stage.Starting? then started else if s.stage.Stopping? then stopped else [])
      else if IsSendId(e.sid) && s.stage.Running? then [OnMsg(env.handle)] + Ending(env.handle, env.state, [])
      else []
  }

  lemma SettleAdds<M>(s: Service<M>, ele: TaskElement<M>, to: Stage)
    ensures var d := Settle(s, ele, to);
            && d.log == s.log + Ending(ele.handle, ele.state, if to == s.stage then [] else [Event.Enter(s.stage, to)])
            && d.exits == s.exits
  {
  }

  lemma BeginAdds<M>(s: Service<M>, to: Stage, ev: Event, e: Element<M>, env: Env<M>, next: Stage)
    requires to != next
    ensures var d := Settle(Begin(Go(s, to), ev, TaskOf(e, env)), TaskOf(e, env), next);
            && d.log == s.log + ([Event.Enter(s.stage, to)]
                                 + ([ev] + Ending(env.handle, env.state, [Event.Enter(to, next)])))
            && d.exits == s.exits
  {
    SettleAdds(Begin(Go(s, to), ev, TaskOf(e, env)), TaskOf(e, env), next);
  }

  /** The log grows by exactly this, and only a timeout that stops the service asks for its exit. */
  lemma MessageAdds<M>(s: Service<M>, e: Element<M>, env: Env<M>)
    ensures var d := Process(s, e, env);
            && d.log == s.log + Added(s, e, env)
            && d.exits == s.exits + if e.body.TimeoutMsg? && Added(s, e, env) != [] then 1 else 0
  {
    hide Settle, Begin, AddTo, ResumeIn, Ending;
    match e.body
    case StartMsg => BeginAdds(s, Starting, OnStart(env.handle), e, env, Running);
    case StopMsg => BeginAdds(s, Stopping, OnStop(env.handle), e, env, Stopped);
    case ExitMsg =>
    case TimeoutMsg(_) =>
    case UserMsg(_) => UserAdds(s, e, env);
  }

  lemma UserAdds<M>(s: Service<M>, e: Element<M>, env: Env<M>)
    requires e.body.UserMsg?
    ensures Process(s, e, env).log == s.log + Added(s, e, env) && Process(s, e, env).exits == s.exits
  {
    hide Settle, AddTo, ResumeIn, Ending;
    var id := ReplyToSend(e.sid);
    if IsReplyId(e.sid) {
      if id in s.tasks {
        var to := if s.stage.Stopping? then Stopped else Running;
        SettleAdds(s.(tasks := ResumeIn(s.tasks, id, env.state)), s.tasks[id].(state := env.state), to);
      }
    } else if s.stage.Running? {
      SettleAdds(Begin(s, OnMsg(env.handle), TaskOf(e, env)), TaskOf(e, env), Running);
      assert s.log + [OnMsg(env.handle)] + Ending(env.handle, env.state, [])
          == s.log + ([OnMsg(env.handle)] + Ending(env.handle, env.state, []));
    }
  }

  // ---- Over a whole life ----

  /** A task that ends while the service starts or stops moves it on at once. */
  predicate MovesOn(log: seq<Event>, i: nat)
    requires i < |log|
  {
    log[i].Ended? ==>
      match StageOf(log[..i])
      case Starting => i + 1 < |log| && log[i + 1] == Event.Enter(Starting, Running)
      case Stopping => i + 1 < |log| && log[i + 1] == Event.Enter(Stopping, Stopped)
      case _ => true
  }

  predicate Prompt(log: seq<Event>) {
    forall i | 0 <= i < |log| :: MovesOn(log, i)
  }

  /** An entry into Stopped that is not the end of a task of a stopping service. */
  predicate Forces(log: seq<Event>, i: nat)
    requires i < |log|
  {
    log[i].Enter? && log[i].to.Stopped? && !(log[i].from.Stopping? && i > 0 && log[i - 1].Ended?)
  }

  /** How many of these there are. */
  function Forced(log: seq<Event>): nat {
    if log == [] then 0
    else Forced(log[..|log| - 1]) + if Forces(log, |log| - 1) then 1 else 0
  }

  predicate Moves<M>(s: Service<M>) {
    s.stage == StageOf(s.log) && Prompt(s.log) && s.exits == Forced(s.log)
  }

  lemma OneMore(log: seq<Event>, e: Event)
    ensures var next := log + [e];
            && StageOf(next) == (if e.Enter? then e.to else StageOf(log))
            && Forced(next) == Forced(log) + (if Forces(next, |log|) then 1 else 0)
  {
    assert (log + [e])[..|log|] == log;
  }

  lemma PromptMore(log: seq<Event>, e: Event)
    requires Prompt(log) && (e.Ended? ==> !StageOf(log).Starting? && !StageOf(log).Stopping?)
    ensures Prompt(log + [e])
  {
    var next := log + [e];
    forall i | 0 <= i < |next|
      ensures MovesOn(next, i)
    {
      if i < |log| {
        assert next[..i] == log[..i] && MovesOn(log, i);
      } else {
        assert next[..i] == log;
      }
    }
  }

  lemma PromptPair(log: seq<Event>, h: nat, to: Stage)
    requires Prompt(log)
    requires (StageOf(log).Starting? && to.Running?) || (StageOf(log).Stopping? && to.Stopped?)
    ensures Prompt(log + [Ended(h)] + [Event.Enter(StageOf(log), to)])
  {
    var next := log + [Ended(h)] + [Event.Enter(StageOf(log), to)];
    forall i | 0 <= i < |next|
      ensures MovesOn(next, i)
    {
      if i < |log| {
        assert next[..i] == log[..i] && MovesOn(log, i);
      } else if i == |log| {
        assert next[..i] == log;
      }
    }
  }

  lemma NoteMoves<M>(s: Service<M>, e: Event)
    requires Moves(s) && !e.Enter? && !e.Ended?
    ensures Moves(Note(s, e))
  {
    OneMore(s.log, e);
    PromptMore(s.log, e);
  }

  lemma GoMoves<M>(s: Service<M>, to: Stage)
    requires Moves(s) && !to.Stopped?
    ensures Moves(Go(s, to))
  {
    OneMore(s.log, Event.Enter(s.stage, to));
    PromptMore(s.log, Event.Enter(s.stage, to));
  }

  lemma ForcedMoves<M>(s: Service<M>)
    requires Moves(s)
    ensures Moves(Go(s, Stopped).(exits := s.exits + 1))
  {
    var e := Event.Enter(s.stage, Stopped);
    OneMore(s.log, e);
    PromptMore(s.log, e);
    if s.stage.Stopping? && s.log != [] {
      var n := |s.log| - 1;
      assert MovesOn(s.log, n);
      assert (s.log + [e])[|s.log| - 1] == s.log[n];
    }
  }

  lemma SettleMoves<M>(s: Service<M>, ele: TaskElement<M>, to: Stage)
    requires Moves(s)
    requires || (s.stage.Starting? && to.Running?)
             || (s.stage.Stopping? && to.Stopped?)
             || (s.stage.Running? && to.Running?)
    ensures Moves(Settle(s, ele, to))
  {
    if ele.state.Finished? {
      var e := Ended(ele.handle);
      OneMore(s.log, e);
      if to == s.stage {
        PromptMore(s.log, e);
      } else {
        PromptPair(s.log, ele.handle, to);
        OneMore(s.log + [e], Event.Enter(s.stage, to));
      }
    }
  }

  lemma BeginMoves<M>(s: Service<M>, to: Stage, ev: Event, ele: TaskElement<M>, next: Stage)
    requires Moves(s) && !ev.Enter? && !ev.Ended?
    requires (to.Starting? && next.Running?) || (to.Stopping? && next.Stopped?)
    ensures Moves(Go(s, to)) && Moves(Settle(Begin(Go(s, to), ev, ele), ele, next))
  {
    hide Moves, Settle, AddTo;
    GoMoves(s, to);
    NoteMoves(Go(s, to), ev);
    WithTasks(Note(Go(s, to), ev), AddTo(s.tasks, ele));
    SettleMoves(Begin(Go(s, to), ev, ele), ele, next);
  }

  lemma WithTasks<M>(s: Service<M>, tasks: Tasks<M>)
    requires Moves(s)
    ensures Moves(s.(tasks := tasks))
  {
  }

  lemma StepMoves<M>(s: Service<M>, e: Element<M>, env: Env<M>)
    requires Moves(s)
    ensures Moves(Process(s, e, env))
  {
    hide Moves, Settle, Begin, AddTo, ResumeIn, Go, Note;
    match e.body
    case StartMsg =>
      GoMoves(s, Starting);
      BeginMoves(s, Starting, OnStart(env.handle), TaskOf(e, env), Running);
    case StopMsg =>
      GoMoves(s, Stopping);
      BeginMoves(s, Stopping, OnStop(env.handle), TaskOf(e, env), Stopped);
    case ExitMsg =>
      GoMoves(s, Exited);
      NoteMoves(Go(s, Exited), OnExit);
    case TimeoutMsg(id) =>
      WithTasks(s, ResumeIn(s.tasks, id, env.state));
      ForcedMoves(s.(tasks := ResumeIn(s.tasks, id, env.state)));
    case UserMsg(_) => UserMoves(s, e, env);
  }

  lemma UserMoves<M>(s: Service<M>, e: Element<M>, env: Env<M>)
    requires Moves(s) && e.body.UserMsg?
    ensures Moves(Process(s, e, env))
  {
    hide Moves, Settle, AddTo, ResumeIn;
    var id := ReplyToSend(e.sid);
    if IsReplyId(e.sid) {
      if id in s.tasks && (s.stage.Starting? || s.stage.Running? || s.stage.Stopping?) {
        WithTasks(s, ResumeIn(s.tasks, id, env.state));
        SettleMoves(s.(tasks := ResumeIn(s.tasks, id, env.state)), s.tasks[id].(state := env.state),
                    if s.stage.Stopping? then Stopped else Running);
      }
    } else if s.stage.Running? {
      NoteMoves(s, OnMsg(env.handle));
      WithTasks(Note(s, OnMsg(env.handle)), AddTo(s.tasks, TaskOf(e, env)));
      SettleMoves(Begin(s, OnMsg(env.handle), TaskOf(e, env)), TaskOf(e, env), Running);
    }
  }

  lemma {:induction false} RunMoves<M>(es: seq<Element<M>>, envs: seq<Env<M>>)
    requires |es| == |envs|
    ensures Moves(Works(Lifecycle.Fresh<M>(), es, envs))
  {
    if es == [] {
    } else {
      var n := |es| - 1;
      RunMoves(es[..n], envs[..n]);
      StepMoves(Works(Lifecycle.Fresh<M>(), es[..n], envs[..n]), es[n], envs[n]);
    }
  }

  /** Over every life of a service: a task that ends while it starts takes it at once to Running, one
      that ends while it stops takes it at once to Stopped, and it asks for its own exit exactly
      as often as it enters Stopped in any other way. */
  lemma EndsMoveOn<M>(es: seq<Element<M>>, envs: seq<Env<M>>)
    requires |es| == |envs|
    ensures var s := Works(Lifecycle.Fresh<M>(), es, envs); var log := s.log;
            && s.stage == StageOf(log) && s.exits == Forced(log)
            && (forall i | 0 <= i < |log| && log[i].Ended? && StageOf(log[..i]).Starting? ::
                  i + 1 < |log| && log[i + 1] == Event.Enter(Starting, Running))
            && (forall i | 0 <= i < |log| && log[i].Ended? && StageOf(log[..i]).Stopping? ::
                  i + 1 < |log| && log[i + 1] == Event.Enter(Stopping, Stopped))
  {
    hide Works, StageOf, Forced, Prompt;
    RunMoves(es, envs);
    PromptIs(Works(Lifecycle.Fresh<M>(), es, envs).log);
  }

  lemma PromptIs(log: seq<Event>)
    requires Prompt(log)
    ensures forall i | 0 <= i < |log| && log[i].Ended? && StageOf(log[..i]).Starting? ::
              i + 1 < |log| && log[i + 1] == Event.Enter(Starting, Running)
    ensures forall i | 0 <= i < |log| && log[i].Ended? && StageOf(log[..i]).Stopping? ::
              i + 1 < |log| && log[i + 1] == Event.Enter(Stopping, Stopped)
  {
    hide StageOf;
    forall i | 0 <= i < |log| && log[i].Ended? && StageOf(log[..i]).Starting?
      ensures i + 1 < |log| && log[i + 1] == Event.Enter(Starting, Running)
    {
      assert MovesOn(log, i);
    }
    forall i | 0 <= i < |log| && log[i].Ended? && StageOf(log[..i]).Stopping?
      ensures i + 1 < |log| && log[i + 1] == Event.Enter(Stopping, Stopped)
    {
      assert MovesOn(log, i);
    }
  }

  /** Message by message, over every life of a service that has not exited: exactly these events
      follow, and the stage is the one last entered. */
  lemma MessageByMessage<M>(es: seq<Element<M>>, envs: seq<Env<M>>, i: nat)
    requires |es| == |envs| && i < |es|
    ensures var s := Works(Lifecycle.Fresh<M>(), es[..i], envs[..i]);
            var d := Works(Lifecycle.Fresh<M>(), es[..i + 1], envs[..i + 1]);
            && d.log == s.log + (if s.stage.Exited? then [] else Added(s, es[i], envs[i]))
            && s.stage == StageOf(s.log) && d.stage == StageOf(d.log)
  {
    hide Moves, Process, Added, StageOf;
    var s := Works(Lifecycle.Fresh<M>(), es[..i], envs[..i]);
    assert es[..i + 1][..i] == es[..i] && envs[..i + 1][..i] == envs[..i];
    MessageAdds(s, es[i], envs[i]);
    RunMoves(es[..i], envs[..i]);
    RunMoves(es[..i + 1], envs[..i + 1]);
    MovesStage(s);
    MovesStage(Works(Lifecycle.Fresh<M>(), es[..i + 1], envs[..i + 1]));
  }

  lemma MovesStage<M>(s: Service<M>)
    requires Moves(s)
    ensures s.stage == StageOf(s.log)
  {
  }

  /** A timeout ends a start or a stop that still waits, and any service in which it makes a task
      fail: the service is stopped and asks for its exit once more. Nothing else makes it ask. */
  lemma TimeoutStops<M>(es: seq<Element<M>>, envs: seq<Env<M>>, i: nat)
    requires |es| == |envs| && i < |es|
    ensures var s := Works(Lifecycle.Fresh<M>(), es[..i], envs[..i]);
            var d := Works(Lifecycle.Fresh<M>(), es[..i + 1], envs[..i + 1]);
            var st := envs[i].state;
            if es[i].body.TimeoutMsg? && !s.stage.Exited?
               && (s.stage.Starting? || s.stage.Stopping?
                   || (es[i].body.id in s.tasks && st.Finished? && st.failed))
            then d.stage == Stopped && d.exits == s.exits + 1 && d.log == s.log + [Event.Enter(s.stage, Stopped)]
            else d.exits == s.exits
  {
    hide Moves, Process;
    var s := Works(Lifecycle.Fresh<M>(), es[..i], envs[..i]);
    MessageByMessage(es, envs, i);
    assert es[..i + 1][..i] == es[..i] && envs[..i + 1][..i] == envs[..i];
    MessageAdds(s, es[i], envs[i]);
  }

  /** So a service whose OnStart waits for a session is running once the reply has come on which it
      returns, and one whose OnStop does is stopped. */
  lemma ReplyMovesOn<M>(es: seq<Element<M>>, envs: seq<Env<M>>, i: nat)
    requires |es| == |envs| && i < |es|
    requires es[i].body.UserMsg? && IsReplyId(es[i].sid) && envs[i].state.Finished?
    ensures var s := Works(Lifecycle.Fresh<M>(), es[..i], envs[..i]);
            var d := Works(Lifecycle.Fresh<M>(), es[..i + 1], envs[..i + 1]);
            ReplyToSend(es[i].sid) in s.tasks ==>
              && (s.stage.Starting? ==> d.stage == Running)
              && (s.stage.Stopping? ==> d.stage == Stopped)
  {
    hide Moves, Process;
    MessageByMessage(es, envs, i);
  }
}
