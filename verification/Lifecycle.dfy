/** What a service's log of stage changes and handler calls looks like over a whole run. */
module Lifecycle {
  import opened SessionDef
  import opened Wrappers
  import opened Executor
  import opened ServiceCore

  /** Start, stop and exit messages carry request ids: they come from Start, Stop and Exit. */
  predicate Clean<M>(e: Element<M>) {
    e.body.StartMsg? || e.body.StopMsg? || e.body.ExitMsg? ==> IsSendId(e.sid)
  }

  function StageOf(log: seq<Event>): Stage {
    if log == [] then Ready
    else if log[|log| - 1].Enter? then log[|log| - 1].to
    else StageOf(log[..|log| - 1])
  }

  /** The handlers called so far. */
  function Begins(log: seq<Event>): seq<Event> {
    if log == [] then []
    else
      var e := log[|log| - 1];
      Begins(log[..|log| - 1]) + if e.OnStart? || e.OnStop? || e.OnMsg? then [e] else []
  }

  predicate NeverStopped(log: seq<Event>) {
    forall i | 0 <= i < |log| :: !(log[i].Enter? && log[i].to.Stopped?)
  }

  predicate StartAt(log: seq<Event>, k: nat)
    requires k < |log|
  {
    log[k].OnStart? && forall m | k < m < |log| :: !log[m].OnStop?
  }

  /** OnStart was called, and OnStop not since. */
  ghost predicate Started(log: seq<Event>) {
    exists k | 0 <= k < |log| :: StartAt(log, k)
  }

  predicate Edge(from: Stage, to: Stage) {
    match to
    case Ready => false
    case Starting => from.Ready? || from.Stopped?
    case Running => from.Starting?
    case Stopping => from.Running?
    case Stopped => !from.Ready? && !from.Exited?
    case Exited => from.Stopped?
  }

  predicate JustEntered(log: seq<Event>, to: Stage) {
    log != [] && log[|log| - 1].Enter? && log[|log| - 1].to == to
  }

  /** The only handler ever called is the OnStart whose task has just finished. */
  predicate FirstStartEnds(log: seq<Event>) {
    log != [] && log[|log| - 1].Ended? && Begins(log) == [OnStart(log[|log| - 1].handle)]
  }

  /** May this event follow that log? */
  ghost predicate Follows(log: seq<Event>, e: Event) {
    match e
    case Enter(from, to) =>
      && from == StageOf(log) && Edge(from, to)
      && (to.Running? && NeverStopped(log) ==> FirstStartEnds(log))
    case OnStart(_) => JustEntered(log, Starting)
    case OnStop(_) => JustEntered(log, Stopping) && Started(log)
    case OnMsg(_) => StageOf(log).Running?
    case OnExit => JustEntered(log, Exited)
    case Ended(_) => StageOf(log).Starting? || StageOf(log).Running? || StageOf(log).Stopping?
  }

  ghost predicate Lawful(log: seq<Event>) {
    forall i | 0 <= i < |log| :: Follows(log[..i], log[i])
  }

  ghost predicate OneStart<M>(s: Service<M>) {
    && |Begins(s.log)| == 1 && Begins(s.log)[0].OnStart?
    && forall id | id in s.tasks :: s.tasks[id].handle == Begins(s.log)[0].handle
  }

  ghost predicate Inv<M>(s: Service<M>) {
    && Lawful(s.log) && s.stage == StageOf(s.log)
    && (s.stage.Ready? ==> s.log == [] && s.tasks == map[])
    && (s.stage.Starting? || s.stage.Running? ==> Started(s.log))
    && (s.stage.Starting? && NeverStopped(s.log) ==> OneStart(s))
    && (s.stage.Exited? ==> |s.log| >= 2 && s.log[|s.log| - 1].OnExit?)
  }

  /** One more event. */
  lemma Grow(log: seq<Event>, e: Event)
    requires Lawful(log) && Follows(log, e)
    ensures Lawful(log + [e])
    ensures StageOf(log + [e]) == if e.Enter? then e.to else StageOf(log)
    ensures Begins(log + [e]) == Begins(log) + if e.OnStart? || e.OnStop? || e.OnMsg? then [e] else []
    ensures e.OnStart? || (Started(log) && !e.OnStop?) ==> Started(log + [e])
    ensures NeverStopped(log + [e]) <==> NeverStopped(log) && !(e.Enter? && e.to.Stopped?)
  {
    var next := log + [e];
    assert next[..|log|] == log && next[|next| - 1] == e;
    forall i | 0 <= i < |next| ensures Follows(next[..i], next[i]) {
      if i < |log| { assert next[..i] == log[..i]; }
    }
    if e.OnStart? {
      assert StartAt(next, |log|);
    } else if Started(log) && !e.OnStop? {
      var k :| 0 <= k < |log| && StartAt(log, k);
      assert StartAt(next, k);
    }
    assert NeverStopped(next) ==> NeverStopped(log) by {
      if NeverStopped(next) {
        forall i | 0 <= i < |log| ensures !(log[i].Enter? && log[i].to.Stopped?) { assert next[i] == log[i]; }
      }
    }
  }

  lemma EndKeeps<M>(s: Service<M>, ele: TaskElement<M>)
    requires Inv(s) && (s.stage.Starting? || s.stage.Running? || s.stage.Stopping?)
    ensures var s' := End(s, ele);
            && Inv(s') && s'.stage == s.stage
            && (s.stage.Starting? && NeverStopped(s'.log) ==>
                  OneStart(s) && (Leads(s, ele.handle, Running) ==> FirstStartEnds(s'.log)))
  {
    Grow(s.log, Ended(ele.handle));
  }

  lemma EnterKeeps<M>(s: Service<M>, to: Stage)
    requires Inv(s) && (to.Running? || to.Stopped?) && Edge(s.stage, to)
    requires to.Running? && NeverStopped(s.log) ==> FirstStartEnds(s.log)
    ensures Inv(Go(s, to))
  {
    Grow(s.log, Enter(s.stage, to));
  }

  /** Which stage a task that ends leads to, and whose it must be. */
  ghost predicate Leads<M>(s: Service<M>, handle: nat, to: Stage) {
    || (s.stage.Running? && to.Running?)
    || (s.stage.Stopping? && to.Stopped?)
    || (s.stage.Starting? && to.Running? && (NeverStopped(s.log) && OneStart(s) ==> handle == Begins(s.log)[0].handle))
  }

  /** A task ends, or waits on. */
  lemma SettleKeeps<M>(s: Service<M>, ele: TaskElement<M>, to: Stage)
    requires Inv(s) && Leads(s, ele.handle, to)
    ensures Inv(Settle(s, ele, to))
  {
    hide Inv, OneStart, NeverStopped, FirstStartEnds, Begins, StageOf, ReplyOf;
    if ele.state.Finished? {
      EndKeeps(s, ele);
      if to != s.stage {
        EnterKeeps(End(s, ele), to);
      }
    }
  }

  lemma StartKeeps<M>(s: Service<M>, e: Element<M>, env: Env<M>)
    requires Inv(s) && Clean(e) && e.body.StartMsg?
    ensures Inv(Process(s, e, env))
  {
    if s.stage.Ready? || s.stage.Stopped? {
      Grow(s.log, Enter(s.stage, Starting));
      var s1 := Go(s, Starting);
      Grow(s1.log, OnStart(env.handle));
      var s2 := Begin(s1, OnStart(env.handle), TaskOf(e, env));
      if NeverStopped(s2.log) {
        if s.stage.Stopped? { StoppedSeen(s.log); }
        assert Begins(s2.log) == [OnStart(env.handle)];
      }
      SettleKeeps(s2, TaskOf(e, env), Running);
    }
  }

  lemma {:induction false} StoppedSeen(log: seq<Event>)
    requires StageOf(log).Stopped?
    ensures !NeverStopped(log)
  {
    if log[|log| - 1].Enter? {
    } else {
      StoppedSeen(log[..|log| - 1]);
    }
  }

  lemma StopKeeps<M>(s: Service<M>, e: Element<M>, env: Env<M>)
    requires Inv(s) && Clean(e) && e.body.StopMsg?
    ensures Inv(Process(s, e, env))
  {
    if s.stage.Running? {
      Grow(s.log, Enter(s.stage, Stopping));
      var s1 := Go(s, Stopping);
      Grow(s1.log, OnStop(env.handle));
      SettleKeeps(Begin(s1, OnStop(env.handle), TaskOf(e, env)), TaskOf(e, env), Stopped);
    }
  }

  lemma ExitKeeps<M>(s: Service<M>, e: Element<M>, env: Env<M>)
    requires Inv(s) && Clean(e) && e.body.ExitMsg?
    ensures Inv(Process(s, e, env))
  {
    if s.stage.Stopped? {
      Grow(s.log, Enter(s.stage, Exited));
      Grow(Go(s, Exited).log, OnExit);
    }
  }

  lemma TimeoutKeeps<M>(s: Service<M>, e: Element<M>, env: Env<M>)
    requires Inv(s) && !s.stage.Exited? && e.body.TimeoutMsg?
    ensures Inv(Process(s, e, env))
  {
    if Process(s, e, env).log != s.log {
      Grow(s.log, Enter(s.stage, Stopped));
    }
  }

  lemma ResumeKeeps<M>(s: Service<M>, sid: SessionId, env: Env<M>, to: Stage)
    requires Inv(s)
    requires || (s.stage.Starting? && to.Running?)
             || (s.stage.Stopping? && to.Stopped?)
             || (s.stage.Running? && to.Running?)
    ensures Inv(Resume(s, sid, env, to))
  {
    var id := ReplyToSend(sid);
    if id in s.tasks {
      var s' := s.(tasks := ResumeIn(s.tasks, id, env.state));
      assert OneStart(s) ==> OneStart(s') && s.tasks[id].handle == Begins(s.log)[0].handle;
      SettleKeeps(s', s.tasks[id].(state := env.state), to);
    }
  }

  lemma MsgKeeps<M>(s: Service<M>, e: Element<M>, env: Env<M>)
    requires Inv(s) && s.stage.Running?
    ensures Inv(Settle(Begin(s, OnMsg(env.handle), TaskOf(e, env)), TaskOf(e, env), Running))
  {
    Grow(s.log, OnMsg(env.handle));
    SettleKeeps(Begin(s, OnMsg(env.handle), TaskOf(e, env)), TaskOf(e, env), Running);
  }

  lemma UserKeeps<M>(s: Service<M>, e: Element<M>, env: Env<M>)
    requires Inv(s) && e.body.UserMsg?
    ensures Inv(Process(s, e, env))
  {
    if s.stage.Running? && !IsReplyId(e.sid) {
      MsgKeeps(s, e, env);
    } else if IsReplyId(e.sid) && (s.stage.Starting? || s.stage.Stopping? || s.stage.Running?) {
      ResumeKeeps(s, e.sid, env, if s.stage.Stopping? then Stopped else Running);
    }
  }

  lemma {:induction false} WorksKeeps<M>(s: Service<M>, es: seq<Element<M>>, envs: seq<Env<M>>)
    requires Inv(s) && |es| == |envs| && forall i | 0 <= i < |es| :: Clean(es[i])
    ensures Inv(Works(s, es, envs))
  {
    if es == [] {
    } else {
      var n := |es| - 1;
      WorksKeeps(s, es[..n], envs[..n]);
      var s', e, env := Works(s, es[..n], envs[..n]), es[n], envs[n];
      if !s'.stage.Exited? {
        match e.body
        case StartMsg => StartKeeps(s', e, env);
        case StopMsg => StopKeeps(s', e, env);
        case ExitMsg => ExitKeeps(s', e, env);
        case TimeoutMsg(_) => TimeoutKeeps(s', e, env);
        case UserMsg(_) => UserKeeps(s', e, env);
      }
    }
  }

  function Fresh<M>(): Service<M> {
    Service(Ready, map[], [], 0, [])
  }

  lemma Last<M>(s: Service<M>, es: seq<Element<M>>, envs: seq<Env<M>>, e: Element<M>, env: Env<M>)
    requires |es| == |envs|
    ensures Works(s, es + [e], envs + [env]) == Turn(Works(s, es, envs), e, env)
  {
    assert (es + [e])[..|es|] == es && (envs + [env])[..|envs|] == envs;
  }

  /** Working off the mailbox in portions, one worker turn after another, is working it off. */
  lemma {:induction false} WorksJoin<M>(s: Service<M>, es: seq<Element<M>>, envs: seq<Env<M>>,
                                        more: seq<Element<M>>, moreEnvs: seq<Env<M>>)
    requires |es| == |envs| && |more| == |moreEnvs|
    ensures Works(Works(s, es, envs), more, moreEnvs) == Works(s, es + more, envs + moreEnvs)
  {
    if more == [] {
      assert es + more == es && envs + moreEnvs == envs;
    } else {
      var n := |more| - 1;
      WorksJoin(s, es, envs, more[..n], moreEnvs[..n]);
      Last(Works(s, es, envs), more[..n], moreEnvs[..n], more[n], moreEnvs[n]);
      Last(s, es + more[..n], envs + moreEnvs[..n], more[n], moreEnvs[n]);
      assert more[..n] + [more[n]] == more && moreEnvs[..n] + [moreEnvs[n]] == moreEnvs;
      assert es + more[..n] + [more[n]] == es + more && envs + moreEnvs[..n] + [moreEnvs[n]] == envs + moreEnvs;
    }
  }

  lemma Obeys(log: seq<Event>, i: nat)
    requires Lawful(log) && i < |log|
    ensures Follows(log[..i], log[i])
  {
  }

  lemma StagesFollow(log: seq<Event>)
    requires Lawful(log)
    ensures forall i | 0 <= i < |log| && log[i].Enter? ::
              log[i].from == StageOf(log[..i]) && Edge(log[i].from, log[i].to)
    ensures forall i | 0 <= i < |log| && log[i].OnMsg? :: StageOf(log[..i]).Running?
  {
    forall i | 0 <= i < |log|
      ensures log[i].Enter? ==> log[i].from == StageOf(log[..i]) && Edge(log[i].from, log[i].to)
      ensures log[i].OnMsg? ==> StageOf(log[..i]).Running?
    {
      hide Lawful, StageOf, Edge;
      Obeys(log, i);
    }
  }

  lemma StopsApart(log: seq<Event>)
    requires Lawful(log)
    ensures forall i, j | 0 <= i < j < |log| && log[i].OnStop? && log[j].OnStop? ::
              exists k | i < k < j :: log[k].OnStart?
  {
    forall i, j | 0 <= i < j < |log| && log[i].OnStop? && log[j].OnStop?
      ensures exists k | i < k < j :: log[k].OnStart?
    {
      BetweenStops(log, i, j);
    }
  }

  lemma ExitIsFinal<M>(s: Service<M>)
    requires Inv(s)
    ensures forall i | 0 <= i < |s.log| && s.log[i].Enter? && s.log[i].to.Exited? :: s.log[i + 1..] == [OnExit]
    ensures forall i | 0 <= i < |s.log| && s.log[i].OnExit? ::
              i == |s.log| - 1 && i > 0 && s.log[i - 1] == Enter(Stopped, Exited)
  {
    hide Inv;
    forall i | 0 <= i < |s.log| && s.log[i].Enter? && s.log[i].to.Exited?
      ensures s.log[i + 1..] == [OnExit]
    {
      ExitIsLast(s, i);
    }
    forall i | 0 <= i < |s.log| && s.log[i].OnExit?
      ensures i == |s.log| - 1 && i > 0 && s.log[i - 1] == Enter(Stopped, Exited)
    {
      ExitsOnce(s, i);
    }
  }

  lemma FirstRun(log: seq<Event>)
    requires Lawful(log)
    ensures forall i | 0 <= i < |log| && log[i].Enter? && log[i].to.Running? && NeverStopped(log[..i]) ::
              i > 0 && log[i - 1].Ended? && Begins(log[..i]) == [OnStart(log[i - 1].handle)]
  {
    forall i | 0 <= i < |log| && log[i].Enter? && log[i].to.Running? && NeverStopped(log[..i])
      ensures i > 0 && log[i - 1].Ended? && Begins(log[..i]) == [OnStart(log[i - 1].handle)]
    {
      hide Lawful, NeverStopped, Begins, StageOf, Edge;
      Obeys(log, i);
      assert i > 0 ==> log[..i][i - 1] == log[i - 1];
    }
  }

  /** The life of a service, whatever messages it works off and whatever its handlers do:
      stage changes follow the edges, OnMsg is only called while running, two OnStop calls have
      an OnStart between them, exiting is final with one OnExit, and a service that was never
      stopped got to run by the end of its one OnStart, the only handler called so far. */
  lemma LifeOfService<M>(es: seq<Element<M>>, envs: seq<Env<M>>)
    requires |es| == |envs| && forall i | 0 <= i < |es| :: Clean(es[i])
    ensures var s := Works(Fresh<M>(), es, envs); var log := s.log;
            && s.stage == StageOf(log)
            && (forall i | 0 <= i < |log| && log[i].Enter? ::
                  log[i].from == StageOf(log[..i]) && Edge(log[i].from, log[i].to))
            && (forall i | 0 <= i < |log| && log[i].OnMsg? :: StageOf(log[..i]).Running?)
            && (forall i, j | 0 <= i < j < |log| && log[i].OnStop? && log[j].OnStop? ::
                  exists k | i < k < j :: log[k].OnStart?)
            && (forall i | 0 <= i < |log| && log[i].Enter? && log[i].to.Exited? :: log[i + 1..] == [OnExit])
            && (forall i | 0 <= i < |log| && log[i].OnExit? ::
                  i == |log| - 1 && i > 0 && log[i - 1] == Enter(Stopped, Exited))
            && (forall i | 0 <= i < |log| && log[i].Enter? && log[i].to.Running? && NeverStopped(log[..i]) ::
                  i > 0 && log[i - 1].Ended? && Begins(log[..i]) == [OnStart(log[i - 1].handle)])
  {
    hide *;
    FreshKeeps<M>();
    WorksKeeps(Fresh<M>(), es, envs);
    var s := Works(Fresh<M>(), es, envs);
    InvLawful(s);
    StagesFollow(s.log);
    StopsApart(s.log);
    ExitIsFinal(s);
    FirstRun(s.log);
  }

  lemma FreshKeeps<M>()
    ensures Inv(Fresh<M>())
  {
  }

  lemma InvLawful<M>(s: Service<M>)
    requires Inv(s)
    ensures Lawful(s.log) && s.stage == StageOf(s.log)
  {
  }

  lemma ExitsOnce<M>(s: Service<M>, i: nat)
    requires Inv(s) && i < |s.log| && s.log[i].OnExit?
    ensures i == |s.log| - 1 && i > 0 && s.log[i - 1] == Enter(Stopped, Exited)
  {
    assert Follows(s.log[..i], s.log[i]);
    assert s.log[..i][i - 1] == s.log[i - 1];
    assert Follows(s.log[..i - 1], s.log[i - 1]);
    ExitIsLast(s, i - 1);
    assert |s.log[i..]| == 1;
  }

  lemma BetweenStops(log: seq<Event>, i: nat, j: nat)
    requires Lawful(log) && i < j < |log| && log[i].OnStop? && log[j].OnStop?
    ensures exists k | i < k < j :: log[k].OnStart?
  {
    var p := log[..j];
    assert Follows(p, log[j]);
    var k :| 0 <= k < |p| && StartAt(p, k);
    assert p[i].OnStop?;
    assert log[k].OnStart?;
  }

  lemma AfterExit(log: seq<Event>, j: nat)
    requires Lawful(log) && j < |log| && StageOf(log[..j]).Exited?
    ensures log[j].OnExit? && StageOf(log[..j + 1]).Exited? && !JustEntered(log[..j + 1], Exited)
    ensures JustEntered(log[..j], Exited)
  {
    assert Follows(log[..j], log[j]);
    assert log[..j + 1][..j] == log[..j];
  }

  /** Nothing but the one OnExit follows the entry into Exited. */
  lemma ExitIsLast<M>(s: Service<M>, i: nat)
    requires Inv(s) && i < |s.log| && s.log[i].Enter? && s.log[i].to.Exited?
    ensures s.log[i + 1..] == [OnExit]
  {
    var log := s.log;
    assert log[..i + 1][i] == log[i];
    assert i + 1 < |log|;
    AfterExit(log, i + 1);
    if i + 2 < |log| {
      AfterExit(log, i + 2);
      assert false;
    }
  }

  /** ProcessMsg alone does not make Exited final: without the check in ProcessMsgs, a timeout
      that makes a left-over task fail takes the service to Stopped, and nothing else does. */
  lemma ExitedByItself<M>(s: Service<M>, e: Element<M>, env: Env<M>)
    requires s.stage.Exited?
    ensures Process(s, e, env).stage.Exited? <==>
            !(e.body.TimeoutMsg? && e.body.id in s.tasks && env.state.Finished? && env.state.failed)
  {
  }

  /** Messages processed without the check in ProcessMsgs. */
  function ProcessAll<M>(s: Service<M>, es: seq<Element<M>>, envs: seq<Env<M>>): Service<M>
    requires |es| == |envs|
    decreases |es|
  {
    if es == [] then s else ProcessAll(Process(s, es[0], envs[0]), es[1..], envs[1..])
  }

  lemma {:induction false} StaysExited<M>(s: Service<M>, es: seq<Element<M>>, envs: seq<Env<M>>)
    requires s.stage.Exited? && s.tasks == map[] && |es| == |envs|
    ensures ProcessAll(s, es, envs).stage.Exited?
    decreases |es|
  {
    if es == [] {
    } else {
      ExitedByItself(s, es[0], envs[0]);
      StaysExited(Process(s, es[0], envs[0]), es[1..], envs[1..]);
    }
  }

  /** What can be known beforehand: an exited service stays so, whatever comes and whatever its
      tasks do, exactly if it has no task left. */
  lemma ExitedForGood<M>(s: Service<M>)
    requires s.stage.Exited?
    ensures s.tasks == map[] <==>
            forall es: seq<Element<M>>, envs: seq<Env<M>> | |es| == |envs| :: ProcessAll(s, es, envs).stage.Exited?
  {
    if s.tasks == map[] {
      forall es: seq<Element<M>>, envs: seq<Env<M>> | |es| == |envs|
        ensures ProcessAll(s, es, envs).stage.Exited?
      {
        StaysExited(s, es, envs);
      }
    } else {
      var id :| id in s.tasks;
      var e: Element<M>, env: Env<M> := Element(0, id, TimeoutMsg(id)), Env(0, Finished(true, None));
      ExitedByItself(s, e, env);
      assert ProcessAll(s, [e], [env]) == Process(s, e, env);
    }
  }

  /** A service gets there by its own messages: it starts, a handler waits for session 5, it stops
      and exits. The timeout of that session, on which the handler fails, makes it Stopped. */
  lemma ExitedReopens<M>(m: M)
    ensures var done := Finished(false, None);
            var es := [Element(0, 1, StartMsg), Element(0, 2, UserMsg(m)),
                       Element(0, 3, StopMsg), Element(0, 4, ExitMsg)];
            var envs := [Env(1, done), Env(2, Suspended(5, 30)), Env(3, done), Env(4, done)];
            var s := Works(Fresh<M>(), es, envs);
            && s.stage.Exited? && 5 in s.tasks
            && Process(s, Element(0, 5, TimeoutMsg(5)), Env(2, Finished(true, None))).stage.Stopped?
  {
    var done: State<M> := Finished(false, None);
    var start, msg: Element<M> := Element(0, 1, StartMsg), Element(0, 2, UserMsg(m));
    var stop, exit: Element<M> := Element(0, 3, StopMsg), Element(0, 4, ExitMsg);
    var es, envs := [start, msg, stop, exit], [Env(1, done), Env(2, Suspended(5, 30)), Env(3, done), Env(4, done)];
    assert es[..3] == [start, msg, stop] && es[..3][..2] == [start, msg] && es[..3][..2][..1] == [start];
    assert envs[..3][..2][..1] == [envs[0]] && envs[..3][..2] == envs[..2] && envs[..2][..1] == [envs[0]];
    var s1 := Works(Fresh<M>(), [start], [envs[0]]);
    assert s1 == Turn(Works(Fresh<M>(), [start][..0], [envs[0]][..0]), start, envs[0]);
    assert s1 == Turn(Fresh<M>(), start, envs[0]);
    assert s1.stage.Running? && s1.tasks == map[];
    var s2 := Works(Fresh<M>(), [start, msg], envs[..2]);
    assert s2 == Turn(s1, msg, envs[1]);
    assert s2.stage.Running? && 5 in s2.tasks;
    var s3 := Works(Fresh<M>(), [start, msg, stop], envs[..3]);
    assert s3 == Turn(s2, stop, envs[2]);
    assert s3.stage.Stopped? && 5 in s3.tasks;
    assert Works(Fresh<M>(), es, envs) == Turn(s3, exit, envs[3]);
  }
}
