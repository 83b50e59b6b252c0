/** What a service does to its executor, and whom its replies answer. */
module ServiceReplies {
  import opened SessionDef
  import opened Executor
  import opened ServiceCore

  /** The executor operation that a message leads to in this stage, if any. */
  function OpOf<M>(s: Service<M>, e: Element<M>, env: Env<M>): seq<Op<M>> {
    match e.body
    case StartMsg => if (s.stage.Ready? || s.stage.Stopped?) && IsSendId(e.sid) then [Add(TaskOf(e, env))] else []
    case StopMsg => if s.stage.Running? && IsSendId(e.sid) then [Add(TaskOf(e, env))] else []
    case ExitMsg => []
    case TimeoutMsg(id) => [Timeout(id, env.state)]
    case UserMsg(_) =>
      if !s.stage.Starting? && !s.stage.Running? && !s.stage.Stopping? then []
      else if IsReplyId(e.sid) then [Reply(ReplyToSend(e.sid), env.state)]
      else if s.stage.Running? then [Add(TaskOf(e, env))]
      else []
  }

  function Perform<M>(h: History<M>, ops: seq<Op<M>>): History<M> {
    if ops == [] then h else Apply(h, ops[0])
  }

  function Replies<M>(answered: seq<TaskElement<M>>): seq<Sent<M>> {
    if answered == [] then [] else Replies(answered[..|answered| - 1]) + ReplyOf(answered[|answered| - 1])
  }

  /** The service has the executor's tasks, and has replied to the tasks handed back. */
  ghost predicate Mirrors<M>(s: Service<M>, h: History<M>) {
    s.tasks == h.tasks && s.sent == Replies(h.answered)
  }

  lemma OneMore<M>(answered: seq<TaskElement<M>>, ele: TaskElement<M>)
    ensures Replies(answered + [ele]) == Replies(answered) + ReplyOf(ele)
  {
    assert (answered + [ele])[..|answered|] == answered;
  }

  lemma AddMirrors<M>(s: Service<M>, h: History<M>, ev: Event, ele: TaskElement<M>, to: Stage)
    requires Mirrors(s, h)
    ensures Mirrors(Settle(Begin(s, ev, ele), ele, to), Apply(h, Add(ele)))
  {
    OneMore(h.answered, ele);
  }

  lemma ReplyIs<M>(h: History<M>, id: SessionId, st: State<M>)
    ensures var g := Apply(h, Reply(id, st));
            if id !in h.tasks then g == h
            else
              && g.tasks == ResumeIn(h.tasks, id, st)
              && g.answered == if st.Finished? then h.answered + [h.tasks[id].(state := st)] else h.answered
  {
    hide ResumeIn;
  }

  lemma ReplyMirrors<M>(s: Service<M>, h: History<M>, sid: SessionId, env: Env<M>, to: Stage)
    requires Mirrors(s, h)
    ensures Mirrors(Resume(s, sid, env, to), Apply(h, Reply(ReplyToSend(sid), env.state)))
  {
    hide Apply, ResumeIn, ReplyOf, Replies;
    var id := ReplyToSend(sid);
    ReplyIs(h, id, env.state);
    if id in h.tasks { OneMore(h.answered, h.tasks[id].(state := env.state)); }
  }

  lemma TimeoutMirrors<M>(s: Service<M>, h: History<M>, id: SessionId, env: Env<M>)
    requires Mirrors(s, h)
    ensures Mirrors(s.(tasks := ResumeIn(s.tasks, id, env.state)), Apply(h, Timeout(id, env.state)))
  {
  }

  /** Processing a message is at most one executor operation, and replies exactly to what that
      hands back. */
  lemma ProcessMirrors<M>(s: Service<M>, h: History<M>, e: Element<M>, env: Env<M>)
    requires Mirrors(s, h)
    ensures Mirrors(Process(s, e, env), Perform(h, OpOf(s, e, env)))
  {
    hide Settle, Resume, ReplyOf, Replies, AddTo, ResumeIn;
    match e.body
    case StartMsg => AddMirrors(Go(s, Starting), h, OnStart(env.handle), TaskOf(e, env), Running);
    case StopMsg => AddMirrors(Go(s, Stopping), h, OnStop(env.handle), TaskOf(e, env), Stopped);
    case ExitMsg =>
    case TimeoutMsg(id) => TimeoutMirrors(s, h, id, env);
    case UserMsg(_) =>
      if IsReplyId(e.sid) {
        ReplyMirrors(s, h, e.sid, env, if s.stage.Stopping? then Stopped else Running);
      } else {
        AddMirrors(s, h, OnMsg(env.handle), TaskOf(e, env), Running);
      }
  }

  // ---- Whole runs ----

  predicate Came<M>(es: seq<Element<M>>, envs: seq<Env<M>>, ele: TaskElement<M>, j: nat)
    requires |es| == |envs|
  {
    j < |es| && ele.sender == es[j].sender && ele.sessionId == es[j].sid && ele.handle == envs[j].handle
  }

  /** The task was started by one of the messages, and is to answer it. */
  ghost predicate From<M>(es: seq<Element<M>>, envs: seq<Env<M>>, ele: TaskElement<M>)
    requires |es| == |envs|
  {
    exists j: nat :: Came(es, envs, ele, j)
  }

  ghost predicate Origins<M>(es: seq<Element<M>>, envs: seq<Env<M>>, h: History<M>)
    requires |es| == |envs|
  {
    && (forall id | id in h.tasks :: From(es, envs, h.tasks[id]))
    && (forall i | 0 <= i < |h.answered| :: From(es, envs, h.answered[i]))
    && (forall x | x in h.added :: exists j | 0 <= j < |envs| :: envs[j].handle == x)
  }

  lemma FromMore<M>(es: seq<Element<M>>, envs: seq<Env<M>>, e: Element<M>, env: Env<M>, ele: TaskElement<M>)
    requires |es| == |envs| && From(es, envs, ele)
    ensures From(es + [e], envs + [env], ele)
  {
    var j: nat :| Came(es, envs, ele, j);
    assert Came(es + [e], envs + [env], ele, j);
  }

  lemma OriginsMore<M>(es: seq<Element<M>>, envs: seq<Env<M>>, e: Element<M>, env: Env<M>, h: History<M>)
    requires |es| == |envs| && Origins(es, envs, h)
    ensures Origins(es + [e], envs + [env], h)
  {
    forall id | id in h.tasks ensures From(es + [e], envs + [env], h.tasks[id]) {
      FromMore(es, envs, e, env, h.tasks[id]);
    }
    forall i | 0 <= i < |h.answered| ensures From(es + [e], envs + [env], h.answered[i]) {
      FromMore(es, envs, e, env, h.answered[i]);
    }
    forall x | x in h.added ensures exists j | 0 <= j < |envs + [env]| :: (envs + [env])[j].handle == x {
      var j :| 0 <= j < |envs| && envs[j].handle == x;
      assert (envs + [env])[j].handle == x;
    }
  }

  lemma SameOrigin<M>(es: seq<Element<M>>, envs: seq<Env<M>>, ele: TaskElement<M>, st: State<M>)
    requires |es| == |envs| && From(es, envs, ele)
    ensures From(es, envs, ele.(state := st))
  {
    var j: nat :| Came(es, envs, ele, j);
    assert Came(es, envs, ele.(state := st), j);
  }

  /** One more operation, of the last message. */
  lemma OriginsApply<M>(es: seq<Element<M>>, envs: seq<Env<M>>, h: History<M>, op: Op<M>)
    requires |es| == |envs| && Origins(es, envs, h)
    requires op.Add? ==> es != [] && Came(es, envs, op.ele, |es| - 1)
    ensures Origins(es, envs, Apply(h, op))
  {
    match op
    case Add(ele) => assert From(es, envs, ele);
    case Reply(id, st) => if id in h.tasks { SameOrigin(es, envs, h.tasks[id], st); }
    case Timeout(id, st) => if id in h.tasks { SameOrigin(es, envs, h.tasks[id], st); }
  }

  ghost predicate Sound<M>(es: seq<Element<M>>, envs: seq<Env<M>>, s: Service<M>, h: History<M>)
    requires |es| == |envs|
  {
    Mirrors(s, h) && KeysMatch(h.tasks) && Partition(h) && Origins(es, envs, h)
  }

  /** Every message's coroutine is one of its own, and waits for request ids if it waits. */
  predicate Proper<M>(envs: seq<Env<M>>) {
    && (forall i, j | 0 <= i < j < |envs| :: envs[i].handle != envs[j].handle)
    && (forall i | 0 <= i < |envs| :: MayWait(envs[i].state))
  }

  lemma OpStep<M>(es: seq<Element<M>>, envs: seq<Env<M>>, s: Service<M>, h: History<M>, op: Op<M>)
    requires |es| == |envs| > 0 && Proper(envs)
    requires Sound(es[..|es| - 1], envs[..|envs| - 1], s, h)
    requires op in OpOf(s, es[|es| - 1], envs[|es| - 1])
    ensures KeysMatch(Apply(h, op).tasks) && Partition(Apply(h, op)) && Origins(es, envs, Apply(h, op))
  {
    hide Partition, KeysMatch, From, Apply;
    var n := |es| - 1;
    assert es[..n] + [es[n]] == es && envs[..n] + [envs[n]] == envs;
    OriginsMore(es[..n], envs[..n], es[n], envs[n], h);
    assert MayWait(envs[n].state);
    assert forall j | 0 <= j < n :: envs[..n][j].handle == envs[j].handle != envs[n].handle;
    assert envs[n].handle !in h.added;
    assert Allowed(h, op);
    StepKeys(h, op);
    StepPartition(h, op);
    OriginsApply(es, envs, h, op);
  }

  lemma {:induction false} RunSound<M>(es: seq<Element<M>>, envs: seq<Env<M>>) returns (h: History<M>)
    requires |es| == |envs| && Proper(envs)
    ensures Sound(es, envs, Works(Service(Ready, map[], [], 0, []), es, envs), h)
  {
    h := History(map[], {}, [], {}, {});
    if es == [] {
    } else {
      var n := |es| - 1;
      h := RunSound(es[..n], envs[..n]);
      var s := Works(Service(Ready, map[], [], 0, []), es[..n], envs[..n]);
      assert es[..n] + [es[n]] == es && envs[..n] + [envs[n]] == envs;
      OriginsMore(es[..n], envs[..n], es[n], envs[n], h);
      if !s.stage.Exited? {
        var ops := OpOf(s, es[n], envs[n]);
        ProcessMirrors(s, h, es[n], envs[n]);
        if ops != [] {
          OpStep(es, envs, s, h, ops[0]);
          h := Apply(h, ops[0]);
        }
      }
    }
  }

  /** Each reply has a request of its own: src[i] is the message that reply i answers. */
  ghost predicate Answers<M>(es: seq<Element<M>>, sent: seq<Sent<M>>, src: seq<nat>) {
    && |src| == |sent|
    && (forall i | 0 <= i < |sent| ::
          src[i] < |es| && sent[i].to == es[src[i]].sender && sent[i].sid == SendToReply(es[src[i]].sid))
    && (forall i, j | 0 <= i < j < |src| :: src[i] != src[j])
  }

  ghost predicate Among<M>(answered: seq<TaskElement<M>>, x: nat) {
    exists k | 0 <= k < |answered| :: answered[k].handle == x
  }

  lemma AmongMore<M>(answered: seq<TaskElement<M>>, x: nat)
    requires answered != [] && Among(answered[..|answered| - 1], x)
    ensures Among(answered, x)
  {
    var k :| 0 <= k < |answered| - 1 && answered[..|answered| - 1][k].handle == x;
    assert answered[k].handle == x;
  }

  lemma AnswersMore<M>(es: seq<Element<M>>, sent: seq<Sent<M>>, src: seq<nat>, more: Sent<M>, j: nat)
    requires Answers(es, sent, src) && forall i | 0 <= i < |src| :: src[i] != j
    requires j < |es| && more.to == es[j].sender && more.sid == SendToReply(es[j].sid)
    ensures Answers(es, sent + [more], src + [j])
  {
  }

  lemma {:induction false} Sources<M>(es: seq<Element<M>>, envs: seq<Env<M>>, answered: seq<TaskElement<M>>)
      returns (src: seq<nat>)
    requires |es| == |envs|
    requires forall i | 0 <= i < |answered| :: From(es, envs, answered[i])
    requires forall i, j | 0 <= i < j < |answered| :: answered[i].handle != answered[j].handle
    ensures Answers(es, Replies(answered), src)
    ensures forall i | 0 <= i < |src| :: src[i] < |envs| && Among(answered, envs[src[i]].handle)
  {
    hide Answers, Among;
    src := [];
    if answered == [] {
      NoneAnswered(es);
    } else {
      var n := |answered| - 1;
      var j: nat :| Came(es, envs, answered[n], j);
      src := Sources(es, envs, answered[..n]);
      NotAmong(answered);
      forall i | 0 <= i < |src|
        ensures Among(answered, envs[src[i]].handle) && src[i] != j
      {
        AmongMore(answered, envs[src[i]].handle);
      }
      if ReplyOf(answered[n]) != [] {
        AnswersMore(es, Replies(answered[..n]), src, ReplyOf(answered[n])[0], j);
        src := src + [j];
        assert ReplyOf(answered[n]) == [ReplyOf(answered[n])[0]];
      } else {
        assert Replies(answered) == Replies(answered[..n]);
      }
    }
  }

  lemma NoneAnswered<M>(es: seq<Element<M>>)
    ensures Answers(es, [], [])
  {
  }

  lemma NotAmong<M>(answered: seq<TaskElement<M>>)
    requires answered != [] && forall i, j | 0 <= i < j < |answered| :: answered[i].handle != answered[j].handle
    ensures var n := |answered| - 1;
            !Among(answered[..n], answered[n].handle) && Among(answered, answered[n].handle)
  {
    assert answered[|answered| - 1].handle == answered[|answered| - 1].handle;
  }

  /** Over a whole life, whatever its handlers do: each reply of a service goes to the sender of
      a message of its own, under that message's id with the reply bit; no message is answered
      twice. Every suspended task is filed under the valid request id it waits for. */
  lemma RepliesAnswer<M>(es: seq<Element<M>>, envs: seq<Env<M>>) returns (src: seq<nat>)
    requires |es| == |envs| && Proper(envs)
    ensures var s := Works(Service(Ready, map[], [], 0, []), es, envs);
            Answers(es, s.sent, src) && KeysMatch(s.tasks)
  {
    var h := RunSound(es, envs);
    src := Sources(es, envs, h.answered);
  }
}
