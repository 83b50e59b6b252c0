/** A service together with its mailbox: messages are taken in while others are worked off. */
module Mailbox {
  import opened SessionDef
  import opened Wrappers
  import opened Executor
  import opened ServiceCore

  datatype Boxed<M> = Boxed(service: Service<M>, msgs: seq<Element<M>>)

  datatype Move<M> = Push(e: Element<M>) | Work(env: Env<M>)

  function Next<M>(b: Boxed<M>, a: Move<M>): Boxed<M> {
    match a
    case Push(e) => if Accepting(b.service.stage, e) then b.(msgs := b.msgs + [e]) else b
    case Work(env) =>
      if b.service.stage.Exited? || b.msgs == [] then b
      else Boxed(Process(b.service, b.msgs[0], env), b.msgs[1..])
  }

  function After<M>(b: Boxed<M>, run: seq<Move<M>>): Boxed<M>
    decreases |run|
  {
    if run == [] then b else After(Next(b, run[0]), run[1..])
  }

  /** A timeout, or a reply that one of the service's tasks waits for. */
  predicate Wakes<M>(tasks: Tasks<M>, e: Element<M>) {
    e.body.TimeoutMsg? || (e.body.UserMsg? && IsReplyId(e.sid) && ReplyToSend(e.sid) in tasks)
  }

  lemma StepHangs<M>(b: Boxed<M>, a: Move<M>)
    requires b.service.stage.Stopping? && forall i | 0 <= i < |b.msgs| :: !Wakes(b.service.tasks, b.msgs[i])
    ensures var c := Next(b, a);
            c.service == b.service && forall i | 0 <= i < |c.msgs| :: !Wakes(c.service.tasks, c.msgs[i])
  {
  }

  lemma {:induction false} Hangs<M>(b: Boxed<M>, run: seq<Move<M>>)
    requires b.service.stage.Stopping? && forall i | 0 <= i < |b.msgs| :: !Wakes(b.service.tasks, b.msgs[i])
    ensures After(b, run).service == b.service
    decreases |run|
  {
    if run == [] {
    } else {
      StepHangs(b, run[0]);
      Hangs(Next(b, run[0]), run[1..]);
    }
  }

  /** Working off what is in the mailbox brings a stopping service to its first waking message, on
      which the task that waits may end. */
  lemma {:induction false} Leaves<M>(b: Boxed<M>, i: nat) returns (run: seq<Move<M>>)
    requires b.service.stage.Stopping? && i < |b.msgs| && Wakes(b.service.tasks, b.msgs[i])
    ensures !After(b, run).service.stage.Stopping?
    decreases i
  {
    var work: Move<M> := Work(Env(0, Finished(false, None)));
    var c := Next(b, work);
    if c.service.stage.Stopping? {
      var rest := Leaves(c, i - 1);
      run := [work] + rest;
      assert run[1..] == rest;
    } else {
      run := [work];
      assert run[1..] == [];
      assert After(c, []) == c;
    }
  }

  /** A stopping service takes no replies and no timeouts any more. It can ever leave that stage
      exactly if one was in its mailbox before: an OnStop that waits for an answer to a request of
      its own never returns. */
  lemma StopHangs<M>(b: Boxed<M>)
    requires b.service.stage.Stopping?
    ensures (exists run :: !After(b, run).service.stage.Stopping?) <==>
            (exists i | 0 <= i < |b.msgs| :: Wakes(b.service.tasks, b.msgs[i]))
  {
    if i: nat :| i < |b.msgs| && Wakes(b.service.tasks, b.msgs[i]) {
      var run := Leaves(b, i);
    } else {
      forall run
        ensures After(b, run).service.stage.Stopping?
      {
        Hangs(b, run);
      }
    }
  }

  /** A starting service, in contrast, takes the answer that its OnStart waits for, and runs. */
  lemma StartDoesNotHang<M>(b: Boxed<M>, id: SessionId, m: M)
    requires b.service.stage.Starting? && b.msgs == [] && id in b.service.tasks && IsSendId(id)
    ensures var reply := Element(0, SendToReply(id), UserMsg(m));
            After(b, [Push(reply), Work(Env(0, Finished(false, None)))]).service.stage.Running?
  {
    var reply := Element(0, SendToReply(id), UserMsg(m));
    var work: Move<M> := Work(Env(0, Finished(false, None)));
    assert [Push(reply), work][1..] == [work] && [work][1..] == [];
    assert After(b, [Push(reply), work]) == After(Next(b, Push(reply)), [work]);
    assert After(Next(b, Push(reply)), [work]) == After(Next(Next(b, Push(reply)), work), []);
  }
}
