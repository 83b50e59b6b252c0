/** The worker pool comes to rest: how much a pool can still do with what it has. */
module PoolRest {
  import opened Scheduler

  // ---- Sums over the entries of a map ----

  ghost function Total(m: map<nat, nat>): nat {
    if m == map[] then 0
    else
      var k :| k in m;
      m[k] + Total(m - {k})
  }

  lemma {:induction false} TotalWithout(m: map<nat, nat>, k: nat)
    requires k in m
    ensures Total(m) == m[k] + Total(m - {k})
    decreases |m|
  {
    var j :| j in m && Total(m) == m[j] + Total(m - {j});
    if j != k {
      TotalWithout(m - {j}, k);
      TotalWithout(m - {k}, j);
      assert m - {j} - {k} == m - {k} - {j};
    }
  }

  lemma TotalUpdate(m: map<nat, nat>, k: nat, v: nat)
    ensures Total(m[k := v]) + (if k in m then m[k] else 0) == Total(m) + v
  {
    TotalWithout(m[k := v], k);
    if k in m {
      TotalWithout(m, k);
      assert m[k := v] - {k} == m - {k};
    } else {
      assert m[k := v] - {k} == m;
    }
  }

  /** Entry by entry at most d more. */
  lemma {:induction false} TotalAtMost(m: map<nat, nat>, n: map<nat, nat>, d: nat)
    requires m.Keys == n.Keys && forall k | k in m :: m[k] <= n[k] + d
    ensures Total(m) <= Total(n) + |n| * d
    decreases |m|
  {
    if m == map[] {
    } else {
      var k :| k in m;
      TotalWithout(m, k);
      TotalWithout(n, k);
      assert (m - {k}).Keys == (n - {k}).Keys;
      TotalAtMost(m - {k}, n - {k}, d);
      OneTimesMore(|n - {k}|, d);
      assert |n| == |n - {k}| + 1;
    }
  }

  lemma OneTimesMore(a: nat, d: nat)
    ensures (a + 1) * d == a * d + d
  {
  }

  // ---- What is left to do ----

  /** How many steps a worker in this phase may still take, with the mailbox of its service as it
      is. A message pays for one more round of its service through the queue. */
  function Left<M>(p: Pool<M>, ph: Phase<M>): nat {
    match ph
    case Ended => 0
    case Idle => 1
    case Held(_) => 4
    case Busy(_, _) => 9
    case Done(s) => if At(p.boxes, s) == [] then 3 else 8
    case Cleared(s) => if At(p.boxes, s) == [] then 2 else 7
    case Requeue(_) => 6
  }

  function Mail<M>(p: Pool<M>): map<nat, nat> {
    map s | s in p.boxes :: |p.boxes[s]|
  }

  function Work<M>(p: Pool<M>): map<nat, nat> {
    map w | w in p.workers :: Left(p, p.workers[w])
  }

  /** The bound: from the mail, the queue, the senders and the phases of the workers. */
  ghost function Bound<M>(p: Pool<M>): nat {
    6 * Total(Mail(p)) + 4 * |p.queue| + 5 * |p.senders| + Total(Work(p))
  }

  /** No service that has exited has mail. */
  predicate Tidy<M>(p: Pool<M>) {
    forall s | s in p.exited :: At(p.boxes, s) == []
  }

  /** A step of a sender or a worker with what is there: no new message, no exit, no stop. */
  predicate Plain<M>(st: Step<M>) {
    !st.PushMsg? && !st.Stop? && (st.Finish? ==> !st.exits)
  }

  lemma MailTaken<M>(p: Pool<M>, q: Pool<M>, s: Service)
    requires At(p.boxes, s) != [] && q.boxes == p.boxes[s := At(p.boxes, s)[1..]]
    ensures Total(Mail(p)) == Total(Mail(q)) + 1
  {
    assert Mail(q) == Mail(p)[s := |At(p.boxes, s)| - 1];
    TotalUpdate(Mail(p), s, |At(p.boxes, s)| - 1);
  }

  lemma WorkerMoves<M>(p: Pool<M>, q: Pool<M>, w: nat)
    requires w in p.workers && w in q.workers && q.workers == p.workers[w := q.workers[w]]
    requires forall s :: At(p.boxes, s) == [] ==> At(q.boxes, s) == []
    ensures Total(Work(q)) + Left(p, p.workers[w]) <= Total(Work(p)) + Left(q, q.workers[w])
  {
    var m := Work(p)[w := Left(q, q.workers[w])];
    TotalUpdate(Work(p), w, Left(q, q.workers[w]));
    TotalAtMost(Work(q), m, 0);
  }

  /** What looking into the mailbox does. */
  lemma PopIs<M>(p: Pool<M>, w: nat)
    requires Enabled(p, PopMsg(w)) && Tidy(p)
    ensures var q, s := Apply(p, PopMsg(w)), p.workers[w].s;
            && q.queue == p.queue && q.senders == p.senders && q.exited == p.exited && q.run == p.run
            && w in q.workers && q.workers == p.workers[w := q.workers[w]]
            && if At(p.boxes, s) == [] then q.boxes == p.boxes && q.workers[w] == Done(s)
               else q.boxes == p.boxes[s := At(p.boxes, s)[1..]] && q.workers[w].Busy?
  {
  }

  lemma TakesLess<M>(p: Pool<M>, w: nat)
    requires Enabled(p, PopMsg(w)) && Tidy(p)
    ensures Tidy(Apply(p, PopMsg(w))) && Bound(Apply(p, PopMsg(w))) < Bound(p)
  {
    hide Apply, Mail, Work, Total;
    var q, s := Apply(p, PopMsg(w)), p.workers[w].s;
    PopIs(p, w);
    WorkerMoves(p, q, w);
    if At(p.boxes, s) == [] {
      SameMail(p, q);
    } else {
      MailTaken(p, q, s);
    }
  }

  lemma SameMail<M>(p: Pool<M>, q: Pool<M>)
    requires q.boxes == p.boxes
    ensures Mail(q) == Mail(p)
  {
  }

  /** A step of one worker that takes no message. */
  lemma WorkerStep<M>(p: Pool<M>, st: Step<M>, w: nat)
    requires Enabled(p, st) && Plain(st) && !st.PushService? && !st.PopMsg? && st.w == w
    ensures var q := Apply(p, st);
            && q.boxes == p.boxes && q.exited == p.exited && q.senders == p.senders
            && w in p.workers && w in q.workers && q.workers == p.workers[w := q.workers[w]]
            && 4 * |q.queue| + Left(q, q.workers[w]) < 4 * |p.queue| + Left(p, p.workers[w])
  {
  }

  lemma SenderStep<M>(p: Pool<M>, t: nat)
    requires Enabled(p, Step<M>.PushService(t))
    ensures var q := Apply(p, Step<M>.PushService(t));
            && q.boxes == p.boxes && q.exited == p.exited && q.workers == p.workers
            && |q.senders| == |p.senders| - 1 && |q.queue| <= |p.queue| + 1
  {
    hide At;
    assert |p.senders - {t}| == |p.senders| - 1;
  }

  /** Every plain step uses up some of the bound. */
  lemma PlainStep<M>(p: Pool<M>, st: Step<M>)
    requires Enabled(p, st) && Plain(st) && Tidy(p)
    ensures Tidy(Apply(p, st)) && Bound(Apply(p, st)) < Bound(p)
  {
    hide Apply, Left;
    var q := Apply(p, st);
    if st.PopMsg? {
      TakesLess(p, st.w);
    } else if st.PushService? {
      SenderStep(p, st.t);
      SameWork(p, q);
    } else {
      WorkerStep(p, st, st.w);
      WorkerMoves(p, q, st.w);
    }
  }

  lemma SameWork<M>(p: Pool<M>, q: Pool<M>)
    requires q.boxes == p.boxes && q.workers == p.workers
    ensures Work(q) == Work(p) && Mail(q) == Mail(p)
  {
  }

  lemma PushIs<M>(p: Pool<M>, st: Step<M>)
    requires Enabled(p, st) && st.PushMsg?
    ensures var q := Apply(p, st);
            && q.queue == p.queue && q.exited == p.exited && q.workers == p.workers
            && if st.accept then
                 q.boxes == p.boxes[st.to := At(p.boxes, st.to) + [st.m]] && |q.senders| == |p.senders| + 1
               else q == p
  {
    assert |p.senders[st.t := st.to]| == |p.senders| + 1;
  }

  /** A new message adds at most this much. */
  lemma NewMessage<M>(p: Pool<M>, st: Step<M>)
    requires Enabled(p, st) && st.PushMsg? && Tidy(p) && (st.accept ==> st.to !in p.exited)
    ensures var q := Apply(p, st);
            Tidy(q) && q.workers == p.workers && q.exited == p.exited && Bound(q) <= Bound(p) + 11 + 5 * |p.workers|
  {
    hide Apply;
    PushIs(p, st);
    var q := Apply(p, st);
    if st.accept {
      MailGrows(p, q, st.to);
      WorkGrows(p, q);
    }
  }

  lemma MailGrows<M>(p: Pool<M>, q: Pool<M>, s: Service)
    requires s in q.boxes && |q.boxes[s]| == |At(p.boxes, s)| + 1 && q.boxes == p.boxes[s := q.boxes[s]]
    ensures Total(Mail(q)) == Total(Mail(p)) + 1
  {
    assert Mail(q) == Mail(p)[s := |q.boxes[s]|];
    TotalUpdate(Mail(p), s, |q.boxes[s]|);
  }

  lemma WorkGrows<M>(p: Pool<M>, q: Pool<M>)
    requires q.workers == p.workers
    ensures Total(Work(q)) <= Total(Work(p)) + 5 * |p.workers|
  {
    TotalAtMost(Work(q), Work(p), 5);
    assert Work(p).Keys == p.workers.Keys;
    assert |Work(p).Keys| == |Work(p)| && |p.workers.Keys| == |p.workers|;
  }

  lemma StopKeeps<M>(p: Pool<M>)
    ensures var q := Apply(p, Step<M>.Stop);
            Bound(q) == Bound(p) && (Tidy(p) ==> Tidy(q)) && q.workers == p.workers && q.exited == p.exited && !q.run
  {
    SameWork(p, Apply(p, Step<M>.Stop));
  }

  // ---- Runs ----

  function PlainSteps<M>(steps: seq<Step<M>>): nat {
    if steps == [] then 0 else (if Plain(steps[0]) then 1 else 0) + PlainSteps(steps[1..])
  }

  function Messages<M>(steps: seq<Step<M>>): nat {
    if steps == [] then 0 else (if steps[0].PushMsg? then 1 else 0) + Messages(steps[1..])
  }

  /** No service exits in the run, and none that has exited is sent a message. */
  ghost predicate Lively<M>(steps: seq<Step<M>>, exited: set<Service>) {
    forall st | st in steps ::
      (st.Finish? ==> !st.exits) && (st.PushMsg? && st.accept ==> st.to !in exited)
  }

  lemma PlainKeeps<M>(p: Pool<M>, st: Step<M>)
    requires Enabled(p, st) && Plain(st)
    ensures Apply(p, st).exited == p.exited && Apply(p, st).workers.Keys == p.workers.Keys && Apply(p, st).run == p.run
  {
    hide Apply;
    PlainExits(p, st);
    forall w: nat
      ensures w in Apply(p, st).workers <==> w in p.workers
    {
      WorkersAfter(p, st, w);
    }
  }

  lemma PlainExits<M>(p: Pool<M>, st: Step<M>)
    requires Enabled(p, st) && Plain(st)
    ensures Apply(p, st).exited == p.exited && Apply(p, st).run == p.run
  {
    hide At;
  }

  /** However senders and workers interleave: there are no more steps than what the pool has to do
      at first and the messages that come in account for. Nothing is done for ever. */
  lemma {:induction false} WorkIsBounded<M>(p: Pool<M>, steps: seq<Step<M>>)
    requires Runs(p, steps) && Tidy(p) && Lively(steps, p.exited)
    ensures PlainSteps(steps) + Bound(After(p, steps)) <= Bound(p) + Messages(steps) * (11 + 5 * |p.workers|)
    ensures Tidy(After(p, steps))
    decreases |steps|
  {
    hide Bound, Tidy, Apply, Enabled;
    if steps == [] {
    } else {
      var st, q, d := steps[0], Apply(p, steps[0]), 11 + 5 * |p.workers|;
      assert st in steps;
      if st.PushMsg? {
        NewMessage(p, st);
        OneTimesMore(Messages(steps[1..]), d);
      } else if st.Stop? {
        StopKeeps(p);
      } else {
        PlainStep(p, st);
        PlainKeeps(p, st);
      }
      assert |q.workers| == |p.workers| by { assert |q.workers.Keys| == |p.workers.Keys|; }
      WorkIsBounded(q, steps[1..]);
    }
  }

  // ---- Rest is reached, and means that everything has been delivered ----

  lemma {:induction false} PlainRun<M>(p: Pool<M>, steps: seq<Step<M>>, w0: nat)
    requires Inv(p) && Runs(p, steps) && Tidy(p) && p.run && w0 in p.workers && !p.workers[w0].Ended?
    requires forall st | st in steps :: Plain(st)
    ensures var q := After(p, steps);
            && Inv(q) && Tidy(q) && q.run && w0 in q.workers && !q.workers[w0].Ended?
            && |steps| + Bound(q) <= Bound(p)
    decreases |steps|
  {
    hide Bound, Tidy, Apply, Inv;
    if steps == [] {
    } else {
      var st := steps[0];
      assert st in steps;
      StepInv(p, st);
      PlainStep(p, st);
      PlainKeeps(p, st);
      WorkersAfter(p, st, w0);
      PlainRun(Apply(p, st), steps[1..], w0);
    }
  }

  /** A running pool with a worker, left to itself: every sequence of steps is at most this long, and
      when nothing more can be done, every mailbox is empty. */
  lemma DeliversAll<M(!new)>(p: Pool<M>, steps: seq<Step<M>>, w0: nat)
    requires Inv(p) && Runs(p, steps) && Tidy(p) && p.run && w0 in p.workers && !p.workers[w0].Ended?
    requires forall st | st in steps :: Plain(st)
    ensures |steps| <= Bound(p)
    ensures Quiescent(After(p, steps)) ==> forall s :: At(After(p, steps).boxes, s) == []
  {
    PlainRun(p, steps, w0);
    if Quiescent(After(p, steps)) {
      forall s
        ensures At(After(p, steps).boxes, s) == []
      {
        RestMeansDelivered(After(p, steps), w0, s);
      }
    }
  }

  /** And such a state is reached. */
  lemma {:induction false} ComesToRest<M(!new)>(p: Pool<M>) returns (steps: seq<Step<M>>)
    requires Tidy(p)
    ensures Runs(p, steps) && Quiescent(After(p, steps)) && forall st | st in steps :: Plain(st)
    decreases Bound(p)
  {
    hide Bound, Tidy, Apply;
    if Quiescent(p) {
      steps := [];
    } else {
      var st: Step<M> :| Enabled(p, st) && !st.PushMsg? && !st.Stop?;
      if st.Finish? { st := Finish(st.w, false); }
      PlainStep(p, st);
      var rest := ComesToRest(Apply(p, st));
      steps := [st] + rest;
      assert steps[1..] == rest;
    }
  }

  lemma Chain<M>(p: Pool<M>, st: Step<M>, steps: seq<Step<M>>)
    requires Enabled(p, st) && Runs(Apply(p, st), steps)
    ensures Runs(p, [st] + steps) && After(p, [st] + steps) == After(Apply(p, st), steps)
  {
    assert ([st] + steps)[1..] == steps;
  }

  lemma FindsNothing<M>(p: Pool<M>, w: nat, s: Service)
    requires IsIdle(p, w) && p.run && p.queue == [s] && s in p.exited && At(p.boxes, s) != []
    ensures Enabled(p, PopService(w))
    ensures var q := Apply(p, PopService(w));
            Enabled(q, PopMsg(w)) && Apply(q, PopMsg(w)) == p.(queue := [], workers := p.workers[w := Done(s)])
  {
    assert p.queue[1..] == [];
  }

  lemma GoesBack<M>(p: Pool<M>, w: nat, s: Service)
    requires IsIdle(p, w) && p.queue == [s] && s in p.flags && At(p.boxes, s) != []
    ensures var q := p.(queue := [], workers := p.workers[w := Done(s)]);
            && Enabled(q, ClearFlag(w))
            && var r := Apply(q, ClearFlag(w));
            && Enabled(r, Recheck(w)) && Enabled(Apply(r, Recheck(w)), PushAgain(w))
            && Apply(Apply(r, Recheck(w)), PushAgain(w)) == p
  {
    assert p.flags - {s} + {s} == p.flags && [] + [s] == p.queue;
    assert p.workers[w := Done(s)][w := Cleared(s)][w := Requeue(s)][w := Idle] == p.workers;
  }

  /** The condition on exited services is needed: one with mail goes round the queue for ever. */
  lemma ExitedSpins<M>(p: Pool<M>, w: nat, s: Service)
    requires IsIdle(p, w) && p.run && p.queue == [s] && s in p.flags && s in p.exited && At(p.boxes, s) != []
    ensures var round := [PopService(w)] + ([PopMsg(w)] + ([ClearFlag(w)] + ([Recheck(w)] + ([PushAgain(w)] + []))));
            Runs(p, round) && After(p, round) == p
  {
    hide Apply;
    FindsNothing(p, w, s);
    GoesBack(p, w, s);
    var q := Apply(p, PopService(w));
    var d := Apply(q, PopMsg(w));
    var r := Apply(d, ClearFlag(w));
    var u := Apply(r, Recheck(w));
    Chain(u, PushAgain(w), []);
    Chain(r, Recheck(w), [PushAgain(w)] + []);
    Chain(d, ClearFlag(w), [Recheck(w)] + ([PushAgain(w)] + []));
    Chain(q, PopMsg(w), [ClearFlag(w)] + ([Recheck(w)] + ([PushAgain(w)] + [])));
    Chain(p, PopService(w), [PopMsg(w)] + ([ClearFlag(w)] + ([Recheck(w)] + ([PushAgain(w)] + []))));
  }

  // ---- What is accepted, what is never taken, and how the workers end ----

  /** The messages accepted for a service in the course of a run. */
  function Pushed<M>(steps: seq<Step<M>>, s: Service): seq<M> {
    if steps == [] then []
    else (if steps[0].PushMsg? && steps[0].accept && steps[0].to == s then [steps[0].m] else []) + Pushed(steps[1..], s)
  }

  /** Every accepted message goes into its mailbox, behind those before it, and no other does. */
  lemma {:induction false} AcceptedArePushed<M>(p: Pool<M>, steps: seq<Step<M>>, s: Service)
    requires Runs(p, steps)
    ensures At(After(p, steps).accepted, s) == At(p.accepted, s) + Pushed(steps, s)
    decreases |steps|
  {
    hide Apply, Enabled, At;
    if steps == [] {
    } else {
      AcceptedNext(p, steps[0], s);
      AcceptedArePushed(Apply(p, steps[0]), steps[1..], s);
      assert Pushed(steps, s) == Pushed([steps[0]], s) + Pushed(steps[1..], s);
    }
  }

  lemma AcceptedNext<M>(p: Pool<M>, st: Step<M>, s: Service)
    requires Enabled(p, st)
    ensures At(Apply(p, st).accepted, s) ==
            At(p.accepted, s) + Pushed([st], s)
  {
  }

  /** A service that exits with its last message is never given another one. */
  lemma {:induction false} ExitTakesNoMore<M>(p: Pool<M>, steps: seq<Step<M>>, s: Service)
    requires Runs(p, steps)
    requires s in p.exited || (steps != [] && steps[0].Finish? && steps[0].exits && p.workers[steps[0].w].s == s)
    ensures At(After(p, steps).popped, s) == At(p.popped, s)
    decreases |steps|
  {
    if steps == [] {
    } else {
      ExitKeeps(p, steps[0], s);
      ExitTakesNoMore(Apply(p, steps[0]), steps[1..], s);
    }
  }

  lemma ExitKeeps<M>(p: Pool<M>, st: Step<M>, s: Service)
    requires Enabled(p, st) && (s in p.exited || (st.Finish? && st.exits && p.workers[st.w].s == s))
    ensures s in Apply(p, st).exited && At(Apply(p, st).popped, s) == At(p.popped, s)
  {
  }

  /** Once the pool is stopped no service is popped any more. */
  lemma {:induction false} StopPopsNoMore<M>(p: Pool<M>, steps: seq<Step<M>>)
    requires Runs(p, steps) && (!p.run || (steps != [] && steps[0].Stop?))
    ensures (forall st | st in steps :: !st.PopService?) && (steps != [] || !p.run ==> !After(p, steps).run)
    decreases |steps|
  {
    if steps == [] {
    } else {
      StopStays(p, steps[0]);
      StopPopsNoMore(Apply(p, steps[0]), steps[1..]);
    }
  }

  lemma StopStays<M>(p: Pool<M>, st: Step<M>)
    requires Enabled(p, st) && (!p.run || st.Stop?)
    ensures !Apply(p, st).run && !st.PopService?
  {
    hide At;
  }

  /** And when nothing more can be done every worker has ended. */
  lemma StoppedAtRest<M(!new)>(p: Pool<M>, w: nat)
    requires !p.run && Quiescent(p) && w in p.workers
    ensures p.workers[w].Ended?
  {
    assert !Enabled(p, PopMsg(w)) && !Enabled(p, Finish(w, false)) && !Enabled(p, ClearFlag(w));
    assert !Enabled(p, Recheck(w)) && !Enabled(p, PushAgain(w)) && !Enabled(p, Leave(w));
  }
}
