/** The worker pool: a run queue of services, a mailbox per service, and the flag that keeps a
    service with one worker. Every lock section and every access to the flag is one step, and
    any number of workers and senders interleave. */
module Scheduler {

  type Service = nat

  /** Where a pool worker stands in its loop. */
  datatype Phase<M> =
    | Idle                   // about to pop a service
    | Held(s: Service)       // popped it, about to pop one message
    | Busy(s: Service, m: M) // processing that message
    | Done(s: Service)       // about to clear the flag
    | Cleared(s: Service)    // flag cleared, about to look at the mailbox again
    | Requeue(s: Service)    // found a message, about to push the service
    | Ended                  // the pool was stopped

  datatype Pool<M> = Pool(
    services: set<Service>,
    boxes: map<Service, seq<M>>,
    flags: set<Service>,             // services whose in_queue flag is set
    queue: seq<Service>,
    run: bool,
    workers: map<nat, Phase<M>>,
    senders: map<nat, Service>,      // senders that put a message there and are about to push the service
    exited: set<Service>,
    accepted: map<Service, seq<M>>,  // history: what PushMsg accepted,
    popped: map<Service, seq<M>>)    // and what PopMsg took

  datatype Step<M> =
    | PushMsg(t: nat, to: Service, m: M, accept: bool)
    | PushService(t: nat)
    | PopService(w: nat)
    | PopMsg(w: nat)
    | Finish(w: nat, exits: bool)
    | ClearFlag(w: nat)
    | Recheck(w: nat)
    | PushAgain(w: nat)
    | Leave(w: nat)
    | Stop

  function At<M>(boxes: map<Service, seq<M>>, s: Service): seq<M> {
    if s in boxes then boxes[s] else []
  }

  predicate IsIdle<M>(p: Pool<M>, w: nat) {
    w in p.workers && p.workers[w].Idle?
  }

  /** The worker has the service between popping it and clearing its flag. */
  predicate Holds<M>(p: Pool<M>, w: nat, s: Service) {
    w in p.workers &&
    match p.workers[w]
    case Held(s') => s' == s
    case Busy(s', _) => s' == s
    case Done(s') => s' == s
    case _ => false
  }

  /** The worker has let go of the service but will still look at its mailbox or push it. */
  predicate Rechecks<M>(p: Pool<M>, w: nat, s: Service) {
    w in p.workers && (p.workers[w].Cleared? || p.workers[w].Requeue?) && p.workers[w].s == s
  }

  predicate Enabled<M>(p: Pool<M>, st: Step<M>) {
    match st
    case PushMsg(t, to, _, _) => t !in p.senders && to in p.services
    case PushService(t) => t in p.senders
    case PopService(w) => IsIdle(p, w) && p.run && p.queue != []
    case PopMsg(w) => w in p.workers && p.workers[w].Held?
    case Finish(w, _) => w in p.workers && p.workers[w].Busy?
    case ClearFlag(w) => w in p.workers && p.workers[w].Done?
    case Recheck(w) => w in p.workers && p.workers[w].Cleared?
    case PushAgain(w) => w in p.workers && p.workers[w].Requeue?
    case Leave(w) => IsIdle(p, w) && !p.run
    case Stop => true
  }

  function SetPhase<M>(p: Pool<M>, w: nat, ph: Phase<M>): Pool<M> {
    p.(workers := p.workers[w := ph])
  }

  /** Queues the service unless its flag says that it is queued or held. */
  function Enqueue<M>(p: Pool<M>, s: Service): Pool<M> {
    if s in p.flags then p else p.(queue := p.queue + [s], flags := p.flags + {s})
  }

  function Apply<M>(p: Pool<M>, st: Step<M>): Pool<M>
    requires Enabled(p, st)
  {
    match st
    case PushMsg(t, to, m, accept) =>
      if !accept then p
      else p.(boxes := p.boxes[to := At(p.boxes, to) + [m]],
              accepted := p.accepted[to := At(p.accepted, to) + [m]],
              senders := p.senders[t := to])
    case PushService(t) => Enqueue(p, p.senders[t]).(senders := p.senders - {t})
    case PopService(w) => SetPhase(p, w, Held(p.queue[0])).(queue := p.queue[1..])
    case PopMsg(w) =>
      var s := p.workers[w].s;
      var box := At(p.boxes, s);
      if s in p.exited || box == [] then SetPhase(p, w, Done(s))
      else SetPhase(p, w, Busy(s, box[0])).(
           boxes := p.boxes[s := box[1..]], popped := p.popped[s := At(p.popped, s) + [box[0]]])
    case Finish(w, exits) =>
      var s := p.workers[w].s;
      SetPhase(p, w, Done(s)).(exited := if exits then p.exited + {s} else p.exited)
    case ClearFlag(w) => SetPhase(p, w, Cleared(p.workers[w].s)).(flags := p.flags - {p.workers[w].s})
    case Recheck(w) =>
      var s := p.workers[w].s;
      SetPhase(p, w, if At(p.boxes, s) != [] then Requeue(s) else Idle)
    case PushAgain(w) => SetPhase(Enqueue(p, p.workers[w].s), w, Idle)
    case Leave(w) => SetPhase(p, w, Ended)
    case Stop => p.(run := false)
  }

  // ---- Invariant ----

  ghost predicate Held1<M>(p: Pool<M>, s: Service) {
    exists w :: Holds(p, w, s)
  }

  /** Someone is still going to notice the mailbox of s. */
  ghost predicate Watched<M>(p: Pool<M>, s: Service) {
    || s in p.flags
    || (exists w :: Rechecks(p, w, s))
    || (exists t :: t in p.senders && p.senders[t] == s)
  }

  /** In the run queue at most once, with at most one worker, never both; the flag tells. */
  ghost predicate Exclusive<M>(p: Pool<M>) {
    && (forall i, j | 0 <= i < j < |p.queue| :: p.queue[i] != p.queue[j])
    && (forall w, v, s :: Holds(p, w, s) && Holds(p, v, s) ==> w == v)
    && (forall w, s :: Holds(p, w, s) ==> s !in p.queue && s in p.flags)
    && (forall s :: s in p.queue ==> s in p.flags)
    && (forall s :: s in p.flags ==> s in p.queue || Held1(p, s))
  }

  ghost predicate NoLostWakeup<M>(p: Pool<M>) {
    forall s :: At(p.boxes, s) != [] ==> Watched(p, s)
  }

  ghost predicate InOrder<M>(p: Pool<M>) {
    forall s :: At(p.popped, s) + At(p.boxes, s) == At(p.accepted, s)
  }

  ghost predicate Known<M>(p: Pool<M>) {
    && (forall s :: s in p.queue ==> s in p.services)
    && (forall t :: t in p.senders ==> p.senders[t] in p.services)
    && (forall w, s :: Holds(p, w, s) || Rechecks(p, w, s) ==> s in p.services)
  }

  ghost predicate Inv<M>(p: Pool<M>) {
    Exclusive(p) && NoLostWakeup(p) && InOrder(p) && Known(p)
  }

  ghost predicate Initial<M>(p: Pool<M>) {
    && p.boxes == map[] && p.accepted == map[] && p.popped == map[] && p.senders == map[]
    && p.flags == {} && p.queue == [] && p.exited == {}
    && forall w :: w in p.workers ==> p.workers[w].Idle?
  }

  lemma InitialInv<M>(p: Pool<M>)
    requires Initial(p)
    ensures Inv(p)
  {
  }

  /** What a step makes of a worker's phase. */
  lemma WorkersAfter<M>(p: Pool<M>, st: Step<M>, w: nat)
    requires Enabled(p, st)
    ensures var q := Apply(p, st);
            if st.PushMsg? || st.PushService? || st.Stop? || st.w != w then
              (w in q.workers <==> w in p.workers) && (w in p.workers ==> q.workers[w] == p.workers[w])
            else
              w in q.workers &&
              match st
              case PopService(_) => q.workers[w] == Held(p.queue[0])
              case PopMsg(_) => (q.workers[w].Done? || q.workers[w].Busy?) && q.workers[w].s == p.workers[w].s
              case Finish(_, _) => q.workers[w] == Done(p.workers[w].s)
              case ClearFlag(_) => q.workers[w] == Cleared(p.workers[w].s)
              case Recheck(_) => q.workers[w] == Requeue(p.workers[w].s) || q.workers[w].Idle?
              case PushAgain(_) => q.workers[w].Idle?
              case Leave(_) => q.workers[w].Ended?
  {
    hide At;
  }

  lemma HoldsAfter<M>(p: Pool<M>, st: Step<M>, w: nat, s: Service)
    requires Enabled(p, st)
    ensures Holds(Apply(p, st), w, s) <==>
            || (st.PopService? && w == st.w && s == p.queue[0])
            || (Holds(p, w, s) && !(st.ClearFlag? && w == st.w))
  {
    hide Apply;
    WorkersAfter(p, st, w);
  }

  lemma RechecksAfter<M>(p: Pool<M>, st: Step<M>, w: nat, s: Service)
    requires Enabled(p, st) && Rechecks(Apply(p, st), w, s)
    ensures Rechecks(p, w, s) || (st.ClearFlag? && w == st.w && Holds(p, w, s))
  {
    hide Apply;
    WorkersAfter(p, st, w);
  }

  /** What a step does to the holders, as one fact to reason from. */
  ghost predicate HoldersMove<M>(p: Pool<M>, q: Pool<M>, pop: bool, clear: bool, v: nat, x: Service) {
    forall w, s :: Holds(q, w, s) <==>
      (pop && w == v && s == x) || (Holds(p, w, s) && !(clear && w == v))
  }

  lemma ExclusivePop<M>(p: Pool<M>, q: Pool<M>, v: nat)
    requires Exclusive(p) && p.queue != [] && HoldersMove(p, q, true, false, v, p.queue[0])
    requires q.queue == p.queue[1..] && q.flags == p.flags
    ensures Exclusive(q)
  {
    var x := p.queue[0];
    assert x in p.queue && x !in q.queue;
    assert Holds(q, v, x);
    forall s | s in q.flags
      ensures s in q.queue || Held1(q, s)
    {
      if s != x && s !in q.queue {
        var w :| Holds(p, w, s);
        assert Holds(q, w, s);
      }
    }
  }

  lemma ExclusiveClear<M>(p: Pool<M>, q: Pool<M>, v: nat, x: Service)
    requires Exclusive(p) && Holds(p, v, x) && HoldersMove(p, q, false, true, v, x)
    requires q.queue == p.queue && q.flags == p.flags - {x}
    ensures Exclusive(q)
  {
    forall s | s in q.flags
      ensures s in q.queue || Held1(q, s)
    {
      if s !in q.queue {
        var w :| Holds(p, w, s);
        assert Holds(q, w, s);
      }
    }
  }

  lemma HeldKept<M>(p: Pool<M>, q: Pool<M>, x: Service, s: Service)
    requires HoldersMove(p, q, false, false, 0, x) && Held1(p, s)
    ensures Held1(q, s)
  {
    var w :| Holds(p, w, s);
    assert Holds(q, w, s);
  }

  lemma ExclusiveSame<M>(p: Pool<M>, q: Pool<M>)
    requires Exclusive(p) && HoldersMove(p, q, false, false, 0, 0)
    requires q.queue == p.queue && q.flags == p.flags
    ensures Exclusive(q)
  {
    forall s | s in q.flags && s !in q.queue
      ensures Held1(q, s)
    {
      HeldKept(p, q, 0, s);
    }
  }

  lemma ExclusiveEnqueue<M>(p: Pool<M>, q: Pool<M>, x: Service)
    requires Exclusive(p) && HoldersMove(p, q, false, false, 0, 0)
    requires q.queue == Enqueue(p, x).queue && q.flags == Enqueue(p, x).flags
    ensures Exclusive(q)
  {
    if x in p.flags {
      ExclusiveSame(p, q);
    } else {
      assert forall s :: s in q.queue <==> s in p.queue || s == x;
      forall s | s in q.flags && s !in q.queue
        ensures Held1(q, s)
      {
        HeldKept(p, q, 0, s);
      }
    }
  }

  lemma StepExclusive<M>(p: Pool<M>, st: Step<M>)
    requires Inv(p) && Enabled(p, st)
    ensures Exclusive(Apply(p, st))
  {
    var q := Apply(p, st);
    forall w, s
      ensures Holds(q, w, s) <==>
        || (st.PopService? && w == st.w && s == p.queue[0])
        || (Holds(p, w, s) && !(st.ClearFlag? && w == st.w))
    {
      HoldsAfter(p, st, w, s);
    }
    match st
    case PopService(w) => ExclusivePop(p, q, w);
    case ClearFlag(w) => ExclusiveClear(p, q, w, p.workers[w].s);
    case PushService(t) => ExclusiveEnqueue(p, q, p.senders[t]);
    case PushAgain(w) => ExclusiveEnqueue(p, q, p.workers[w].s);
    case _ => ExclusiveSame(p, q);
  }

  lemma FlagsAfter<M>(p: Pool<M>, st: Step<M>, s: Service)
    requires Enabled(p, st) && s in p.flags
    ensures s in Apply(p, st).flags || (st.ClearFlag? && Rechecks(Apply(p, st), st.w, s))
  {
  }

  lemma RecheckFinds<M>(p: Pool<M>, st: Step<M>, s: Service)
    requires Enabled(p, st) && (st.Recheck? || st.PushAgain?) && Rechecks(p, st.w, s) && At(Apply(p, st).boxes, s) != []
    ensures s in Apply(p, st).flags || Rechecks(Apply(p, st), st.w, s)
  {
  }

  lemma RecheckKept<M>(p: Pool<M>, st: Step<M>, w: nat, s: Service)
    requires Enabled(p, st) && Rechecks(p, w, s) && At(Apply(p, st).boxes, s) != []
    ensures s in Apply(p, st).flags || Rechecks(Apply(p, st), w, s)
  {
    hide Apply;
    WorkersAfter(p, st, w);
    if (st.Recheck? || st.PushAgain?) && st.w == w {
      RecheckFinds(p, st, s);
    }
  }

  lemma SenderKept<M>(p: Pool<M>, st: Step<M>, t: nat)
    requires Enabled(p, st) && t in p.senders
    ensures p.senders[t] in Apply(p, st).flags
            || (t in Apply(p, st).senders && Apply(p, st).senders[t] == p.senders[t])
  {
  }

  lemma WatchedAfter<M>(p: Pool<M>, st: Step<M>, s: Service)
    requires Enabled(p, st) && Watched(p, s) && At(Apply(p, st).boxes, s) != []
    ensures Watched(Apply(p, st), s)
  {
    var q := Apply(p, st);
    if s in p.flags {
      FlagsAfter(p, st, s);
    } else if w :| Rechecks(p, w, s) {
      RecheckKept(p, st, w, s);
    } else {
      var t :| t in p.senders && p.senders[t] == s;
      SenderKept(p, st, t);
    }
  }

  lemma BoxFilled<M>(p: Pool<M>, st: Step<M>, s: Service)
    requires Enabled(p, st) && At(Apply(p, st).boxes, s) != []
    ensures || At(p.boxes, s) != []
            || (st.PushMsg? && st.t in Apply(p, st).senders && Apply(p, st).senders[st.t] == s)
  {
  }

  lemma StepWakeup<M>(p: Pool<M>, st: Step<M>)
    requires Inv(p) && Enabled(p, st)
    ensures NoLostWakeup(Apply(p, st))
  {
    var q := Apply(p, st);
    forall s | At(q.boxes, s) != []
      ensures Watched(q, s)
    {
      BoxFilled(p, st, s);
      if At(p.boxes, s) != [] { WatchedAfter(p, st, s); }
    }
  }

  lemma QueueKnown<M>(p: Pool<M>, st: Step<M>, s: Service)
    requires Known(p) && Enabled(p, st) && s in Apply(p, st).queue
    ensures s in p.services
  {
    if st.PushAgain? { assert Rechecks(p, st.w, p.workers[st.w].s); }
  }

  lemma ServicesAfter<M>(p: Pool<M>, st: Step<M>)
    requires Known(p) && Enabled(p, st)
    ensures Apply(p, st).services == p.services
    ensures forall t | t in Apply(p, st).senders :: Apply(p, st).senders[t] in p.services
  {
    hide At;
  }

  lemma StepKnown<M>(p: Pool<M>, st: Step<M>)
    requires Inv(p) && Enabled(p, st)
    ensures Known(Apply(p, st))
  {
    hide Apply, Exclusive, NoLostWakeup, InOrder;
    var q := Apply(p, st);
    ServicesAfter(p, st);
    forall w, s | Holds(q, w, s)
      ensures s in q.services
    {
      HoldsAfter(p, st, w, s);
    }
    forall w, s | Rechecks(q, w, s)
      ensures s in q.services
    {
      RechecksAfter(p, st, w, s);
    }
    forall s | s in q.queue
      ensures s in q.services
    {
      QueueKnown(p, st, s);
    }
  }

  lemma Rotate<M>(x: seq<M>, box: seq<M>)
    ensures box != [] ==> (x + [box[0]]) + box[1..] == x + box
  {
    if box != [] { assert [box[0]] + box[1..] == box; }
  }

  lemma Append<M>(x: seq<M>, box: seq<M>, m: M)
    ensures x + (box + [m]) == (x + box) + [m]
  {
  }

  lemma InOrderPush<M>(p: Pool<M>, st: Step<M>, s: Service)
    requires Enabled(p, st) && st.PushMsg? && At(p.popped, s) + At(p.boxes, s) == At(p.accepted, s)
    ensures var q := Apply(p, st); At(q.popped, s) + At(q.boxes, s) == At(q.accepted, s)
  {
    Append(At(p.popped, s), At(p.boxes, s), st.m);
  }

  lemma InOrderPop<M>(p: Pool<M>, st: Step<M>, s: Service)
    requires Enabled(p, st) && st.PopMsg? && At(p.popped, s) + At(p.boxes, s) == At(p.accepted, s)
    ensures var q := Apply(p, st); At(q.popped, s) + At(q.boxes, s) == At(q.accepted, s)
  {
    Rotate(At(p.popped, s), At(p.boxes, s));
  }

  lemma MailKept<M>(p: Pool<M>, st: Step<M>)
    requires Enabled(p, st) && !st.PushMsg? && !st.PopMsg?
    ensures var q := Apply(p, st);
            q.boxes == p.boxes && q.popped == p.popped && q.accepted == p.accepted
  {
    hide At;
  }

  lemma StepInOrder<M>(p: Pool<M>, st: Step<M>)
    requires Inv(p) && Enabled(p, st)
    ensures InOrder(Apply(p, st))
  {
    var q := Apply(p, st);
    forall s
      ensures At(q.popped, s) + At(q.boxes, s) == At(q.accepted, s)
    {
      assert At(p.popped, s) + At(p.boxes, s) == At(p.accepted, s);
      if st.PushMsg? {
        InOrderPush(p, st, s);
      } else if st.PopMsg? {
        InOrderPop(p, st, s);
      } else {
        MailKept(p, st);
      }
    }
  }

  lemma StepInv<M>(p: Pool<M>, st: Step<M>)
    requires Inv(p) && Enabled(p, st)
    ensures Inv(Apply(p, st))
  {
    StepExclusive(p, st);
    StepWakeup(p, st);
    StepKnown(p, st);
    StepInOrder(p, st);
  }

  // ---- Whole runs ----

  predicate Runs<M>(p: Pool<M>, steps: seq<Step<M>>)
    decreases |steps|
  {
    steps == [] || (Enabled(p, steps[0]) && Runs(Apply(p, steps[0]), steps[1..]))
  }

  function After<M>(p: Pool<M>, steps: seq<Step<M>>): Pool<M>
    requires Runs(p, steps)
    decreases |steps|
  {
    if steps == [] then p else After(Apply(p, steps[0]), steps[1..])
  }

  /** Single processing, no lost wakeup and mailbox order, in every interleaving. */
  lemma {:induction false} RunInv<M>(p: Pool<M>, steps: seq<Step<M>>)
    requires Inv(p) && Runs(p, steps)
    ensures Inv(After(p, steps))
    decreases |steps|
  {
    if steps == [] {
    } else {
      StepInv(p, steps[0]);
      RunInv(Apply(p, steps[0]), steps[1..]);
    }
  }

  lemma Interleavings<M>(p: Pool<M>, steps: seq<Step<M>>)
    requires Initial(p) && Runs(p, steps)
    ensures var q := After(p, steps);
            && (forall i, j | 0 <= i < j < |q.queue| :: q.queue[i] != q.queue[j])
            && (forall w, v, s | Holds(q, w, s) && Holds(q, v, s) :: w == v)
            && (forall w, s | Holds(q, w, s) :: s !in q.queue)
            && (forall s | At(q.boxes, s) != [] :: Watched(q, s))
            && (forall s :: At(q.popped, s) + At(q.boxes, s) == At(q.accepted, s))
  {
    InitialInv(p);
    RunInv(p, steps);
  }

  /** Nothing can happen but a new message or a stop. */
  ghost predicate Quiescent<M(!new)>(p: Pool<M>) {
    forall st: Step<M> | Enabled(p, st) :: st.PushMsg? || st.Stop?
  }

  /** A running pool with a worker that comes to rest has delivered everything: no message is
      left behind in a mailbox that nobody will look at. */
  lemma RestMeansDelivered<M(!new)>(p: Pool<M>, w0: nat, s: Service)
    requires Inv(p) && Quiescent(p) && p.run && w0 in p.workers && !p.workers[w0].Ended?
    ensures At(p.boxes, s) == []
  {
    forall w | w in p.workers
      ensures p.workers[w].Idle? || p.workers[w].Ended?
    {
      assert !Enabled(p, PopMsg(w)) && !Enabled(p, Finish(w, false)) && !Enabled(p, ClearFlag(w));
      assert !Enabled(p, Recheck(w)) && !Enabled(p, PushAgain(w));
    }
    assert !Enabled(p, PopService(w0));
    forall t
      ensures t !in p.senders
    {
      assert !Enabled(p, PushService(t));
    }
    assert s !in p.flags;
    assert At(p.boxes, s) != [] ==> Watched(p, s);
  }

  function Pops<M>(steps: seq<Step<M>>): nat {
    if steps == [] then 0 else (if steps[0].PopService? then 1 else 0) + Pops(steps[1..])
  }

  /** Services worker w pops, and messages it takes. */
  function PopsBy<M>(steps: seq<Step<M>>, w: nat): nat {
    if steps == [] then 0 else (if steps[0].PopService? && steps[0].w == w then 1 else 0) + PopsBy(steps[1..], w)
  }

  function TakesBy<M>(steps: seq<Step<M>>, w: nat): nat {
    if steps == [] then 0 else (if steps[0].PopMsg? && steps[0].w == w then 1 else 0) + TakesBy(steps[1..], w)
  }

  /** A worker looks for at most one message each time it has popped a service. */
  lemma {:induction false} OneMessagePerPop<M>(p: Pool<M>, steps: seq<Step<M>>, w: nat)
    requires Runs(p, steps)
    ensures TakesBy(steps, w) <= PopsBy(steps, w) + if w in p.workers && p.workers[w].Held? then 1 else 0
    decreases |steps|
  {
    if steps == [] {
    } else {
      HeldAfter(p, steps[0], w);
      OneMessagePerPop(Apply(p, steps[0]), steps[1..], w);
    }
  }

  lemma HeldAfter<M>(p: Pool<M>, st: Step<M>, w: nat)
    requires Enabled(p, st)
    ensures var q := Apply(p, st);
            && (st.PopMsg? && st.w == w ==> w in p.workers && p.workers[w].Held? && !q.workers[w].Held?)
            && (w in q.workers && q.workers[w].Held? ==>
                  (w in p.workers && p.workers[w].Held?) || (st.PopService? && st.w == w))
  {
  }

  lemma QueueShift<M>(p: Pool<M>, st: Step<M>, i: nat)
    requires Enabled(p, st) && i < |p.queue|
    ensures st.PopService? && i > 0 ==> i - 1 < |Apply(p, st).queue| && Apply(p, st).queue[i - 1] == p.queue[i]
    ensures !st.PopService? ==> i < |Apply(p, st).queue| && Apply(p, st).queue[i] == p.queue[i]
  {
  }

  /** The step of the run that takes s off the queue, if it is at position i now. */
  lemma {:induction false} PoppedInTurn<M>(p: Pool<M>, steps: seq<Step<M>>, i: nat) returns (k: nat)
    requires Runs(p, steps) && i < |p.queue| && Pops(steps) > i
    ensures k < |steps| && steps[k].PopService? && Pops(steps[..k]) == i
    ensures Runs(p, steps[..k]) && After(p, steps[..k]).queue != []
    ensures After(p, steps[..k]).queue[0] == p.queue[i]
    decreases |steps|
  {
    if i == 0 && steps[0].PopService? {
      k := 0;
    } else {
      var q := Apply(p, steps[0]);
      var j := if steps[0].PopService? then i - 1 else i;
      QueueShift(p, steps[0], i);
      k := PoppedInTurn(q, steps[1..], j);
      k := k + 1;
      assert steps[..k] == [steps[0]] + steps[1..][..k - 1];
      assert steps[..k][1..] == steps[1..][..k - 1];
    }
  }

  lemma {:induction false} DistinctLength(q: seq<Service>, all: set<Service>)
    requires forall i, j | 0 <= i < j < |q| :: q[i] != q[j]
    requires forall s | s in q :: s in all
    ensures |q| <= |all|
  {
    if q == [] {
    } else {
      DistinctLength(q[1..], all - {q[0]});
    }
  }

  /** Bounded waiting: a queued service is popped within as many pops as there are services. */
  lemma BoundedWaiting<M>(p: Pool<M>, steps: seq<Step<M>>, s: Service) returns (k: nat)
    requires Inv(p) && Runs(p, steps) && s in p.queue && Pops(steps) >= |p.services|
    ensures k < |steps| && steps[k].PopService? && Pops(steps[..k]) < |p.services|
    ensures Runs(p, steps[..k]) && After(p, steps[..k]).queue != []
    ensures After(p, steps[..k]).queue[0] == s
  {
    var i :| 0 <= i < |p.queue| && p.queue[i] == s;
    DistinctLength(p.queue, p.services);
    k := PoppedInTurn(p, steps, i);
  }

  // ---- The run queue as the code keeps it ----

  /** What came of looking for a service under the queue lock. */
  datatype Popped = Waits | Stopped | Took(s: Service)

  class ServiceMgr {
    var serviceQueue: seq<Service>
    var inQueue: set<Service>
    var run: bool

    ghost predicate Shows<M>(p: Pool<M>)
      reads this
    {
      serviceQueue == p.queue && inQueue == p.flags && run == p.run
    }

    constructor ()
      ensures serviceQueue == [] && inQueue == {} && run
    {
      serviceQueue, inQueue, run := [], {}, true;
    }

    /** A sender's push is the pool's step. */
    method PushService<M>(s: Service, ghost p: Pool<M>, ghost t: nat) returns (hasPush: bool)
      requires Shows(p) && t in p.senders && p.senders[t] == s
      modifies this
      ensures Shows(Apply(p, Step<M>.PushService(t)))
      ensures hasPush <==> s !in p.flags
    {
      hasPush := false;
      if s !in inQueue {
        serviceQueue := serviceQueue + [s];
        inQueue := inQueue + {s};
        hasPush := true;
      }
    }

    /** One look at the queue by an idle worker: it waits, leaves or pops, as the pool allows. */
    method PopService<M>(ghost p: Pool<M>, ghost w: nat) returns (r: Popped)
      requires Shows(p) && IsIdle(p, w)
      modifies this
      ensures r.Waits? <==> !Enabled(p, Step<M>.PopService(w)) && !Enabled(p, Leave(w))
      ensures r.Waits? ==> Shows(p)
      ensures r.Stopped? ==> Enabled(p, Leave(w)) && Shows(Apply(p, Leave(w)))
      ensures r.Took? ==> Enabled(p, Step<M>.PopService(w)) && Shows(Apply(p, Step<M>.PopService(w)))
                          && Apply(p, Step<M>.PopService(w)).workers[w] == Held(r.s)
    {
      if run && serviceQueue == [] { return Waits; }
      if !run { return Stopped; }
      r := Took(serviceQueue[0]);
      serviceQueue := serviceQueue[1..];
    }

    /** The worker lets go of a service after processing. */
    method ClearInQueue<M>(s: Service, ghost p: Pool<M>, ghost w: nat)
      requires Shows(p) && Enabled(p, ClearFlag(w)) && p.workers[w].s == s
      modifies this
      ensures Shows(Apply(p, ClearFlag(w)))
    {
      inQueue := inQueue - {s};
    }
  }
}
