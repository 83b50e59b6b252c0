/** Whole runs of the wheel: any order of dispatches and iterations, from an empty wheel. */
module WheelRuns {
  import opened WheelMath
  import opened WheelModel
  import opened WheelQueues

  datatype Event<T> = Dispatch(tick: nat, data: T) | Step

  /** The wheel, the iterations done, and what each of them fired. */
  datatype Log<T> = Log(wheel: Wheel<T>, n: nat, fired: seq<seq<T>>)

  predicate Legal<T>(es: seq<Event<T>>) {
    forall i | 0 <= i < |es| :: es[i].Dispatch? ==> es[i].tick < CAPACITY
  }

  function Run<T>(es: seq<Event<T>>): (r: Log<T>)
    ensures InRange(r.wheel) && |r.fired| == r.n
  {
    if es == [] then Log(Empty(), 0, [])
    else
      var r := Run(es[..|es| - 1]);
      match es[|es| - 1]
      case Dispatch(t, d) => r.(wheel := Insert(r.wheel, DelayTask(t, d)))
      case Step => Log(Advance(r.wheel), r.n + 1, r.fired + [Front(r.wheel)])
  }

  /** Data dispatched with deadline f, in dispatch order. */
  function Scheduled<T>(es: seq<Event<T>>, f: nat): seq<T>
    requires Legal(es)
  {
    if es == [] then []
    else
      var before, e := es[..|es| - 1], es[|es| - 1];
      Scheduled(before, f)
      + if e.Dispatch? && Due(Run(before).n, e.tick) == f then [e.data] else []
  }

  lemma {:induction false} RunInv<T>(es: seq<Event<T>>)
    requires Legal(es)
    ensures Inv(Run(es).wheel, Clock(Run(es).n, 0))
  {
    if es == [] {
    } else {
      var before, e := es[..|es| - 1], es[|es| - 1];
      var r := Run(before);
      RunInv(before);
      match e
      case Dispatch(t, d) => InsertInv(r.wheel, Clock(r.n, 0), DelayTask(t, d));
      case Step => AdvanceStep(r.wheel, r.n, r.n + 1);
    }
  }

  /** The tasks due at f that have not fired, as the run's wheel holds them. */
  function Waiting<T>(es: seq<Event<T>>, f: nat): (qs: seq<seq<T>>)
    ensures |qs| == LAYERS
  {
    Queues(Run(es).wheel, Clock(Run(es).n, 0), f)
  }

  lemma WaitingDispatch<T>(before: seq<Event<T>>, t: nat, d: T, f: nat)
    requires Legal(before) && t < CAPACITY
    ensures var qs := Waiting(before, f);
            Waiting(before + [Dispatch(t, d)], f) ==
            if Due(Run(before).n, t) == f then qs[Layer(t) := qs[Layer(t)] + [d]] else qs
  {
    var es, r := before + [Dispatch(t, d)], Run(before);
    assert es[..|es| - 1] == before;
    RunInv(before);
    InsertQueues(r.wheel, r.n, t, d, f);
  }

  lemma InsertQueuesAt<T>(w: Wheel<T>, c: seq<nat>, task: DelayTask<T>, f: nat, l: nat, due: nat)
    requires Inv(w, c) && task.tick < CAPACITY && l == Layer(task.tick)
    requires due == c[l] * Span(l) + task.tick
    ensures var qs := Queues(w, c, f);
            Queues(Insert(w, task), c, f) == if due == f then qs[l := qs[l] + [task.data]] else qs
  {
    forall k | 0 <= k < LAYERS
      ensures Queues(Insert(w, task), c, f)[k] ==
        Queues(w, c, f)[k] + if k == l && due == f then [task.data] else []
    {
      InsertPend(w, c, task, f, k);
    }
    AppendAt(Queues(w, c, f), Queues(Insert(w, task), c, f), l, if due == f then [task.data] else []);
  }

  lemma AppendAt<T>(qs: seq<seq<T>>, qs': seq<seq<T>>, l: nat, more: seq<T>)
    requires |qs| == |qs'| && l < |qs|
    requires forall k | 0 <= k < |qs| :: qs'[k] == qs[k] + if k == l then more else []
    ensures qs' == qs[l := qs[l] + more]
    ensures more == [] ==> qs' == qs
  {
    assert forall k | 0 <= k < |qs| :: qs[k] + [] == qs[k];
    assert forall k | 0 <= k < |qs| :: qs'[k] == qs[l := qs[l] + more][k];
  }

  lemma InsertQueues<T>(w: Wheel<T>, n: nat, t: nat, d: T, f: nat)
    requires Inv(w, Clock(n, 0)) && t < CAPACITY
    ensures var qs := Queues(w, Clock(n, 0), f);
            Queues(Insert(w, DelayTask(t, d)), Clock(n, 0), f) ==
            if Due(n, t) == f then qs[Layer(t) := qs[Layer(t)] + [d]] else qs
  {
    assert Clock(n, 0)[Layer(t)] == n / Span(Layer(t));
    InsertQueuesAt(w, Clock(n, 0), DelayTask(t, d), f, Layer(t), Due(n, t));
  }

  lemma WaitingStep<T>(before: seq<Event<T>>, f: nat)
    requires Legal(before) && f > Run(before).n
    ensures Waiting(before + [Step], f) == CarryQueues(Waiting(before, f), Run(before).n, f, 0)
  {
    var es, r := before + [Step], Run(before);
    assert es[..|es| - 1] == before;
    RunInv(before);
    AdvanceStep(r.wheel, r.n, f);
  }

  lemma FiredStep<T>(before: seq<Event<T>>)
    requires Legal(before)
    ensures Run(before + [Step]).fired == Run(before).fired + [Waiting(before, Run(before).n)[0]]
    ensures forall k | 0 < k < LAYERS :: Waiting(before, Run(before).n)[k] == []
  {
    var es, r := before + [Step], Run(before);
    assert es[..|es| - 1] == before;
    RunInv(before);
    AdvanceStep(r.wheel, r.n, r.n + 1);
  }

  function All<T>(qs: seq<seq<T>>): multiset<T>
    requires |qs| == LAYERS
  {
    multiset(qs[0]) + multiset(qs[1]) + multiset(qs[2]) + multiset(qs[3]) + multiset(qs[4])
  }

  lemma RollKeeps<T>(qs: seq<seq<T>>, n: nat, f: nat, j: nat)
    requires |qs| == LAYERS && j < LAYERS
    ensures All(RollQueues(qs, n, f, j)) == All(qs)
  {
    if j > 0 && f / Span(j) == (n + 1) / Span(j) {
      var k := Layer(f % Span(j));
      assert k < j;
      assert RollQueues(qs, n, f, j)[k] == qs[k] + qs[j];
    }
  }

  lemma {:induction false} CarryKeeps<T>(qs: seq<seq<T>>, n: nat, f: nat, j: nat)
    requires |qs| == LAYERS && j < LAYERS
    ensures All(CarryQueues(qs, n, f, j)) == All(qs)
    decreases LAYERS - j
  {
    RollKeeps(qs, n, f, j);
    if j + 1 == LAYERS || (n + 1) % Span(j + 1) != 0 {
    } else {
      CarryKeeps(RollQueues(qs, n, f, j), n, f, j + 1);
    }
  }

  ghost predicate Exact<T>(es: seq<Event<T>>, f: nat)
    requires Legal(es)
  {
    if f < Run(es).n then multiset(Run(es).fired[f]) == multiset(Scheduled(es, f))
    else All(Waiting(es, f)) == multiset(Scheduled(es, f))
  }

  lemma RunSnoc<T>(before: seq<Event<T>>, e: Event<T>)
    ensures (before + [e])[..|before|] == before
    ensures Run(before + [e]).n == Run(before).n + if e.Step? then 1 else 0
    ensures e.Dispatch? ==> Run(before + [e]).fired == Run(before).fired
  {
  }

  lemma ScheduledSnoc<T>(before: seq<Event<T>>, e: Event<T>, f: nat)
    requires Legal(before) && (e.Dispatch? ==> e.tick < CAPACITY)
    ensures Legal(before + [e])
    ensures Scheduled(before + [e], f) ==
            Scheduled(before, f)
            + if e.Dispatch? && Due(Run(before).n, e.tick) == f then [e.data] else []
  {
    RunSnoc(before, e);
  }

  lemma AllAppend<T>(qs: seq<seq<T>>, l: nat, d: T)
    requires |qs| == LAYERS && l < LAYERS
    ensures All(qs[l := qs[l] + [d]]) == All(qs) + multiset{d}
  {
    assert multiset(qs[l] + [d]) == multiset(qs[l]) + multiset{d};
  }

  lemma ExactDispatch<T>(before: seq<Event<T>>, t: nat, d: T, f: nat)
    requires Legal(before) && t < CAPACITY && Exact(before, f)
    ensures Legal(before + [Dispatch(t, d)]) && Exact(before + [Dispatch(t, d)], f)
  {
    var n := Run(before).n;
    RunSnoc(before, Dispatch(t, d));
    ScheduledSnoc(before, Dispatch(t, d), f);
    if f >= n {
      WaitingDispatch(before, t, d, f);
      AllAppend(Waiting(before, f), Layer(t), d);
    } else {
      DueBounds(n, t);
    }
  }

  lemma WaitsOn<T>(before: seq<Event<T>>, f: nat)
    requires Legal(before) && f > Run(before).n
    ensures All(Waiting(before + [Step], f)) == All(Waiting(before, f))
  {
    WaitingStep(before, f);
    CarryKeeps(Waiting(before, f), Run(before).n, f, 0);
  }

  lemma ExactStep<T>(before: seq<Event<T>>, f: nat)
    requires Legal(before) && Exact(before, f)
    ensures Legal(before + [Step]) && Exact(before + [Step], f)
  {
    hide Waiting, Scheduled, Legal;
    var n := Run(before).n;
    RunSnoc(before, Step);
    ScheduledSnoc(before, Step, f);
    if f > n { WaitsOn(before, f); } else { FiredStep(before); }
  }

  /** Exact deadline and conservation, for every run: once iteration f is over it fired
      exactly the tasks dispatched with deadline f, each once; until then all of them wait. */
  lemma {:induction false} ExactDeadline<T>(es: seq<Event<T>>, f: nat)
    requires Legal(es)
    ensures f < Run(es).n ==> multiset(Run(es).fired[f]) == multiset(Scheduled(es, f))
    ensures f >= Run(es).n ==> All(Waiting(es, f)) == multiset(Scheduled(es, f))
  {
    if es == [] {
      EmptyWaiting<T>(f);
    } else {
      var before, e := es[..|es| - 1], es[|es| - 1];
      assert es == before + [e];
      ExactDeadline(before, f);
      if e.Step? { ExactStep(before, f); } else { ExactDispatch(before, e.tick, e.data, f); }
    }
  }

  lemma EmptyWaiting<T>(f: nat)
    ensures Waiting<T>([], f) == [[], [], [], [], []]
  {
    forall k | 0 <= k < LAYERS
      ensures Waiting<T>([], f)[k] == []
    {
      assert Slot(Empty<T>(), k, f / Span(k) % SLOTS) == [];
    }
  }

  // ---- Order ----

  function Select<T>(p: T -> bool, q: seq<T>): seq<T> {
    if q == [] then []
    else Select(p, q[..|q| - 1]) + if p(q[|q| - 1]) then [q[|q| - 1]] else []
  }

  lemma {:induction false} SelectConcat<T>(p: T -> bool, a: seq<T>, b: seq<T>)
    ensures Select(p, a + b) == Select(p, a) + Select(p, b)
  {
    if b == [] {
      assert a + b == a;
    } else {
      SelectConcat(p, a, b[..|b| - 1]);
      assert (a + b)[..|a + b| - 1] == a + b[..|b| - 1];
    }
  }

  /** The layer that holds a task due at f and dispatched into layer l. */
  function Home(c: seq<nat>, f: nat, l: nat): (h: nat)
    requires |c| == LAYERS && l < LAYERS
    ensures h <= l
  {
    if l == 0 || c[l] < f / Span(l) then l else Home(c, f, Layer(f % Span(l)))
  }

  /** A class of tasks is, as a whole and in order, in queue h. */
  ghost predicate Gathered<T>(qs: seq<seq<T>>, h: nat, p: T -> bool, all: seq<T>) {
    forall k | 0 <= k < |qs| :: Select(p, qs[k]) == if k == h then all else []
  }

  ghost predicate Homed<T>(qs: seq<seq<T>>, c: seq<nat>, f: nat, l: nat, p: T -> bool, all: seq<T>)
    requires |qs| == LAYERS && |c| == LAYERS && l < LAYERS
  {
    Gathered(qs, Home(c, f, l), p, all)
  }

  /** Where tasks of queue h with deadline f are after layer j has rolled, and after a carry. */
  function RollHome(h: nat, n: nat, f: nat, j: nat): nat
    requires j < LAYERS
  {
    if j > 0 && h == j && f / Span(j) == (n + 1) / Span(j) then Layer(f % Span(j)) else h
  }

  function CarryHome(h: nat, n: nat, f: nat, j: nat): nat
    requires j < LAYERS
    decreases LAYERS - j
  {
    var h' := RollHome(h, n, f, j);
    if j + 1 == LAYERS || (n + 1) % Span(j + 1) != 0 then h' else CarryHome(h', n, f, j + 1)
  }

  lemma {:induction false} HomeRoll(n: nat, j: nat, f: nat, l: nat)
    requires j < LAYERS && l < LAYERS && (n + 1) % Span(j) == 0 && f > n
    ensures Home(Clock(n, j + 1), f, l) == RollHome(Home(Clock(n, j), f, l), n, f, j)
  {
    var c, c', x := Clock(n, j), Clock(n, j + 1), f / Span(j);
    ClockStep(n, j);
    DivMono(n + 1, f, Span(j));
    if l == 0 || c[l] < f / Span(l) {
      if l == j && j > 0 && x == c'[j] {
        LandsAbove(n + 1, f, j);
      }
    } else {
      assert l != j;
      HomeRoll(n, j, f, Layer(f % Span(l)));
    }
  }

  lemma {:induction false} HomeCarry(n: nat, j: nat, f: nat, l: nat)
    requires j < LAYERS && l < LAYERS && (n + 1) % Span(j) == 0 && f > n
    ensures Home(Clock(n + 1, 0), f, l) == CarryHome(Home(Clock(n, j), f, l), n, f, j)
    decreases LAYERS - j
  {
    HomeRoll(n, j, f, l);
    if j + 1 == LAYERS || (n + 1) % Span(j + 1) != 0 {
      ClockStops(n, j + 1);
    } else {
      HomeCarry(n, j + 1, f, l);
    }
  }

  /** A task that leaves layer j lands where it still has to wait (or in layer 0). */
  lemma LandsAbove(m: nat, f: nat, j: nat)
    requires 0 < j < LAYERS && m % Span(j) == 0 && f / Span(j) == m / Span(j)
    ensures var k := Layer(f % Span(j)); k < j && (k > 0 ==> m / Span(k) < f / Span(k))
  {
    var r := f % Span(j);
    var k := Layer(r);
    LowerMultiple(m, j, k);
    DivMod(m, Span(j));
    DivMod(f, Span(j));
    assert f == m / Span(k) * Span(k) + r;
    DueSplit(Span(k), m / Span(k), r, f);
    LayerIndex(r);
  }

  /** Moving queue j behind queue k keeps a class of tasks together. */
  lemma MoveTogether<T>(qs: seq<seq<T>>, j: nat, k: nat, h: nat, p: T -> bool, all: seq<T>)
    requires k < j < |qs| && Gathered(qs, h, p, all)
    ensures Gathered(qs[k := qs[k] + qs[j]][j := []], if h == j then k else h, p, all)
  {
    SelectConcat(p, qs[k], qs[j]);
  }

  lemma GatheredRoll<T>(qs: seq<seq<T>>, n: nat, j: nat, f: nat, h: nat, p: T -> bool, all: seq<T>)
    requires |qs| == LAYERS && j < LAYERS && Gathered(qs, h, p, all)
    ensures Gathered(RollQueues(qs, n, f, j), RollHome(h, n, f, j), p, all)
  {
    if j > 0 && f / Span(j) == (n + 1) / Span(j) {
      MoveTogether(qs, j, Layer(f % Span(j)), h, p, all);
    }
  }

  lemma {:induction false} GatheredCarry<T>(qs: seq<seq<T>>, n: nat, j: nat, f: nat, h: nat, p: T -> bool, all: seq<T>)
    requires |qs| == LAYERS && j < LAYERS && Gathered(qs, h, p, all)
    ensures Gathered(CarryQueues(qs, n, f, j), CarryHome(h, n, f, j), p, all)
    decreases LAYERS - j
  {
    GatheredRoll(qs, n, j, f, h, p, all);
    if j + 1 == LAYERS || (n + 1) % Span(j + 1) != 0 {
    } else {
      GatheredCarry(RollQueues(qs, n, f, j), n, j + 1, f, RollHome(h, n, f, j), p, all);
    }
  }

  /** Every task of class p with deadline f entered the wheel at layer l. */
  ghost predicate SameLayer<T>(es: seq<Event<T>>, f: nat, l: nat, p: T -> bool)
    requires Legal(es)
  {
    forall i | 0 <= i < |es| && es[i].Dispatch? && p(es[i].data) ::
      Due(Run(es[..i]).n, es[i].tick) == f ==> Layer(es[i].tick) == l
  }

  ghost predicate Ordered<T>(es: seq<Event<T>>, f: nat, l: nat, p: T -> bool)
    requires Legal(es) && l < LAYERS
  {
    var all := Select(p, Scheduled(es, f));
    if f < Run(es).n then Select(p, Run(es).fired[f]) == all
    else Homed(Waiting(es, f), Clock(Run(es).n, 0), f, l, p, all)
  }

  lemma GatheredAppend<T>(qs: seq<seq<T>>, h: nat, k: nat, d: T, p: T -> bool, all: seq<T>)
    requires |qs| == LAYERS && k < LAYERS && Gathered(qs, h, p, all) && (p(d) ==> k == h)
    ensures Gathered(qs[k := qs[k] + [d]], h, p, all + if p(d) then [d] else [])
  {
    var qs', more := qs[k := qs[k] + [d]], if p(d) then [d] else [];
    forall m | 0 <= m < |qs'|
      ensures Select(p, qs'[m]) == if m == h then all + more else []
    {
      if m == k { SelectSnoc(p, qs[k], d); }
    }
  }

  lemma SelectSnoc<T>(p: T -> bool, q: seq<T>, d: T)
    ensures Select(p, q + [d]) == Select(p, q) + if p(d) then [d] else []
  {
    assert (q + [d])[..|q|] == q;
  }

  lemma HomeAtEntry(n: nat, t: nat)
    requires t < CAPACITY
    ensures Home(Clock(n, 0), Due(n, t), Layer(t)) == Layer(t)
  {
    DueSplit(Span(Layer(t)), n / Span(Layer(t)), t, Due(n, t));
    LayerIndex(t);
  }

  lemma ScheduledLate<T>(before: seq<Event<T>>, t: nat, d: T, f: nat)
    requires Legal(before) && t < CAPACITY && f < Run(before).n
    ensures Legal(before + [Dispatch(t, d)])
    ensures Scheduled(before + [Dispatch(t, d)], f) == Scheduled(before, f)
  {
    ScheduledSnoc(before, Dispatch(t, d), f);
    DueBounds(Run(before).n, t);
  }

  lemma OrderedDispatch<T>(before: seq<Event<T>>, t: nat, d: T, f: nat, l: nat, p: T -> bool)
    requires Legal(before) && t < CAPACITY && l < LAYERS && Ordered(before, f, l, p)
    requires p(d) && Due(Run(before).n, t) == f ==> Layer(t) == l
    ensures Legal(before + [Dispatch(t, d)]) && Ordered(before + [Dispatch(t, d)], f, l, p)
  {
    RunSnoc(before, Dispatch(t, d));
    if f < Run(before).n {
      ScheduledLate(before, t, d, f);
    } else {
      OrderedEarly(before, t, d, f, l, p);
    }
  }

  lemma OrderedEarly<T>(before: seq<Event<T>>, t: nat, d: T, f: nat, l: nat, p: T -> bool)
    requires Legal(before) && t < CAPACITY && l < LAYERS
    requires Homed(Waiting(before, f), Clock(Run(before).n, 0), f, l, p, Select(p, Scheduled(before, f)))
    requires p(d) && Due(Run(before).n, t) == f ==> Layer(t) == l
    ensures var es := before + [Dispatch(t, d)];
            && Legal(es)
            && Homed(Waiting(es, f), Clock(Run(before).n, 0), f, l, p, Select(p, Scheduled(es, f)))
  {
    var n, k := Run(before).n, Layer(t);
    var es, qs, all := before + [Dispatch(t, d)], Waiting(before, f), Scheduled(before, f);
    var due := Due(n, t) == f;
    assert Legal(es) && Scheduled(es, f) == all + (if due then [d] else []) by {
      ScheduledSnoc(before, Dispatch(t, d), f);
    }
    assert Waiting(es, f) == if due then qs[k := qs[k] + [d]] else qs by {
      WaitingDispatch(before, t, d, f);
    }
    if due {
      assert p(d) ==> k == Home(Clock(n, 0), f, l) by { HomeAtEntry(n, t); }
      SelectSnoc(p, all, d);
      GatheredAppend(qs, Home(Clock(n, 0), f, l), k, d, p, Select(p, all));
    } else {
      assert all + [] == all;
    }
  }

  lemma OrderedStep<T>(before: seq<Event<T>>, f: nat, l: nat, p: T -> bool)
    requires Legal(before) && l < LAYERS && Ordered(before, f, l, p)
    ensures Legal(before + [Step]) && Ordered(before + [Step], f, l, p)
  {
    var n := Run(before).n;
    RunSnoc(before, Step);
    ScheduledSnoc(before, Step, f);
    FiredStep(before);
    var all := Select(p, Scheduled(before, f));
    assert Scheduled(before + [Step], f) == Scheduled(before, f);
    if f > n {
      OrderedLater(before, f, l, p, all);
    } else if f == n {
      HomeNow(n, l);
      assert Select(p, Waiting(before, f)[0]) == all;
    }
  }

  lemma OrderedLater<T>(before: seq<Event<T>>, f: nat, l: nat, p: T -> bool, all: seq<T>)
    requires Legal(before) && l < LAYERS && f > Run(before).n
    requires Homed(Waiting(before, f), Clock(Run(before).n, 0), f, l, p, all)
    ensures Homed(Waiting(before + [Step], f), Clock(Run(before).n + 1, 0), f, l, p, all)
  {
    var n := Run(before).n;
    WaitingStep(before, f);
    HomeCarry(n, 0, f, l);
    GatheredCarry(Waiting(before, f), n, 0, f, Home(Clock(n, 0), f, l), p, all);
  }

  /** In its own iteration a deadline has reached layer 0. */
  lemma {:induction false} HomeNow(n: nat, l: nat)
    requires l < LAYERS
    ensures Home(Clock(n, 0), n, l) == 0
  {
    if l == 0 {
    } else {
      HomeNow(n, Layer(n % Span(l)));
    }
  }

  lemma {:induction false} OrderInvariant<T>(es: seq<Event<T>>, f: nat, l: nat, p: T -> bool)
    requires Legal(es) && l < LAYERS && SameLayer(es, f, l, p)
    ensures Ordered(es, f, l, p)
  {
    if es == [] {
      EmptyWaiting<T>(f);
    } else {
      var before, e := es[..|es| - 1], es[|es| - 1];
      assert es == before + [e];
      assert forall i | 0 <= i < |before| :: es[..i] == before[..i];
      OrderInvariant(before, f, l, p);
      if e.Step? { OrderedStep(before, f, l, p); } else {
        OrderedDispatch(before, e.tick, e.data, f, l, p);
      }
    }
  }

  /** Stable order, for every run: tasks that entered the same layer with the same deadline
      fire in the order they were dispatched, whatever was dispatched between them and however
      many cascades they went through. */
  lemma StableOrder<T>(es: seq<Event<T>>, f: nat, l: nat, p: T -> bool)
    requires Legal(es) && l < LAYERS && SameLayer(es, f, l, p) && f < Run(es).n
    ensures Select(p, Run(es).fired[f]) == Select(p, Scheduled(es, f))
  {
    OrderInvariant(es, f, l, p);
  }

  // ---- Conservation ----

  function Flat<T>(fired: seq<seq<T>>): seq<T> {
    if fired == [] then [] else Flat(fired[..|fired| - 1]) + fired[|fired| - 1]
  }

  lemma {:induction false} FlatConcat<T>(a: seq<seq<T>>, b: seq<seq<T>>)
    ensures Flat(a + b) == Flat(a) + Flat(b)
  {
    if b == [] {
      assert a + b == a;
    } else {
      FlatConcat(a, b[..|b| - 1]);
      assert (a + b)[..|a + b| - 1] == a + b[..|b| - 1];
    }
  }

  /** How often x is in a queue, and in all queues together. */
  ghost function Copies<T>(q: seq<DelayTask<T>>, x: T): nat {
    if q == [] then 0 else Copies(q[..|q| - 1], x) + if q[|q| - 1].data == x then 1 else 0
  }

  ghost function Stored<T>(slots: seq<seq<DelayTask<T>>>, x: T): nat {
    if slots == [] then 0 else Stored(slots[..|slots| - 1], x) + Copies(slots[|slots| - 1], x)
  }

  lemma {:induction false} CopiesData<T>(q: seq<DelayTask<T>>, x: T)
    ensures Copies(q, x) == multiset(DataOf(q))[x]
  {
    if q == [] {
    } else {
      CopiesData(q[..|q| - 1], x);
      assert DataOf(q) == DataOf(q[..|q| - 1]) + [q[|q| - 1].data];
    }
  }

  lemma {:induction false} StoredUpdate<T>(slots: seq<seq<DelayTask<T>>>, i: nat, q: seq<DelayTask<T>>, x: T)
    requires i < |slots|
    ensures Stored(slots[i := q], x) + Copies(slots[i], x) == Stored(slots, x) + Copies(q, x)
  {
    var last := |slots| - 1;
    if i == last {
      assert slots[i := q][..last] == slots[..last];
    } else {
      StoredUpdate(slots[..last], i, q, x);
      assert slots[i := q][..last] == slots[..last][i := q];
    }
  }

  lemma InsertStored<T>(w: Wheel<T>, task: DelayTask<T>, x: T)
    requires w.Shape() && task.tick < CAPACITY
    ensures Stored(Insert(w, task).slots, x) == Stored(w.slots, x) + if task.data == x then 1 else 0
  {
    var i := Target(w, task.tick);
    var q, t := w.slots[i], DelayTask(task.tick % Span(Layer(task.tick)), task.data);
    StoredUpdate(w.slots, i, q + [t], x);
    assert (q + [t])[..|q|] == q;
  }

  lemma {:induction false} InsertAllStored<T>(w: Wheel<T>, tasks: seq<DelayTask<T>>, x: T)
    requires w.Shape() && Accepted(tasks)
    ensures Stored(InsertAll(w, tasks).slots, x) == Stored(w.slots, x) + Copies(tasks, x)
  {
    if tasks == [] {
    } else {
      var init, last := tasks[..|tasks| - 1], tasks[|tasks| - 1];
      InsertAllStored(w, init, x);
      InsertStored(InsertAll(w, init), last, x);
    }
  }

  lemma SlotAccepted<T>(w: Wheel<T>, j: nat, v: nat)
    requires InRange(w) && Small(w) && 0 < j < LAYERS && v < SLOTS
    ensures Accepted(Slot(w, j, v))
  {
    assert SlotOk(Slot(w, j, v), j);
    SpanBelow(j);
  }

  lemma CascadeStored<T>(w: Wheel<T>, j: nat, x: T)
    requires InRange(w) && Small(w) && 0 < j < LAYERS
    ensures Stored(Cascade(w, j).slots, x) == Stored(w.slots, x)
  {
    var i := j * SLOTS + w.indexs[j];
    SlotAccepted(w, j, w.indexs[j]);
    assert w.slots[i] == Slot(w, j, w.indexs[j]);
    StoredUpdate(w.slots, i, [], x);
    InsertAllStored(ClearSlot(w, i), w.slots[i], x);
  }

  lemma RollStored<T>(w: Wheel<T>, j: nat, x: T)
    requires InRange(w) && Small(w) && j < LAYERS
    ensures Stored(Roll(w, j).slots, x) == Stored(w.slots, x)
  {
    var w' := SetIndex(w, j, (w.indexs[j] + 1) % SLOTS);
    if j > 0 {
      assert forall k, s | 0 <= k < LAYERS && 0 <= s < SLOTS :: Slot(w', k, s) == Slot(w, k, s);
      CascadeStored(w', j, x);
    }
  }

  lemma {:induction false} CarryStored<T>(w: Wheel<T>, j: nat, x: T)
    requires InRange(w) && Small(w) && j < LAYERS
    ensures Stored(Carry(w, j).slots, x) == Stored(w.slots, x)
    decreases LAYERS - j
  {
    RollStored(w, j, x);
    RollSmall(w, j);
    var r := Roll(w, j);
    if r.indexs[j] != 0 || j + 1 == LAYERS {
    } else {
      CarryStored(r, j + 1, x);
    }
  }

  lemma AdvanceStored<T>(w: Wheel<T>, x: T)
    requires InRange(w) && Small(w)
    ensures Stored(Advance(w).slots, x) + multiset(Front(w))[x] == Stored(w.slots, x)
  {
    var i := w.indexs[0];
    var c := ClearSlot(w, i);
    StoredUpdate(w.slots, i, [], x);
    CopiesData(w.slots[i], x);
    assert forall k, s | 0 <= k < LAYERS && 0 <= s < SLOTS ::
        Slot(c, k, s) == (if k == 0 && s == i then [] else Slot(w, k, s));
    CarryStored(c, 0, x);
  }

  /** Data of every dispatch so far, in order. */
  function Dispatched<T>(es: seq<Event<T>>): seq<T> {
    if es == [] then []
    else Dispatched(es[..|es| - 1]) + match es[|es| - 1] case Dispatch(_, d) => [d] case Step => []
  }

  /** Exactly once: what has fired and what the slots hold is what was dispatched. */
  lemma {:induction false} Conservation<T>(es: seq<Event<T>>, x: T)
    requires Legal(es)
    ensures multiset(Dispatched(es))[x] ==
            multiset(Flat(Run(es).fired))[x] + Stored(Run(es).wheel.slots, x)
  {
    if es == [] {
      EmptyStored(COUNT, x);
    } else {
      var before, e := es[..|es| - 1], es[|es| - 1];
      var r := Run(before);
      Conservation(before, x);
      RunInv(before);
      if e.Step? {
        AdvanceStored(r.wheel, x);
        assert Run(es).fired[..r.n] == r.fired;
      } else {
        InsertStored(r.wheel, DelayTask(e.tick, e.data), x);
      }
    }
  }

  lemma {:induction false} EmptyStored<T>(n: nat, x: T)
    ensures Stored<T>(seq(n, _ => []), x) == 0
  {
    if n == 0 {
    } else {
      EmptyStored(n - 1, x);
      assert seq<seq<DelayTask<T>>>(n, _ => [])[..n - 1] == seq(n - 1, _ => []);
    }
  }
}
