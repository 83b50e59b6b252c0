/** The timer object: queues in an array, updated in place. */
module WheelTimer {
  import opened WheelMath
  import opened WheelModel
  import opened WheelQueues
  import opened WheelRuns

  /** A task queue that DispatchTasks can be pointed at. */
  datatype QueueRef = Backup | SlotAt(i: nat)

  function Nanos(ms: nat): nat {
    ms * 1000000
  }

  /** Whole intervals in an elapsed time, milliseconds truncated first. */
  function Intervals(elapsed: nat, msPerTick: nat): nat
    requires msPerTick > 0
  {
    elapsed / 1000000 / msPerTick
  }

  /** The clock time that k intervals stand for. */
  function Elapsed(k: nat, msPerTick: nat): nat {
    if k == 0 then 0 else Elapsed(k - 1, msPerTick) + Nanos(msPerTick)
  }

  lemma {:induction false} ElapsedSum(n: nat, k: nat, msPerTick: nat)
    ensures Elapsed(n + k, msPerTick) == Elapsed(n, msPerTick) + Elapsed(k, msPerTick)
  {
    if k == 0 {
    } else {
      ElapsedSum(n, k - 1, msPerTick);
    }
  }

  lemma OneMore(elapsed: nat, msPerTick: nat)
    requires msPerTick > 0
    ensures Intervals(elapsed + Nanos(msPerTick), msPerTick) == Intervals(elapsed, msPerTick) + 1
  {
    var ms := elapsed / 1000000;
    DivUnique(elapsed + Nanos(msPerTick), 1000000, ms + msPerTick, elapsed % 1000000);
    DivMod(ms, msPerTick);
    DivUnique(ms + msPerTick, msPerTick, ms / msPerTick + 1, ms % msPerTick);
  }

  /** Truncating at every Tick loses nothing: whole intervals already counted add up with the
      intervals since. */
  lemma {:induction false} IntervalsSum(n: nat, elapsed: nat, msPerTick: nat)
    requires msPerTick > 0
    ensures Intervals(Elapsed(n, msPerTick) + elapsed, msPerTick) == n + Intervals(elapsed, msPerTick)
  {
    if n == 0 {
    } else {
      IntervalsSum(n - 1, elapsed, msPerTick);
      OneMore(Elapsed(n - 1, msPerTick) + elapsed, msPerTick);
    }
  }

  lemma NoDrift(n: nat, start: int, last: int, now: int, msPerTick: nat)
    requires msPerTick > 0 && last == start + Elapsed(n, msPerTick) && last <= now
    ensures start <= now
    ensures Intervals(now - start, msPerTick) == n + Intervals(now - last, msPerTick)
  {
    IntervalsSum(n, now - last, msPerTick);
    assert now - start == Elapsed(n, msPerTick) + (now - last);
  }

  // ---- Events of one Tick ----

  function Dispatches<T>(tasks: seq<DelayTask<T>>): (es: seq<Event<T>>)
    ensures |es| == |tasks|
  {
    seq(|tasks|, i requires 0 <= i < |tasks| => Dispatch(tasks[i].tick, tasks[i].data))
  }

  function Steps<T>(k: nat): (es: seq<Event<T>>)
    ensures |es| == k
  {
    seq(k, _ => Step)
  }

  lemma DispatchesLast<T>(es: seq<Event<T>>, tasks: seq<DelayTask<T>>)
    requires tasks != []
    ensures var last := tasks[|tasks| - 1];
            es + Dispatches(tasks) == es + Dispatches(tasks[..|tasks| - 1]) + [Dispatch(last.tick, last.data)]
  {
  }

  lemma {:induction false} RunDispatches<T>(es: seq<Event<T>>, tasks: seq<DelayTask<T>>)
    requires Legal(es) && Accepted(tasks)
    ensures Legal(es + Dispatches(tasks))
    ensures Run(es + Dispatches(tasks)) == Run(es).(wheel := InsertAll(Run(es).wheel, tasks))
  {
    if tasks == [] {
      assert es + Dispatches(tasks) == es;
    } else {
      var init, last := tasks[..|tasks| - 1], tasks[|tasks| - 1];
      RunDispatches(es, init);
      DispatchesLast(es, tasks);
      RunSnoc(es + Dispatches(init), Dispatch(last.tick, last.data));
    }
  }

  lemma StepsNext<T>(es: seq<Event<T>>, k: nat)
    ensures es + Steps(k + 1) == es + Steps(k) + [Step]
  {
    assert Steps<T>(k + 1) == Steps(k) + [Step];
  }

  /** The tasks dispatched so far, with the delays asked for. */
  function Entered<T>(es: seq<Event<T>>): seq<DelayTask<T>> {
    if es == [] then []
    else
      Entered(es[..|es| - 1])
      + match es[|es| - 1] case Dispatch(t, d) => [DelayTask(t, d)] case Step => []
  }

  lemma EnteredSnoc<T>(es: seq<Event<T>>, e: Event<T>)
    ensures Entered(es + [e]) == Entered(es) + if e.Dispatch? then [DelayTask(e.tick, e.data)] else []
  {
    assert (es + [e])[..|es|] == es;
  }

  lemma {:induction false} EnteredDispatches<T>(es: seq<Event<T>>, tasks: seq<DelayTask<T>>)
    ensures Entered(es + Dispatches(tasks)) == Entered(es) + tasks
  {
    if tasks == [] {
      assert es + Dispatches(tasks) == es;
    } else {
      var init, last := tasks[..|tasks| - 1], tasks[|tasks| - 1];
      EnteredDispatches(es, init);
      DispatchesLast(es, tasks);
      EnteredSnoc(es + Dispatches(init), Dispatch(last.tick, last.data));
      assert tasks == init + [last];
    }
  }

  lemma {:induction false} EnteredSteps<T>(es: seq<Event<T>>, k: nat)
    ensures Entered(es + Steps(k)) == Entered(es)
  {
    if k == 0 {
      assert es + Steps(0) == es;
    } else {
      EnteredSteps(es, k - 1);
      StepsNext(es, k - 1);
      EnteredSnoc(es + Steps(k - 1), Step);
    }
  }

  lemma {:induction false} EnteredData<T>(es: seq<Event<T>>)
    ensures DataOf(Entered(es)) == Dispatched(es)
  {
    if es == [] {
    } else {
      EnteredData(es[..|es| - 1]);
      DataConcat(Entered(es[..|es| - 1]), Entered(es)[|Entered(es[..|es| - 1])|..]);
    }
  }

  lemma DataConcat<T>(a: seq<DelayTask<T>>, b: seq<DelayTask<T>>)
    ensures DataOf(a + b) == DataOf(a) + DataOf(b)
  {
  }

  // ---- What one Tick does ----

  /** One iteration of a wheel whose indexes are in range, and what it hands to the callback. */
  function Iteration<T>(w: Wheel<T>): Wheel<T> {
    if InRange(w) then Advance(w) else w
  }

  function Output<T>(w: Wheel<T>): seq<T> {
    if InRange(w) then Front(w) else []
  }

  /** k iterations, and what they hand over. */
  function Spun<S>(step: S -> S, s: S, k: nat): S {
    if k == 0 then s else step(Spun(step, s, k - 1))
  }

  function FiredBy<S, T>(step: S -> S, out: S -> seq<T>, s: S, k: nat): seq<T> {
    if k == 0 then [] else FiredBy(step, out, s, k - 1) + out(Spun(step, s, k - 1))
  }

  datatype Turn<S, T> = Turn(state: S, lastTime: int, fired: seq<T>)

  /** With no task to dispatch, a Tick does the iterations due and moves the reference time by
      as many intervals. */
  function Ticked<S, T>(step: S -> S, out: S -> seq<T>, s: S, last: int, now: int, msPerTick: nat): Turn<S, T>
    requires msPerTick > 0 && last <= now
  {
    var k := Intervals(now - last, msPerTick);
    Turn(Spun(step, s, k), last + Elapsed(k, msPerTick), FiredBy(step, out, s, k))
  }

  class WheelTimer<T> {
    const msPerTick: nat
    var lastTime: int
    var slots: array<seq<DelayTask<T>>>
    var indexs: array<nat>
    var adds: seq<DelayTask<T>>
    var backupAdds: seq<DelayTask<T>>

    /** Everything dispatched and every iteration done so far. */
    ghost var events: seq<Event<T>>
    /** Iterations done so far, and the clock reading they are counted from. */
    ghost var count: nat
    ghost var startTime: int
    /** Everything ever given to AddTask. */
    ghost var given: seq<DelayTask<T>>

    ghost function Value(): Wheel<T>
      reads this, slots, indexs
    {
      Wheel(slots[..], indexs[..])
    }

    /** The queues are where the events so far put them. */
    ghost predicate Turned()
      reads this, slots, indexs
    {
      && slots.Length == COUNT && indexs.Length == LAYERS
      && Legal(events)
      && Value() == Run(events).wheel && count == Run(events).n
    }

    ghost predicate Valid()
      reads this, slots, indexs
    {
      && msPerTick > 0 && Turned()
      && lastTime == startTime + Elapsed(count, msPerTick)
      && Accounted()
    }

    /** Unless a delay is refused, what was added is dispatched or still among the new tasks. */
    ghost predicate Accounted()
      reads this
    {
      Accepted(given) ==> backupAdds == [] && given == Entered(events) + adds
    }

    constructor (msPerTick: nat)
      requires msPerTick > 0
      ensures Valid() && fresh(slots) && fresh(indexs) && this.msPerTick == msPerTick
      ensures adds == [] && backupAdds == [] && events == [] && given == []
    {
      this.msPerTick := msPerTick;
      slots := new seq<DelayTask<T>>[COUNT](_ => []);
      indexs := new nat[LAYERS](_ => 0);
      adds, backupAdds, events, given := [], [], [], [];
      lastTime, startTime, count := 0, 0, 0;
      new;
      assert Value() == Empty();
    }

    /** Reads the clock before the first Tick. */
    method Init(now: int)
      requires Valid() && count == 0
      modifies this`lastTime, this`startTime
      ensures Valid() && lastTime == now == startTime
    {
      lastTime, startTime := now, now;
    }

    method AddTask(tick: nat, data: T)
      requires Valid()
      modifies this`adds, this`given
      ensures Valid() && adds == old(adds) + [DelayTask(tick, data)]
      ensures given == old(given) + [DelayTask(tick, data)]
    {
      ghost var before := given;
      adds := adds + [DelayTask(tick, data)];
      given := given + [DelayTask(tick, data)];
      AcceptedParts(before, [DelayTask(tick, data)]);
    }

    /** The layer a delay belongs to and its slot distance there, or a refusal. */
    static method GetLayer(tick: nat) returns (ok: bool, layer: nat, index: nat)
      ensures ok <==> tick < CAPACITY
      ensures ok ==> layer < LAYERS && index < SLOTS
      ensures ok ==> layer == Layer(tick) && index == tick / Span(layer)
      ensures ok ==> index * Span(layer) <= tick < (index + 1) * Span(layer)
    {
      var t := tick;
      assert Span(0) == 1 && Span(LAYERS) == CAPACITY;
      hide Span, Layer;
      for i := 0 to LAYERS
        invariant t == tick / Span(i)
        invariant i > 0 ==> tick >= Span(i)
      {
        SpanNext(tick, i);
        if t < SLOTS {
          LayerIs(tick, i);
          return true, i, t;
        }
        t := t / SLOTS;
      }
      return false, 0, 0;
    }

    function QueueOf(q: QueueRef): seq<DelayTask<T>>
      reads this, slots
      requires q.SlotAt? ==> q.i < slots.Length
    {
      match q
      case Backup => backupAdds
      case SlotAt(i) => slots[i]
    }

    /** Appends one task to the queue its delay asks for, keeping what the layer below needs. */
    method FileTask(task: DelayTask<T>) returns (ok: bool)
      requires slots.Length == COUNT && indexs.Length == LAYERS
      modifies slots
      ensures ok <==> task.tick < CAPACITY
      ensures Value() == Insert(old(Value()), task)
    {
      var layer, index;
      ok, layer, index := GetLayer(task.tick);
      if ok {
        index := layer * SLOTS + (index + indexs[layer]) % SLOTS;
        slots[index] := slots[index] + [DelayTask(task.tick % Span(layer), task.data)];
      }
    }

    /** Overwrites one task of a queue. */
    method SetTask(q: QueueRef, n: nat, task: DelayTask<T>)
      requires q.SlotAt? ==> q.i < slots.Length
      requires n < |QueueOf(q)|
      modifies this`backupAdds, slots
      ensures QueueOf(q) == old(QueueOf(q))[n := task]
      ensures q.Backup? ==> slots[..] == old(slots[..])
      ensures q.SlotAt? ==> backupAdds == old(backupAdds) && slots[..] == old(slots[..])[q.i := QueueOf(q)]
    {
      match q
      case Backup => backupAdds := backupAdds[n := task];
      case SlotAt(i) => slots[i] := slots[i][n := task];
    }

    /** Files one task of a queue that is being moved, and keeps the rest of its delay there. */
    method MoveTask(q: QueueRef, n: nat, ghost w: Wheel<T>, ghost tasks: seq<DelayTask<T>>, ghost j: nat)
        returns (ok: bool)
      requires slots.Length == COUNT && indexs.Length == LAYERS && w.Shape()
      requires n < |tasks| && Accepted(tasks[..n])
      requires q.SlotAt? ==> 0 < j < LAYERS && j * SLOTS <= q.i < COUNT && tasks[n].tick < Span(j)
      requires QueueOf(q) == Masked(tasks, n)
      requires Value() == if q.Backup? then w else SetSlot(w, q.i, QueueOf(q))
      modifies this`backupAdds, slots
      ensures ok <==> tasks[n].tick < CAPACITY
      ensures !ok ==> QueueOf(q) == old(QueueOf(q)) && Value() == old(Value())
      ensures ok ==> Accepted(tasks[..n + 1]) && QueueOf(q) == Masked(tasks, n + 1)
      ensures ok ==>
                Value() == if q.Backup? then Insert(w, tasks[n]) else SetSlot(Insert(w, tasks[n]), q.i, QueueOf(q))
      ensures q.SlotAt? ==> ok && backupAdds == old(backupAdds)
    {
      var task := QueueOf(q)[n];
      ghost var was := QueueOf(q);
      if q.SlotAt? { SpanBelow(j); }
      assert task == tasks[n];
      ok := FileTask(task);
      if ok {
        if q.SlotAt? { InsertBeside(w, task, j, q.i, was); }
        MaskNext(tasks, n);
        var layer, index;
        ok, layer, index := GetLayer(task.tick);
        SetTask(q, n, DelayTask(task.tick % Span(layer), task.data));
      }
    }

    /** Moves every task of a queue to the queue its delay asks for and empties it. The queue
        is read while others are appended to: a slot may only hold tasks for lower layers. A
        delay that is refused throws in the middle and leaves the queue as it is then. */
    method DispatchTasks(q: QueueRef) returns (thrown: bool)
      requires slots.Length == COUNT && indexs.Length == LAYERS && Small(Value())
      requires q.SlotAt? ==> SLOTS <= q.i < COUNT
      modifies this`backupAdds, slots
      ensures thrown <==> !Accepted(old(QueueOf(q)))
      ensures q.SlotAt? ==> !thrown && backupAdds == old(backupAdds)
      ensures q.SlotAt? ==>
                Value() == InsertAll(ClearSlot(old(Value()), q.i), old(QueueOf(q)))
      ensures q.Backup? ==>
                var n := Filable(old(backupAdds));
                && Value() == InsertAll(old(Value()), old(backupAdds)[..n])
                && backupAdds == if thrown then Masked(old(backupAdds), n) else []
    {
      hide InsertAll, Insert, Masked, Filable, Small;
      ghost var w, tasks := Value(), QueueOf(q);
      ghost var j := if q.SlotAt? then q.i / SLOTS else 1;
      NoneMoved(w, tasks);
      if q.SlotAt? { QueueSmall(w, j, q.i); }
      var n := 0;
      while n < |QueueOf(q)|
        invariant n <= |tasks| && Accepted(tasks[..n])
        invariant QueueOf(q) == Masked(tasks, n)
        invariant q.SlotAt? ==> backupAdds == old(backupAdds)
        invariant Value() ==
          if q.Backup? then InsertAll(w, tasks[..n]) else SetSlot(InsertAll(w, tasks[..n]), q.i, Masked(tasks, n))
      {
        InsertAllNext(w, tasks, n);
        var ok := MoveTask(q, n, InsertAll(w, tasks[..n]), tasks, j);
        if !ok {
          FilableIs(tasks, n);
          return true;
        }
        n := n + 1;
      }
      assert tasks[..n] == tasks;
      if q.SlotAt? {
        InsertBelow(w, tasks, j, q.i);
        slots[q.i] := [];
      } else {
        backupAdds := [];
      }
      return false;
    }

    /** Files the new tasks, then does every iteration that is due by the clock. If a delay is
        refused the call throws after filing the tasks before it, and what it was filing is
        among the new tasks again at the next call. */
    method Tick(now: int) returns (thrown: bool, fired: seq<T>)
      requires Valid() && now >= lastTime
      modifies this`lastTime, this`adds, this`backupAdds, this`events, this`count, slots, indexs
      ensures Valid() && startTime == old(startTime) && adds == old(backupAdds)
      ensures thrown <==> !Accepted(old(adds))
      ensures thrown ==>
                var n := Filable(old(adds));
                && fired == [] && lastTime == old(lastTime) && backupAdds == Masked(old(adds), n)
                && events == old(events) + Dispatches(old(adds)[..n])
      ensures !thrown ==>
                var k := Intervals(now - old(lastTime), msPerTick);
                && count == old(count) + k && events == old(events) + Dispatches(old(adds)) + Steps(k)
                && backupAdds == [] && fired == Flat(Run(events).fired[old(count)..])
                && startTime <= now && count == Intervals(now - startTime, msPerTick)
      ensures !thrown && old(adds) == [] ==>
                Turn(Value(), lastTime, fired) == Ticked(Iteration, Output, old(Value()), old(lastTime), now, msPerTick)
      ensures !Accepted(old(adds) + old(backupAdds)) ==> !Accepted(adds + backupAdds)
    {
      hide Run, Legal, Intervals, Elapsed, Spun, FiredBy, Flat, Filable, Masked, Entered;
      fired := [];
      thrown := TakeAdds();
      if !thrown {
        NoDrift(count, startTime, lastTime, now, msPerTick);
        fired := CatchUp(Intervals(now - lastTime, msPerTick));
      }
    }

    /** Swaps the new tasks out from under the lock and files them. */
    method TakeAdds() returns (thrown: bool)
      requires Valid()
      modifies this`adds, this`backupAdds, this`events, slots
      ensures Valid() && adds == old(backupAdds)
      ensures thrown <==> !Accepted(old(adds))
      ensures var n := Filable(old(adds));
              && events == old(events) + Dispatches(old(adds)[..n])
              && backupAdds == if thrown then Masked(old(adds), n) else []
      ensures !thrown ==> events == old(events) + Dispatches(old(adds))
      ensures old(adds) == [] ==> Value() == old(Value())
      ensures !Accepted(old(adds) + old(backupAdds)) ==> !Accepted(adds + backupAdds)
    {
      hide Run, Legal, Entered, Filable, Masked, InsertAll, Elapsed, Small;
      ghost var es, n := events, Filable(adds);
      Taking(events, adds, given);
      RefusedStays(adds, backupAdds);
      thrown := false;
      backupAdds, adds := adds, backupAdds;
      if backupAdds != [] {
        thrown := DispatchTasks(Backup);
      }
      events := es + Dispatches(old(adds)[..n]);
    }

    /** Does this many iterations and moves the reference time by as many intervals. */
    method CatchUp(ticks: nat) returns (fired: seq<T>)
      requires Valid()
      modifies this`lastTime, this`backupAdds, this`events, this`count, slots, indexs
      ensures Valid() && backupAdds == old(backupAdds)
      ensures count == old(count) + ticks && events == old(events) + Steps(ticks)
      ensures fired == Flat(Run(events).fired[old(count)..])
      ensures Value() == Spun(Iteration, old(Value()), ticks)
      ensures fired == FiredBy(Iteration, Output, old(Value()), ticks)
      ensures lastTime == old(lastTime) + Elapsed(ticks, msPerTick)
    {
      hide Run, Legal, Elapsed, Entered, Spun, FiredBy, Flat;
      EnteredSteps(events, ticks);
      ElapsedSum(count, ticks, msPerTick);
      fired := AdvanceBy(ticks);
      lastTime := lastTime + Elapsed(ticks, msPerTick);
    }

    /** The iterations of one Tick. */
    method AdvanceBy(ticks: nat) returns (fired: seq<T>)
      requires Turned()
      modifies this`backupAdds, this`events, this`count, slots, indexs
      ensures Turned() && events == old(events) + Steps(ticks) && count == old(count) + ticks
      ensures fired == Flat(Run(events).fired[old(count)..])
      ensures Value() == Spun(Iteration, old(Value()), ticks)
      ensures fired == FiredBy(Iteration, Output, old(Value()), ticks)
      ensures backupAdds == old(backupAdds)
    {
      hide Run, Legal, Spun, FiredBy, Flat, Advance, Front, InRange, Small;
      fired := [];
      ghost var es, w := events, Value();
      NoIteration(es, w);
      for i := 0 to ticks
        invariant Turned() && events == es + Steps(i) && count == old(count) + i
        invariant fired == Flat(Run(events).fired[old(count)..])
        invariant Value() == Spun(Iteration, w, i) && fired == FiredBy(Iteration, Output, w, i)
        invariant backupAdds == old(backupAdds)
      {
        IterationNext(es, w, i, old(count));
        var front := AdvanceOnce();
        fired := fired + front;
        events, count := events + [Step], count + 1;
      }
    }

    /** One iteration: hands the front slot to the callback, then carries. */
    method AdvanceOnce() returns (fired: seq<T>)
      requires slots.Length == COUNT && indexs.Length == LAYERS
      requires InRange(Value()) && Small(Value())
      modifies slots, indexs, this`backupAdds
      ensures fired == Front(old(Value())) && Value() == Advance(old(Value()))
      ensures backupAdds == old(backupAdds)
    {
      ghost var w, i := Value(), indexs[0];
      fired := DataOf(slots[indexs[0]]);
      slots[indexs[0]] := [];
      assert forall k, s | 0 <= k < LAYERS && 0 <= s < SLOTS ::
          Slot(Value(), k, s) == (if k == 0 && s == i then [] else Slot(w, k, s));
      RollUp();
    }

    /** The odometer: the index of each layer goes up when the layer below has gone round, and
        every slot a higher layer reaches is dispatched downwards. */
    method RollUp()
      requires slots.Length == COUNT && indexs.Length == LAYERS
      requires InRange(Value()) && Small(Value())
      modifies slots, indexs, this`backupAdds
      ensures Value() == Carry(old(Value()), 0) && backupAdds == old(backupAdds)
    {
      hide Carry, Roll, Small;
      var j := 0;
      ghost var v := Value();
      ghost var carried := Carry(v, 0);
      Bump(0);
      while true
        invariant j < LAYERS && slots.Length == COUNT && indexs.Length == LAYERS
        invariant InRange(v) && Small(v) && Carry(v, j) == carried
        invariant Value() == SetIndex(v, j, v.indexs[j] + 1)
        invariant backupAdds == old(backupAdds)
        decreases LAYERS - j
      {
        var ge := TurnLayer(j, v);
        ghost var r := Value();
        CarryOn(v, j, r);
        if !ge || j + 1 >= LAYERS { break; }
        v, j := r, j + 1;
        Bump(j);
      }
    }

    method Bump(j: nat)
      requires slots.Length == COUNT && indexs.Length == LAYERS && j < LAYERS
      modifies indexs
      ensures Value() == SetIndex(old(Value()), j, old(indexs[j]) + 1)
    {
      indexs[j] := indexs[j] + 1;
    }

    /** Wraps the index of layer j if it has reached the boundary; dispatches its new slot. */
    method TurnLayer(j: nat, ghost v: Wheel<T>) returns (ge: bool)
      requires slots.Length == COUNT && indexs.Length == LAYERS && j < LAYERS
      requires InRange(v) && Small(v) && Value() == SetIndex(v, j, v.indexs[j] + 1)
      modifies slots, indexs, this`backupAdds
      ensures Value() == Roll(v, j) && Small(Roll(v, j)) && backupAdds == old(backupAdds)
      ensures ge <==> Roll(v, j).indexs[j] == 0
    {
      hide Small, InsertAll, Slot;
      ge := indexs[j] >= SLOTS;
      if ge { indexs[j] := 0; }
      ghost var x := SetIndex(v, j, (v.indexs[j] + 1) % SLOTS);
      assert Value() == x;
      IndexSmall(v, j, x.indexs[j]);
      RollSmall(v, j);
      if j > 0 {
        var thrown := DispatchTasks(SlotAt(j * SLOTS + indexs[j]));
      }
    }
  }

  lemma NoIteration<T>(es: seq<Event<T>>, w: Wheel<T>)
    ensures es + Steps(0) == es && Flat(Run(es).fired[Run(es).n..]) == []
    ensures FiredBy(Iteration, Output, w, 0) == [] && Spun(Iteration, w, 0) == w
  {
  }

  lemma RunStep<T>(es: seq<Event<T>>)
    requires Legal(es)
    ensures Small(Run(es).wheel) && Legal(es + [Step])
    ensures var r := Run(es);
            Run(es + [Step]) == Log(Advance(r.wheel), r.n + 1, r.fired + [Front(r.wheel)])
  {
    RunInv(es);
    assert (es + [Step])[..|es|] == es;
  }

  /** One more iteration, for the run, for the wheel and for what has been handed over. */
  lemma IterationNext<T>(es: seq<Event<T>>, w: Wheel<T>, i: nat, n: nat)
    requires Legal(es + Steps(i)) && n <= Run(es + Steps(i)).n
    requires Run(es + Steps(i)).wheel == Spun(Iteration, w, i)
    ensures var v := Spun(Iteration, w, i);
            && InRange(v) && Small(v)
            && Spun(Iteration, w, i + 1) == Advance(v)
            && FiredBy(Iteration, Output, w, i + 1) == FiredBy(Iteration, Output, w, i) + Front(v)
    ensures var r, r' := Run(es + Steps(i)), Run(es + Steps(i + 1));
            && es + Steps(i + 1) == es + Steps(i) + [Step] && Legal(es + Steps(i + 1))
            && r'.wheel == Advance(r.wheel) && r'.n == r.n + 1
            && Flat(r'.fired[n..]) == Flat(r.fired[n..]) + Front(r.wheel)
  {
    hide Run, Legal, Small, Advance, Front, Flat;
    var r := Run(es + Steps(i));
    RunStep(es + Steps(i));
    StepsNext(es, i);
    FlatSnoc(r.fired, n, Front(r.wheel));
  }

  /** What is dispatched of the new tasks, and what is still to be. */
  lemma Taking<T>(es: seq<Event<T>>, adds: seq<DelayTask<T>>, given: seq<DelayTask<T>>)
    requires Legal(es) && (Accepted(given) ==> given == Entered(es) + adds)
    ensures var n, es' := Filable(adds), es + Dispatches(adds[..Filable(adds)]);
            && Small(Run(es).wheel)
            && Legal(es') && Run(es') == Run(es).(wheel := InsertAll(Run(es).wheel, adds[..n]))
            && (Accepted(adds) ==> adds[..n] == adds)
            && (Accepted(given) ==> Accepted(adds) && Entered(es') == given)
            && (adds == [] ==> es' == es)
  {
    RunInv(es);
    var taken := adds[..Filable(adds)];
    RunDispatches(es, taken);
    EnteredDispatches(es, taken);
    AcceptedParts(Entered(es), adds);
  }

  lemma CarryOn<T>(v: Wheel<T>, j: nat, r: Wheel<T>)
    requires InRange(v) && j < LAYERS && r == Roll(v, j)
    ensures InRange(r) && Carry(v, j) == if r.indexs[j] == 0 && j + 1 < LAYERS then Carry(r, j + 1) else r
  {
  }

  lemma FlatSnoc<T>(fired: seq<seq<T>>, n: nat, front: seq<T>)
    requires n <= |fired|
    ensures Flat((fired + [front])[n..]) == Flat(fired[n..]) + front
  {
    assert (fired + [front])[n..] == fired[n..] + [front];
  }

  lemma NoneMoved<T>(w: Wheel<T>, tasks: seq<DelayTask<T>>)
    requires w.Shape()
    ensures Masked(tasks, 0) == tasks && InsertAll(w, tasks[..0]) == w
  {
  }

  lemma QueueSmall<T>(w: Wheel<T>, j: nat, i: nat)
    requires Small(w) && i < COUNT && j == i / SLOTS
    ensures SlotOk(w.slots[i], j)
  {
    assert SlotOk(Slot(w, j, i % SLOTS), j);
  }

  lemma AcceptedParts<T>(a: seq<DelayTask<T>>, b: seq<DelayTask<T>>)
    ensures Accepted(a + b) <==> Accepted(a) && Accepted(b)
  {
    assert forall i | 0 <= i < |a| :: (a + b)[i] == a[i];
    assert forall i | 0 <= i < |b| :: (a + b)[|a| + i] == b[i];
  }

  /** A refused delay is never got rid of: after the call it is where it was, or in the other
      queue. */
  lemma RefusedStays<T>(adds: seq<DelayTask<T>>, backup: seq<DelayTask<T>>)
    ensures var n := Filable(adds);
            var backup' := if n < |adds| then Masked(adds, n) else [];
            !Accepted(adds + backup) ==> !Accepted(backup + backup')
  {
    var n := Filable(adds);
    AcceptedParts(adds, backup);
    AcceptedParts(backup, if n < |adds| then Masked(adds, n) else []);
    if n < |adds| { assert Masked(adds, n)[n] == adds[n]; }
  }

  /** Exactly once, from AddTask on: unless a delay has been refused, what was ever added has
      fired, is in a slot, or is among the new tasks. */
  lemma NothingLost<T>(timer: WheelTimer<T>, x: T)
    requires timer.Valid() && Accepted(timer.given)
    ensures multiset(DataOf(timer.given))[x] ==
            multiset(Flat(Run(timer.events).fired))[x] + Stored(timer.Value().slots, x)
            + multiset(DataOf(timer.adds))[x]
  {
    Conservation(timer.events, x);
    EnteredData(timer.events);
    DataConcat(Entered(timer.events), timer.adds);
  }

  // ---- Any number of Ticks ----

  /** The times of a Tick at `later`, and of a Tick at `now` followed by one at `later`. */
  lemma SplitTimes(last: int, now: int, later: int, msPerTick: nat)
    requires msPerTick > 0 && last <= now <= later
    ensures var a := Intervals(now - last, msPerTick);
            var mid := last + Elapsed(a, msPerTick);
            && mid <= now
            && var b := Intervals(later - mid, msPerTick);
            && Intervals(later - last, msPerTick) == a + b
            && last + Elapsed(a + b, msPerTick) == mid + Elapsed(b, msPerTick)
  {
    var a := Intervals(now - last, msPerTick);
    ElapsedFits(now - last, msPerTick);
    var mid := last + Elapsed(a, msPerTick);
    var b := Intervals(later - mid, msPerTick);
    IntervalsSum(a, later - mid, msPerTick);
    assert Elapsed(a, msPerTick) + (later - mid) == later - last;
    ElapsedSum(a, b, msPerTick);
  }

  /** a + b iterations are a and then b, and hand over what these do. */
  lemma {:induction false} SplitSteps<S, T>(step: S -> S, out: S -> seq<T>, s: S, a: nat, b: nat)
    ensures Spun(step, s, a + b) == Spun(step, Spun(step, s, a), b)
    ensures FiredBy(step, out, s, a + b) == FiredBy(step, out, s, a) + FiredBy(step, out, Spun(step, s, a), b)
  {
    if b == 0 {
    } else {
      SplitSteps(step, out, s, a, b - 1);
    }
  }

  /** A Tick in between, with no task added, changes nothing. */
  lemma SplitTick<S, T>(step: S -> S, out: S -> seq<T>, s: S, last: int, now: int, later: int, msPerTick: nat)
    requires msPerTick > 0 && last <= now <= later
    ensures var t := Ticked(step, out, s, last, now, msPerTick);
            && t.lastTime <= now
            && var u := Ticked(step, out, t.state, t.lastTime, later, msPerTick);
               Turn(u.state, u.lastTime, t.fired + u.fired) == Ticked(step, out, s, last, later, msPerTick)
  {
    SplitTimes(last, now, later, msPerTick);
    var a := Intervals(now - last, msPerTick);
    SplitSteps(step, out, s, a, Intervals(later - (last + Elapsed(a, msPerTick)), msPerTick));
  }

  /** The clock does not go back from one call to the next. */
  predicate Forward(last: int, nows: seq<int>) {
    nows != [] ==> last <= nows[0] && forall i | 0 < i < |nows| :: nows[i - 1] <= nows[i]
  }

  /** Ticks at these times, one after another, with no task added between them. */
  function TickedAll<S, T>(step: S -> S, out: S -> seq<T>, s: S, last: int, nows: seq<int>, msPerTick: nat): Turn<S, T>
    requires msPerTick > 0 && Forward(last, nows)
    decreases |nows|
  {
    if nows == [] then Turn(s, last, [])
    else
      var t := Ticked(step, out, s, last, nows[0], msPerTick);
      ElapsedFits(nows[0] - last, msPerTick);
      var u := TickedAll(step, out, t.state, t.lastTime, nows[1..], msPerTick);
      Turn(u.state, u.lastTime, t.fired + u.fired)
  }

  /** However often Tick is called in between, the iterations, what they fire in which order and
      the reference time are those of the one call at the end. */
  lemma {:induction false} AnyTicks<S, T>(step: S -> S, out: S -> seq<T>, s: S,
                                          last: int, nows: seq<int>, msPerTick: nat)
    requires msPerTick > 0 && nows != [] && Forward(last, nows)
    ensures last <= nows[|nows| - 1]
    ensures TickedAll(step, out, s, last, nows, msPerTick) ==
            Ticked(step, out, s, last, nows[|nows| - 1], msPerTick)
    decreases |nows|
  {
    var t, rest := Ticked(step, out, s, last, nows[0], msPerTick), nows[1..];
    ElapsedFits(nows[0] - last, msPerTick);
    if rest == [] {
      assert t.fired + [] == t.fired;
    } else {
      assert rest[|rest| - 1] == nows[|nows| - 1];
      AnyTicks(step, out, t.state, t.lastTime, rest, msPerTick);
      ForwardLast(last, nows);
      SplitTick(step, out, s, last, nows[0], nows[|nows| - 1], msPerTick);
    }
  }

  lemma {:induction false} ForwardLast(last: int, nows: seq<int>)
    requires nows != [] && Forward(last, nows)
    ensures last <= nows[0] <= nows[|nows| - 1]
    decreases |nows|
  {
    if |nows| == 1 {
    } else {
      ForwardLast(last, nows[..|nows| - 1]);
    }
  }

  /** The times at which one interval after another is over. */
  function Every(last: int, n: nat, msPerTick: nat): (nows: seq<int>)
    ensures |nows| == n
  {
    seq(n, i requires 0 <= i < n => last + Elapsed(i + 1, msPerTick))
  }

  lemma EveryInterval(last: int, n: nat, msPerTick: nat)
    requires msPerTick > 0 && n > 0
    ensures var nows := Every(last, n, msPerTick);
            && Forward(last, nows) && last <= nows[n - 1]
            && (forall i | 0 < i < n :: Intervals(nows[i] - nows[i - 1], msPerTick) == 1)
            && Intervals(nows[0] - last, msPerTick) == 1 && Intervals(nows[n - 1] - last, msPerTick) == n
  {
    var nows := Every(last, n, msPerTick);
    IntervalsSum(1, 0, msPerTick);
    IntervalsSum(n, 0, msPerTick);
    assert Elapsed(1, msPerTick) == Elapsed(0, msPerTick) + Nanos(msPerTick);
    forall i | 0 < i < n
      ensures nows[i] - nows[i - 1] == Elapsed(1, msPerTick)
    {
      assert nows[i] == last + Elapsed(i + 1, msPerTick) && nows[i - 1] == last + Elapsed(i, msPerTick);
    }
  }

  /** One Tick that covers n intervals is n Ticks of one interval each. */
  lemma TickByTick<T>(w: Wheel<T>, last: int, n: nat, msPerTick: nat)
    requires msPerTick > 0 && n > 0
    ensures var nows := Every(last, n, msPerTick);
            && Forward(last, nows) && last <= nows[n - 1]
            && var t := Ticked(Iteration, Output, w, last, nows[n - 1], msPerTick);
               TickedAll(Iteration, Output, w, last, nows, msPerTick) == t && t.state == Spun(Iteration, w, n)
  {
    EveryInterval(last, n, msPerTick);
    AnyTicks(Iteration, Output, w, last, Every(last, n, msPerTick), msPerTick);
  }

  lemma ElapsedFits(elapsed: nat, msPerTick: nat)
    requires msPerTick > 0
    ensures Elapsed(Intervals(elapsed, msPerTick), msPerTick) <= elapsed
  {
    var ms := elapsed / 1000000;
    ElapsedProduct(ms / msPerTick, msPerTick);
    DivMod(ms, msPerTick);
  }

  lemma {:induction false} ElapsedProduct(k: nat, msPerTick: nat)
    ensures Elapsed(k, msPerTick) == Nanos(k * msPerTick)
  {
    if k == 0 {
    } else {
      ElapsedProduct(k - 1, msPerTick);
      assert k * msPerTick == (k - 1) * msPerTick + msPerTick;
    }
  }
}
