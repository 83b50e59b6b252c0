/** Sizes of the timing wheel and the arithmetic of its layers. */
module WheelMath {

  const SLOTS: nat := 64
  const LAYERS: nat := 5
  const CAPACITY: nat := 1073741824  // 64^5, the first delay the wheel refuses

  /** Number of ticks one slot of layer k stands for. */
  function Span(k: nat): (p: nat)
    requires k <= LAYERS
    ensures p > 0
  {
    if k == 0 then 1 else
    if k == 1 then 64 else
    if k == 2 then 4096 else
    if k == 3 then 262144 else
    if k == 4 then 16777216 else CAPACITY
  }

  /** The layer a delay of t ticks is filed in. */
  function Layer(t: nat): (k: nat)
    requires t < CAPACITY
    ensures k < LAYERS && t < Span(k + 1)
    ensures k > 0 ==> Span(k) <= t
  {
    if t < 64 then 0 else
    if t < 4096 then 1 else
    if t < 262144 then 2 else
    if t < 16777216 then 3 else 4
  }

  /** The iteration in which a delay of t ticks, dispatched after n iterations, is due. */
  function Due(n: nat, t: nat): nat
    requires t < CAPACITY
  {
    n / Span(Layer(t)) * Span(Layer(t)) + t
  }

  lemma DivMod(x: nat, p: nat)
    requires p > 0
    ensures x == x / p * p + x % p && 0 <= x % p < p
  {
  }

  lemma DivUnique(x: nat, p: nat, q: nat, r: nat)
    requires p > 0 && r < p && x == q * p + r
    ensures x / p == q && x % p == r
  {
    DivMod(x, p);
    var w: int := p;
    var d: int := x / p - q;
    assert d * w == r - x % p && 0 - w < d * w < w;
    assert d == 0;
  }

  lemma DivMono(a: nat, b: nat, p: nat)
    requires p > 0 && a <= b
    ensures a / p <= b / p
  {
    DivMod(a, p);
    DivMod(b, p);
    var w: int := p;
    var d: int := a / p - b / p;
    assert d * w <= b % p < w;
  }

  /** A deadline is determined by its layer count and its remainder. */
  lemma DueSplit(p: nat, c: nat, t: nat, f: nat)
    requires p > 0
    ensures f == c * p + t <==> f / p == c + t / p && f % p == t % p
  {
    DivMod(t, p);
    DivMod(f, p);
    assert c * p + t == (c + t / p) * p + t % p;
    if f == c * p + t {
      DivUnique(f, p, c + t / p, t % p);
    }
  }

  /** Two counts of one window of 64 that share a slot are equal. */
  lemma SameSlot(c: nat, x: nat, y: nat)
    requires c <= x < c + 64 && c <= y < c + 64
    ensures x % 64 == y % 64 <==> x == y
  {
  }

  /** Counting slots from the index is counting them from the digit. */
  lemma FromIndex(c: nat, i: nat, x: nat)
    requires i == c % 64 && x < 64
    ensures (c + x) % 64 == (x + i) % 64 && (x > 0 ==> (c + x) % 64 != i)
  {
  }

  lemma LayerIndex(t: nat)
    requires t < CAPACITY
    ensures t / Span(Layer(t)) < SLOTS
    ensures Layer(t) > 0 ==> t / Span(Layer(t)) > 0
  {
  }

  /** One more than q spans and a remainder r: the remainder grows, or the span is full. */
  lemma SpanFull(n: nat, p: nat, q: nat, r: nat)
    requires p > 0 && r < p && n == q * p + r
    ensures (n + 1) / p == q + if r + 1 == p then 1 else 0
    ensures (n + 1) % p == if r + 1 == p then 0 else r + 1
  {
    assert (q + 1) * p == q * p + p;
    if r + 1 == p {
      DivUnique(n + 1, p, q + 1, 0);
    } else {
      DivUnique(n + 1, p, q, r + 1);
    }
  }

  lemma SpanNext(t: nat, k: nat)
    requires k < LAYERS
    ensures t / Span(k) / SLOTS == t / Span(k + 1)
    ensures t / Span(k) >= SLOTS <==> t >= Span(k + 1)
  {
  }

  lemma LayerIs(t: nat, k: nat)
    requires k < LAYERS && t / Span(k) < SLOTS && (k > 0 ==> t >= Span(k))
    ensures t < CAPACITY && Layer(t) == k
    ensures t / Span(k) * Span(k) <= t < (t / Span(k) + 1) * Span(k)
  {
  }

  /** Adding one to n moves the count of a layer exactly when the new value is a multiple
      of the layer's span. */
  lemma OdometerLayer(n: nat, p: nat)
    requires p > 0
    ensures (n + 1) / p == n / p + if (n + 1) % p == 0 then 1 else 0
  {
    DivMod(n, p);
    SpanFull(n, p, n / p, n % p);
  }

  /** A layer wraps exactly when the layer below it does and its own count is a multiple of 64. */
  lemma OdometerCarry(m: nat, p: nat)
    requires p > 0
    ensures m % (64 * p) == 0 <==> m % p == 0 && (m / p) % 64 == 0
  {
    DivMod(m, p);
    DivMod(m / p, 64);
    CarrySplit(m, p, m / p / 64, m / p % 64, m % p);
  }

  lemma CarrySplit(m: nat, p: nat, a: nat, b: nat, c: nat)
    requires p > 0 && b < 64 && c < p && m == (a * 64 + b) * p + c
    ensures m % (64 * p) == b * p + c
    ensures m % (64 * p) == 0 <==> b == 0 && c == 0
  {
    Products(p, a, b);
    DivUnique(m, 64 * p, a, b * p + c);
  }

  lemma Products(p: nat, a: nat, b: nat)
    requires b < 64
    ensures (a * 64 + b) * p == a * (64 * p) + b * p
    ensures b * p <= 63 * p && (b > 0 ==> b * p >= p)
  {
    assert a * 64 * p == a * (64 * p);
  }

  /** What the slot-relative insert promises: never late, exact below 64 ticks, early by
      the part of the current position that the layer does not see. */
  lemma DueBounds(n: nat, t: nat)
    requires t < CAPACITY
    ensures Due(n, t) == n + t - n % Span(Layer(t))
    ensures Due(n, t) <= n + t
    ensures t < 64 ==> Due(n, t) == n + t
    ensures t >= 64 ==> Due(n, t) > n
    ensures Due(n, t) == n + t <==> n % Span(Layer(t)) == 0
  {
    DivMod(n, Span(Layer(t)));
  }
}

/** The wheel as a value: 5 layers of 64 slots in one sequence of 320 queues, and what one
    insert, one cascade and one iteration make of it. */
module WheelModel {
  import opened WheelMath

  datatype DelayTask<T> = DelayTask(tick: nat, data: T)

  datatype Wheel<T> = Wheel(slots: seq<seq<DelayTask<T>>>, indexs: seq<nat>) {
    predicate Shape() {
      |slots| == SLOTS * LAYERS && |indexs| == LAYERS
    }
  }

  const COUNT: nat := SLOTS * LAYERS

  function Empty<T>(): Wheel<T> {
    Wheel(seq(COUNT, _ => []), seq(LAYERS, _ => 0))
  }

  /** The queue a delay of t ticks is appended to. */
  function Target<T>(w: Wheel<T>, t: nat): (i: nat)
    requires w.Shape() && t < CAPACITY
    ensures i < COUNT
  {
    Layer(t) * SLOTS + (t / Span(Layer(t)) + w.indexs[Layer(t)]) % SLOTS
  }

  /** What is left of a delay for the layers below. */
  function Kept<T>(task: DelayTask<T>): DelayTask<T>
    requires task.tick < CAPACITY
  {
    DelayTask(task.tick % Span(Layer(task.tick)), task.data)
  }

  /** Files one task; a delay the wheel refuses leaves it alone. */
  function Insert<T>(w: Wheel<T>, task: DelayTask<T>): (r: Wheel<T>)
    requires w.Shape()
    ensures r.Shape() && r.indexs == w.indexs
  {
    if task.tick >= CAPACITY then w else
    var i := Target(w, task.tick);
    w.(slots := w.slots[i := w.slots[i] + [Kept(task)]])
  }

  function InsertAll<T>(w: Wheel<T>, tasks: seq<DelayTask<T>>): (r: Wheel<T>)
    requires w.Shape()
    ensures r.Shape() && r.indexs == w.indexs
  {
    if tasks == [] then w
    else Insert(InsertAll(w, tasks[..|tasks| - 1]), tasks[|tasks| - 1])
  }

  function SetSlot<T>(w: Wheel<T>, i: nat, q: seq<DelayTask<T>>): (r: Wheel<T>)
    requires w.Shape() && i < COUNT
    ensures r.Shape()
  {
    w.(slots := w.slots[i := q])
  }

  function ClearSlot<T>(w: Wheel<T>, i: nat): (r: Wheel<T>)
    requires w.Shape() && i < COUNT
    ensures r.Shape()
  {
    SetSlot(w, i, [])
  }

  function SetIndex<T>(w: Wheel<T>, k: nat, v: nat): (r: Wheel<T>)
    requires w.Shape() && k < LAYERS
    ensures r.Shape()
  {
    w.(indexs := w.indexs[k := v])
  }

  /** Empties the current slot of layer j into the layers below it. */
  function Cascade<T>(w: Wheel<T>, j: nat): (r: Wheel<T>)
    requires w.Shape() && j < LAYERS && w.indexs[j] < SLOTS
    ensures r.Shape() && r.indexs == w.indexs
  {
    var i := j * SLOTS + w.indexs[j];
    InsertAll(ClearSlot(w, i), w.slots[i])
  }

  /** One layer of the carry: advance the index of layer j, wrap it, cascade its new slot. */
  function Roll<T>(w: Wheel<T>, j: nat): (r: Wheel<T>)
    requires w.Shape() && j < LAYERS && w.indexs[j] < SLOTS
    ensures r.Shape()
    ensures r.indexs == w.indexs[j := (w.indexs[j] + 1) % SLOTS]
  {
    var w' := SetIndex(w, j, (w.indexs[j] + 1) % SLOTS);
    if j == 0 then w' else Cascade(w', j)
  }

  predicate InRange<T>(w: Wheel<T>) {
    w.Shape() && forall k | 0 <= k < LAYERS :: w.indexs[k] < SLOTS
  }

  /** The carry from layer j upwards. */
  function Carry<T>(w: Wheel<T>, j: nat): (r: Wheel<T>)
    requires InRange(w) && j < LAYERS
    ensures InRange(r)
    decreases LAYERS - j
  {
    var w' := Roll(w, j);
    if w'.indexs[j] != 0 || j + 1 == LAYERS then w' else Carry(w', j + 1)
  }

  function DataOf<T>(tasks: seq<DelayTask<T>>): (r: seq<T>)
    ensures |r| == |tasks|
  {
    seq(|tasks|, i requires 0 <= i < |tasks| => tasks[i].data)
  }

  /** What one iteration hands to the callback. */
  function Front<T>(w: Wheel<T>): seq<T>
    requires InRange(w)
  {
    DataOf(w.slots[w.indexs[0]])
  }

  /** One iteration of the wheel. */
  function Advance<T>(w: Wheel<T>): (r: Wheel<T>)
    requires InRange(w)
    ensures InRange(r)
  {
    Carry(ClearSlot(w, w.indexs[0]), 0)
  }
}

/** What the slots mean: every stored task has one deadline, which inserts and cascades keep. */
module WheelQueues {
  import opened WheelMath
  import opened WheelModel

  /** How far each layer has turned after n iterations; during a carry the layers below j
      have already turned to n + 1. */
  function Clock(n: nat, j: nat): (c: seq<nat>)
    requires j <= LAYERS
    ensures |c| == LAYERS
  {
    seq(LAYERS, k requires 0 <= k < LAYERS => if k < j then (n + 1) / Span(k) else n / Span(k))
  }

  predicate SlotOk<T>(q: seq<DelayTask<T>>, k: nat)
    requires k <= LAYERS
  {
    forall i | 0 <= i < |q| :: q[i].tick < Span(k)
  }

  function Slot<T>(w: Wheel<T>, k: nat, s: nat): seq<DelayTask<T>>
    requires w.Shape() && k < LAYERS && s < SLOTS
  {
    w.slots[k * SLOTS + s]
  }

  /** Indexes follow the clock, a task of layer k keeps less than one slot of that layer, and
      above layer 0 the current slot is empty. */
  ghost predicate Inv<T>(w: Wheel<T>, c: seq<nat>) {
    && w.Shape()
    && |c| == LAYERS
    && (forall k | 0 <= k < LAYERS :: w.indexs[k] == c[k] % SLOTS)
    && (forall k, s | 0 <= k < LAYERS && 0 <= s < SLOTS :: SlotOk(Slot(w, k, s), k))
    && (forall k, s | 0 < k < LAYERS && 0 <= s < SLOTS ::
          s == w.indexs[k] ==> Slot(w, k, s) == [])
  }

  /** Data of the tasks of q whose remaining delay is r, in order. */
  function Matching<T>(q: seq<DelayTask<T>>, r: nat): seq<T> {
    if q == [] then []
    else
      var last := q[|q| - 1];
      Matching(q[..|q| - 1], r) + if last.tick == r then [last.data] else []
  }

  /** The deadlines layer k can hold when it has turned c times. */
  predicate InWindow(c: nat, f: nat, k: nat)
    requires k < LAYERS
  {
    c <= f / Span(k) < c + 64 && (k > 0 ==> c < f / Span(k))
  }

  /** The tasks with deadline f that wait in layer k, in order. */
  function Pend<T>(w: Wheel<T>, c: seq<nat>, f: nat, k: nat): seq<T>
    requires w.Shape() && |c| == LAYERS && k < LAYERS
  {
    if InWindow(c[k], f, k) then Matching(Slot(w, k, f / Span(k) % SLOTS), f % Span(k)) else []
  }

  lemma InsertInv<T>(w: Wheel<T>, c: seq<nat>, task: DelayTask<T>)
    requires Inv(w, c) && task.tick < CAPACITY
    ensures Inv(Insert(w, task), c)
  {
    InsertSlot(w, c, task);
    LayerIndex(task.tick);
  }

  lemma InsertSlot<T>(w: Wheel<T>, c: seq<nat>, task: DelayTask<T>)
    requires Inv(w, c) && task.tick < CAPACITY
    ensures var l, p := Layer(task.tick), Span(Layer(task.tick));
            var s := (c[l] + task.tick / p) % SLOTS;
            && (l > 0 ==> s != w.indexs[l])
            && forall k, s' | 0 <= k < LAYERS && 0 <= s' < SLOTS ::
              Slot(Insert(w, task), k, s') ==
              Slot(w, k, s') + if k == l && s' == s then [DelayTask(task.tick % p, task.data)] else []
  {
    hide Layer, Span;
    LayerIndex(task.tick);
    var l := Layer(task.tick);
    FromIndex(c[l], w.indexs[l], task.tick / Span(l));
  }

  lemma InvShape<T>(w: Wheel<T>, c: seq<nat>)
    requires Inv(w, c)
    ensures w.Shape() && |c| == LAYERS
  {
  }

  lemma MatchingAppend<T>(q: seq<DelayTask<T>>, x: DelayTask<T>, r: nat)
    ensures Matching(q + [x], r) == Matching(q, r) + if x.tick == r then [x.data] else []
  {
    assert (q + [x])[..|q|] == q;
  }

  /** The slot that a task goes to holds one deadline of the layer's window: its own. */
  lemma OwnDeadline(c: nat, t: nat, f: nat, k: nat)
    requires k < LAYERS && t / Span(k) < SLOTS && (k > 0 ==> t / Span(k) > 0)
    ensures f == c * Span(k) + t <==>
            InWindow(c, f, k) && f / Span(k) % SLOTS == (c + t / Span(k)) % SLOTS && f % Span(k) == t % Span(k)
  {
    DueSplit(Span(k), c, t, f);
    if InWindow(c, f, k) { SameSlot(c, f / Span(k), c + t / Span(k)); }
  }

  lemma InsertPend<T>(w: Wheel<T>, c: seq<nat>, task: DelayTask<T>, f: nat, k: nat)
    requires Inv(w, c) && task.tick < CAPACITY && k < LAYERS
    ensures Pend(Insert(w, task), c, f, k) ==
            Pend(w, c, f, k)
            + if k == Layer(task.tick) && f == c[k] * Span(k) + task.tick then [task.data] else []
  {
    hide Inv, Insert, Layer, Span, Slot, Matching, InWindow;
    var i := f / Span(k) % SLOTS;
    InvShape(w, c);
    InsertSlot(w, c, task);
    LayerIndex(task.tick);
    assert Slot(Insert(w, task), k, i) == Slot(w, k, i) || k == Layer(task.tick);
    if k == Layer(task.tick) {
      OwnDeadline(c[k], task.tick, f, k);
      MatchingAppend(Slot(w, k, f / Span(k) % SLOTS), DelayTask(task.tick % Span(k), task.data), f % Span(k));
    }
  }

  predicate Accepted<T>(tasks: seq<DelayTask<T>>) {
    forall i | 0 <= i < |tasks| :: tasks[i].tick < CAPACITY
  }

  /** The tasks among these that layer k receives with deadline f when it has turned c times. */
  function Filed<T>(tasks: seq<DelayTask<T>>, c: nat, f: nat, k: nat): seq<T>
    requires Accepted(tasks) && k < LAYERS
  {
    if tasks == [] then []
    else
      var last := tasks[|tasks| - 1];
      Filed(tasks[..|tasks| - 1], c, f, k)
      + if k == Layer(last.tick) && f == c * Span(k) + last.tick then [last.data] else []
  }

  lemma {:induction false} InsertAllInv<T>(w: Wheel<T>, c: seq<nat>, tasks: seq<DelayTask<T>>)
    requires Inv(w, c) && Accepted(tasks)
    ensures Inv(InsertAll(w, tasks), c)
  {
    if tasks == [] {
    } else {
      InsertAllInv(w, c, tasks[..|tasks| - 1]);
      InsertInv(InsertAll(w, tasks[..|tasks| - 1]), c, tasks[|tasks| - 1]);
    }
  }

  lemma {:induction false} InsertAllPend<T>(w: Wheel<T>, c: seq<nat>, tasks: seq<DelayTask<T>>, f: nat, k: nat)
    requires Inv(w, c) && Accepted(tasks) && k < LAYERS
    ensures Pend(InsertAll(w, tasks), c, f, k) == Pend(w, c, f, k) + Filed(tasks, c[k], f, k)
  {
    hide Pend, Insert, SlotOk, Slot;
    if tasks == [] {
    } else {
      var init := tasks[..|tasks| - 1];
      InsertAllPend(w, c, init, f, k);
      InsertAllInv(w, c, init);
      InsertPend(InsertAll(w, init), c, tasks[|tasks| - 1], f, k);
    }
  }

  /** Tasks drained from layer j, all due within one slot from the multiple m of its span. */
  lemma {:induction false} FiledBelow<T>(q: seq<DelayTask<T>>, j: nat, m: nat, c: nat, f: nat, k: nat)
    requires 0 < j < LAYERS && k < LAYERS && SlotOk(q, j) && m % Span(j) == 0 && Accepted(q)
    requires k < j ==> c * Span(k) == m
    ensures Filed(q, c, f, k) ==
            if k < j && f / Span(j) == m / Span(j) && Layer(f % Span(j)) == k
            then Matching(q, f % Span(j)) else []
  {
    if q != [] {
      FiledBelow(q[..|q| - 1], j, m, c, f, k);
      var t := q[|q| - 1].tick;
      assert Layer(t) < j;
      DivMod(m, Span(j));
      DueSplit(Span(j), m / Span(j), t, f);
      assert t / Span(j) == 0 && t % Span(j) == t;
    } else {
      assert f % Span(j) < CAPACITY;
      if k < j && f / Span(j) == m / Span(j) && Layer(f % Span(j)) == k { }
    }
  }

  /** The five layers' tasks with deadline f. */
  function Queues<T>(w: Wheel<T>, c: seq<nat>, f: nat): (qs: seq<seq<T>>)
    requires w.Shape() && |c| == LAYERS
    ensures |qs| == LAYERS
  {
    seq(LAYERS, k requires 0 <= k < LAYERS => Pend(w, c, f, k))
  }

  /** Deadline f's share of rolling layer j to the multiple n + 1 of its span: when the slot
      that holds f comes up, its tasks move, in order, behind those of a lower layer. */
  function RollQueues<T>(qs: seq<seq<T>>, n: nat, f: nat, j: nat): (r: seq<seq<T>>)
    requires |qs| == LAYERS && j < LAYERS
    ensures |r| == LAYERS
  {
    if j > 0 && f / Span(j) == (n + 1) / Span(j)
    then qs[Layer(f % Span(j)) := qs[Layer(f % Span(j))] + qs[j]][j := []]
    else qs
  }

  lemma ClockStep(n: nat, j: nat)
    requires j < LAYERS && (n + 1) % Span(j) == 0
    ensures Clock(n, j + 1) == Clock(n, j)[j := Clock(n, j)[j] + 1]
    ensures Clock(n, j + 1)[j] == (n + 1) / Span(j)
  {
    OdometerLayer(n, Span(j));
  }

  /** The slots of one layer. */
  function LayerSlots<T>(w: Wheel<T>, k: nat): (q: seq<seq<DelayTask<T>>>)
    requires w.Shape() && k < LAYERS
    ensures |q| == SLOTS && forall s | 0 <= s < SLOTS :: q[s] == Slot(w, k, s)
  {
    w.slots[k * SLOTS..(k + 1) * SLOTS]
  }

  /** The tasks with deadline f in the slots q of layer k when it has turned c times. */
  function PendIn<T>(q: seq<seq<DelayTask<T>>>, c: nat, f: nat, k: nat): seq<T>
    requires |q| == SLOTS && k < LAYERS
  {
    if InWindow(c, f, k) then Matching(q[f / Span(k) % SLOTS], f % Span(k)) else []
  }

  /** Layer 0 turns away from an empty slot. */
  lemma FrontStep<T>(q: seq<seq<DelayTask<T>>>, c: nat, f: nat)
    requires |q| == SLOTS && q[c % SLOTS] == []
    ensures PendIn(q, c + 1, f, 0) == if f == c then [] else PendIn(q, c, f, 0)
  {
    assert f / Span(0) == f;
    assert InWindow(c, f, 0) <==> c <= f < c + 64;
    assert InWindow(c + 1, f, 0) <==> c + 1 <= f < c + 65;
    if f == c + 64 { FullTurn(c); }
  }

  lemma FullTurn(c: nat)
    ensures (c + 64) % SLOTS == c % SLOTS
  {
  }

  /** An upper layer turns to its next slot, which is taken out; the one it leaves was empty. */
  lemma UpperStep<T>(q: seq<seq<DelayTask<T>>>, c: nat, f: nat, k: nat)
    requires 0 < k < LAYERS && |q| == SLOTS && q[c % SLOTS] == []
    ensures PendIn(q[(c + 1) % SLOTS := []], c + 1, f, k) ==
            if f / Span(k) == c + 1 then [] else PendIn(q, c, f, k)
  {
    var x := f / Span(k);
    if c + 1 < x <= c + 64 {
      SameSlot(c + 1, x, c + 1);
      if x == c + 64 { FullTurn(c); }
    }
  }

  /** Layer j turned by one with its new current slot emptied (its old one, for layer 0). */
  function Drained<T>(w: Wheel<T>, j: nat): (r: Wheel<T>)
    requires w.Shape() && j < LAYERS
    ensures r.Shape()
  {
    var i := (w.indexs[j] + 1) % SLOTS;
    var w' := SetIndex(w, j, i);
    if j == 0 then w' else ClearSlot(w', j * SLOTS + i)
  }

  lemma DrainedSlots<T>(w: Wheel<T>, j: nat)
    requires InRange(w) && j < LAYERS
    ensures var i := (w.indexs[j] + 1) % SLOTS;
            forall k, s | 0 <= k < LAYERS && 0 <= s < SLOTS ::
              Slot(Drained(w, j), k, s) == if k == j && j > 0 && s == i then [] else Slot(w, k, s)
  {
  }

  lemma DrainedInv<T>(w: Wheel<T>, c: seq<nat>, j: nat)
    requires Inv(w, c) && j < LAYERS
    ensures Inv(Drained(w, j), c[j := c[j] + 1])
  {
    var d := Drained(w, j);
    NextSlot(w.indexs[j], c[j]);
    DrainedSlots(w, j);
    forall k, s | 0 <= k < LAYERS && 0 <= s < SLOTS
      ensures SlotOk(Slot(d, k, s), k) && (k > 0 && s == d.indexs[k] ==> Slot(d, k, s) == [])
    {
      assert SlotOk(Slot(w, k, s), k);
      assert k > 0 && s == w.indexs[k] ==> Slot(w, k, s) == [];
    }
  }

  lemma NextSlot(i: nat, c: nat)
    requires i == c % SLOTS
    ensures (i + 1) % SLOTS == (c + 1) % SLOTS
  {
  }

  /** Other layers see nothing of it. */
  lemma DrainedElsewhere<T>(w: Wheel<T>, c: seq<nat>, j: nat, f: nat, k: nat)
    requires Inv(w, c) && j < LAYERS && k < LAYERS && k != j
    ensures Pend(Drained(w, j), c[j := c[j] + 1], f, k) == Pend(w, c, f, k)
  {
    DrainedSlots(w, j);
  }

  lemma PendLayer<T>(w: Wheel<T>, c: seq<nat>, f: nat, k: nat)
    requires w.Shape() && |c| == LAYERS && k < LAYERS
    ensures Pend(w, c, f, k) == PendIn(LayerSlots(w, k), c[k], f, k)
  {
  }

  lemma DrainedLayer<T>(w: Wheel<T>, j: nat)
    requires InRange(w) && j < LAYERS
    ensures var q, i := LayerSlots(w, j), (w.indexs[j] + 1) % SLOTS;
            LayerSlots(Drained(w, j), j) == if j > 0 then q[i := []] else q
  {
    var q, i := LayerSlots(w, j), (w.indexs[j] + 1) % SLOTS;
    DrainedSlots(w, j);
    forall s | 0 <= s < SLOTS
      ensures LayerSlots(Drained(w, j), j)[s] == (if j > 0 then q[i := []] else q)[s]
    {
    }
  }

  lemma DrainedFront<T>(w: Wheel<T>, c: seq<nat>, f: nat)
    requires InRange(w) && |c| == LAYERS && w.indexs[0] == c[0] % SLOTS && Slot(w, 0, w.indexs[0]) == []
    ensures Pend(Drained(w, 0), c[0 := c[0] + 1], f, 0) == if f == c[0] then [] else Pend(w, c, f, 0)
  {
    DrainedLayer(w, 0);
    PendLayer(w, c, f, 0);
    PendLayer(Drained(w, 0), c[0 := c[0] + 1], f, 0);
    FrontStep(LayerSlots(w, 0), c[0], f);
  }

  lemma DrainedUpper<T>(w: Wheel<T>, c: seq<nat>, j: nat, f: nat)
    requires 0 < j < LAYERS && InRange(w) && |c| == LAYERS
    requires w.indexs[j] == c[j] % SLOTS && Slot(w, j, w.indexs[j]) == []
    ensures Pend(Drained(w, j), c[j := c[j] + 1], f, j) ==
            if f / Span(j) == c[j] + 1 then [] else Pend(w, c, f, j)
  {
    DrainedLayer(w, j);
    PendLayer(w, c, f, j);
    PendLayer(Drained(w, j), c[j := c[j] + 1], f, j);
    NextSlot(w.indexs[j], c[j]);
    UpperStep(LayerSlots(w, j), c[j], f, j);
  }

  lemma DrainedPend<T>(w: Wheel<T>, c: seq<nat>, j: nat, f: nat, k: nat)
    requires Inv(w, c) && j < LAYERS && k < LAYERS
    requires j == 0 ==> Slot(w, 0, w.indexs[0]) == []
    ensures Pend(Drained(w, j), c[j := c[j] + 1], f, k) ==
            if k == j && j > 0 && f / Span(j) == c[j] + 1 then []
            else if k == 0 == j && f == c[0] then []
            else Pend(w, c, f, k)
  {
    if k != j {
      DrainedElsewhere(w, c, j, f, k);
    } else if j == 0 {
      DrainedFront(w, c, f);
    } else {
      assert Slot(w, j, w.indexs[j]) == [];
      DrainedUpper(w, c, j, f);
    }
  }

  lemma MultipleBelow(m: nat, j: nat)
    requires 0 < j < LAYERS && m % Span(j) == 0
    ensures m % Span(j - 1) == 0
  {
    OdometerCarry(m, Span(j - 1));
    assert Span(j) == 64 * Span(j - 1);
  }

  /** A multiple of a layer's span is a multiple of every lower span. */
  lemma {:induction false} LowerMultiple(m: nat, j: nat, k: nat)
    requires k <= j < LAYERS && m % Span(j) == 0
    ensures m / Span(k) * Span(k) == m
  {
    DivMod(m, Span(j));
    if k == j {
    } else {
      MultipleBelow(m, j);
      LowerMultiple(m, j - 1, k);
    }
  }

  lemma RollInv<T>(w: Wheel<T>, n: nat, j: nat)
    requires j < LAYERS && (n + 1) % Span(j) == 0 && Inv(w, Clock(n, j))
    ensures Inv(Roll(w, j), Clock(n, j + 1))
    ensures Inv(Drained(w, j), Clock(n, j + 1))
  {
    ClockStep(n, j);
    DrainedInv(w, Clock(n, j), j);
    if j > 0 {
      var q := Slot(w, j, (w.indexs[j] + 1) % SLOTS);
      RollDrained(w, j);
      assert SlotOk(q, j);
      InsertAllInv(Drained(w, j), Clock(n, j + 1), q);
    }
  }

  lemma RollDrained<T>(w: Wheel<T>, j: nat)
    requires InRange(w) && 0 < j < LAYERS
    ensures Roll(w, j) == InsertAll(Drained(w, j), Slot(w, j, (w.indexs[j] + 1) % SLOTS))
  {
  }

  /** What layer k is given when the slot of layer j that comes up is emptied. */
  lemma RollFiled<T>(w: Wheel<T>, n: nat, j: nat, f: nat, k: nat)
    requires 0 < j < LAYERS && k < LAYERS && (n + 1) % Span(j) == 0 && Inv(w, Clock(n, j))
    ensures var q := Slot(w, j, (w.indexs[j] + 1) % SLOTS);
            && Accepted(q)
            && Filed(q, Clock(n, j + 1)[k], f, k) ==
               if k < j && f / Span(j) == (n + 1) / Span(j) && Layer(f % Span(j)) == k
               then Pend(w, Clock(n, j), f, j) else []
  {
    var q := Slot(w, j, (w.indexs[j] + 1) % SLOTS);
    ClockStep(n, j);
    NextSlot(w.indexs[j], Clock(n, j)[j]);
    assert SlotOk(q, j);
    if k < j { LowerMultiple(n + 1, j, k); }
    FiledBelow(q, j, n + 1, Clock(n, j + 1)[k], f, k);
  }

  lemma RollPend<T>(w: Wheel<T>, n: nat, j: nat, f: nat, k: nat)
    requires 0 < j < LAYERS && k < LAYERS && (n + 1) % Span(j) == 0 && Inv(w, Clock(n, j))
    ensures Pend(Roll(w, j), Clock(n, j + 1), f, k) ==
            Pend(Drained(w, j), Clock(n, j + 1), f, k)
            + if k < j && f / Span(j) == (n + 1) / Span(j) && Layer(f % Span(j)) == k
              then Pend(w, Clock(n, j), f, j) else []
  {
    RollInv(w, n, j);
    RollDrained(w, j);
    RollFiled(w, n, j, f, k);
    InsertAllPend(Drained(w, j), Clock(n, j + 1), Slot(w, j, (w.indexs[j] + 1) % SLOTS), f, k);
  }

  lemma RollAt<T>(w: Wheel<T>, n: nat, j: nat, f: nat, k: nat)
    requires j < LAYERS && k < LAYERS && (n + 1) % Span(j) == 0 && Inv(w, Clock(n, j)) && f > n
    requires j == 0 ==> Slot(w, 0, w.indexs[0]) == []
    ensures Pend(Roll(w, j), Clock(n, j + 1), f, k) == RollQueues(Queues(w, Clock(n, j), f), n, f, j)[k]
  {
    ClockStep(n, j);
    DrainedPend(w, Clock(n, j), j, f, k);
    if j > 0 { RollPend(w, n, j, f, k); }
  }

  /** One layer of the carry, seen by the deadline f. */
  lemma RollStep<T>(w: Wheel<T>, n: nat, j: nat, f: nat)
    requires j < LAYERS && (n + 1) % Span(j) == 0 && Inv(w, Clock(n, j)) && f > n
    requires j == 0 ==> Slot(w, 0, w.indexs[0]) == []
    ensures Inv(Roll(w, j), Clock(n, j + 1))
    ensures Queues(Roll(w, j), Clock(n, j + 1), f) == RollQueues(Queues(w, Clock(n, j), f), n, f, j)
  {
    RollInv(w, n, j);
    forall k | 0 <= k < LAYERS
      ensures Queues(Roll(w, j), Clock(n, j + 1), f)[k] == RollQueues(Queues(w, Clock(n, j), f), n, f, j)[k]
    {
      RollAt(w, n, j, f, k);
    }
  }

  /** Deadline f's share of a whole carry that starts at layer j. */
  function CarryQueues<T>(qs: seq<seq<T>>, n: nat, f: nat, j: nat): (r: seq<seq<T>>)
    requires |qs| == LAYERS && j < LAYERS
    ensures |r| == LAYERS
    decreases LAYERS - j
  {
    var qs' := RollQueues(qs, n, f, j);
    if j + 1 == LAYERS || (n + 1) % Span(j + 1) != 0 then qs' else CarryQueues(qs', n, f, j + 1)
  }

  lemma {:induction false} ClockDone(n: nat, j: nat, k: nat)
    requires j < LAYERS && j <= k <= LAYERS && (n + 1) % Span(j) != 0
    ensures (n + 1) % Span(k) != 0
    decreases k
  {
    if j == k {
    } else {
      ClockDone(n, j, k - 1);
      assert Span(k) == 64 * Span(k - 1);
      OdometerCarry(n + 1, Span(k - 1));
    }
  }

  lemma ClockStops(n: nat, j: nat)
    requires j <= LAYERS && (j < LAYERS ==> (n + 1) % Span(j) != 0)
    ensures Clock(n, j) == Clock(n + 1, 0)
  {
    forall k | j <= k < LAYERS
      ensures (n + 1) / Span(k) == n / Span(k)
    {
      ClockDone(n, j, k);
      OdometerLayer(n, Span(k));
    }
  }

  lemma {:induction false} CarryStep<T>(w: Wheel<T>, n: nat, j: nat, f: nat)
    requires j < LAYERS && (n + 1) % Span(j) == 0 && Inv(w, Clock(n, j)) && f > n
    requires j == 0 ==> Slot(w, 0, w.indexs[0]) == []
    ensures Inv(Carry(w, j), Clock(n + 1, 0))
    ensures Queues(Carry(w, j), Clock(n + 1, 0), f) == CarryQueues(Queues(w, Clock(n, j), f), n, f, j)
    decreases LAYERS - j
  {
    hide Queues, Slot, SlotOk, RollQueues, Roll;
    RollStep(w, n, j, f);
    ClockStep(n, j);
    OdometerCarry(n + 1, Span(j));
    if j + 1 == LAYERS || (n + 1) % Span(j + 1) != 0 {
      ClockStops(n, j + 1);
    } else {
      CarryStep(Roll(w, j), n, j + 1, f);
    }
  }

  /** The front slot, once handed out. */
  lemma FrontInv<T>(w: Wheel<T>, c: seq<nat>)
    requires Inv(w, c)
    ensures var d := ClearSlot(w, w.indexs[0]); Inv(d, c) && Slot(d, 0, d.indexs[0]) == []
  {
    var d, i := ClearSlot(w, w.indexs[0]), w.indexs[0];
    forall k, s | 0 <= k < LAYERS && 0 <= s < SLOTS
      ensures Slot(d, k, s) == (if k == 0 && s == i then [] else Slot(w, k, s)) && SlotOk(Slot(d, k, s), k)
    {
      assert SlotOk(Slot(w, k, s), k);
    }
  }

  lemma FrontDue<T>(w: Wheel<T>, n: nat)
    requires Inv(w, Clock(n, 0))
    ensures Front(w) == Pend(w, Clock(n, 0), n, 0)
  {
    assert Slot(w, 0, w.indexs[0]) == w.slots[w.indexs[0]];
    MatchingAll(Slot(w, 0, w.indexs[0]));
    assert n / Span(0) == n && n % Span(0) == 0;
  }

  /** Handing out the front slot leaves later deadlines alone. */
  lemma FrontLater<T>(w: Wheel<T>, n: nat, f: nat, k: nat)
    requires Inv(w, Clock(n, 0)) && f > n && k < LAYERS
    ensures Pend(ClearSlot(w, w.indexs[0]), Clock(n, 0), f, k) == Pend(w, Clock(n, 0), f, k)
  {
    if k == 0 && InWindow(n, f, 0) { SameSlot(n, f, n); }
  }

  /** One iteration: the callback gets exactly what is due now, and every later deadline
      only sees its tasks moved down. */
  lemma AdvanceStep<T>(w: Wheel<T>, n: nat, f: nat)
    requires Inv(w, Clock(n, 0))
    ensures Front(w) == Queues(w, Clock(n, 0), n)[0]
    ensures Inv(Advance(w), Clock(n + 1, 0))
    ensures f > n ==>
              Queues(Advance(w), Clock(n + 1, 0), f) == CarryQueues(Queues(w, Clock(n, 0), f), n, f, 0)
  {
    var c, d := Clock(n, 0), ClearSlot(w, w.indexs[0]);
    FrontDue(w, n);
    FrontInv(w, c);
    var g := if f > n then f else n + 1;
    forall k | 0 <= k < LAYERS
      ensures Queues(d, c, g)[k] == Queues(w, c, g)[k]
    {
      FrontLater(w, n, g, k);
    }
    assert Queues(d, c, g) == Queues(w, c, g);
    CarryStep(d, n, 0, g);
  }

  lemma {:induction false} MatchingAll<T>(q: seq<DelayTask<T>>)
    requires SlotOk(q, 0)
    ensures Matching(q, 0) == DataOf(q)
  {
    if q == [] {
    } else {
      MatchingAll(q[..|q| - 1]);
      assert DataOf(q) == DataOf(q[..|q| - 1]) + [q[|q| - 1].data];
    }
  }

  // ---- A drained slot is never written while it is being read ----

  predicate Small<T>(w: Wheel<T>) {
    w.Shape() && forall k, s | 0 <= k < LAYERS && 0 <= s < SLOTS :: SlotOk(Slot(w, k, s), k)
  }

  lemma InsertSmall<T>(w: Wheel<T>, task: DelayTask<T>)
    requires Small(w)
    ensures Small(Insert(w, task))
  {
    if task.tick < CAPACITY {
      var i := Target(w, task.tick);
      forall k, s | 0 <= k < LAYERS && 0 <= s < SLOTS
        ensures SlotOk(Slot(Insert(w, task), k, s), k)
      {
        assert SlotOk(Slot(w, k, s), k);
        if k * SLOTS + s == i { assert k == Layer(task.tick); }
      }
    }
  }

  /** Tasks that fit below layer j go to queues below layer j, whatever is in slot i. */
  lemma {:induction false} InsertBelow<T>(w: Wheel<T>, tasks: seq<DelayTask<T>>, j: nat, i: nat)
    requires 0 < j < LAYERS && j * SLOTS <= i < COUNT && Small(w) && SlotOk(tasks, j)
    ensures Small(InsertAll(w, tasks)) && InsertAll(w, tasks).slots[i] == w.slots[i]
    ensures ClearSlot(InsertAll(w, tasks), i) == InsertAll(ClearSlot(w, i), tasks)
  {
    if tasks == [] {
    } else {
      var init, last := tasks[..|tasks| - 1], tasks[|tasks| - 1];
      InsertBelow(w, init, j, i);
      InsertSmall(InsertAll(w, init), last);
      assert Layer(last.tick) < j;
      assert Target(InsertAll(w, init), last.tick) < i;
    }
  }

  /** A task for a lower layer is filed the same whatever is in slot i. */
  lemma InsertBeside<T>(w: Wheel<T>, task: DelayTask<T>, j: nat, i: nat, q: seq<DelayTask<T>>)
    requires w.Shape() && 0 < j < LAYERS && j * SLOTS <= i < COUNT && task.tick < Span(j)
    ensures Insert(SetSlot(w, i, q), task) == SetSlot(Insert(w, task), i, q)
  {
    SpanBelow(j);
    assert Layer(task.tick) < j;
    assert Target(w, task.tick) < i;
  }

  /** How many tasks are filed before the first delay that is refused. */
  function Filable<T>(tasks: seq<DelayTask<T>>): (n: nat)
    ensures n <= |tasks| && Accepted(tasks[..n])
    ensures n < |tasks| ==> tasks[n].tick >= CAPACITY
    ensures n == |tasks| <==> Accepted(tasks)
  {
    if tasks == [] || tasks[0].tick >= CAPACITY then 0
    else
      var n := Filable(tasks[1..]);
      assert forall k | 0 <= k < n :: tasks[k + 1] == tasks[1..][..n][k];
      1 + n
  }

  lemma {:induction false} FilableIs<T>(tasks: seq<DelayTask<T>>, n: nat)
    requires n < |tasks| && Accepted(tasks[..n]) && tasks[n].tick >= CAPACITY
    ensures Filable(tasks) == n
  {
    if n == 0 {
    } else {
      assert tasks[..n][0] == tasks[0];
      assert tasks[1..][..n - 1] == tasks[..n][1..];
      FilableIs(tasks[1..], n - 1);
    }
  }

  /** The queue with what is left of its first n tasks' delays. */
  function Masked<T>(tasks: seq<DelayTask<T>>, n: nat): (r: seq<DelayTask<T>>)
    requires n <= |tasks| && Accepted(tasks[..n])
    ensures |r| == |tasks|
  {
    seq(|tasks|, i requires 0 <= i < |tasks| => if i < n then Kept(tasks[..n][i]) else tasks[i])
  }

  lemma MaskNext<T>(tasks: seq<DelayTask<T>>, n: nat)
    requires n < |tasks| && Accepted(tasks[..n]) && tasks[n].tick < CAPACITY
    ensures Accepted(tasks[..n + 1])
    ensures Masked(tasks, n)[n] == tasks[n]
    ensures Masked(tasks, n + 1) == Masked(tasks, n)[n := Kept(tasks[n])]
  {
    assert forall k | 0 <= k < n :: tasks[..n + 1][k] == tasks[..n][k];
  }

  lemma InsertAllNext<T>(w: Wheel<T>, tasks: seq<DelayTask<T>>, n: nat)
    requires w.Shape() && n < |tasks|
    ensures InsertAll(w, tasks[..n + 1]) == Insert(InsertAll(w, tasks[..n]), tasks[n])
    ensures Accepted(tasks[..n]) && tasks[n].tick < CAPACITY ==> Accepted(tasks[..n + 1])
  {
    assert tasks[..n + 1][..n] == tasks[..n];
  }

  lemma IndexSmall<T>(w: Wheel<T>, j: nat, v: nat)
    requires Small(w) && j < LAYERS
    ensures Small(SetIndex(w, j, v))
  {
    forall k, s | 0 <= k < LAYERS && 0 <= s < SLOTS
      ensures SlotOk(Slot(SetIndex(w, j, v), k, s), k)
    {
      assert SlotOk(Slot(w, k, s), k);
    }
  }

  lemma ClearSmall<T>(w: Wheel<T>, i: nat)
    requires Small(w) && i < COUNT
    ensures Small(ClearSlot(w, i))
  {
    forall k, s | 0 <= k < LAYERS && 0 <= s < SLOTS
      ensures SlotOk(Slot(ClearSlot(w, i), k, s), k)
    {
      assert SlotOk(Slot(w, k, s), k);
    }
  }

  lemma CascadeSmall<T>(w: Wheel<T>, j: nat)
    requires Small(w) && 0 < j < LAYERS && w.indexs[j] < SLOTS
    ensures Small(Cascade(w, j))
  {
    var i := j * SLOTS + w.indexs[j];
    assert SlotOk(Slot(w, j, w.indexs[j]), j);
    ClearSmall(w, i);
    InsertBelow(ClearSlot(w, i), w.slots[i], j, i);
  }

  lemma RollSmall<T>(w: Wheel<T>, j: nat)
    requires Small(w) && InRange(w) && j < LAYERS
    ensures Small(Roll(w, j))
  {
    var x := (w.indexs[j] + 1) % SLOTS;
    IndexSmall(w, j, x);
    if j > 0 { CascadeSmall(SetIndex(w, j, x), j); }
  }

  lemma SpanBelow(j: nat)
    requires j <= LAYERS
    ensures Span(j) <= CAPACITY
  {
  }
}
