/** Session ids: bit 63 tells a reply from a request. */
module SessionDef {
  const REPLY_BIT: nat := 0x8000_0000_0000_0000

  type SessionId = x: nat | x < 2 * REPLY_BIT

  const INVALID: SessionId := 0

  function SendToReply(id: SessionId): SessionId {
    if id >= REPLY_BIT then id else id + REPLY_BIT
  }

  function ReplyToSend(id: SessionId): SessionId {
    id % REPLY_BIT
  }

  predicate IsReplyId(id: SessionId) {
    id / REPLY_BIT == 1
  }

  predicate IsSendId(id: SessionId) {
    id / REPLY_BIT == 0
  }

  /** Every id is one or the other; a request id survives the trip through its reply id, and
      different requests have different reply ids. */
  lemma ReplyRoundTrip(id: SessionId, other: SessionId)
    ensures IsSendId(id) <==> !IsReplyId(id)
    ensures IsReplyId(SendToReply(id)) && IsSendId(ReplyToSend(id))
    ensures ReplyToSend(SendToReply(id)) == id <==> IsSendId(id)
    ensures IsSendId(id) && IsSendId(other) && SendToReply(id) == SendToReply(other) ==> id == other
  {
  }
}

/** The id generator: 10 bits of worker, then a 53-bit counter that starts at the clock. */
module Snowflake {
  import opened SessionDef

  const SEQ_SIZE: nat := 4096                   // ids per millisecond
  const COUNTER: nat := 0x20_0000_0000_0000     // 2^53
  const WORD: nat := 0x1_0000_0000_0000_0000    // 2^64
  const MAX_WORKER: nat := 1023
  const EPOCH_MS: nat := 1588435200000

  /** The counter of a generator made at this time. */
  function StartSeq(unixMs: nat): (q: nat)
    ensures q < WORD
  {
    (unixMs + WORD - EPOCH_MS) % WORD * SEQ_SIZE % WORD
  }

  /** The shift and the 64 bits lose nothing but multiples of 2^64, whatever the clock says. */
  lemma StartSeqIs(unixMs: nat) returns (wraps: int)
    ensures StartSeq(unixMs) == (unixMs - EPOCH_MS) * SEQ_SIZE + wraps * WORD
  {
    var x := unixMs + WORD - EPOCH_MS;
    var r := x % WORD;
    wraps := SEQ_SIZE - x / WORD * SEQ_SIZE - r * SEQ_SIZE / WORD;
    assert r == x - x / WORD * WORD;
  }

  function IdOf(worker: nat, seq_: nat): nat {
    worker * COUNTER + seq_ % COUNTER
  }

  class SeataSnowflake {
    const worker: nat
    var seq_: nat

    ghost predicate Valid()
      reads this
    {
      worker <= MAX_WORKER && seq_ < WORD
    }

    constructor (worker: nat, unixMs: nat)
      requires worker <= MAX_WORKER
      ensures Valid() && this.worker == worker && seq_ == StartSeq(unixMs)
    {
      this.worker := worker;
      seq_ := StartSeq(unixMs);
    }

    /** Refuses a worker number that does not fit its bits. */
    static method Make(worker: nat, unixMs: nat) returns (g: SeataSnowflake?)
      ensures g == null <==> worker > MAX_WORKER
      ensures g != null ==> fresh(g) && g.Valid() && g.worker == worker && g.seq_ == StartSeq(unixMs)
    {
      if worker > MAX_WORKER {
        g := null;
      } else {
        g := new SeataSnowflake(worker, unixMs);
      }
    }

    method NextId() returns (id: SessionId)
      requires Valid()
      modifies this
      ensures Valid() && seq_ == (old(seq_) + 1) % WORD
      ensures id == IdOf(worker, seq_) && IsSendId(id)
      ensures id / COUNTER == worker && id % COUNTER == (old(seq_) + 1) % COUNTER
    {
      seq_ := (seq_ + 1) % WORD;
      id := worker * COUNTER + seq_ % COUNTER;
    }
  }

  // ---- Any set of workers, restarted any number of times ----

  datatype Event = Boot(worker: nat, unixMs: nat) | Issue(worker: nat)

  datatype Nodes = Nodes(
    counters: map<nat, nat>,
    ids: seq<nat>,
    boots: map<nat, nat>,     // history: when each worker was last started,
    issued: map<nat, nat>)    // and how many ids it has given out since

  const NONE: Nodes := Nodes(map[], [], map[], map[])

  /** The worker number fits and the time is within the 41 bits after the epoch. */
  predicate InTime(w: nat, ms: nat) {
    w <= MAX_WORKER && EPOCH_MS <= ms && (ms - EPOCH_MS) * SEQ_SIZE < COUNTER
  }

  /** More ids were given out since the last start than 4096 for each millisecond until now. */
  predicate Hurried(y: Nodes, w: nat, ms: nat)
    requires w in y.boots && w in y.issued
  {
    y.issued[w] > (ms - y.boots[w]) * SEQ_SIZE
  }

  /** A boot is in time and not hurried; an issue stays within 53 bits. */
  predicate Legal(y: Nodes, e: Event) {
    match e
    case Boot(w, ms) => InTime(w, ms) && (w in y.boots && w in y.issued ==> !Hurried(y, w, ms))
    case Issue(w) => w in y.counters && y.counters[w] + 1 < COUNTER
  }

  function Apply(y: Nodes, e: Event): Nodes {
    match e
    case Boot(w, ms) =>
      y.(counters := y.counters[w := StartSeq(ms)], boots := y.boots[w := ms], issued := y.issued[w := 0])
    case Issue(w) =>
      if w !in y.counters || w !in y.issued then y else
      var q := (y.counters[w] + 1) % WORD;
      y.(counters := y.counters[w := q], ids := y.ids + [IdOf(w, q)], issued := y.issued[w := y.issued[w] + 1])
  }

  predicate Runs(y: Nodes, es: seq<Event>)
    decreases |es|
  {
    es == [] || (Legal(y, es[0]) && Runs(Apply(y, es[0]), es[1..]))
  }

  function After(y: Nodes, es: seq<Event>): Nodes
    decreases |es|
  {
    if es == [] then y else After(Apply(y, es[0]), es[1..])
  }

  /** The counter of a worker is the clock at its start and the ids since then. */
  predicate Counted(y: Nodes, w: nat)
    requires w in y.counters
  {
    && w in y.boots && w in y.issued && InTime(w, y.boots[w])
    && y.counters[w] == (y.boots[w] - EPOCH_MS) * SEQ_SIZE + y.issued[w] < COUNTER
  }

  /** Every id is some worker's number with a counter value that worker has already passed. */
  predicate Past(y: Nodes, id: nat) {
    id / COUNTER in y.counters && 0 < id % COUNTER <= y.counters[id / COUNTER]
  }

  /** This counter value of the worker was given out since its start. */
  predicate Given(y: Nodes, w: nat, q: nat) {
    w in y.counters && w in y.issued && q <= y.counters[w] < q + y.issued[w]
  }

  ghost predicate Inv(y: Nodes) {
    && y.boots.Keys == y.issued.Keys == y.counters.Keys
    && (forall w | w in y.counters :: Counted(y, w))
    && (forall i | 0 <= i < |y.ids| :: Past(y, y.ids[i]))
    && (forall i, j | 0 <= i < j < |y.ids| :: y.ids[i] != y.ids[j])
    && (forall w, q | Given(y, w, q) :: IdOf(w, q) in y.ids)
  }

  lemma StartInRange(ms: nat)
    requires EPOCH_MS <= ms && (ms - EPOCH_MS) * SEQ_SIZE < COUNTER
    ensures StartSeq(ms) == (ms - EPOCH_MS) * SEQ_SIZE
  {
    assert (ms + WORD - EPOCH_MS) % WORD == ms - EPOCH_MS;
  }

  lemma IdParts(w: nat, q: nat)
    requires q < COUNTER
    ensures IdOf(w, q) / COUNTER == w && IdOf(w, q) % COUNTER == q
  {
  }

  lemma BootInv(y: Nodes, w: nat, ms: nat)
    requires Inv(y) && Legal(y, Boot(w, ms))
    ensures Inv(Apply(y, Boot(w, ms)))
  {
    var z := Apply(y, Boot(w, ms));
    StartInRange(ms);
    forall i | 0 <= i < |z.ids|
      ensures Past(z, z.ids[i])
    {
      assert Past(y, y.ids[i]);
      if w in y.counters { assert Counted(y, w); }
    }
    forall v, q | Given(z, v, q)
      ensures IdOf(v, q) in z.ids
    {
      assert Given(y, v, q);
    }
    forall v | v in z.counters
      ensures Counted(z, v)
    {
      assert v == w || Counted(y, v);
    }
  }

  /** An issue that stays within 53 bits does not wrap. */
  lemma IssueIs(y: Nodes, w: nat)
    requires Inv(y) && Legal(y, Issue(w))
    ensures var z, c := Apply(y, Issue(w)), y.counters[w] + 1;
            && c < COUNTER && z.counters == y.counters[w := c] && z.issued == y.issued[w := y.issued[w] + 1]
            && z.boots == y.boots && z.ids == y.ids + [IdOf(w, c)]
  {
    assert Counted(y, w);
  }

  lemma IssuePast(y: Nodes, w: nat)
    requires Inv(y) && Legal(y, Issue(w))
    ensures var z := Apply(y, Issue(w));
            && (forall i | 0 <= i < |z.ids| :: Past(z, z.ids[i]))
            && (forall i, j | 0 <= i < j < |z.ids| :: z.ids[i] != z.ids[j])
  {
    var z, c := Apply(y, Issue(w)), y.counters[w] + 1;
    IssueIs(y, w);
    IdParts(w, c);
    forall i | 0 <= i < |y.ids|
      ensures Past(z, y.ids[i]) && y.ids[i] != IdOf(w, c)
    {
      assert Past(y, y.ids[i]);
    }
  }

  lemma IssueGiven(y: Nodes, w: nat, v: nat, q: nat)
    requires Inv(y) && Legal(y, Issue(w)) && Given(Apply(y, Issue(w)), v, q)
    ensures IdOf(v, q) in Apply(y, Issue(w)).ids
  {
    IssueIs(y, w);
    if v == w && q == y.counters[w] + 1 {
      assert Apply(y, Issue(w)).ids[|y.ids|] == IdOf(w, q);
    } else {
      assert Given(y, v, q);
    }
  }

  lemma IssueInv(y: Nodes, w: nat)
    requires Inv(y) && Legal(y, Issue(w))
    ensures Inv(Apply(y, Issue(w)))
  {
    var z := Apply(y, Issue(w));
    IssueIs(y, w);
    IssuePast(y, w);
    forall v, q | Given(z, v, q)
      ensures IdOf(v, q) in z.ids
    {
      IssueGiven(y, w, v, q);
    }
    forall v | v in z.counters
      ensures Counted(z, v)
    {
      assert Counted(y, v);
    }
  }

  lemma StepInv(y: Nodes, e: Event)
    requires Inv(y) && Legal(y, e)
    ensures Inv(Apply(y, e))
  {
    match e
    case Boot(w, ms) => BootInv(y, w, ms);
    case Issue(w) => IssueInv(y, w);
  }

  lemma {:induction false} RunInv(y: Nodes, es: seq<Event>)
    requires Inv(y) && Runs(y, es)
    ensures Inv(After(y, es))
    decreases |es|
  {
    if es == [] {
    } else {
      StepInv(y, es[0]);
      RunInv(Apply(y, es[0]), es[1..]);
    }
  }

  /** Ids never repeat, whatever workers there are and however often they restart; each is a
      valid send id and comes back from its reply id. */
  lemma IdsUnique(es: seq<Event>)
    requires Runs(NONE, es)
    ensures var ids := After(NONE, es).ids;
            && (forall i, j | 0 <= i < j < |ids| :: ids[i] != ids[j])
            && (forall i | 0 <= i < |ids| ::
                  && 0 < ids[i] < REPLY_BIT && IsSendId(ids[i])
                  && ReplyToSend(SendToReply(ids[i])) == ids[i])
  {
    RunInv(NONE, es);
    var y := After(NONE, es);
    forall i | 0 <= i < |y.ids|
      ensures 0 < y.ids[i] < REPLY_BIT
    {
      assert Past(y, y.ids[i]) && Counted(y, y.ids[i] / COUNTER);
    }
  }

  /** What the next id after a restart is, and whether it has been given out before. */
  ghost predicate Repeats(y: Nodes, w: nat, ms: nat) {
    var z := Apply(Apply(y, Boot(w, ms)), Issue(w));
    |z.ids| == |y.ids| + 1 && z.ids[|y.ids|] in y.ids
  }

  /** The bound on ids per millisecond is exact: after any run, a worker that is started again,
      the clock not having gone back, repeats an id with the first one it gives out if and only
      if it had given out more than 4096 for each millisecond since its last start. */
  lemma RestartRepeats(es: seq<Event>, w: nat, ms: nat)
    requires Runs(NONE, es) && w in After(NONE, es).boots && w in After(NONE, es).issued
    requires After(NONE, es).boots[w] <= ms && InTime(w, ms) && (ms - EPOCH_MS) * SEQ_SIZE + 1 < COUNTER
    ensures Repeats(After(NONE, es), w, ms) <==> Hurried(After(NONE, es), w, ms)
  {
    var y := After(NONE, es);
    RunInv(NONE, es);
    FirstId(y, w, ms);
    FirstIdGiven(y, w, ms);
  }

  lemma FirstId(y: Nodes, w: nat, ms: nat)
    requires InTime(w, ms) && (ms - EPOCH_MS) * SEQ_SIZE + 1 < COUNTER
    ensures Apply(Apply(y, Boot(w, ms)), Issue(w)).ids == y.ids + [IdOf(w, (ms - EPOCH_MS) * SEQ_SIZE + 1)]
  {
    StartInRange(ms);
  }

  lemma FirstIdGiven(y: Nodes, w: nat, ms: nat)
    requires Inv(y) && w in y.counters && y.boots[w] <= ms && InTime(w, ms)
    requires (ms - EPOCH_MS) * SEQ_SIZE + 1 < COUNTER
    ensures IdOf(w, (ms - EPOCH_MS) * SEQ_SIZE + 1) in y.ids <==> Hurried(y, w, ms)
  {
    var q := (ms - EPOCH_MS) * SEQ_SIZE + 1;
    IdParts(w, q);
    assert Counted(y, w);
    if Hurried(y, w, ms) {
      assert Given(y, w, q);
    } else {
      assert !Past(y, IdOf(w, q));
    }
  }

  /** So a worker that is started twice within a millisecond, with one id in between, repeats it. */
  lemma RestartAtOnce(w: nat, ms: nat)
    requires InTime(w, ms) && (ms - EPOCH_MS) * SEQ_SIZE + 1 < COUNTER
    ensures Runs(NONE, [Boot(w, ms), Issue(w)]) && Repeats(After(NONE, [Boot(w, ms), Issue(w)]), w, ms)
  {
    var y := Apply(NONE, Boot(w, ms));
    StartInRange(ms);
    assert [Boot(w, ms), Issue(w)][1..] == [Issue(w)] && [Issue(w)][1..] == [];
    assert After(y, [Issue(w)]) == After(Apply(y, Issue(w)), []) == Apply(y, Issue(w));
    assert Runs(y, [Issue(w)]);
    assert Apply(y, Issue(w)).ids == [IdOf(w, StartSeq(ms) + 1)];
  }
}
