/** Sending on a connection: any number of senders, and the one coroutine that writes. */
module SendQueue {
  import opened Framing
  import opened Wrappers

  /** What the send lock guards. */
  datatype Queue = Queue(sending: bool, packets: seq<SendPacket>)

  function Pushed(q: Queue, p: SendPacket): Queue {
    Queue(true, q.packets + [p])
  }

  /** The writer takes everything, or stops on an empty queue. */
  function Swapped(q: Queue): Queue {
    Queue(q.sending && q.packets != [], [])
  }

  class TcpConnection {
    var sending: bool
    var sendQueue: seq<SendPacket>
    /** What has been written to the socket. */
    var wire: Packet

    ghost function Value(): Queue
      reads this
    {
      Queue(sending, sendQueue)
    }

    constructor ()
      ensures Value() == Queue(false, []) && wire == []
    {
      sending, sendQueue, wire := false, [], [];
    }

    /** Queues a packet; the caller starts a writer if there is none. */
    method Send(data: Packet, totalSize: nat) returns (start: bool)
      modifies this`sending, this`sendQueue
      ensures Value() == Pushed(old(Value()), SendPacket(data, totalSize))
      ensures start <==> !old(sending)
    {
      sendQueue := sendQueue + [SendPacket(data, totalSize)];
      if sending {
        return false;
      }
      sending := true;
      return true;
    }

    method Take() returns (stop: bool, packets: seq<SendPacket>)
      requires sending
      modifies this`sending, this`sendQueue
      ensures Value() == Swapped(old(Value())) && packets == old(sendQueue)
      ensures stop <==> packets == []
    {
      packets := sendQueue;
      if sendQueue == [] {
        sending := false;
        return true, [];
      }
      sendQueue := [];
      return false, packets;
    }

    /** Writes the packets taken, one after another. */
    method WriteOut(packets: seq<SendPacket>)
      modifies this`wire
      ensures wire == old(wire) + WireAll(packets)
    {
      var left := packets;
      ghost var w0 := wire;
      while left != []
        invariant w0 + WireAll(packets) == wire + WireAll(left)
      {
        var p := left[0];
        if p.totalSize % UINT32 != 0 {
          wire := wire + ToNetwork(p.totalSize % UINT32);
        }
        wire := wire + p.data;
        left := left[1..];
      }
    }

    /** The writer by itself: all that was queued is written, and it stops. */
    method Drain()
      requires sending
      modifies this
      ensures Value() == Queue(false, []) && wire == old(wire) + WireAll(old(sendQueue))
    {
      while true
        invariant sending && wire + WireAll(sendQueue) == old(wire) + WireAll(old(sendQueue))
        decreases |sendQueue|
      {
        var stop, packets := Take();
        if stop { return; }
        WriteOut(packets);
      }
    }
  }

  // ---- All interleavings ----

  /** A writer coroutine: the packets it took, and whether the first one's length is written. */
  datatype Writer = Writer(local: seq<SendPacket>, headed: bool)

  datatype Sys = Sys(
    queue: Queue,
    starting: nat,              // senders about to start a writer
    writers: seq<Writer>,
    wire: Packet,
    failed: bool,               // a write failed
    written: seq<SendPacket>,   // packets written completely
    sent: seq<SendPacket>)      // packets handed to Send, in the order of the lock

  datatype Step =
    | Send(p: SendPacket)
    | Spawn
    | Take(i: nat)
    | WriteLength(i: nat)
    | WriteData(i: nat)
    | Fail(i: nat, k: nat)      // a write fails, k bytes having gone out

  /** What the writer is writing now. */
  function Current(w: Writer): Packet
    requires w.local != []
  {
    if w.headed then w.local[0].data else Length(w.local[0])
  }

  predicate Can(s: Sys, a: Step) {
    match a
    case Send(_) => true
    case Spawn => s.starting > 0
    case Take(i) => i < |s.writers| && s.writers[i].local == []
    case WriteLength(i) => i < |s.writers| && s.writers[i].local != [] && !s.writers[i].headed
    case WriteData(i) => i < |s.writers| && s.writers[i].local != [] && s.writers[i].headed
    case Fail(i, k) => i < |s.writers| && s.writers[i].local != [] && k < |Current(s.writers[i])|
  }

  function Next(s: Sys, a: Step): Sys
    requires Can(s, a)
  {
    match a
    case Send(p) =>
      s.(queue := Pushed(s.queue, p), sent := s.sent + [p], starting := s.starting + if s.queue.sending then 0 else 1)
    case Spawn => s.(starting := s.starting - 1, writers := s.writers + [Writer([], false)])
    case Take(i) =>
      s.(queue := Swapped(s.queue),
         writers := if s.queue.packets == [] then Without(s.writers, i)
                    else s.writers[i := Writer(s.queue.packets, false)])
    case WriteLength(i) =>
      s.(wire := s.wire + Current(s.writers[i]), writers := s.writers[i := s.writers[i].(headed := true)])
    case WriteData(i) =>
      var w := s.writers[i];
      s.(wire := s.wire + Current(w),
         writers := s.writers[i := Writer(w.local[1..], false)],
         written := s.written + [w.local[0]])
    case Fail(i, k) =>
      s.(wire := s.wire + Current(s.writers[i])[..k], writers := Without(s.writers, i), failed := true)
  }

  function Idle(): Sys {
    Sys(Queue(false, []), 0, [], [], false, [], [])
  }

  /** One writer, or one about to start, exactly while the flag is up and no write has failed. */
  predicate SingleFlight(s: Sys) {
    && s.starting + |s.writers| == (if s.queue.sending && !s.failed then 1 else 0)
    && (s.failed ==> s.queue.sending)
    && (!s.queue.sending ==> s.queue.packets == [])
  }

  function Local(s: Sys): seq<SendPacket> {
    if s.writers == [] then [] else s.writers[0].local
  }

  function Begun(s: Sys): Packet {
    if s.writers != [] && s.writers[0].headed && s.writers[0].local != [] then Length(s.writers[0].local[0]) else []
  }

  /** Nothing is lost, doubled or reordered on the way to the socket. */
  predicate Ordered(s: Sys) {
    if s.failed then s.wire <= WireAll(s.sent)
    else
      && s.written + Local(s) + s.queue.packets == s.sent
      && s.wire == WireAll(s.written) + Begun(s)
  }

  predicate Inv(s: Sys) {
    SingleFlight(s) && Ordered(s)
  }

  lemma StepSingle(s: Sys, a: Step)
    requires SingleFlight(s) && Can(s, a)
    ensures SingleFlight(Next(s, a))
  {
  }

  lemma WireSnoc(ps: seq<SendPacket>, p: SendPacket)
    ensures WireAll(ps + [p]) == WireAll(ps) + (Length(p) + p.data)
  {
    WireAppend(ps, [p]);
    assert WireAll([p]) == Wire(p) + WireAll([p][1..]);
  }

  lemma WireNone()
    ensures WireAll([]) == []
  {
  }

  lemma PrefixOfSum(a: Packet, b: Packet)
    ensures a <= a + b
  {
  }

  lemma SplitAt(ps: seq<SendPacket>, p: SendPacket, rest: seq<SendPacket>)
    ensures WireAll(ps + [p] + rest) == WireAll(ps) + Length(p) + p.data + WireAll(rest)
  {
    hide WireAll, Length;
    WireSnoc(ps, p);
    WireAppend(ps + [p], rest);
    assert WireAll(ps) + (Length(p) + p.data) == WireAll(ps) + Length(p) + p.data;
  }

  lemma PrefixesOfSum(a: Packet, b: Packet, c: Packet, d: Packet)
    ensures a + b <= a + b + c + d && a + b + c <= a + b + c + d
  {
    PrefixOfSum(a + b, c);
    PrefixOfSum(a + b + c, d);
  }

  lemma NextBytes(ps: seq<SendPacket>, p: SendPacket, rest: seq<SendPacket>)
    ensures WireAll(ps) + Length(p) <= WireAll(ps + [p] + rest)
    ensures WireAll(ps) + Length(p) + p.data <= WireAll(ps + [p] + rest)
  {
    SplitAt(ps, p, rest);
    PrefixesOfSum(WireAll(ps), Length(p), p.data, WireAll(rest));
  }

  lemma SentSplits(s: Sys)
    requires Inv(s) && !s.failed && Local(s) != []
    ensures s.sent == s.written + [Local(s)[0]] + (Local(s)[1..] + s.queue.packets)
  {
    assert [Local(s)[0]] + Local(s)[1..] == Local(s);
  }

  /** The bytes that the writer is about to write come next in the encoding of what was sent. */
  lemma CurrentNext(s: Sys)
    requires Inv(s) && s.writers != [] && Local(s) != []
    ensures s.wire + Current(s.writers[0]) <= WireAll(s.sent)
  {
    SentSplits(s);
    NextBytes(s.written, Local(s)[0], Local(s)[1..] + s.queue.packets);
  }

  lemma SendOrdered(s: Sys, p: SendPacket)
    requires Inv(s)
    ensures Ordered(Next(s, Send(p)))
  {
    WireSnoc(s.sent, p);
    PrefixOfSum(WireAll(s.sent), Length(p) + p.data);
    assert s.written + Local(s) + (s.queue.packets + [p]) == s.written + Local(s) + s.queue.packets + [p];
  }

  lemma WriteOrdered(s: Sys, i: nat)
    requires Inv(s) && Can(s, WriteData(i))
    ensures Ordered(Next(s, WriteData(i)))
  {
    hide WireAll, Length;
    var p := Local(s)[0];
    WireNone();
    SplitAt(s.written, p, []);
    assert s.written + [p] + [] == s.written + [p];
    assert s.wire + p.data == WireAll(s.written + [p]);
    assert s.written + [p] + Local(s)[1..] == s.written + Local(s);
  }

  lemma StepOrdered(s: Sys, a: Step)
    requires Inv(s) && Can(s, a)
    ensures Ordered(Next(s, a))
  {
    match a
    case Send(p) => SendOrdered(s, p);
    case Spawn =>
    case Take(i) => assert s.written + [] + s.queue.packets == s.written + s.queue.packets + [];
    case WriteLength(i) => assert s.wire == WireAll(s.written);
    case WriteData(i) => WriteOrdered(s, i);
    case Fail(i, k) =>
      CurrentNext(s);
      var c := Current(s.writers[0]);
      assert s.wire + c[..k] <= s.wire + c;
  }

  predicate Runs(s: Sys, run: seq<Step>)
    decreases |run|
  {
    run == [] || (Can(s, run[0]) && Runs(Next(s, run[0]), run[1..]))
  }

  function After(s: Sys, run: seq<Step>): Sys
    requires Runs(s, run)
    decreases |run|
  {
    if run == [] then s else After(Next(s, run[0]), run[1..])
  }

  lemma {:induction false} RunInv(s: Sys, run: seq<Step>)
    requires Inv(s) && Runs(s, run)
    ensures Inv(After(s, run))
    decreases |run|
  {
    if run == [] {
    } else {
      StepSingle(s, run[0]);
      StepOrdered(s, run[0]);
      RunInv(Next(s, run[0]), run[1..]);
    }
  }

  lemma WireIsPrefix(s: Sys)
    requires Inv(s)
    ensures s.wire <= WireAll(s.sent) && (!s.queue.sending ==> s.wire == WireAll(s.sent))
  {
    hide WireAll, Length;
    if s.writers != [] && Local(s) != [] {
      CurrentNext(s);
    } else if !s.failed {
      WireAppend(s.written, s.queue.packets);
      assert s.sent == s.written + s.queue.packets;
      assert s.wire == WireAll(s.written);
      PrefixOfSum(s.wire, WireAll(s.queue.packets));
      assert !s.queue.sending ==> s.sent == s.written;
    }
  }

  /** In every interleaving of senders and writer, with or without a failing write: at most one
      writer, and what is on the wire begins the encoding of what was sent, in order; once the
      flag is down nothing is left. Without a failure every packet is either written, with the
      writer, or in the queue. */
  lemma DrainsInOrder(run: seq<Step>)
    requires Runs(Idle(), run)
    ensures var s := After(Idle(), run);
            && |s.writers| + s.starting <= 1
            && (!s.failed ==> (|s.writers| + s.starting == 1 <==> s.queue.sending))
            && s.wire <= WireAll(s.sent)
            && (!s.failed ==> s.written + Local(s) + s.queue.packets == s.sent)
            && (!s.queue.sending ==> s.wire == WireAll(s.sent))
  {
    RunInv(Idle(), run);
    WireIsPrefix(After(Idle(), run));
  }

  // ---- The writer stops, and only when everything is written ----

  /** How many steps are left without another packet: two for each packet with the writer, one
      more for each in the queue, and those to start and to stop. */
  function Left(s: Sys): nat {
    3 * |s.queue.packets| + 2 * s.starting +
    if s.writers == [] then 0
    else
      var w := s.writers[0];
      1 + 2 * |w.local| - if w.headed && w.local != [] then 1 else 0
  }

  lemma StepLess(s: Sys, a: Step)
    requires SingleFlight(s) && Can(s, a) && !a.Send?
    ensures Left(Next(s, a)) < Left(s)
  {
  }

  /** Only another Send can happen. */
  predicate AtRest(s: Sys) {
    && s.starting == 0
    && forall i | 0 <= i < |s.writers| ::
         !Can(s, Take(i)) && !Can(s, WriteLength(i)) && !Can(s, WriteData(i))
  }

  lemma WriterCan(s: Sys)
    requires s.writers != []
    ensures Can(s, Take(0)) || Can(s, WriteLength(0)) || Can(s, WriteData(0))
  {
  }

  lemma {:induction false} StopsSoon(s: Sys, run: seq<Step>)
    requires Inv(s) && Runs(s, run) && forall a | a in run :: !a.Send?
    ensures |run| + Left(After(s, run)) <= Left(s)
    decreases |run|
  {
    hide Left, Inv, Next, Can;
    if run == [] {
    } else {
      assert run[0] in run;
      InvSingle(s);
      StepLess(s, run[0]);
      StepSingle(s, run[0]);
      StepOrdered(s, run[0]);
      InvIs(Next(s, run[0]));
      StopsSoon(Next(s, run[0]), run[1..]);
    }
  }

  lemma InvSingle(s: Sys)
    requires Inv(s)
    ensures SingleFlight(s)
  {
  }

  lemma InvIs(s: Sys)
    requires SingleFlight(s) && Ordered(s)
    ensures Inv(s)
  {
  }

  /** From every point of every run: without another Send there are at most so many steps more, and
      when none is left the writer has stopped; if no write failed, all is on the wire. */
  lemma EverythingIsWritten(run: seq<Step>, more: seq<Step>)
    requires Runs(Idle(), run) && Runs(After(Idle(), run), more) && forall a | a in more :: !a.Send?
    ensures |more| <= Left(After(Idle(), run))
    ensures var t := After(After(Idle(), run), more);
            AtRest(t) ==>
              && t.starting == 0 && t.writers == []
              && (!t.failed ==> !t.queue.sending && t.queue.packets == [] && t.wire == WireAll(t.sent))
  {
    hide Left;
    var s := After(Idle(), run);
    RunInv(Idle(), run);
    StopsSoon(s, more);
    RunInv(s, more);
    var t := After(s, more);
    if AtRest(t) {
      if t.writers != [] {
        WriterCan(t);
        assert false;
      }
      WireIsPrefix(t);
    }
  }

  /** What is sent when every packet goes out in one piece. */
  function Pieces(ps: seq<SendPacket>): seq<seq<SendPacket>> {
    if ps == [] then [] else [[ps[0]]] + Pieces(ps[1..])
  }

  function Bodies(ps: seq<SendPacket>): seq<Packet> {
    if ps == [] then [] else [ps[0].data] + Bodies(ps[1..])
  }

  predicate InOnePiece(p: SendPacket) {
    p == Whole(p.data) && |p.data| < UINT32
  }

  lemma {:induction false} PiecesJoin(ps: seq<SendPacket>)
    requires forall p | p in ps :: InOnePiece(p)
    ensures Joined(Pieces(ps)) == ps && Datas(Pieces(ps)) == Bodies(ps)
    ensures forall m | m in Pieces(ps) :: IsMessage(m) && |Data(m)| < UINT32
  {
    if ps == [] {
    } else {
      assert ps[0] in ps;
      WholeIsMessage(ps[0].data);
      PiecesJoin(ps[1..]);
      assert Pieces(ps)[1..] == Pieces(ps[1..]) && Pieces(ps)[0] == [ps[0]];
    }
  }

  /** Only what Send was given is sent. */
  lemma {:induction false} SentFrom(s: Sys, run: seq<Step>, p: SendPacket)
    requires Runs(s, run) && p in After(s, run).sent
    ensures p in s.sent || Send(p) in run
    decreases |run|
  {
    if run == [] {
    } else {
      SentFrom(Next(s, run[0]), run[1..], p);
    }
  }

  /** From sender to receiver, at every point of every run: the peer has been handed a prefix of
      the packets that can get through, where of a packet sent in part only nothing counts before
      its last byte; and all of them, whole, once the sender is idle. */
  lemma EndToEnd(run: seq<Step>, ms: seq<seq<SendPacket>>, part: seq<SendPacket>, rest: seq<SendPacket>)
    requires Runs(Idle(), run) && After(Idle(), run).sent == Joined(ms) + part
    requires forall m | m in ms :: IsMessage(m) && |Data(m)| < UINT32
    requires part == [] || (IsMessage(part + rest) && |Data(part + rest)| < UINT32)
    ensures var s, all := After(Idle(), run), Followed(Through(Datas(ms)), OfPart(part, rest));
            && Parse(s.wire).packets <= all.packets
            && (!s.queue.sending ==> Parse(s.wire) == all)
  {
    hide IsMessage, Data, Datas, Joined, Through, Followed, OfPart, Parse, WireAll;
    DrainsInOrder(run);
    ReadBackPart(ms, part, rest);
    var w, all := After(Idle(), run).wire, WireAll(Joined(ms) + part);
    PrefixParse(w, all[|w|..]);
    assert w + all[|w|..] == all;
  }

  /** If every packet is sent in one piece, nothing is asked of the point in the run: the peer has
      a prefix of what was sent, without the empty packets and up to the first that is too long;
      with an idle sender it has all of it, which is exactly what was sent if and only if every
      packet can be sent. */
  lemma InOnePieceEach(run: seq<Step>)
    requires Runs(Idle(), run)
    requires forall p | Send(p) in run :: InOnePiece(p)
    ensures var s := After(Idle(), run);
            && Parse(s.wire).packets <= Through(Bodies(s.sent)).packets
            && (!s.queue.sending ==>
                  && Parse(s.wire) == Through(Bodies(s.sent))
                  && (Parse(s.wire) == Received(Bodies(s.sent), Eof) <==>
                        forall p | p in Bodies(s.sent) :: Sendable(p)))
  {
    var sent := After(Idle(), run).sent;
    forall p | p in sent
      ensures InOnePiece(p)
    {
      SentFrom(Idle(), run, p);
    }
    PiecesJoin(sent);
    assert sent == Joined(Pieces(sent)) + [];
    EndToEnd(run, Pieces(sent), [], []);
    AllThrough(Bodies(sent));
    var t := Through(Bodies(sent));
    assert Followed(t, OfPart([], [])) == t;
  }
}
