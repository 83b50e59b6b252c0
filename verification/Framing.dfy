/** Length-prefixed packets on a TCP stream: what is written, and the read loop. */
module Framing {

  type Byte = x: int | 0 <= x < 256

  type Packet = seq<Byte>

  const PACKET_MAX_SIZE: nat := 1024 * 1024 * 64
  const MAX_READ_SIZE: nat := 1024 * 64
  const MAX_EXPANSION_SIZE: nat := 1024 * 1024
  const UINT32: nat := 0x1_0000_0000

  /** One entry of the send queue; a total size of 0 means that no length is written. */
  datatype SendPacket = SendPacket(data: Packet, totalSize: nat)

  function ToNetwork(n: nat): (b: Packet)
    requires n < UINT32
    ensures |b| == 4
  {
    [n / 0x1000000, n / 0x10000 % 0x100, n / 0x100 % 0x100, n % 0x100]
  }

  function ToHost(b: Packet): (n: nat)
    requires |b| == 4
    ensures n < UINT32
  {
    b[0] as int * 0x1000000 + b[1] as int * 0x10000 + b[2] as int * 0x100 + b[3]
  }

  lemma LengthRoundTrip(n: nat)
    requires n < UINT32
    ensures ToHost(ToNetwork(n)) == n
  {
    assert n / 0x100 == (n / 0x10000) * 0x100 + n / 0x100 % 0x100;
    assert n / 0x10000 == (n / 0x1000000) * 0x100 + n / 0x10000 % 0x100;
  }

  /** Byte by byte, the first difference decides. */
  predicate Before(a: Packet, b: Packet)
    requires |a| == |b|
  {
    exists i | 0 <= i < |a| :: a[i] < b[i] && forall j | 0 <= j < i :: a[j] == b[j]
  }

  /** Network byte order, the most significant byte first: lengths compare as their bytes do. */
  lemma NetworkOrder(a: Packet, b: Packet)
    requires |a| == |b| == 4
    ensures ToHost(a) < ToHost(b) <==> Before(a, b)
  {
    if a[0] != b[0] {
      assert a[0] < b[0] ==> Before(a, b);
    } else if a[1] != b[1] {
      assert a[1] < b[1] ==> Before(a, b);
    } else if a[2] != b[2] {
      assert a[2] < b[2] ==> Before(a, b);
    } else {
      assert a[3] < b[3] ==> Before(a, b);
    }
  }

  function Length(p: SendPacket): Packet {
    if p.totalSize % UINT32 == 0 then [] else ToNetwork(p.totalSize % UINT32)
  }

  function Wire(p: SendPacket): Packet {
    Length(p) + p.data
  }

  function WireAll(ps: seq<SendPacket>): Packet {
    if ps == [] then [] else Wire(ps[0]) + WireAll(ps[1..])
  }

  lemma Regroup(a: Packet, b: Packet, c: Packet)
    ensures a + (b + c) == a + b + c
  {
  }

  lemma {:induction false} WireAppend(ps: seq<SendPacket>, qs: seq<SendPacket>)
    ensures WireAll(ps + qs) == WireAll(ps) + WireAll(qs)
  {
    if ps == [] {
      assert ps + qs == qs;
    } else {
      WireAppend(ps[1..], qs);
      assert (ps + qs)[1..] == ps[1..] + qs && (ps + qs)[0] == ps[0];
      Regroup(Wire(ps[0]), WireAll(ps[1..]), WireAll(qs));
    }
  }

  // ---- What a stream of bytes means to the reader ----

  /** How the read loop ends: at the end of the stream, or on a length that is too large. */
  datatype End = Eof | TooLong

  datatype Received = Received(packets: seq<Packet>, end: End)

  function Parse(stream: Packet): Received {
    if |stream| < 4 then Received([], Eof)
    else
      var n := ToHost(stream[..4]);
      if n > PACKET_MAX_SIZE then Received([], TooLong)
      else if |stream| < 4 + n then Received([], Eof)
      else
        var rest := Parse(stream[4 + n..]);
        Received([stream[4..4 + n]] + rest.packets, rest.end)
  }

  /** Packets one behind another, each behind its length. */
  function Encoded(ps: seq<Packet>): Packet
    requires forall p | p in ps :: |p| <= PACKET_MAX_SIZE
  {
    if ps == [] then [] else ToNetwork(|ps[0]|) + (ps[0] + Encoded(ps[1..]))
  }

  /** Bytes from which no packet can be read. */
  predicate Stuck(rest: Packet, end: End) {
    match end
    case Eof => |rest| < 4 || |rest| < 4 + ToHost(rest[..4]) <= 4 + PACKET_MAX_SIZE
    case TooLong => |rest| >= 4 && ToHost(rest[..4]) > PACKET_MAX_SIZE
  }

  /** Whatever the peer sends, empty packets included: if the stream is some packets, each behind
      its length, and then bytes from which no packet can be read, the reader gets these packets. */
  lemma {:induction false} ParseUnique(ps: seq<Packet>, rest: Packet, end: End)
    requires (forall p | p in ps :: |p| <= PACKET_MAX_SIZE) && Stuck(rest, end)
    ensures Parse(Encoded(ps) + rest) == Received(ps, end)
  {
    hide ToNetwork, ToHost;
    if ps == [] {
      assert Encoded(ps) + rest == rest;
    } else {
      assert ps[0] in ps;
      var head, tail := ToNetwork(|ps[0]|), Encoded(ps[1..]) + rest;
      ParseUnique(ps[1..], rest, end);
      LengthRoundTrip(|ps[0]|);
      Regroup(head, ps[0] + Encoded(ps[1..]), rest);
      Regroup(ps[0], Encoded(ps[1..]), rest);
      ParseFirst(head + (ps[0] + tail), head, ps[0], tail);
    }
  }

  /** The lowest byte of a number, and the number without it. */
  lemma LowByte(n: nat, high: nat, low: nat)
    requires n == high * 0x100 + low && low < 0x100
    ensures n / 0x100 == high && n % 0x100 == low
  {
  }

  lemma Shifted(n: nat)
    ensures n / 0x10000 == n / 0x100 / 0x100
    ensures n / 0x1000000 == n / 0x100 / 0x100 / 0x100
  {
  }

  lemma ToHostInverse(b: Packet)
    requires |b| == 4
    ensures ToNetwork(ToHost(b)) == b
  {
    var n, w: int, x: int, y: int, z: int := ToHost(b), b[0], b[1], b[2], b[3];
    Shifted(n);
    LowByte(n, (w * 0x100 + x) * 0x100 + y, z);
    LowByte((w * 0x100 + x) * 0x100 + y, w * 0x100 + x, y);
    LowByte(w * 0x100 + x, w, x);
  }

  lemma EncodedMore(stream: Packet, n: nat, ps: seq<Packet>, rest: Packet)
    requires |stream| >= 4 + n && ToHost(stream[..4]) == n <= PACKET_MAX_SIZE
    requires (forall p | p in ps :: |p| <= PACKET_MAX_SIZE) && stream[4 + n..] == Encoded(ps) + rest
    ensures var qs := [stream[4..4 + n]] + ps;
            (forall p | p in qs :: |p| <= PACKET_MAX_SIZE) && stream == Encoded(qs) + rest
  {
    hide ToNetwork, ToHost;
    var head, body := stream[..4], stream[4..4 + n];
    ToHostInverse(head);
    assert ([body] + ps)[1..] == ps;
    assert stream == head + (body + stream[4 + n..]);
    assert head + (body + (Encoded(ps) + rest)) == head + (body + Encoded(ps)) + rest;
  }

  /** And every stream is of that form. */
  lemma {:induction false} ParseIs(stream: Packet) returns (rest: Packet)
    ensures var r := Parse(stream);
            && (forall p | p in r.packets :: |p| <= PACKET_MAX_SIZE) && Stuck(rest, r.end)
            && stream == Encoded(r.packets) + rest
    decreases |stream|
  {
    hide ToNetwork, ToHost;
    rest := stream;
    if |stream| < 4 || ToHost(stream[..4]) > PACKET_MAX_SIZE || |stream| < 4 + ToHost(stream[..4]) {
      assert stream == Encoded([]) + rest;
    } else {
      var n := ToHost(stream[..4]);
      rest := ParseIs(stream[4 + n..]);
      EncodedMore(stream, n, Parse(stream[4 + n..]).packets, rest);
    }
  }

  /** What is received from two streams, the second behind the first. */
  function Followed(a: Received, b: Received): Received {
    if a.end == TooLong then a else Received(a.packets + b.packets, b.end)
  }

  /** The first packet of a stream, and what is behind it. */
  lemma ParseFirst(stream: Packet, head: Packet, body: Packet, rest: Packet)
    requires stream == head + (body + rest) && |head| == 4 && ToHost(head) == |body| <= PACKET_MAX_SIZE
    ensures Parse(stream) == Received([body] + Parse(rest).packets, Parse(rest).end)
  {
    assert stream[..4] == head && stream[4..4 + |body|] == body && stream[4 + |body|..] == rest;
  }

  lemma Cut(stream: Packet, at: nat, n: nat)
    requires at + n <= |stream|
    ensures stream[at..] == stream[at..at + n] + stream[at + n..] && stream[at..][..n] == stream[at..at + n]
  {
  }

  /** What has been delivered, and what the rest of the stream holds. */
  function Behind(delivered: seq<Packet>, rest: Packet): Received {
    Received(delivered + Parse(rest).packets, Parse(rest).end)
  }

  lemma BehindNone(stream: Packet)
    ensures stream[0..] == stream && Behind([], stream) == Parse(stream)
  {
  }

  lemma BehindEnd(delivered: seq<Packet>, rest: Packet)
    ensures |rest| < 4 ==> Behind(delivered, rest) == Received(delivered, Eof)
    ensures |rest| >= 4 && ToHost(rest[..4]) > PACKET_MAX_SIZE ==>
              Behind(delivered, rest) == Received(delivered, TooLong)
    ensures |rest| >= 4 && |rest| < 4 + ToHost(rest[..4]) <= 4 + PACKET_MAX_SIZE ==>
              Behind(delivered, rest) == Received(delivered, Eof)
  {
  }

  /** One packet more is delivered. */
  lemma ParseOn(delivered: seq<Packet>, stream: Packet, head: Packet, body: Packet, rest: Packet)
    requires stream == head + (body + rest) && |head| == 4 && ToHost(head) == |body| <= PACKET_MAX_SIZE
    ensures Behind(delivered, stream) == Behind(delivered + [body], rest)
  {
    ParseFirst(stream, head, body, rest);
    assert delivered + ([body] + Parse(rest).packets) == delivered + [body] + Parse(rest).packets;
  }

  // ---- The read loop ----

  datatype Chunk = Chunk(read: nat, size: nat, buffer: nat)

  /** Before a chunk is read: it fits the buffer, which is not much larger. */
  predicate Tight(c: Chunk) {
    c.read + c.size <= c.buffer < c.read + c.size + MAX_EXPANSION_SIZE
  }

  /** The chunks follow one another up to a position: full ones of 64 KiB, the last one maybe less. */
  predicate Covers(cs: seq<Chunk>, upTo: nat) {
    if cs == [] then upTo == 0
    else
      var c := cs[|cs| - 1];
      && (|cs| > 1 ==> cs[|cs| - 2].size == MAX_READ_SIZE)
      && 0 < c.size <= MAX_READ_SIZE && c.read + c.size == upTo && Covers(cs[..|cs| - 1], c.read)
  }

  function Zeros(n: nat): (b: Packet)
    ensures |b| == n
  {
    seq(n, _ => 0)
  }

  lemma CoversNone()
    ensures Covers([], 0)
  {
  }

  lemma CoversOn(cs: seq<Chunk>, c: Chunk)
    requires Covers(cs, c.read) && 0 < c.size <= MAX_READ_SIZE
    requires cs != [] ==> cs[|cs| - 1].size == MAX_READ_SIZE
    ensures Covers(cs + [c], c.read + c.size)
  {
    assert (cs + [c])[..|cs|] == cs;
  }

  function Overwrite(buffer: Packet, at: nat, bytes: Packet): Packet
    requires at + |bytes| <= |buffer|
  {
    buffer[..at] + bytes + buffer[at + |bytes|..]
  }

  /** Reading one more chunk behind what has been read. */
  lemma ReadOn(buffer: Packet, more: Packet, stream: Packet, start: nat, read: nat, size: nat)
    requires start + read + size <= |stream| && read <= |buffer| && read + size <= |buffer| + |more|
    requires buffer[..read] == stream[start..start + read]
    ensures Overwrite(buffer + more, read, stream[start + read..start + read + size])[..read + size]
            == stream[start..start + read + size]
    ensures |Overwrite(buffer + more, read, stream[start + read..start + read + size])| == |buffer| + |more|
  {
    var bytes := stream[start + read..start + read + size];
    assert (buffer + more)[..read] == buffer[..read];
    assert Overwrite(buffer + more, read, bytes)[..read + size] == buffer[..read] + bytes;
  }

  class Connection {
    /** All that the peer sends before the stream ends. */
    const stream: Packet
    var pos: nat
    var delivered: seq<Packet>
    ghost var chunks: seq<Chunk>   // of the packet being read

    ghost predicate Valid()
      reads this
    {
      pos <= |stream| && forall c | c in chunks :: Tight(c)
    }

    constructor (stream: Packet)
      ensures this.stream == stream && pos == 0 && delivered == [] && chunks == [] && Valid()
    {
      this.stream := stream;
      pos, delivered, chunks := 0, [], [];
    }

    /** Reads exactly n bytes, or ends at the end of the stream. */
    method AsyncRead(n: nat) returns (ok: bool, bytes: Packet)
      requires Valid()
      modifies this`pos
      ensures Valid()
      ensures ok <==> old(pos) + n <= |stream|
      ensures pos == if ok then old(pos) + n else |stream|
      ensures ok ==> bytes == stream[old(pos)..pos]
    {
      if pos + n > |stream| {
        pos := |stream|;
        return false, [];
      }
      bytes := stream[pos..pos + n];
      pos := pos + n;
      return true, bytes;
    }

    /** The size the buffer grows to: doubled while small, then by a megabyte at a time, so that it
        grows seldom. */
    static method Grow(size: nat, need: nat) returns (newSize: nat)
      requires size > 0
      ensures newSize >= size && newSize >= need
      ensures newSize == size || newSize < need + MAX_EXPANSION_SIZE
      ensures newSize == size || newSize >= 2 * size || newSize >= size + MAX_EXPANSION_SIZE
      ensures size >= need ==> newSize == size
      ensures size < UINT32 && need <= PACKET_MAX_SIZE ==> newSize < UINT32
    {
      newSize := size;
      while newSize < need
        invariant newSize >= size
        invariant newSize == size || newSize < need + MAX_EXPANSION_SIZE
        invariant newSize == size || newSize >= 2 * size || newSize >= size + MAX_EXPANSION_SIZE
        invariant size >= need ==> newSize == size
        decreases need - newSize
      {
        if newSize < MAX_EXPANSION_SIZE {
          newSize := newSize * 2;
        } else {
          newSize := newSize + MAX_EXPANSION_SIZE;
        }
      }
    }

    /** Reads the body of one packet in chunks into a growing buffer. */
    method ReadBody(total: nat) returns (ok: bool, packet: Packet)
      requires Valid() && total <= PACKET_MAX_SIZE
      modifies this`pos, this`chunks
      ensures Valid()
      ensures ok <==> old(pos) + total <= |stream|
      ensures ok ==> packet == stream[old(pos)..old(pos) + total] && pos == old(pos) + total
      ensures ok ==> Covers(chunks, total)
    {
      hide Covers, Overwrite, Zeros;
      chunks := [];
      CoversNone();
      var start := pos;
      packet := Zeros(if total < MAX_READ_SIZE then total else MAX_READ_SIZE);
      var read := 0;
      ok := true;
      while read < total
        invariant Valid() && read <= total && pos == start + read
        invariant total > 0 ==> |packet| > 0
        invariant Covers(chunks, read)
        invariant read < total && chunks != [] ==> chunks[|chunks| - 1].size == MAX_READ_SIZE
        invariant read <= |packet| && packet[..read] == stream[start..start + read]
        invariant |packet| < read + MAX_EXPANSION_SIZE || (read == 0 && |packet| <= total && |packet| <= MAX_READ_SIZE)
      {
        var size := if total - read < MAX_READ_SIZE then total - read else MAX_READ_SIZE;
        var newSize := Grow(|packet|, read + size);
        var more := Zeros(newSize - |packet|);
        ghost var was := packet;
        packet := packet + more;
        ghost var done := chunks;
        chunks := done + [Chunk(read, size, |packet|)];
        CoversOn(done, Chunk(read, size, |packet|));
        var bytes;
        ok, bytes := AsyncRead(size);
        if !ok { return; }
        ReadOn(was, more, stream, start, read, size);
        packet := Overwrite(packet, read, bytes);
        read := read + size;
      }
      packet := packet[..total];
    }

    /** The read loop: delivers packet after packet until the stream ends or a length is wrong. */
    method Process() returns (end: End)
      requires Valid() && pos == 0 && delivered == []
      modifies this
      ensures Valid() && Received(delivered, end) == Parse(stream)
    {
      hide Parse, Tight, Covers;
      BehindNone(stream);
      while true
        invariant Valid()
        invariant Parse(stream) == Behind(delivered, stream[pos..])
        decreases |stream| - pos
      {
        var rest := stream[pos..];
        if pos + 4 <= |stream| {
          Cut(stream, pos, 4);
        }
        var ok, head := AsyncRead(4);
        if !ok {
          BehindEnd(delivered, rest);
          return Eof;
        }
        var total := ToHost(head);
        if total > PACKET_MAX_SIZE {
          BehindEnd(delivered, rest);
          return TooLong;
        }
        var packet;
        ok, packet := ReadBody(total);
        if !ok {
          BehindEnd(delivered, rest);
          return Eof;
        }
        Cut(stream, pos - total, total);
        ParseOn(delivered, rest, head, packet, stream[pos..]);
        delivered := delivered + [packet];
      }
    }
  }

  // ---- Round trip ----

  function Data(ps: seq<SendPacket>): Packet {
    if ps == [] then [] else ps[0].data + Data(ps[1..])
  }

  /** A packet sent in pieces: the first carries the length of them all. */
  predicate IsMessage(m: seq<SendPacket>) {
    && m != [] && m[0].totalSize == |Data(m)|
    && forall i | 0 < i < |m| :: m[i].totalSize == 0
  }

  /** A packet sent as one. */
  function Whole(p: Packet): SendPacket {
    SendPacket(p, |p|)
  }

  lemma WholeIsMessage(p: Packet)
    ensures IsMessage([Whole(p)]) && Data([Whole(p)]) == p
  {
  }

  function Joined(ms: seq<seq<SendPacket>>): seq<SendPacket> {
    if ms == [] then [] else ms[0] + Joined(ms[1..])
  }

  function Datas(ms: seq<seq<SendPacket>>): seq<Packet> {
    if ms == [] then [] else [Data(ms[0])] + Datas(ms[1..])
  }

  /** What of these packets gets through: the empty ones leave no trace, and the first one that
      is too long ends the connection. */
  function Through(ps: seq<Packet>): Received {
    if ps == [] then Received([], Eof)
    else if |ps[0]| == 0 then Through(ps[1..])
    else if |ps[0]| > PACKET_MAX_SIZE then Received([], TooLong)
    else
      var rest := Through(ps[1..]);
      Received([ps[0]] + rest.packets, rest.end)
  }

  lemma {:induction false} TailWire(ps: seq<SendPacket>)
    requires forall i | 0 <= i < |ps| :: ps[i].totalSize == 0
    ensures WireAll(ps) == Data(ps)
  {
    if ps == [] {
    } else {
      TailWire(ps[1..]);
    }
  }

  lemma MessageWire(m: seq<SendPacket>)
    requires IsMessage(m) && |Data(m)| < UINT32
    ensures WireAll(m) == (if |Data(m)| == 0 then [] else ToNetwork(|Data(m)|)) + Data(m)
  {
    hide ToNetwork;
    TailWire(m[1..]);
  }

  lemma ParseMessage(m: seq<SendPacket>, rest: Packet)
    requires IsMessage(m) && |Data(m)| < UINT32
    ensures var r := Parse(rest);
            Parse(WireAll(m) + rest) ==
              if |Data(m)| == 0 then r
              else if |Data(m)| > PACKET_MAX_SIZE then Received([], TooLong)
              else Received([Data(m)] + r.packets, r.end)
  {
    var n, s := |Data(m)|, WireAll(m) + rest;
    MessageWire(m);
    if n == 0 {
      assert s == rest;
    } else {
      LengthRoundTrip(n);
      assert s == ToNetwork(n) + Data(m) + rest;
      assert s[..4] == ToNetwork(n);
      if n <= PACKET_MAX_SIZE {
        assert s[4..4 + n] == Data(m) && s[4 + n..] == rest;
      }
    }
  }

  lemma FollowedNone(r: Received)
    ensures Followed(Through([]), r) == r && WireAll([]) == []
  {
  }

  lemma FollowedBy(p: Packet, ps: seq<Packet>, r: Received)
    ensures var f := Followed(Through(ps), r);
            Followed(Through([p] + ps), r) ==
              if |p| == 0 then f
              else if |p| > PACKET_MAX_SIZE then Received([], TooLong)
              else Received([p] + f.packets, f.end)
  {
    assert ([p] + ps)[1..] == ps;
    var t := Through(ps);
    assert [p] + t.packets + r.packets == [p] + (t.packets + r.packets);
  }

  /** Whatever is sent, in one piece or several, the reader gets exactly the non-empty packets
      before the first that is too long, and then what follows them. */
  lemma {:induction false} ReadBackThen(ms: seq<seq<SendPacket>>, tail: Packet)
    requires forall m | m in ms :: IsMessage(m) && |Data(m)| < UINT32
    ensures Parse(WireAll(Joined(ms)) + tail) == Followed(Through(Datas(ms)), Parse(tail))
  {
    hide Parse, WireAll, IsMessage, Data, Through, Followed;
    if ms == [] {
      FollowedNone(Parse(tail));
      assert WireAll(Joined(ms)) + tail == tail;
    } else {
      var first, others := WireAll(ms[0]), WireAll(Joined(ms[1..]));
      ReadBackThen(ms[1..], tail);
      WireAppend(ms[0], Joined(ms[1..]));
      Regroup(first, others, tail);
      ParseMessage(ms[0], others + tail);
      FollowedBy(Data(ms[0]), Datas(ms[1..]), Parse(tail));
    }
  }

  /** Whatever is sent, in one piece or several, the reader gets exactly the non-empty packets
      before the first that is too long. */
  lemma ReadBack(ms: seq<seq<SendPacket>>)
    requires forall m | m in ms :: IsMessage(m) && |Data(m)| < UINT32
    ensures Parse(WireAll(Joined(ms))) == Through(Datas(ms))
  {
    ReadBackThen(ms, []);
    assert WireAll(Joined(ms)) + [] == WireAll(Joined(ms));
  }

  /** What is received of a packet of which some pieces have been sent: the packet once its last
      byte has gone out, or the refusal of its length. */
  function OfPart(part: seq<SendPacket>, rest: seq<SendPacket>): Received {
    if part == [] then Received([], Eof)
    else
      var whole := Through([Data(part + rest)]);
      if |Data(part)| < |Data(part + rest)| then whole.(packets := []) else whole
  }

  lemma {:induction false} DataAppend(ps: seq<SendPacket>, qs: seq<SendPacket>)
    ensures Data(ps + qs) == Data(ps) + Data(qs)
  {
    if ps == [] {
      assert ps + qs == qs;
    } else {
      DataAppend(ps[1..], qs);
      assert (ps + qs)[1..] == ps[1..] + qs && (ps + qs)[0] == ps[0];
      Regroup(ps[0].data, Data(ps[1..]), Data(qs));
    }
  }

  lemma LengthOf(p: SendPacket)
    requires p.totalSize < UINT32
    ensures Length(p) == if p.totalSize == 0 then [] else ToNetwork(p.totalSize)
  {
    hide ToNetwork;
  }

  lemma PartWire(part: seq<SendPacket>, rest: seq<SendPacket>)
    requires part != [] && IsMessage(part + rest) && |Data(part + rest)| < UINT32
    ensures Data(part + rest) == Data(part) + Data(rest)
    ensures WireAll(part) == (if |Data(part + rest)| == 0 then [] else ToNetwork(|Data(part + rest)|)) + Data(part)
  {
    hide ToNetwork, Length;
    DataAppend(part, rest);
    assert part[0] == (part + rest)[0];
    LengthOf(part[0]);
    assert forall i | 0 < i < |part| :: part[i] == (part + rest)[i];
    TailWire(part[1..]);
    Regroup(Length(part[0]), part[0].data, Data(part[1..]));
  }

  lemma ParseNone()
    ensures Parse([]) == Received([], Eof)
  {
  }

  lemma ThroughOne(p: Packet)
    ensures Through([p]) == if |p| == 0 then Received([], Eof)
                            else if |p| > PACKET_MAX_SIZE then Received([], TooLong)
                            else Received([p], Eof)
  {
    assert [p][1..] == [];
  }

  /** A length, and at most as many bytes. */
  lemma ParseLast(n: nat, body: Packet)
    requires 0 < n < UINT32 && |body| <= n
    ensures Parse(ToNetwork(n) + body) == if n > PACKET_MAX_SIZE then Received([], TooLong)
                                          else if |body| < n then Received([], Eof)
                                          else Received([body], Eof)
  {
    hide ToNetwork, ToHost;
    var s := ToNetwork(n) + body;
    LengthRoundTrip(n);
    assert s[..4] == ToNetwork(n);
    if n <= PACKET_MAX_SIZE && |body| == n {
      assert s == ToNetwork(n) + (body + []);
      ParseFirst(s, ToNetwork(n), body, []);
      ParseNone();
    }
  }

  lemma ParsePart(part: seq<SendPacket>, rest: seq<SendPacket>)
    requires part != [] && IsMessage(part + rest) && |Data(part + rest)| < UINT32
    ensures Parse(WireAll(part)) == OfPart(part, rest)
  {
    hide Parse, WireAll, ToNetwork, Data, Through, Length, IsMessage;
    PartWire(part, rest);
    ThroughOne(Data(part + rest));
    if |Data(part + rest)| == 0 {
      ParseNone();
      assert WireAll(part) == [];
    } else {
      ParseLast(|Data(part + rest)|, Data(part));
      assert |Data(part)| == |Data(part + rest)| ==> Data(part) == Data(part + rest);
    }
  }

  /** The same when the pieces of the last packet have been sent in part only. */
  lemma ReadBackPart(ms: seq<seq<SendPacket>>, part: seq<SendPacket>, rest: seq<SendPacket>)
    requires forall m | m in ms :: IsMessage(m) && |Data(m)| < UINT32
    requires part == [] || (IsMessage(part + rest) && |Data(part + rest)| < UINT32)
    ensures Parse(WireAll(Joined(ms) + part)) == Followed(Through(Datas(ms)), OfPart(part, rest))
  {
    WireAppend(Joined(ms), part);
    ReadBackThen(ms, WireAll(part));
    if part != [] {
      ParsePart(part, rest);
    }
  }

  predicate Sendable(p: Packet) {
    0 < |p| <= PACKET_MAX_SIZE
  }

  lemma {:induction false} AllThrough(ps: seq<Packet>)
    ensures |Through(ps).packets| <= |ps|
    ensures Through(ps) == Received(ps, Eof) <==> forall p | p in ps :: Sendable(p)
  {
    if ps == [] {
    } else {
      AllThrough(ps[1..]);
      assert forall p :: p in ps <==> p == ps[0] || p in ps[1..];
      if Sendable(ps[0]) {
        assert Through(ps).packets[1..] == Through(ps[1..]).packets;
      }
    }
  }

  /** Exactly the packets sent arrive if and only if none is empty or longer than 64 MiB. */
  lemma RoundTrip(ms: seq<seq<SendPacket>>)
    requires forall m | m in ms :: IsMessage(m) && |Data(m)| < UINT32
    ensures Parse(WireAll(Joined(ms))) == Received(Datas(ms), Eof) <==>
            forall p | p in Datas(ms) :: Sendable(p)
  {
    ReadBack(ms);
    AllThrough(Datas(ms));
  }

  /** What has been read stays read: more bytes only add packets. */
  lemma {:induction false} PrefixParse(a: Packet, b: Packet)
    ensures Parse(a).packets <= Parse(a + b).packets
  {
    hide ToHost;
    if |a| < 4 {
    } else {
      assert (a + b)[..4] == a[..4];
      var n := ToHost(a[..4]);
      if n <= PACKET_MAX_SIZE && |a| >= 4 + n {
        PrefixParse(a[4 + n..], b);
        assert (a + b)[4 + n..] == a[4 + n..] + b && (a + b)[4..4 + n] == a[4..4 + n];
      }
    }
  }
}
