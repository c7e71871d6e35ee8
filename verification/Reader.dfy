/**
 The receiving side of pkg/proto: the 4096-byte buffered reader that `readloop` wraps around the
 connection, `UnpackFrom` on top of it, and what a whole connection decodes to. `UnpackFrom` does
 not repeat a short read, so how the bytes are cut into reads matters; the module states exactly
 when that is harmless.
 */
module Reader {
  import opened Basics
  import opened Frames

  /** Default capacity of the standard library's buffered reader. */
  const READER_SIZE := 4096

  /** A datagram connection hands out one datagram per read and drops what does not fit; a stream
      keeps it for the next read. */
  datatype Kind = Datagram | Stream

  /** What is still to be read: datagrams, or the segments in which a stream arrives. */
  datatype Net = Net(kind: Kind, segs: seq<Bytes>)

  /** A buffered reader: bytes already fetched, and the connection behind it. */
  datatype Input = Input(buf: Bytes, net: Net)

  datatype ReadResult = Eof | Data(data: Bytes)

  datatype Outcome = Closed | Malformed | Got(frame: Frame)

  function NetRead(net: Net, n: nat): (r: (Bytes, Net))
    requires 0 < n && net.segs != []
    ensures |r.0| <= n && |r.0| + Weight(r.1.segs) <= Weight(net.segs)
    ensures r.0 == [] ==> Weight(r.1.segs) < Weight(net.segs)
    ensures r.1.kind == net.kind
  {
    var head, tail, k := net.segs[0], net.segs[1..], Min(n, |net.segs[0]|);
    if net.kind.Stream? && k < |head| then
      assert ([head[k..]] + tail)[1..] == tail;
      (head[..k], net.(segs := [head[k..]] + tail))
    else
      (head[..k], net.(segs := tail))
  }

  /** The standard library's `bufio.Reader.Read` for `n` bytes. */
  function BufRead(v: Input, n: nat): (r: (ReadResult, Input))
    requires 0 < n
    ensures r.0.Data? ==> |r.0.data| <= n && Measure(r.1) < Measure(v)
    ensures r.0.Eof? ==> r.1 == v && v.buf == [] && v.net.segs == []
    ensures r.1.net.kind == v.net.kind
  {
    if v.buf != [] then
      var k := Min(n, |v.buf|);
      (Data(v.buf[..k]), Input(v.buf[k..], v.net))
    else if v.net.segs == [] then (Eof, v)
    else if n >= READER_SIZE then
      var (data, net) := NetRead(v.net, n);
      (Data(data), Input([], net))
    else
      var (chunk, net) := NetRead(v.net, READER_SIZE);
      var k := Min(n, |chunk|);
      (Data(chunk[..k]), Input(chunk[k..], net))
  }

  function Weight(segs: seq<Bytes>): nat {
    if segs == [] then 0 else |segs[0]| + 1 + Weight(segs[1..])
  }

  /** Bytes and segments still to come; every read that returns makes it smaller. */
  function Measure(v: Input): nat {
    |v.buf| + Weight(v.net.segs)
  }

  /** `UnpackFrom`: one read for the header, one for the body, and no second try. */
  function Unpack(v: Input): (r: (Outcome, Input))
    ensures !r.0.Closed? ==> Measure(r.1) < Measure(v)
    ensures r.0.Got? ==> Sendable(r.0.frame)
    ensures r.0.Closed? ==> r.1.buf == [] && r.1.net.segs == []
    ensures r.1.net.kind == v.net.kind
  {
    var (h, v1) := BufRead(v, HEADER_SIZE);
    if h.Eof? then (Closed, v1)
    else if |h.data| != HEADER_SIZE then (Malformed, v1)
    else
      var tag, length := FromBE16(h.data[0], h.data[1]), FromBE16(h.data[2], h.data[3]);
      if length == 0 then (Got(Frame(tag, [])), v1)
      else if length > MAX_PAYLOAD then (Malformed, v1)
      else
        var (b, v2) := BufRead(v1, length);
        if b.Eof? then (Closed, v2)
        else if |b.data| != length then (Malformed, v2)
        else (Got(Frame(tag, b.data)), v2)
  }

  /** Every frame the read loop decodes before the connection ends. */
  function Decoded(v: Input): seq<Frame>
    decreases Measure(v)
  {
    var (o, v') := Unpack(v);
    match o
    case Closed => []
    case Malformed => Decoded(v')
    case Got(f) => [f] + Decoded(v')
  }

  // ----- Datagrams -----

  /** What one datagram decodes to on its own, and whether it ends in a bare header: four bytes
      that announce a body of 1 to 8180 bytes, with nothing behind them. */
  function DecodeOne(b: Bytes): (r: (seq<Frame>, bool)) {
    if |b| < HEADER_SIZE then ([], false)
    else
      var tag, length, rest := FromBE16(b[0], b[1]), FromBE16(b[2], b[3]), b[HEADER_SIZE..];
      if length == 0 then
        var (frames, dangling) := DecodeOne(rest);
        ([Frame(tag, [])] + frames, dangling)
      else if length > MAX_PAYLOAD then DecodeOne(rest)
      else if rest == [] then ([], true)
      else if |rest| < length then ([], false)
      else
        var (frames, dangling) := DecodeOne(rest[length..]);
        ([Frame(tag, rest[..length])] + frames, dangling)
  }

  /** A datagram as the reader sees it: cut to the size of its buffer. */
  function Received(datagram: Bytes): Bytes {
    datagram[..Min(READER_SIZE, |datagram|)]
  }

  function Datagrams(segs: seq<Bytes>): Input {
    Input([], Net(Datagram, segs))
  }

  function DecodeEach(datagrams: seq<Bytes>): seq<Frame> {
    if datagrams == [] then []
    else DecodeOne(Received(datagrams[0])).0 + DecodeEach(datagrams[1..])
  }

  predicate Dangling(datagram: Bytes) {
    DecodeOne(Received(datagram)).1
  }

  /** A frame whose bytes start in the buffer is decoded without touching the connection, unless
      the buffer ends right behind its header. */
  lemma UnpackFromBuffer(v: Input)
    requires HEADER_SIZE <= |v.buf|
    ensures var tag, length, rest :=
              FromBE16(v.buf[0], v.buf[1]), FromBE16(v.buf[2], v.buf[3]), v.buf[HEADER_SIZE..];
            0 < length <= MAX_PAYLOAD ==> rest != [] ==>
              Unpack(v) == if |rest| < length then (Malformed, Input([], v.net))
                           else (Got(Frame(tag, rest[..length])), Input(rest[length..], v.net))
    ensures var tag, length, rest :=
              FromBE16(v.buf[0], v.buf[1]), FromBE16(v.buf[2], v.buf[3]), v.buf[HEADER_SIZE..];
            length == 0 || length > MAX_PAYLOAD ==>
              Unpack(v) == (if length == 0 then Got(Frame(tag, [])) else Malformed, Input(rest, v.net))
  {
    var length, rest := FromBE16(v.buf[2], v.buf[3]), v.buf[HEADER_SIZE..];
    assert BufRead(v, HEADER_SIZE) == (Data(v.buf[..HEADER_SIZE]), Input(rest, v.net));
    if 0 < length <= MAX_PAYLOAD && rest != [] {
      var k := Min(length, |rest|);
      assert BufRead(Input(rest, v.net), length) == (Data(rest[..k]), Input(rest[k..], v.net));
    }
  }

  /** One `UnpackFrom` that finds its header in the buffer makes the step `DecodeOne` makes. */
  lemma DrainStep(v: Input)
    requires HEADER_SIZE <= |v.buf| && !DecodeOne(v.buf).1
    ensures var (o, v') := Unpack(v);
            && !o.Closed? && v'.net == v.net && |v'.buf| < |v.buf| && !DecodeOne(v'.buf).1
            && DecodeOne(v.buf).0 == (if o.Got? then [o.frame] else []) + DecodeOne(v'.buf).0
  {
    UnpackFromBuffer(v);
  }

  lemma DrainRemnant(v: Input)
    requires 0 < |v.buf| < HEADER_SIZE
    ensures Unpack(v) == (Malformed, Input([], v.net))
  {
  }

  lemma {:induction false} DrainBuffer(v: Input)
    requires !DecodeOne(v.buf).1
    ensures Decoded(v) == DecodeOne(v.buf).0 + Decoded(Input([], v.net))
    decreases |v.buf|
  {
    hide Unpack;
    if v.buf == [] {
      assert v == Input([], v.net);
    } else if |v.buf| < HEADER_SIZE {
      DrainRemnant(v);
    } else {
      DrainStep(v);
      DrainBuffer(Unpack(v).1);
    }
  }

  /** Reading from an empty buffer is reading from a buffer that holds the next datagram. */
  lemma FetchDatagram(datagrams: seq<Bytes>)
    requires datagrams != []
    ensures Decoded(Datagrams(datagrams))
            == Decoded(Input(Received(datagrams[0]), Net(Datagram, datagrams[1..])))
  {
    var v, w := Datagrams(datagrams), Input(Received(datagrams[0]), Net(Datagram, datagrams[1..]));
    if w.buf == [] {
      assert BufRead(v, HEADER_SIZE) == (Data([]), w);
      assert Unpack(v) == (Malformed, w);
    } else {
      assert BufRead(v, HEADER_SIZE) == BufRead(w, HEADER_SIZE);
      assert Unpack(v) == Unpack(w);
    }
  }

  /** A datagram that leaves no bare header behind is decoded on its own, whatever its bytes and
      whatever follows: the buffer is empty again at the next frame boundary. */
  lemma DatagramIsolated(d: Bytes, rest: seq<Bytes>)
    requires !Dangling(d)
    ensures Decoded(Datagrams([d] + rest)) == DecodeOne(Received(d)).0 + Decoded(Datagrams(rest))
  {
    FetchDatagram([d] + rest);
    assert ([d] + rest)[1..] == rest;
    DrainBuffer(Input(Received(d), Net(Datagram, rest)));
  }

  lemma {:induction false} DatagramsDecodeOneByOne(datagrams: seq<Bytes>)
    requires forall d <- datagrams :: !Dangling(d)
    ensures Decoded(Datagrams(datagrams)) == DecodeEach(datagrams)
  {
    if datagrams != [] {
      DatagramIsolated(datagrams[0], datagrams[1..]);
      assert [datagrams[0]] + datagrams[1..] == datagrams;
      DatagramsDecodeOneByOne(datagrams[1..]);
    }
  }

  function Zeros(n: nat): (z: Bytes)
    ensures |z| == n && forall i | 0 <= i < n :: z[i] == 0
  {
    if n == 0 then [] else [0 as byte] + Zeros(n - 1)
  }

  /** The length a bare header at the end of `b` announces. */
  function AnnouncedLength(b: Bytes): (n: nat)
    requires DecodeOne(b).1
    ensures 0 < n <= MAX_PAYLOAD
  {
    var length, rest := FromBE16(b[2], b[3]), b[HEADER_SIZE..];
    if length == 0 || length > MAX_PAYLOAD then AnnouncedLength(rest)
    else if rest == [] then length
    else AnnouncedLength(rest[length..])
  }

  lemma BareHeaderSwallows(v: Input)
    requires |v.buf| == HEADER_SIZE && 0 < FromBE16(v.buf[2], v.buf[3]) <= MAX_PAYLOAD
    requires v.net == Net(Datagram, [Zeros(FromBE16(v.buf[2], v.buf[3]))])
    ensures Unpack(v) == (Got(Frame(FromBE16(v.buf[0], v.buf[1]), v.net.segs[0])), Datagrams([]))
  {
    var b, z, length := v.buf, v.net.segs[0], FromBE16(v.buf[2], v.buf[3]);
    assert b[..HEADER_SIZE] == b && b[HEADER_SIZE..] == [] && z[..length] == z && z[length..] == [];
    var v1 := Input([], v.net);
    assert BufRead(v, HEADER_SIZE) == (Data(b), v1);
    if length < READER_SIZE {
      assert z[..Min(READER_SIZE, length)] == z;
    }
    assert BufRead(v1, length) == (Data(z), Datagrams([]));
  }

  lemma BareHeaderStep(v: Input)
    requires DecodeOne(v.buf).1
    requires !(0 < FromBE16(v.buf[2], v.buf[3]) <= MAX_PAYLOAD && |v.buf| == HEADER_SIZE)
    ensures var (o, v') := Unpack(v);
            && !o.Closed? && v'.net == v.net && |v'.buf| < |v.buf| && DecodeOne(v'.buf).1
            && AnnouncedLength(v'.buf) == AnnouncedLength(v.buf)
            && DecodeOne(v.buf).0 == (if o.Got? then [o.frame] else []) + DecodeOne(v'.buf).0
  {
    UnpackFromBuffer(v);
  }

  /** With a bare header at the end of the buffer, the next datagram is taken for its body. */
  lemma {:induction false} DrainToBareHeader(v: Input) returns (tag: uint16)
    requires DecodeOne(v.buf).1 && v.net == Net(Datagram, [Zeros(AnnouncedLength(v.buf))])
    ensures Decoded(v) == DecodeOne(v.buf).0 + [Frame(tag, Zeros(AnnouncedLength(v.buf)))]
                          + Decoded(Datagrams([]))
    decreases |v.buf|
  {
    hide Unpack;
    if 0 < FromBE16(v.buf[2], v.buf[3]) <= MAX_PAYLOAD && |v.buf| == HEADER_SIZE {
      tag := FromBE16(v.buf[0], v.buf[1]);
      BareHeaderSwallows(v);
    } else {
      BareHeaderStep(v);
      tag := DrainToBareHeader(Unpack(v).1);
    }
  }

  lemma {:induction false} ZerosDecodeToEmptyBodies(n: nat)
    ensures !DecodeOne(Zeros(n)).1
    ensures forall f <- DecodeOne(Zeros(n)).0 :: f.body == []
  {
    if n >= HEADER_SIZE {
      var z := Zeros(n);
      assert z[HEADER_SIZE..] == Zeros(n - HEADER_SIZE);
      ZerosDecodeToEmptyBodies(n - HEADER_SIZE);
    }
  }

  /** Whatever follows `d`, it is decoded as if `d` had never been there. */
  ghost predicate Isolated(d: Bytes) {
    forall rest: seq<Bytes> ::
      Decoded(Datagrams([d] + rest)) == DecodeOne(Received(d)).0 + Decoded(Datagrams(rest))
  }

  /** The exact condition for a datagram to be harmless to its successors: it must not end in a
      bare header, whose body the reader would take from the next datagram. */
  lemma IsolatedIffNotDangling(d: Bytes)
    ensures Isolated(d) <==> !Dangling(d)
  {
    if Dangling(d) {
      var frames, z := DecodeOne(Received(d)).0, Zeros(AnnouncedLength(Received(d)));
      FetchDatagram([d] + [z]);
      assert ([d] + [z])[1..] == [z];
      var tag := DrainToBareHeader(Input(Received(d), Net(Datagram, [z])));
      assert Decoded(Datagrams([d] + [z]))[|frames|] == Frame(tag, z);
      assert Received(z) == Zeros(|Received(z)|);
      ZerosDecodeToEmptyBodies(|Received(z)|);
      DatagramIsolated(z, []);
      assert [z] + [] == [z];
      assert Decoded(Datagrams([])) == [];
      var alone := Decoded(Datagrams([z]));
      assert forall f <- alone :: f.body == [];
      assert Decoded(Datagrams([d] + [z])) != frames + alone;
    } else {
      forall rest: seq<Bytes>
        ensures Decoded(Datagrams([d] + rest)) == DecodeOne(Received(d)).0 + Decoded(Datagrams(rest))
      {
        DatagramIsolated(d, rest);
      }
    }
  }

  /** The traffic a punched connection really carries: whole frames, and left-over punch probes. */
  datatype Traffic = Whole(frame: Frame) | Stray(bytes: Bytes)

  predicate Carried(t: Traffic) {
    match t
    case Whole(f) => Sendable(f)
    case Stray(b) => |b| < HEADER_SIZE
  }

  predicate AllCarried(traffic: seq<Traffic>) {
    forall i | 0 <= i < |traffic| :: Carried(traffic[i])
  }

  function OnWire(traffic: seq<Traffic>): (d: seq<Bytes>)
    requires AllCarried(traffic)
    ensures |d| == |traffic|
  {
    if traffic == [] then []
    else [match traffic[0] case Whole(f) => Encode(f) case Stray(b) => b] + OnWire(traffic[1..])
  }

  /** The frames short enough for the reader's buffer, in order. */
  function Surviving(traffic: seq<Traffic>): seq<Frame> {
    if traffic == [] then []
    else
      (match traffic[0]
       case Whole(f) => if HEADER_SIZE + |f.body| <= READER_SIZE then [f] else []
       case Stray(_) => [])
      + Surviving(traffic[1..])
  }

  lemma EncodedDatagram(f: Frame)
    requires Sendable(f)
    ensures !Dangling(Encode(f))
    ensures DecodeOne(Received(Encode(f))).0 == if HEADER_SIZE + |f.body| <= READER_SIZE then [f] else []
  {
    var e := Encode(f);
    var b := Received(e);
    assert b[HEADER_SIZE..] == f.body[..|b| - HEADER_SIZE];
    if HEADER_SIZE + |f.body| <= READER_SIZE && f.body != [] {
      assert b[HEADER_SIZE..][..|f.body|] == f.body;
      assert b[HEADER_SIZE..][|f.body|..] == [];
      assert DecodeOne([]) == ([], false);
    }
  }

  /** Over datagrams the loop decodes exactly the frames of at most 4096 bytes, in order. Stray
      probes between them are skipped, and longer frames, though the writer accepts payloads of up
      to 8180 bytes, never arrive. */
  lemma {:induction false} DatagramResync(traffic: seq<Traffic>)
    requires AllCarried(traffic)
    ensures Decoded(Datagrams(OnWire(traffic))) == Surviving(traffic)
  {
    if traffic != [] {
      var d := OnWire(traffic)[0];
      assert OnWire(traffic) == [d] + OnWire(traffic[1..]);
      if traffic[0].Whole? {
        EncodedDatagram(traffic[0].frame);
      }
      DatagramIsolated(d, OnWire(traffic[1..]));
      DatagramResync(traffic[1..]);
    }
  }

  // ----- The objects -----

  /** Writes `data` into `p` at offset `lo`. */
  method Copy(data: Bytes, p: array<byte>, lo: nat)
    requires lo + |data| <= p.Length
    modifies p
    ensures p[lo..lo + |data|] == data
    ensures p[..lo] == old(p[..lo]) && p[lo + |data|..] == old(p[lo + |data|..])
  {
    forall i | 0 <= i < |data| {
      p[lo + i] := data[i];
    }
    assert forall i | 0 <= i < |data| :: p[lo + i] == data[i];
  }

  class Conn {
    var net: Net

    constructor (net: Net)
      ensures this.net == net
    {
      this.net := net;
    }

    /** One read of the socket into `p[lo..hi]`. */
    method Read(p: array<byte>, lo: nat, hi: nat) returns (n: nat, eof: bool)
      requires lo < hi <= p.Length
      modifies this, p
      ensures eof == (old(net).segs == [])
      ensures eof ==> net == old(net) && p[..] == old(p[..])
      ensures !eof ==>
                var (data, net') := NetRead(old(net), hi - lo);
                n == |data| && net == net' && p[lo..lo + n] == data
                && p[..lo] == old(p[..lo]) && p[lo + n..] == old(p[lo + n..])
    {
      if net.segs == [] {
        return 0, true;
      }
      var (data, net') := NetRead(net, hi - lo);
      Copy(data, p, lo);
      net := net';
      return |data|, false;
    }
  }

  class BufReader {
    const conn: Conn
    const buf: array<byte>
    var r: nat
    var w: nat

    ghost predicate Valid()
      reads this
    {
      buf.Length == READER_SIZE && r <= w <= READER_SIZE
    }

    ghost function View(): Input
      requires Valid()
      reads this, buf, conn
    {
      Input(buf[r..w], conn.net)
    }

    constructor (conn: Conn)
      ensures Valid() && fresh(buf) && this.conn == conn && View() == Input([], conn.net)
    {
      this.conn := conn;
      buf := new byte[READER_SIZE];
      r, w := 0, 0;
    }

    /** Copies what the buffer holds, at most `hi - lo` bytes, into `p`. */
    method Take(p: array<byte>, lo: nat, hi: nat) returns (n: nat)
      requires Valid() && lo < hi <= p.Length && p != buf
      modifies this`r, p
      ensures Valid() && n == Min(hi - lo, |old(View()).buf|)
      ensures View() == Input(old(View()).buf[n..], conn.net)
      ensures p[lo..lo + n] == old(View()).buf[..n]
      ensures p[..lo] == old(p[..lo]) && p[lo + n..] == old(p[lo + n..])
    {
      n := Min(hi - lo, w - r);
      var was := buf[r..w];
      ghost var rest := buf[r + n..w];
      assert buf[r..r + n] == was[..n] && rest == was[n..];
      Copy(was[..n], p, lo);
      r := r + n;
      assert buf[r..w] == rest;
    }

    method Read(p: array<byte>, lo: nat, hi: nat) returns (n: nat, eof: bool)
      requires Valid() && lo < hi <= p.Length && p != buf
      modifies this, buf, conn, p
      ensures Valid()
      ensures eof == BufRead(old(View()), hi - lo).0.Eof?
      ensures View() == BufRead(old(View()), hi - lo).1
      ensures eof ==> p[..] == old(p[..])
      ensures !eof ==> n <= hi - lo && p[lo..lo + n] == BufRead(old(View()), hi - lo).0.data
                       && p[..lo] == old(p[..lo]) && p[lo + n..] == old(p[lo + n..])
    {
      hide NetRead, Measure, Weight;
      if r == w {
        if hi - lo >= READER_SIZE {
          n, eof := conn.Read(p, lo, hi);
          return;
        }
        r, w := 0, 0;
        n, eof := conn.Read(buf, 0, READER_SIZE);
        if eof {
          return;
        }
        w := n;
      }
      n := Take(p, lo, hi);
      eof := false;
    }
  }
}
