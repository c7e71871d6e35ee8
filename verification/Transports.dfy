/**
 pkg/proto/packet.go and transport.go as objects: packets live in recycled buffers, `readloop`
 decodes into them and sorts them into three queues, readers take them out and give the buffers
 back. `Transport.Valid` says that no buffer is in two places at once; the contracts say that,
 seen from outside, the pooled buffers behave like plain queues of byte strings.
 */
module Transports {
  import opened Frames
  import opened Reader

  const MAX_ALIVE := 5

  /** `sync.Pool`: free frame buffers. `Get` may always decide to allocate. */
  class Pool {
    var free: set<array<byte>>

    ghost predicate Valid()
      reads this
    {
      forall b <- free :: b.Length == FRAME_CAPACITY
    }

    constructor ()
      ensures Valid() && free == {}
    {
      free := {};
    }

    method Get() returns (b: array<byte>)
      requires Valid()
      modifies this
      ensures Valid() && b.Length == FRAME_CAPACITY && b !in free
      ensures fresh(b) || b in old(free)
      ensures free == old(free) - {b}
    {
      var reuse: bool := *;
      if reuse && free != {} {
        b :| b in free;
        free := free - {b};
      } else {
        b := new byte[FRAME_CAPACITY];
      }
    }

    /** Callers prove `b !in free`: nothing is released twice. */
    method Put(b: array<byte>)
      requires Valid() && b.Length == FRAME_CAPACITY && b !in free
      modifies this
      ensures Valid() && free == old(free) + {b}
    {
      free := free + {b};
    }
  }

  /** A decoded packet: its body is the slice of the pooled buffer behind the header. */
  datatype Packet = Packet(tag: uint16, length: nat, buf: array<byte>) {
    ghost predicate Valid() {
      buf.Length == FRAME_CAPACITY && length <= MAX_PAYLOAD
    }

    ghost function Body(): Bytes
      requires Valid()
      reads buf
    {
      buf[HEADER_SIZE..HEADER_SIZE + length]
    }
  }

  datatype Unpacked = Ended | Bad | Arrived(pkt: Packet)

  /** `UnpackFrom`. A header that cannot be read whole loses the buffer just taken from the pool;
      every later failure returns it. */
  method UnpackFrom(reader: BufReader, pool: Pool) returns (r: Unpacked)
    requires reader.Valid() && pool.Valid()
    modifies reader, reader.buf, reader.conn, pool, pool.free
    ensures reader.Valid() && pool.Valid()
    ensures reader.View() == Unpack(old(reader.View())).1
    ensures match Unpack(old(reader.View())).0
            case Closed => r.Ended?
            case Malformed => r.Bad?
            case Got(f) => r.Arrived? && r.pkt.Valid() && Frame(r.pkt.tag, r.pkt.Body()) == f
    ensures forall b <- pool.free :: b in old(pool.free) || fresh(b)
    ensures r.Arrived? ==> r.pkt.buf !in pool.free && (r.pkt.buf in old(pool.free) || fresh(r.pkt.buf))
  {
    hide BufRead, Measure;
    var buf := pool.Get();
    var n, eof := reader.Read(buf, 0, HEADER_SIZE);
    if eof {
      return Ended;
    }
    if n != HEADER_SIZE {
      return Bad;
    }
    assert buf[0..HEADER_SIZE] == BufRead(old(reader.View()), HEADER_SIZE).0.data;
    var tag, length := FromBE16(buf[0], buf[1]), FromBE16(buf[2], buf[3]);
    if length == 0 {
      return Arrived(Packet(tag, length, buf));
    }
    if length > MAX_PAYLOAD {
      pool.Put(buf);
      return Bad;
    }
    n, eof := reader.Read(buf, HEADER_SIZE, HEADER_SIZE + length);
    if eof || n != length {
      pool.Put(buf);
      return if eof then Ended else Bad;
    }
    r := Arrived(Packet(tag, length, buf));
  }

  ghost predicate Separate(ps: seq<Packet>) {
    forall i, j | 0 <= i < j < |ps| :: ps[i].buf != ps[j].buf
  }

  ghost function Buffers(ps: seq<Packet>): set<array<byte>> {
    set p | p in ps :: p.buf
  }

  /** The byte strings a queue of packets stands for. */
  ghost function Bodies(ps: seq<Packet>): (bodies: seq<Bytes>)
    requires forall p <- ps :: p.Valid()
    reads Buffers(ps)
    ensures |bodies| == |ps|
    ensures forall i | 0 <= i < |ps| :: bodies[i] == ps[i].Body()
  {
    if ps == [] then [] else
      assert forall p <- ps[1..] :: p in ps;
      [ps[0].Body()] + Bodies(ps[1..])
  }

  /** What a transport looks like from outside: the input still to come, the three queues as byte
      strings, the writes made on the connection and whether it still takes any, the liveness
      counter and the closing flag. */
  datatype Outside = Outside(input: Input, raw: seq<Bytes>, req: seq<Bytes>, resp: seq<Bytes>,
                             out: seq<Bytes>, broken: bool, alive: int, done: bool)

  /** One turn of `readloop`. */
  function Turn(v: Outside): Outside {
    var (o, input) := Unpack(v.input);
    match o
    case Closed => v.(input := input, done := true, broken := true)
    case Malformed => v.(input := input)
    case Got(f) => Sort(v.(input := input, alive := MAX_ALIVE), f)
  }

  /** Where a decoded frame goes. Requests and responses without a body are dropped, a ping is
      answered at once, and a closed transport takes nothing more. */
  function Sort(v: Outside, f: Frame): Outside {
    if v.done then v
    else if f.tag == RAW then v.(raw := v.raw + [f.body])
    else if f.tag == REQ && f.body != [] then v.(req := v.req + [f.body])
    else if f.tag == RESP && f.body != [] then v.(resp := v.resp + [f.body])
    else if f.tag == PING && !v.broken then v.(out := v.out + [Encode(Frame(PONG, []))])
    else v
  }

  /** A Go channel of packets, as a queue. */
  class Channel {
    var items: seq<Packet>

    ghost predicate Valid()
      reads this
    {
      Separate(items) && forall p <- items :: p.Valid()
    }

    ghost function Bufs(): set<array<byte>>
      reads this
    {
      Buffers(items)
    }

    ghost function Contents(): (contents: seq<Bytes>)
      requires Valid()
      reads this, Bufs()
      ensures |contents| == |items|
    {
      Bodies(items)
    }

    constructor ()
      ensures Valid() && items == [] && Bufs() == {} && Contents() == []
    {
      items := [];
    }

    method Send(p: Packet)
      requires Valid() && p.Valid() && p.buf !in Bufs()
      modifies this
      ensures Valid() && items == old(items) + [p]
      ensures Bufs() == old(Bufs()) + {p.buf}
      ensures Contents() == old(Contents()) + [p.Body()]
    {
      ghost var was, contents := items, Contents();
      items := items + [p];
      assert forall q :: q in items <==> q == p || q in was;
      assert Contents() == contents + [p.Body()];
    }

    method Receive() returns (p: Packet)
      requires Valid() && items != []
      modifies this
      ensures Valid() && p.Valid() && items == old(items)[1..]
      ensures p.buf in old(Bufs()) && Bufs() == old(Bufs()) - {p.buf}
      ensures old(Contents()) == [p.Body()] + Contents()
    {
      ghost var was, contents := items, Contents();
      p := items[0];
      items := items[1..];
      assert was == [p] + items;
      assert forall q :: q in was <==> q == p || q in items;
      assert contents == [p.Body()] + Contents();
    }
  }

  class Transport {
    const pool: Pool
    const reader: BufReader
    const sink: Sink
    const rawCh: Channel
    const reqCh: Channel
    const respCh: Channel
    /** Packets a dispatcher has taken out; their release is deferred until it stops. */
    const held: Channel
    var aliveCount: int
    var done: bool

    ghost function Channels(): set<Channel> {
      {rawCh, reqCh, respCh, held}
    }

    ghost predicate Valid()
      reads this, pool, reader, Channels()
    {
      && pool.Valid() && reader.Valid()
      && rawCh != reqCh && rawCh != respCh && rawCh != held
      && reqCh != respCh && reqCh != held && respCh != held
      && rawCh.Valid() && reqCh.Valid() && respCh.Valid() && held.Valid()
      && rawCh.Bufs() !! reqCh.Bufs() && rawCh.Bufs() !! respCh.Bufs() && rawCh.Bufs() !! held.Bufs()
      && reqCh.Bufs() !! respCh.Bufs() && reqCh.Bufs() !! held.Bufs() && respCh.Bufs() !! held.Bufs()
      && rawCh.Bufs() !! pool.free && reqCh.Bufs() !! pool.free
      && respCh.Bufs() !! pool.free && held.Bufs() !! pool.free
    }

    ghost function View(): Outside
      requires Valid()
      reads this, pool, reader, reader.buf, reader.conn, sink, Channels(),
            rawCh.Bufs(), reqCh.Bufs(), respCh.Bufs()
    {
      Outside(reader.View(), rawCh.Contents(), reqCh.Contents(), respCh.Contents(),
              sink.writes, sink.broken, aliveCount, done)
    }

    /** The buffers of packets not yet released. */
    ghost function Live(): set<array<byte>>
      reads this, Channels()
    {
      rawCh.Bufs() + reqCh.Bufs() + respCh.Bufs() + held.Bufs()
    }

    /** Every buffer this transport or the pool can touch. */
    ghost function Reach(): set<array<byte>>
      reads this, pool, Channels()
    {
      Live() + pool.free
    }

    constructor (pool: Pool, conn: Conn, sink: Sink)
      requires pool.Valid()
      ensures Valid() && this.pool == pool && this.sink == sink && this.reader.conn == conn
      ensures fresh(reader) && fresh(reader.buf) && fresh(Channels()) && Reach() == pool.free
      ensures View() == Outside(Input([], conn.net), [], [], [], sink.writes, sink.broken, MAX_ALIVE, false)
    {
      this.pool, this.sink := pool, sink;
      reader := new BufReader(conn);
      rawCh := new Channel();
      reqCh := new Channel();
      respCh := new Channel();
      held := new Channel();
      aliveCount, done := MAX_ALIVE, false;
    }

    method Close()
      requires Valid()
      modifies this`done, sink`broken
      ensures Valid() && done && sink.broken && Reach() == old(Reach())
      ensures View() == old(View()).(done := true, broken := true)
    {
      done := true;
      sink.broken := true;
    }

    /** Sorts a freshly decoded packet into its queue, answers it or drops it. */
    method Deliver(p: Packet)
      requires Valid() && p.Valid() && p.buf !in Reach() && !done
      modifies rawCh, reqCh, respCh, sink`writes
      ensures Valid()
      ensures View() == Sort(old(View()), Frame(p.tag, p.Body()))
      ensures Reach() <= old(Reach()) + {p.buf}
    {
      hide Channel.Contents, Channel.Valid, Encode;
      ghost var was, body := View(), p.Body();
      assert |body| == p.length;
      if p.tag == RAW {
        rawCh.Send(p);
        assert View() == was.(raw := was.raw + [body]);
      } else if p.tag == REQ && p.length > 0 {
        reqCh.Send(p);
        assert View() == was.(req := was.req + [body]);
      } else if p.tag == RESP && p.length > 0 {
        respCh.Send(p);
        assert View() == was.(resp := was.resp + [body]);
      } else if p.tag == PING {
        var ok := PackInto(PONG, [], sink);
      }
    }

    /** `UnpackFrom` on this transport's connection: no queued body changes, whichever buffer the
        pool hands out. */
    method Decode() returns (r: Unpacked)
      requires Valid()
      modifies reader, reader.buf, reader.conn, pool, pool.free
      ensures Valid()
      ensures View() == old(View()).(input := Unpack(old(View()).input).1)
      ensures match Unpack(old(View()).input).0
              case Closed => r.Ended?
              case Malformed => r.Bad?
              case Got(f) => r.Arrived? && r.pkt.Valid() && Frame(r.pkt.tag, r.pkt.Body()) == f
      ensures r.Arrived? ==> r.pkt.buf !in Reach() && (r.pkt.buf in old(Reach()) || fresh(r.pkt.buf))
      ensures forall b <- Reach() :: b in old(Reach()) || fresh(b)
    {
      hide Unpack, Channel.Contents;
      r := UnpackFrom(reader, pool);
    }

    /** One turn of the loop. */
    method ReadLoopTurn() returns (running: bool)
      requires Valid()
      modifies this, reader, reader.buf, reader.conn, pool, pool.free, sink, rawCh, reqCh, respCh
      ensures Valid()
      ensures View() == Turn(old(View()))
      ensures running ==> !Unpack(old(View()).input).0.Closed?
      ensures forall b <- Reach() :: b in old(Reach()) || fresh(b)
    {
      hide Unpack, Sort, View, Valid, Reach, Packet.Body;
      var r := Decode();
      match r
      case Ended =>
        Close();
        return false;
      case Bad =>
        return true;
      case Arrived(p) =>
        Accept(p);
        return !done;
    }

    method Accept(p: Packet)
      requires Valid() && p.Valid() && p.buf !in Reach()
      modifies this`aliveCount, rawCh, reqCh, respCh, sink`writes
      ensures Valid() && Reach() <= old(Reach()) + {p.buf}
      ensures View() == Sort(old(View()).(alive := MAX_ALIVE), Frame(p.tag, p.Body()))
    {
      hide Channel.Contents, Channel.Valid, Encode;
      aliveCount := MAX_ALIVE;
      if !done {
        Deliver(p);
      }
    }

    /** `Transport.Read`: the oldest raw packet is copied out whole and its buffer released, or, if
        `b` is too short for it, dropped with an error. The receive blocks on an empty open queue. */
    method Read(b: array<byte>) returns (n: nat, ok: bool)
      requires Valid() && (rawCh.items != [] || done)
      requires b !in Reach() && b != reader.buf
      modifies rawCh, pool, b
      ensures Valid() && Reach() == old(Reach())
      ensures old(View()).raw == [] ==> !ok && View() == old(View())
      ensures old(View()).raw != [] ==> View() == old(View()).(raw := old(View()).raw[1..])
      ensures ok == (old(View()).raw != [] && |old(View()).raw[0]| <= b.Length)
      ensures ok ==> n == |old(View()).raw[0]| && b[..] == old(View()).raw[0] + old(b[..])[n..]
      ensures !ok ==> n == 0 && b[..] == old(b[..])
    {
      hide Channel.Contents, Channel.Valid;
      if rawCh.items == [] {
        return 0, false;
      }
      var p := Dequeue();
      ghost var body, was := p.Body(), b[..];
      if b.Length < p.length {
        n, ok := 0, false;
      } else {
        Copy(p.buf[HEADER_SIZE..HEADER_SIZE + p.length], b, 0);
        n, ok := p.length, true;
        assert b[..] == body + was[n..];
      }
      Recycle(p);
    }

    /** Takes out the oldest raw packet, whose buffer nothing reaches any more. */
    method Dequeue() returns (p: Packet)
      requires Valid() && rawCh.items != []
      modifies rawCh
      ensures Valid() && p.Valid() && p.buf !in Reach() && old(Reach()) == Reach() + {p.buf}
      ensures p.Body() == old(View()).raw[0] && View() == old(View()).(raw := old(View()).raw[1..])
    {
      hide Channel.Contents, Channel.Valid;
      p := rawCh.Receive();
    }

    method Recycle(p: Packet)
      requires Valid() && p.Valid() && p.buf !in Reach()
      modifies pool
      ensures Valid() && View() == old(View()) && Reach() == old(Reach()) + {p.buf}
    {
      hide Channel.Contents, Channel.Valid;
      pool.Put(p.buf);
    }

    /** The dispatchers receive a packet and keep it: its release is deferred to their own end. */
    method Take(c: Channel) returns (body: Bytes)
      requires Valid() && (c == reqCh || c == respCh) && c.items != []
      modifies c, held
      ensures Valid() && Reach() == old(Reach())
      ensures View() == if c == reqCh then old(View()).(req := old(View()).req[1..])
                        else old(View()).(resp := old(View()).resp[1..])
      ensures body == if c == reqCh then old(View()).req[0] else old(View()).resp[0]
    {
      hide Channel.Contents, Channel.Valid;
      var p := c.Receive();
      held.Send(p);
      body := p.buf[HEADER_SIZE..HEADER_SIZE + p.length];
    }

    method ReleaseOne()
      requires Valid() && held.items != []
      modifies held, pool
      ensures Valid() && Reach() == old(Reach())
      ensures View() == old(View()) && |held.items| < |old(held.items)|
    {
      hide Channel.Contents, Channel.Valid;
      var p := held.Receive();
      pool.Put(p.buf);
    }

    /** A dispatcher stops: everything it took goes back to the pool. */
    method ReleaseHeld()
      requires Valid()
      modifies held, pool
      ensures Valid() && Reach() == old(Reach())
      ensures View() == old(View()) && held.items == []
    {
      hide View, Reach;
      while held.items != []
        invariant Valid() && Reach() == old(Reach())
        invariant View() == old(View())
        decreases |held.items|
      {
        ReleaseOne();
      }
    }
  }

  // ----- Many transports, one pool -----

  /** Two transports on one pool, each with its own connection, channels and reader. */
  ghost predicate Parts(t: Transport, u: Transport) {
    && t != u && t.pool == u.pool && t.sink != u.sink
    && t.reader != u.reader && t.reader.buf != u.reader.buf && t.reader.conn != u.reader.conn
    && t.Channels() !! u.Channels()
  }

  /** The pool is global: what keeps two transports independent is that they hold different buffers. */
  ghost predicate Apart(t: Transport, u: Transport)
    reads t, u, t.Channels(), u.Channels()
  {
    Parts(t, u) && t.Live() !! u.Live()
  }
}
