/**
 The tunnel end to end: bridge A reads packets from its interface and forwards them over a punched
 datagram connection; bridge B decodes, queues, receives and writes them to its own interface. The
 connection is lossless and in order, and keepalive frames, other control frames and left-over
 punch probes may come anywhere in between.
 */
module Tunnel {
  import opened Frames
  import opened Reader
  import opened Transports
  import opened Queues
  import opened Bridge
  import opened Routing

  /** What happens on A's side of the link, in order. */
  datatype Event = FromVeth(data: Bytes) | Control(frame: Frame) | Probe(bytes: Bytes)

  predicate Possible(e: Event) {
    match e
    case FromVeth(data) => HasFixedHeader(data)
    case Control(f) => f.tag != RAW && Sendable(f)
    case Probe(b) => |b| < HEADER_SIZE
  }

  predicate AllPossible(events: seq<Event>) {
    forall i | 0 <= i < |events| :: Possible(events[i])
  }

  /** What one event puts on the link to a peer with the given networks. */
  function SentFor(ips: seq<IPNet>, routes: seq<IPNet>, e: Event): (traffic: seq<Traffic>)
    requires Possible(e)
    ensures AllCarried(traffic) && |traffic| <= 1
  {
    match e
    case FromVeth(data) =>
      if Routed(ips, routes, data) && |data| <= MAX_PAYLOAD then [Whole(Frame(RAW, data))] else []
    case Control(f) => [Whole(f)]
    case Probe(b) => [Stray(b)]
  }

  /** What A puts on the link. */
  function SentTo(ips: seq<IPNet>, routes: seq<IPNet>, events: seq<Event>): (traffic: seq<Traffic>)
    requires AllPossible(events)
    ensures AllCarried(traffic)
  {
    if events == [] then [] else SentFor(ips, routes, events[0]) + SentTo(ips, routes, events[1..])
  }

  function FromInterface(packets: seq<Bytes>): (events: seq<Event>)
    ensures |events| == |packets|
    ensures forall i | 0 <= i < |packets| :: events[i] == FromVeth(packets[i])
  {
    seq(|packets|, i requires 0 <= i < |packets| => FromVeth(packets[i]))
  }

  lemma {:induction false} SentToAppend(ips: seq<IPNet>, routes: seq<IPNet>, a: seq<Event>, b: seq<Event>)
    requires AllPossible(a) && AllPossible(b)
    ensures SentTo(ips, routes, a + b) == SentTo(ips, routes, a) + SentTo(ips, routes, b)
  {
    hide SentFor, Possible;
    if a == [] {
      assert a + b == b;
    } else {
      assert (a + b)[1..] == a[1..] + b;
      SentToAppend(ips, routes, a[1..], b);
    }
  }

  lemma {:induction false} OnWireAppend(a: seq<Traffic>, b: seq<Traffic>)
    requires AllCarried(a) && AllCarried(b)
    ensures OnWire(a + b) == OnWire(a) + OnWire(b)
  {
    if a == [] {
      assert a + b == b;
    } else {
      assert (a + b)[1..] == a[1..] + b;
      OnWireAppend(a[1..], b);
    }
  }

  lemma FromInterfacePossible(packets: seq<Bytes>)
    requires AllHaveHeaders(packets)
    ensures AllPossible(FromInterface(packets))
  {
  }

  lemma NothingSent(ips: seq<IPNet>, routes: seq<IPNet>)
    ensures SentTo(ips, routes, []) == [] && OnWire([]) == []
  {
  }

  /** What `HandleVeth` writes on a working link is what `SentTo` says. */
  lemma {:induction false} InterfaceToWire(ips: seq<IPNet>, routes: seq<IPNet>, was: seq<Bytes>, packets: seq<Bytes>)
    requires AllHaveHeaders(packets)
    ensures AllPossible(FromInterface(packets))
    ensures OfferedAll(ips, routes, false, was, packets) == was + OnWire(SentTo(ips, routes, FromInterface(packets)))
  {
    hide OnWire, SentTo, Encode, Offered, AllPossible, Routed, HasFixedHeader;
    FromInterfacePossible(packets);
    if packets == [] {
      NothingSent(ips, routes);
      assert FromInterface(packets) == [];
    } else {
      var init, last := packets[..|packets| - 1], packets[|packets| - 1];
      InterfaceToWire(ips, routes, was, init);
      OnePacket(ips, routes, was + OnWire(SentTo(ips, routes, FromInterface(init))), last);
      assert FromInterface(packets) == FromInterface(init) + [FromVeth(last)];
      SentToAppend(ips, routes, FromInterface(init), [FromVeth(last)]);
      OnWireAppend(SentTo(ips, routes, FromInterface(init)), SentTo(ips, routes, [FromVeth(last)]));
    }
  }

  lemma OnePacket(ips: seq<IPNet>, routes: seq<IPNet>, was: seq<Bytes>, data: Bytes)
    requires HasFixedHeader(data)
    ensures AllPossible([FromVeth(data)])
    ensures Offered(ips, routes, false, was, data) == was + OnWire(SentTo(ips, routes, [FromVeth(data)]))
  {
    hide OnWire, SentTo, Encode, Routed;
    SentToOne(ips, routes, FromVeth(data));
    if SentFor(ips, routes, FromVeth(data)) == [] {
      NothingSent(ips, routes);
    } else {
      OneOnWire(Frame(RAW, data));
    }
  }

  lemma SentToOne(ips: seq<IPNet>, routes: seq<IPNet>, e: Event)
    requires Possible(e)
    ensures AllPossible([e]) && SentTo(ips, routes, [e]) == SentFor(ips, routes, e)
  {
    hide SentFor;
    assert [e][1..] == [] && SentTo(ips, routes, []) == [];
  }

  lemma OneOnWire(f: Frame)
    requires Sendable(f)
    ensures OnWire([Whole(f)]) == [Encode(f)]
  {
    hide Encode;
    assert [Whole(f)][1..] == [] && OnWire([]) == [];
  }

  /** The packets that should come out at B: those meant for it, short enough for one datagram. */
  function Crossing(ips: seq<IPNet>, routes: seq<IPNet>, events: seq<Event>): seq<Bytes>
    requires AllPossible(events)
  {
    if events == [] then [] else CrossingOf(ips, routes, events[0]) + Crossing(ips, routes, events[1..])
  }

  function CrossingOf(ips: seq<IPNet>, routes: seq<IPNet>, e: Event): seq<Bytes>
    requires Possible(e)
  {
    match e
    case FromVeth(data) => if Routed(ips, routes, data) && HEADER_SIZE + |data| <= READER_SIZE then [data] else []
    case _ => []
  }

  /** A packet for `dst`, however it is built, should cross exactly if everybody gets it or the peer has a
      network with the prefix of `dst`, and it fits a datagram. */
  lemma CrossingIffMeant(ips: seq<Prefix>, routes: seq<Prefix>, head: Bytes, dst: IP, rest: Bytes)
    requires IsHead(head, dst) && forall p <- ips + routes :: p.Valid()
    ensures var data := head + dst + rest;
            && Possible(FromVeth(data))
            && CrossingOf(Nets(ips), Nets(routes), FromVeth(data))
               == if |data| <= READER_SIZE - HEADER_SIZE && Meant(ips, routes, dst) then [data] else []
  {
    hide Routed, Meant, HasFixedHeader;
    RoutedIffMeant(ips, routes, head, dst, rest);
  }

  lemma {:induction false} SurvivingAppend(a: seq<Traffic>, b: seq<Traffic>)
    ensures Surviving(a + b) == Surviving(a) + Surviving(b)
  {
    if a == [] {
      assert a + b == b;
    } else {
      assert (a + b)[1..] == a[1..] + b;
      SurvivingAppend(a[1..], b);
    }
  }

  lemma {:induction false} TaggedAppend(tag: uint16, a: seq<Frame>, b: seq<Frame>)
    ensures Tagged(tag, a + b) == Tagged(tag, a) + Tagged(tag, b)
  {
    if a == [] {
      assert a + b == b;
    } else {
      assert (a + b)[1..] == a[1..] + b;
      TaggedAppend(tag, a[1..], b);
    }
  }

  lemma {:induction false} RawFramesAreTheCrossing(ips: seq<IPNet>, routes: seq<IPNet>, events: seq<Event>)
    requires AllPossible(events)
    ensures Tagged(RAW, Surviving(SentTo(ips, routes, events))) == Crossing(ips, routes, events)
  {
    hide SentFor, CrossingOf, Surviving, Tagged, Possible;
    if events == [] {
      NothingCrosses(ips, routes);
    } else {
      var first, rest := SentFor(ips, routes, events[0]), SentTo(ips, routes, events[1..]);
      OneCrossing(ips, routes, events[0]);
      SurvivingAppend(first, rest);
      TaggedAppend(RAW, Surviving(first), Surviving(rest));
      RawFramesAreTheCrossing(ips, routes, events[1..]);
    }
  }

  lemma NothingCrosses(ips: seq<IPNet>, routes: seq<IPNet>)
    ensures Tagged(RAW, Surviving(SentTo(ips, routes, []))) == [] && Crossing(ips, routes, []) == []
  {
  }

  lemma OneCrossing(ips: seq<IPNet>, routes: seq<IPNet>, e: Event)
    requires Possible(e)
    ensures Tagged(RAW, Surviving(SentFor(ips, routes, e))) == CrossingOf(ips, routes, e)
  {
    hide Routed;
    var sent := SentFor(ips, routes, e);
    if sent != [] {
      assert sent == [sent[0]] && sent[1..] == [];
      assert Surviving([]) == [] && Tagged(RAW, []) == [];
      var survivors := Surviving(sent);
      assert survivors != [] ==> survivors == [survivors[0]] && survivors[1..] == [];
    }
  }

  lemma {:induction false} CrossingIsShort(ips: seq<IPNet>, routes: seq<IPNet>, events: seq<Event>)
    requires AllPossible(events)
    ensures forall p <- Crossing(ips, routes, events) :: HEADER_SIZE + |p| <= READER_SIZE
  {
    if events != [] {
      CrossingIsShort(ips, routes, events[1..]);
    }
  }

  /** Every read is into a buffer of `room` bytes. */
  predicate AllRoomy(ops: seq<Op>, room: nat) {
    forall op <- ops :: op.ReadRaw? ==> op.room == room
  }

  /** The tunnel is transparent for every packet that fits a datagram, and for no other: whatever the
      interleaving at B, the packets it takes from the link are a prefix of the packets A read that were
      meant for it and are at most 4092 bytes long; and once everything sent has been decoded and
      received, they are all of them. Into buffers of 8192 bytes each is copied whole. */
  lemma TunnelTransparency(ips: seq<IPNet>, routes: seq<IPNet>, events: seq<Event>, ops: seq<Op>)
    requires AllPossible(events)
    ensures var end := Execute(Opened(Datagrams(OnWire(SentTo(ips, routes, events)))), ops);
            var crossing := Crossing(ips, routes, events);
            && Taken(end.raw) <= crossing
            && (CloseOp !in ops && Decoded(end.view.input) == [] && end.view.raw == [] ==> Taken(end.raw) == crossing)
            && (AllRoomy(ops, BRIDGE_BUFFER) ==> forall h <- end.raw :: h.Copied?)
  {
    hide Execute, Decoded;
    var traffic := SentTo(ips, routes, events);
    var input := Datagrams(OnWire(traffic));
    DatagramResync(traffic);
    RawFramesAreTheCrossing(ips, routes, events);
    QueuesCarryTheirFrames(input, ops);
    CrossingIsShort(ips, routes, events);
    var end := Execute(Opened(input), ops);
    assert RAW in QUEUE_TAGS;
    assert Delivered(end, RAW) == Taken(end.raw) + end.view.raw;
    assert Taken(end.raw) <= Delivered(end, RAW);
    if AllRoomy(ops, BRIDGE_BUFFER) {
      forall k | 0 <= k < |end.raw|
        ensures end.raw[k].Copied?
      {
        var i := HandedIfItFits(Opened(input), ops, k);
        assert ops[i] in ops && Taken(end.raw)[k] in Crossing(ips, routes, events);
      }
    }
  }

  /** What B does in a turn: of its read loop, or of its `handlePeer`, which waits if there is nothing. */
  function OpOf(loop: bool): Op {
    if loop then LoopTurn else ReadRaw(BRIDGE_BUFFER)
  }

  function OpsOf(turns: seq<bool>): (ops: seq<Op>)
    ensures |ops| == |turns| && forall i | 0 <= i < |ops| :: ops[i] == OpOf(turns[i])
  {
    seq(|turns|, i requires 0 <= i < |turns| => OpOf(turns[i]))
  }

  /** However B's loops have taken turns so far, they can go on until every packet that should cross has. */
  lemma EverythingCanCross(ips: seq<IPNet>, routes: seq<IPNet>, events: seq<Event>, turns: seq<bool>)
    returns (more: seq<bool>)
    requires AllPossible(events)
    ensures var end := Execute(Opened(Datagrams(OnWire(SentTo(ips, routes, events)))), OpsOf(turns + more));
            Taken(end.raw) == Crossing(ips, routes, events)
  {
    hide Execute, Decoded, Crossing, SentTo, OnWire;
    var start := Opened(Datagrams(OnWire(SentTo(ips, routes, events))));
    var r := Execute(start, OpsOf(turns));
    var n := TurnsDecodeAll(r);
    var r1 := Execute(r, Times(n, LoopTurn));
    var k := |r1.view.raw|;
    ReadsDrain(r1, BRIDGE_BUFFER);
    more := seq(n, _ => true) + seq(k, _ => false);
    ExecuteAppend(start, OpsOf(turns), Times(n, LoopTurn));
    ExecuteAppend(start, OpsOf(turns) + Times(n, LoopTurn), Times(k, ReadRaw(BRIDGE_BUFFER)));
    assert OpsOf(turns + more) == OpsOf(turns) + Times(n, LoopTurn) + Times(k, ReadRaw(BRIDGE_BUFFER));
    TunnelTransparency(ips, routes, events, OpsOf(turns + more));
  }

  /** B itself: its read loop and its `handlePeer` take turns in any order (`true` is a turn of the read
      loop), each of which gets on. What B has written to its interface is a prefix of the packets meant for
      it, and all of them once nothing is left on the connection and in the queue. */
  method ReceiveAll(b: Bridge, p: Peer, v: array<byte>, turns: seq<bool>,
                    ghost ips: seq<IPNet>, ghost routes: seq<IPNet>, ghost events: seq<Event>)
    requires b.Valid() && p.transport.Valid() && v.Length == BRIDGE_BUFFER && AllPossible(events)
    requires p.transport.View() == Opened(Datagrams(OnWire(SentTo(ips, routes, events)))).view
    modifies b`peers, b.veth, v, p.transport, p.transport.reader, p.transport.reader.buf, p.transport.reader.conn,
             p.transport.pool, p.transport.sink, p.transport.Channels(), p.transport.Reach()
    ensures p.transport.Valid()
    ensures var end := Execute(Opened(Datagrams(OnWire(SentTo(ips, routes, events)))), OpsOf(turns));
            p.transport.View() == end.view && b.veth.written == old(b.veth.written) + Taken(end.raw)
    ensures old(b.veth.written) <= b.veth.written
    ensures b.veth.written[|old(b.veth.written)|..] <= Crossing(ips, routes, events)
    ensures Decoded(p.transport.View().input) == [] && p.transport.View().raw == [] ==>
              b.veth.written == old(b.veth.written) + Crossing(ips, routes, events)
  {
    hide Turn, Execute, Decoded, OnWire, SentTo, Crossing, Channel.Contents, Channel.Valid, Transport.View;
    hide Transport.Valid, Transport.Reach;
    var t := p.transport;
    ghost var start, log := Opened(Datagrams(OnWire(SentTo(ips, routes, events)))), [];
    ExecuteNothing(start);
    assert OpsOf(turns)[..0] == [];
    for k := 0 to |turns|
      invariant b.Valid() && t.Valid() && forall x <- t.Reach() :: x in old(t.Reach()) || fresh(x)
      invariant Run(t.View(), log, [], []) == Execute(start, OpsOf(turns)[..k])
      invariant b.veth.written == old(b.veth.written) + Taken(log)
    {
      ghost var view := t.View();
      ghost var more := ReceiveTurn(b, p, v, turns[k]);
      ExecuteNext(start, OpsOf(turns)[..k], OpOf(turns[k]));
      assert OpsOf(turns)[..k] + [OpOf(turns[k])] == OpsOf(turns)[..k + 1];
      TurnDoes(view, log, OpOf(turns[k]), more, t.View());
      assert Taken(log + more) == Taken(log) + Taken(more);
      log := log + more;
    }
    assert OpsOf(turns)[..|turns|] == OpsOf(turns);
    TunnelTransparency(ips, routes, events, OpsOf(turns));
  }

  /** One turn. */
  method ReceiveTurn(b: Bridge, p: Peer, v: array<byte>, loop: bool) returns (ghost more: seq<Handed>)
    requires b.Valid() && p.transport.Valid() && v.Length == BRIDGE_BUFFER
    modifies b`peers, b.veth, v, p.transport, p.transport.reader, p.transport.reader.buf, p.transport.reader.conn,
             p.transport.pool, p.transport.sink, p.transport.Channels(), p.transport.Reach()
    ensures b.Valid() && p.transport.Valid()
    ensures forall x <- p.transport.Reach() :: x in old(p.transport.Reach()) || fresh(x)
    ensures Takes(old(p.transport.View()), OpOf(loop), Log(more, [], []), p.transport.View())
    ensures b.veth.written == old(b.veth.written) + Taken(more)
  {
    hide Turn, Channel.Contents, Channel.Valid;
    more := [];
    if loop {
      var running := p.transport.ReadLoopTurn();
    } else {
      QueuedPacketsFit(p.transport);
      if p.transport.rawCh.items != [] {
        ghost var body := p.transport.View().raw[0];
        var running := b.HandlePeerPacket(p, v);
        more := [Copied(body)];
        assert Taken(more) == [body];
      }
    }
  }

  lemma TurnDoes(v: Outside, log: seq<Handed>, op: Op, more: seq<Handed>, v': Outside)
    requires Takes(v, op, Log(more, [], []), v')
    ensures Do(Run(v, log, [], []), op) == Run(v', log + more, [], [])
  {
    hide Takes, Do;
    DoTakes(v, Log(log, [], []), op, Log(more, [], []), v');
  }

  /** A packet of 4093 bytes is accepted for sending and never arrives. */
  lemma LongPacketIsLost(data: Bytes, ops: seq<Op>)
    requires HasFixedHeader(data) && READER_SIZE - HEADER_SIZE < |data| <= MAX_PAYLOAD
    requires IsBroadcast(Destination(data))
    ensures SentTo([], [], [FromVeth(data)]) == [Whole(Frame(RAW, data))]
    ensures Execute(Opened(Datagrams(OnWire([Whole(Frame(RAW, data))]))), ops).raw == []
  {
    var events := [FromVeth(data)];
    assert events[1..] == [];
    assert SentTo([], [], events) == [Whole(Frame(RAW, data))];
    assert Crossing([], [], events) == [];
    TunnelTransparency([], [], events, ops);
  }
}
