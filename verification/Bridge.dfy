/**
 pkg/bridge: packets read from the local interface go out on every peer link whose networks contain
 the destination, and raw packets from a link are written to the local interface. The module models
 both loops and proves what the tunnel between two bridges carries.
 */
module Bridge {
  import opened Frames
  import opened Reader
  import opened Transports
  import opened Queues
  import opened Routing

  /** Size of the bridge's own recycled buffers. */
  const BRIDGE_BUFFER := 8192

  // ----- Peers -----

  class Peer {
    const name: string
    const ips: seq<IPNet>
    const routes: seq<IPNet>
    const transport: Transport

    constructor (name: string, ips: seq<IPNet>, routes: seq<IPNet>, transport: Transport)
      ensures this.name == name && this.ips == ips && this.routes == routes && this.transport == transport
    {
      this.name, this.ips, this.routes, this.transport := name, ips, routes, transport;
    }
  }

  /** The bridge's buffers have a size of their own, so they are never a transport's. */
  lemma BridgeBuffersApart(t: Transport, v: array<byte>)
    requires t.Valid() && v.Length == BRIDGE_BUFFER
    ensures v !in t.Reach() && v != t.reader.buf
  {
  }

  /** What the link of a peer with these networks carries after `data` came from the interface. */
  function Offered(ips: seq<IPNet>, routes: seq<IPNet>, broken: bool, was: seq<Bytes>, data: Bytes): seq<Bytes>
    requires HasFixedHeader(data)
  {
    if Routed(ips, routes, data) && |data| <= MAX_PAYLOAD && !broken then was + [Encode(Frame(RAW, data))] else was
  }

  /** A packet for `dst`, however it is built, goes out on a working link as one raw frame, if it is not too
      long, exactly when everybody gets it or `dst` has the prefix of one of the peer's networks. */
  lemma OfferedIffMeant(ips: seq<Prefix>, routes: seq<Prefix>, broken: bool, was: seq<Bytes>,
                        head: Bytes, dst: IP, rest: Bytes)
    requires IsHead(head, dst) && forall p <- ips + routes :: p.Valid()
    ensures var data := head + dst + rest;
            && HasFixedHeader(data)
            && Offered(Nets(ips), Nets(routes), broken, was, data)
               == if !broken && |data| <= MAX_PAYLOAD && Meant(ips, routes, dst)
                  then was + [Encode(Frame(RAW, data))] else was
  {
    hide Routed, Meant, HasFixedHeader, Encode;
    RoutedIffMeant(ips, routes, head, dst, rest);
  }

  predicate AllHaveHeaders(packets: seq<Bytes>) {
    forall i | 0 <= i < |packets| :: HasFixedHeader(packets[i])
  }

  /** And after all `packets`. */
  function OfferedAll(ips: seq<IPNet>, routes: seq<IPNet>, broken: bool, was: seq<Bytes>,
                      packets: seq<Bytes>): seq<Bytes>
    requires AllHaveHeaders(packets)
  {
    if packets == [] then was
    else
      var last := |packets| - 1;
      Offered(ips, routes, broken, OfferedAll(ips, routes, broken, was, packets[..last]), packets[last])
  }

  /** The local interface: what was written to it. */
  class Veth {
    var written: seq<Bytes>

    constructor ()
      ensures written == []
    {
      written := [];
    }

    method Write(p: Bytes)
      modifies this
      ensures written == old(written) + [p]
    {
      written := written + [p];
    }
  }

  class Bridge {
    var peers: map<string, Peer>
    const veth: Veth

    constructor (veth: Veth)
      ensures peers == map[] && this.veth == veth && Valid()
    {
      peers := map[];
      this.veth := veth;
    }

    /** Peers are registered under their own names and have connections of their own. */
    ghost predicate Valid()
      reads this
    {
      && (forall n <- peers :: peers[n].name == n)
      && (forall n, m | n in peers && m in peers && n != m ::
            peers[n].transport != peers[m].transport && peers[n].transport.sink != peers[m].transport.sink)
    }

    ghost function Sinks(): set<Sink>
      reads this
    {
      set n | n in peers :: peers[n].transport.sink
    }

    ghost predicate Carries(p: Peer, writes: seq<Bytes>)
      reads p.transport.sink`writes
    {
      p.transport.sink.writes == writes
    }

    method Offer(p: Peer, data: Bytes)
      requires HasFixedHeader(data)
      modifies p.transport.sink`writes
      ensures p.transport.sink.writes
              == Offered(p.ips, p.routes, p.transport.sink.broken, old(p.transport.sink.writes), data)
    {
      var dst := Destination(data);
      if IsBroadcast(dst) || HasIP(p.ips, p.routes, dst) {
        var ok := PackInto(RAW, data, p.transport.sink);
      }
    }

    /** The links carried `was`; by now `data` was offered on all but those to do. */
    ghost predicate OfferedBut(todo: set<string>, was: map<string, seq<Bytes>>, data: Bytes)
      requires HasFixedHeader(data)
      reads this, Sinks()
    {
      && todo <= was.Keys == peers.Keys
      && forall n <- was ::
           Carries(peers[n], if n in todo then was[n]
                             else Offered(peers[n].ips, peers[n].routes, peers[n].transport.sink.broken, was[n], data))
    }

    method OfferTo(name: string, data: Bytes, ghost todo: set<string>, ghost was: map<string, seq<Bytes>>)
      requires Valid() && HasFixedHeader(data) && OfferedBut(todo, was, data) && name in todo && name in peers
      modifies peers[name].transport.sink`writes
      ensures OfferedBut(todo - {name}, was, data)
    {
      hide Offered, HasFixedHeader;
      Offer(peers[name], data);
    }

    /** One packet from the interface: it is offered to the peers in whatever order the map yields
        them, and becomes one raw frame on the link of each peer it is meant for. */
    method HandleVethPacket(data: Bytes)
      requires Valid() && HasFixedHeader(data)
      modifies Sinks()`writes
      ensures forall n <- peers ::
                Carries(peers[n], Offered(peers[n].ips, peers[n].routes, peers[n].transport.sink.broken,
                                          old(peers[n].transport.sink.writes), data))
    {
      hide Offered, HasFixedHeader, Valid;
      ghost var was := map n | n in peers :: peers[n].transport.sink.writes;
      var todo := peers.Keys;
      while todo != {}
        invariant OfferedBut(todo, was, data)
        decreases todo
      {
        var name :| name in todo;
        OfferTo(name, data, todo, was);
        todo := todo - {name};
      }
    }

    /** The loop of `handleVeth`, for as many packets as the interface yields. */
    method HandleVeth(packets: seq<Bytes>)
      requires Valid() && AllHaveHeaders(packets)
      modifies Sinks()`writes
      ensures forall n <- peers ::
                Carries(peers[n], OfferedAll(peers[n].ips, peers[n].routes, peers[n].transport.sink.broken,
                                             old(peers[n].transport.sink.writes), packets))
    {
      hide Offered;
      for i := 0 to |packets|
        invariant forall n <- peers ::
                    Carries(peers[n], OfferedAll(peers[n].ips, peers[n].routes, peers[n].transport.sink.broken,
                                                 old(peers[n].transport.sink.writes), packets[..i]))
      {
        assert packets[..i + 1][..i] == packets[..i];
        HandleVethPacket(packets[i]);
      }
      assert packets[..|packets|] == packets;
    }

    /** The loop of `handlePeer` until it has to wait: every queued packet, whatever its length, is
        written to the interface whole and in order; the buffer is never too short. */
    method HandlePeer(p: Peer, v: array<byte>)
      requires Valid() && p.transport.Valid() && v.Length == BRIDGE_BUFFER
      modifies this`peers, veth, v, p.transport.rawCh, p.transport.pool, p.transport`done, p.transport.sink`broken
      ensures Valid() && p.transport.Valid() && peers == old(peers)
      ensures veth.written == old(veth.written) + old(p.transport.View()).raw
      ensures p.transport.View() == old(p.transport.View()).(raw := [])
    {
      hide Transport.View, Transport.Valid, Transport.Reach;
      QueuedPacketsFit(p.transport);
      ghost var was := p.transport.View();
      ghost var k := 0;
      while p.transport.rawCh.items != []
        invariant Valid() && p.transport.Valid() && peers == old(peers)
        invariant |p.transport.rawCh.items| == |p.transport.View().raw|
        invariant 0 <= k <= |was.raw| && p.transport.View() == was.(raw := was.raw[k..])
        invariant veth.written == old(veth.written) + was.raw[..k]
        decreases |was.raw| - k
      {
        var running := HandlePeerPacket(p, v);
        k := k + 1;
        QueuedPacketsFit(p.transport);
      }
    }

    /** One turn of `handlePeer`, with a buffer from the bridge's pool: the next raw packet of the
        link is written to the interface; a failed read disconnects the peer. */
    method HandlePeerPacket(p: Peer, v: array<byte>) returns (running: bool)
      requires Valid() && p.transport.Valid() && v.Length == BRIDGE_BUFFER
      requires p.transport.rawCh.items != [] || p.transport.done
      modifies this`peers, veth, v, p.transport.rawCh, p.transport.pool, p.transport`done, p.transport.sink`broken
      ensures Valid() && p.transport.Valid() && p.transport.Reach() == old(p.transport.Reach())
      ensures var raw := old(p.transport.View()).raw;
              && running == (raw != [] && |raw[0]| <= BRIDGE_BUFFER)
              && (running ==> veth.written == old(veth.written) + [raw[0]]
                              && p.transport.View() == old(p.transport.View()).(raw := raw[1..])
                              && peers == old(peers))
              && (!running ==> veth.written == old(veth.written)
                               && p.transport.done && peers == old(peers) - {p.name})
    {
      hide Channel.Contents, Channel.Valid;
      BridgeBuffersApart(p.transport, v);
      ghost var raw := p.transport.View().raw;
      var n, ok := p.transport.Read(v);
      if ok {
        assert v[..n] == raw[0];
        veth.Write(v[..n]);
      } else {
        DisconnectPeer(p);
      }
      return ok;
    }

    /** Registers `p` under its name, on a connection no other registered peer has; a peer that was
        registered under the name is closed first, so that adding cannot fail. */
    method ConnectPeer(p: Peer) returns (ok: bool)
      requires Valid() && forall n <- peers :: peers[n].transport.Valid()
      requires forall n <- peers | n != p.name ::
                 peers[n].transport != p.transport && peers[n].transport.sink != p.transport.sink
      modifies this`peers, (set n | n in peers && n == p.name :: peers[n].transport)`done,
               (set n | n in peers && n == p.name :: peers[n].transport.sink)`broken
      ensures Valid() && ok && peers == old(peers)[p.name := p]
      ensures p.name in old(peers) ==>
                old(peers)[p.name].transport.done && old(peers)[p.name].transport.sink.broken
    {
      hide Transport.View, Transport.Valid;
      if p.name in peers {
        DisconnectPeer(peers[p.name]);
      }
      ok := AddPeer(p);
    }

    method AddPeer(p: Peer) returns (ok: bool)
      modifies this`peers
      ensures ok == (p.name !in old(peers))
      ensures peers == if ok then old(peers)[p.name := p] else old(peers)
    {
      if p.name in peers {
        return false;
      }
      peers := peers[p.name := p];
      return true;
    }

    /** Closes `p` and removes whatever peer is registered under its name. */
    method DisconnectPeer(p: Peer)
      requires Valid() && p.transport.Valid()
      modifies this`peers, p.transport`done, p.transport.sink`broken
      ensures Valid() && p.transport.Valid() && peers == old(peers) - {p.name}
      ensures p.transport.Reach() == old(p.transport.Reach())
      ensures p.transport.done && p.transport.sink.broken
      ensures p.transport.View() == old(p.transport.View()).(done := true, broken := true)
    {
      hide Channel.Contents, Channel.Valid;
      p.transport.Close();
      peers := peers - {p.name};
    }
  }
}
