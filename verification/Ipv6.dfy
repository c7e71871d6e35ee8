/**
 Finding the upper-layer payload of a packet (pkg/network/tools.go): skipping IPv6 extension headers
 inverts building them as section 4 of RFC 8200 lays them out.
 */
module Ipv6 {
  import opened Frames

  const FIXED_HEADER := 40

  /** The types the loop treats as extension headers, 41 (IPv6 in IPv6), 50 (ESP) and 51 (AH) among them. */
  predicate IsExtension(kind: nat) {
    kind in {0, 41, 43, 44, 50, 51, 60}
  }

  /** What an index or slice expression out of range turns into is the end of the goroutine. */
  datatype Skipped = Done(offset: nat, protocol: nat) | OutOfRange

  /** What the loop computes from `offset` on. */
  function Skip(data: Bytes, offset: nat, next: nat): Skipped
    decreases if offset < |data| then |data| - offset else 0
  {
    if !IsExtension(next) then Done(offset, next)
    else if offset + 1 >= |data| then OutOfRange
    else Skip(data, offset + (data[offset + 1] as nat + 1) * 8, data[offset] as nat)
  }

  method SkipIPv6ExtensionHeaders(mixPayload: Bytes, nextHeader: nat) returns (r: Skipped)
    ensures r == Skip(mixPayload, 0, nextHeader)
  {
    var offset, next := 0, nextHeader;
    while IsExtension(next)
      invariant Skip(mixPayload, offset, next) == Skip(mixPayload, 0, nextHeader)
      decreases |mixPayload| - offset
    {
      if offset + 1 >= |mixPayload| {
        return OutOfRange;
      }
      next := mixPayload[offset] as nat;
      offset := offset + (mixPayload[offset + 1] as nat + 1) * 8;
    }
    return Done(offset, next);
  }

  // ----- Building -----

  /** An extension header without its first byte, which names the one after it. */
  datatype Header =
    | Hop(kind: byte, body: Bytes)
    | Fragment(offsetAndFlags: Bytes, identification: Bytes)
  {
    /** Hop-by-hop options, routing and destination options fill whole units of 8 bytes, up to 256. */
    predicate Valid() {
      match this
      case Hop(kind, body) => kind in {0 as byte, 43, 60} && |body| % 8 == 6 && |body| < 2048
      case Fragment(offsetAndFlags, identification) => |offsetAndFlags| == 2 && |identification| == 4
    }

    function Kind(): byte {
      if Hop? then kind else 44
    }

    /** The second byte: the length in units of 8 bytes, not counting the first, or reserved. */
    function Second(): byte
      requires Valid()
    {
      if Hop? then (|body| / 8) as byte else 0
    }

    function Rest(): Bytes {
      if Hop? then body else offsetAndFlags + identification
    }
  }

  predicate ValidChain(chain: seq<Header>) {
    forall h <- chain :: h.Valid()
  }

  /** The type the header in front of the chain must announce. */
  function First(chain: seq<Header>, protocol: byte): byte {
    if chain == [] then protocol else chain[0].Kind()
  }

  function Build(chain: seq<Header>, protocol: byte): Bytes
    requires ValidChain(chain)
  {
    if chain == [] then []
    else [First(chain[1..], protocol), chain[0].Second()] + chain[0].Rest() + Build(chain[1..], protocol)
  }

  /** Skipping depends only on what is still ahead. */
  lemma {:induction false} SkipShift(before: Bytes, data: Bytes, offset: nat, next: nat)
    ensures Skip(before + data, |before| + offset, next)
            == match Skip(data, offset, next)
               case Done(end, protocol) => Done(|before| + end, protocol)
               case OutOfRange => OutOfRange
    decreases if offset < |data| then |data| - offset else 0
  {
    if IsExtension(next) && offset + 1 < |data| {
      assert (before + data)[|before| + offset] == data[offset];
      assert (before + data)[|before| + offset + 1] == data[offset + 1];
      SkipShift(before, data, offset + (data[offset + 1] as nat + 1) * 8, data[offset] as nat);
    }
  }

  lemma BuildHead(chain: seq<Header>, protocol: byte)
    requires ValidChain(chain) && chain != []
    ensures Build(chain, protocol)
            == [First(chain[1..], protocol), chain[0].Second()] + chain[0].Rest() + Build(chain[1..], protocol)
  {
  }

  /** The second byte gives the length of the whole header. */
  lemma HeaderLength(h: Header)
    requires h.Valid()
    ensures IsExtension(h.Kind() as nat) && 2 + |h.Rest()| == (h.Second() as nat + 1) * 8
  {
  }

  lemma SkipHead(head: Bytes, tail: Bytes, next: nat)
    requires IsExtension(next) && |head| > 1 && |head| == (head[1] as nat + 1) * 8
    ensures Skip(head + tail, 0, next)
            == match Skip(tail, 0, head[0] as nat)
               case Done(end, protocol) => Done(|head| + end, protocol)
               case OutOfRange => OutOfRange
  {
    assert (head + tail)[0] == head[0] && (head + tail)[1] == head[1];
    SkipShift(head, tail, 0, head[0] as nat);
  }

  /** What is built for a chain starts with its first header, which gives its own length. */
  lemma HeadAndRest(chain: seq<Header>, protocol: byte, payload: Bytes) returns (head: Bytes)
    requires ValidChain(chain) && chain != []
    ensures ValidChain(chain[1..]) && IsExtension(First(chain, protocol) as nat)
    ensures |head| > 1 && |head| == (head[1] as nat + 1) * 8 && head[0] == First(chain[1..], protocol)
    ensures Build(chain, protocol) + payload == head + (Build(chain[1..], protocol) + payload)
    ensures |Build(chain, protocol)| == |head| + |Build(chain[1..], protocol)|
  {
    hide Build, Header.Rest, Header.Second;
    BuildHead(chain, protocol);
    HeaderLength(chain[0]);
    head := [First(chain[1..], protocol), chain[0].Second()] + chain[0].Rest();
  }

  /** Skipping inverts building, for chains of any length and any payload behind them. */
  lemma {:induction false} SkipInvertsBuild(chain: seq<Header>, protocol: byte, payload: Bytes)
    requires ValidChain(chain) && !IsExtension(protocol as nat)
    ensures Skip(Build(chain, protocol) + payload, 0, First(chain, protocol) as nat)
            == Done(|Build(chain, protocol)|, protocol as nat)
  {
    if chain != [] {
      hide Build, Skip, ValidChain, First, IsExtension;
      var head := HeadAndRest(chain, protocol, payload);
      SkipHead(head, Build(chain[1..], protocol) + payload, First(chain, protocol) as nat);
      SkipInvertsBuild(chain[1..], protocol, payload);
    }
  }

  /** The types met on the way whose layout the loop knows; a fragment header must have its reserved
      byte zero. */
  predicate Regular(data: Bytes, next: nat)
    decreases |data|
  {
    IsExtension(next) && |data| > 1 ==>
      && next in {0, 43, 44, 60} && (next == 44 ==> data[1] == 0)
      && var length := (data[1] as nat + 1) * 8;
         length <= |data| && Regular(data[length..], data[0] as nat)
  }

  /** The headers the loop walks over. */
  function Walk(data: Bytes, next: nat): (chain: seq<Header>)
    requires Regular(data, next)
    ensures ValidChain(chain)
    decreases |data|
  {
    if !IsExtension(next) || |data| < 2 then []
    else
      var length := (data[1] as nat + 1) * 8;
      [if next == 44 then Fragment(data[2..4], data[4..8]) else Hop(next as byte, data[2..length])]
      + Walk(data[length..], data[0] as nat)
  }

  lemma WalkHead(data: Bytes, next: nat)
    requires Regular(data, next) && IsExtension(next) && |data| > 1
    ensures var length := (data[1] as nat + 1) * 8;
            var chain := Walk(data, next);
            && chain != [] && chain[1..] == Walk(data[length..], data[0] as nat)
            && chain[0].Kind() as nat == next
            && [data[0], chain[0].Second()] + chain[0].Rest() == data[..length]
  {
    var length := (data[1] as nat + 1) * 8;
    var head := Walk(data, next)[0];
    assert next == 44 ==> data[1] == 0 && length == 8;
    assert data[2..4] + data[4..8] == data[2..8];
    assert head.Rest() == data[2..length];
    assert data[..length] == [data[0], data[1]] + data[2..length];
  }

  lemma NothingToWalk(data: Bytes, next: byte)
    requires !IsExtension(next as nat)
    ensures Walk(data, next as nat) == [] && Build([], next) == []
  {
  }

  /** And building inverts skipping: what the loop skips is the chain it walked, in the layout of the RFC. */
  lemma {:induction false} BuildInvertsSkip(data: Bytes, next: byte)
    requires Regular(data, next as nat) && Skip(data, 0, next as nat).Done?
    ensures var Done(offset, protocol) := Skip(data, 0, next as nat);
            var chain := Walk(data, next as nat);
            && offset <= |data| && protocol < 256 && !IsExtension(protocol)
            && First(chain, protocol as byte) == next
            && Build(chain, protocol as byte) == data[..offset]
    decreases |data|
  {
    hide Build, Walk, Header.Second, Header.Rest;
    if IsExtension(next as nat) && |data| > 1 {
      var length := (data[1] as nat + 1) * 8;
      var rest := data[length..];
      assert data == data[..length] + rest;
      SkipShift(data[..length], rest, 0, data[0] as nat);
      BuildInvertsSkip(rest, data[0]);
      WalkHead(data, next as nat);
      var Done(offset, protocol) := Skip(rest, 0, data[0] as nat);
      BuildHead(Walk(data, next as nat), protocol as byte);
      assert data[..length + offset] == data[..length] + rest[..offset];
    } else {
      NothingToWalk(data, next);
    }
  }

  /** An authentication header counts its length in units of 4 bytes (section 2.2 of RFC 4302): the
      loop steps over it right if and only if its length field is 0, which no such header has. */
  lemma AuthenticationHeaderIff(next: byte, units: byte, body: Bytes, payload: Bytes)
    requires !IsExtension(next as nat) && 2 + |body| == (units as nat + 2) * 4
    ensures Skip([next, units] + body + payload, 0, 51) == Done(|[next, units] + body|, next as nat) <==> units == 0
  {
    var data := [next, units] + body + payload;
    assert data[0] == next && data[1] == units;
    assert Skip(data, 0, 51) == Skip(data, (units as nat + 1) * 8, next as nat);
  }

  const TCP: byte := 6
  const UDP: byte := 17
  const ICMP6: byte := 58

  /** What the loop stops at: all but seven protocol numbers, so transport protocols are never skipped. */
  lemma StopsAtTransport(kind: nat, data: Bytes)
    requires kind == TCP as nat || kind == UDP as nat || kind == ICMP6 as nat
    ensures Skip(data, 0, kind) == Done(0, kind)
  {
  }

  /** An IPv6 packet in the packet, an encrypted payload and an authentication header are all stepped over
      as if they were a header of options, whatever their bytes mean. */
  lemma SteppedOverLikeOptions(kind: nat, data: Bytes)
    requires kind in {41, 50, 51}
    ensures Skip(data, 0, kind) == Skip(data, 0, 0)
  {
  }

  /** So a packet in a packet is never reported as one: its first byte, version and traffic class, is taken
      for the protocol, and its second for a length. */
  lemma InnerPacketIsMisread(inner: Bytes)
    requires |inner| >= FIXED_HEADER && inner[0] / 16 == 6
    ensures Skip(inner, 0, 41) == Done((inner[1] as nat + 1) * 8, inner[0] as nat)
    ensures inner[0] as nat >= 96
  {
  }

  // ----- The payload of a packet -----

  datatype Payload = Payload(protocol: nat, bytes: Bytes) | Panic

  function GetPayload(data: Bytes): Payload {
    if data == [] then Payload(0, [])
    else if data[0] / 16 == 4 then
      var headerLength := (data[0] % 16) as nat * 4;
      if |data| < 10 || |data| < headerLength then Panic else Payload(data[9] as nat, data[headerLength..])
    else if data[0] / 16 == 6 then
      if |data| < FIXED_HEADER then Panic
      else match Skip(data[FIXED_HEADER..], 0, data[6] as nat)
           case Done(offset, protocol) =>
             if |data| < FIXED_HEADER + offset then Panic else Payload(protocol, data[FIXED_HEADER + offset..])
           case OutOfRange => Panic
    else Payload(0, [])
  }

  method PacketGetPayload(data: Bytes) returns (r: Payload)
    ensures r == GetPayload(data)
  {
    if |data| == 0 {
      return Payload(0, []);
    }
    var version := data[0] / 16;
    if version == 4 {
      var headerLength := (data[0] % 16) as nat * 4;
      if |data| < 10 || |data| < headerLength {
        return Panic;
      }
      return Payload(data[9] as nat, data[headerLength..]);
    } else if version == 6 {
      if |data| < FIXED_HEADER {
        return Panic;
      }
      var skipped := SkipIPv6ExtensionHeaders(data[FIXED_HEADER..], data[6] as nat);
      if skipped.OutOfRange? || |data| < FIXED_HEADER + skipped.offset {
        return Panic;
      }
      return Payload(skipped.protocol, data[FIXED_HEADER + skipped.offset..]);
    }
    return Payload(0, []);
  }

  /** For a well-formed IPv6 packet the payload is exactly what was put behind the headers. */
  lemma Ipv6PayloadExact(fixed: Bytes, chain: seq<Header>, protocol: byte, payload: Bytes)
    requires ValidChain(chain) && !IsExtension(protocol as nat)
    requires |fixed| == FIXED_HEADER && fixed[0] / 16 == 6 && fixed[6] == First(chain, protocol)
    ensures GetPayload(fixed + Build(chain, protocol) + payload) == Payload(protocol as nat, payload)
  {
    hide Build, Skip, First;
    var headers := Build(chain, protocol);
    var data := fixed + headers + payload;
    SkipInvertsBuild(chain, protocol, payload);
    assert data[0] == fixed[0] && data[6] == fixed[6];
    assert data[FIXED_HEADER..] == headers + payload;
    assert data[FIXED_HEADER + |headers|..] == payload;
  }

  /** For IPv4 the header length field, in units of 4 bytes, covers the options too. */
  lemma Ipv4PayloadExact(header: Bytes, payload: Bytes)
    requires |header| >= 20 && header[0] / 16 == 4 && |header| == (header[0] % 16) as nat * 4
    ensures GetPayload(header + payload) == Payload(header[9] as nat, payload)
  {
    assert (header + payload)[|header|..] == payload;
  }

  /** What the module is for: behind any chain of headers TCP, UDP and ICMPv6 payloads are found whole. */
  lemma TransportPayloadExact(fixed: Bytes, chain: seq<Header>, protocol: byte, payload: Bytes)
    requires ValidChain(chain) && protocol in {TCP, UDP, ICMP6}
    requires |fixed| == FIXED_HEADER && fixed[0] / 16 == 6 && fixed[6] == First(chain, protocol)
    ensures GetPayload(fixed + Build(chain, protocol) + payload) == Payload(protocol as nat, payload)
  {
    hide GetPayload, Build, First;
    Ipv6PayloadExact(fixed, chain, protocol, payload);
  }
}
