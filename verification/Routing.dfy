/**
 Which peers a packet is meant for (pkg/network/tools.go and pkg/bridge/peer.go): its destination
 address is read out of the fixed header, and a peer's networks are compared with it bit by bit.
 */
module Routing {
  import opened Basics
  import opened Frames

  // ----- Addresses -----

  /** An IP address as Go holds it: 4 or 16 bytes, or none. */
  type IP = Bytes

  datatype IPNet = IPNet(ip: IP, mask: Bytes)

  /** The 4-byte form of an IPv4 address, also of one embedded in 16 bytes; otherwise empty. */
  function To4(ip: IP): (v4: IP)
    ensures v4 == [] || |v4| == 4
  {
    if |ip| == 4 then ip
    else if |ip| == 16 && (forall i | 0 <= i < 10 :: ip[i] == 0) && ip[10] == 255 && ip[11] == 255 then ip[12..]
    else []
  }

  function Shortest(ip: IP): IP {
    if To4(ip) != [] then To4(ip) else ip
  }

  /** Bitwise and. */
  function And(a: nat, b: nat): nat {
    if a == 0 then 0 else 2 * And(a / 2, b / 2) + if a % 2 == 1 && b % 2 == 1 then 1 else 0
  }

  /** `net.IPNet.Contains`. */
  predicate Contains(n: IPNet, ip: IP) {
    var base, x := Shortest(n.ip), Shortest(ip);
    var mask := if |n.mask| == 16 && |base| == 4 then n.mask[12..] else n.mask;
    && |x| == |base| == |mask| && (|base| == 4 || |base| == 16)
    && forall i | 0 <= i < |x| :: And(base[i] as nat, mask[i] as nat) == And(x[i] as nat, mask[i] as nat)
  }

  /** Multicast, the limited broadcast address, or an IPv4 address ending in 255. */
  predicate IsBroadcast(ip: IP) {
    var v4 := To4(ip);
    if v4 != [] then v4[0] / 16 == 14 || v4[3] == 255
    else |ip| == 16 && ip[0] == 255
  }

  /** The packet is long enough for the fixed header of the version it claims. */
  predicate HasFixedHeader(data: Bytes) {
    data != [] ==>
      && (data[0] / 16 == 4 ==> 20 <= |data|)
      && (data[0] / 16 == 6 ==> 40 <= |data|)
  }

  /** `ParsePacket`'s destination; empty if the packet is neither IPv4 nor IPv6. */
  function Destination(data: Bytes): (dst: IP)
    requires HasFixedHeader(data)
    ensures |dst| in {0, 4, 16}
  {
    if data == [] then []
    else if data[0] / 16 == 4 then data[16..20]
    else if data[0] / 16 == 6 then data[24..40]
    else []
  }

  predicate HasIP(ips: seq<IPNet>, routes: seq<IPNet>, dst: IP) {
    (exists n <- ips :: Contains(n, dst)) || (exists n <- routes :: Contains(n, dst))
  }

  /** A packet is meant for a peer if everyone gets it or one of the peer's networks contains it. */
  predicate Routed(ips: seq<IPNet>, routes: seq<IPNet>, data: Bytes)
    requires HasFixedHeader(data)
  {
    var dst := Destination(data);
    IsBroadcast(dst) || HasIP(ips, routes, dst)
  }

  /** A packet of a version other than 4 and 6, or none at all, is meant for nobody. */
  lemma UnknownVersionGoesNowhere(ips: seq<IPNet>, routes: seq<IPNet>, data: Bytes)
    requires HasFixedHeader(data)
    requires data == [] || (data[0] / 16 != 4 && data[0] / 16 != 6)
    ensures !Routed(ips, routes, data)
  {
    assert forall n: IPNet :: !Contains(n, []);
  }

  // ----- Bits -----

  /** Bit `k` of a number, counted from the lowest. */
  predicate Bit(x: nat, k: nat) {
    if k == 0 then x % 2 == 1 else Bit(x / 2, k - 1)
  }

  /** Bit `k` of an address or mask, counted from the first on the wire. */
  predicate AddressBit(ip: Bytes, k: nat)
    requires k < 8 * |ip|
  {
    Bit(ip[k / 8] as nat, 7 - k % 8)
  }

  ghost predicate AgreeUnder(a: nat, b: nat, mask: nat, width: nat) {
    forall k: nat | k < width && Bit(mask, k) :: Bit(a, k) == Bit(b, k)
  }

  /** Masked numbers are equal if and only if they agree in the bits of the mask. */
  lemma {:induction false} AndUnderMask(a: nat, b: nat, mask: nat, width: nat)
    requires mask < Pow2(width)
    ensures And(a, mask) == And(b, mask) <==> AgreeUnder(a, b, mask, width)
    decreases width
  {
    hide AgreeUnder;
    AndNext(a, mask);
    AndNext(b, mask);
    if width == 0 {
      AndNothing(a);
      AndNothing(b);
      NoBits(a, b, mask);
    } else {
      AndUnderMask(a / 2, b / 2, mask / 2, width - 1);
      BitsShift(a, b, mask, width);
    }
  }

  lemma NoBits(a: nat, b: nat, mask: nat)
    ensures AgreeUnder(a, b, mask, 0)
  {
  }

  function Pow2(n: nat): nat {
    if n == 0 then 1 else 2 * Pow2(n - 1)
  }

  lemma AndNext(a: nat, b: nat)
    ensures And(a, b) == 2 * And(a / 2, b / 2) + if a % 2 == 1 && b % 2 == 1 then 1 else 0
  {
  }

  lemma {:induction false} AndNothing(a: nat)
    ensures And(a, 0) == 0
  {
    if a != 0 {
      AndNothing(a / 2);
    }
  }

  lemma BitsShift(a: nat, b: nat, mask: nat, width: nat)
    requires width > 0
    ensures AgreeUnder(a, b, mask, width)
            <==> (mask % 2 == 1 ==> a % 2 == b % 2) && AgreeUnder(a / 2, b / 2, mask / 2, width - 1)
  {
    if AgreeUnder(a, b, mask, width) {
      assert Bit(mask, 0) ==> Bit(a, 0) == Bit(b, 0);
      forall k: nat | k < width - 1 && Bit(mask / 2, k)
        ensures Bit(a / 2, k) == Bit(b / 2, k)
      {
        assert Bit(mask, k + 1) && Bit(a, k + 1) == Bit(b, k + 1);
      }
    } else {
      var k: nat :| k < width && Bit(mask, k) && Bit(a, k) != Bit(b, k);
      if k == 0 {
        assert mask % 2 == 1 && a % 2 != b % 2;
      } else {
        assert Bit(mask / 2, k - 1) && Bit(a / 2, k - 1) != Bit(b / 2, k - 1);
      }
    }
  }

  /** A number is its bits. */
  lemma {:induction false} BitsDetermine(x: nat, y: nat, width: nat)
    requires x < Pow2(width) && y < Pow2(width)
    requires forall k: nat | k < width :: Bit(x, k) == Bit(y, k)
    ensures x == y
  {
    if width > 0 {
      assert Bit(x, 0) == Bit(y, 0);
      forall k: nat | k < width - 1
        ensures Bit(x / 2, k) == Bit(y / 2, k)
      {
        assert Bit(x, k + 1) == Bit(y, k + 1);
      }
      BitsDetermine(x / 2, y / 2, width - 1);
    }
  }

  /** The address and the mask `Contains` compares with. */
  function BaseOf(n: IPNet): IP {
    Shortest(n.ip)
  }

  function MaskOf(n: IPNet): Bytes {
    if |n.mask| == 16 && |BaseOf(n)| == 4 then n.mask[12..] else n.mask
  }

  /** Addresses that agree wherever the mask has a bit. */
  ghost predicate AgreeIn(base: IP, x: IP, mask: Bytes)
    requires |base| == |x| == |mask|
  {
    forall k: nat | k < 8 * |x| && AddressBit(mask, k) :: AddressBit(base, k) == AddressBit(x, k)
  }

  /** A network contains an address if and only if they are of the same kind and agree in every bit that
      is set in the mask. */
  lemma ContainsIffBitsAgree(n: IPNet, ip: IP)
    requires |ip| == 4 || |ip| == 16
    ensures Contains(n, ip)
            <==> |Shortest(ip)| == |BaseOf(n)| == |MaskOf(n)| && AgreeIn(BaseOf(n), Shortest(ip), MaskOf(n))
  {
    hide AgreeIn, AgreeUnder, And;
    var base, x, mask := BaseOf(n), Shortest(ip), MaskOf(n);
    if |x| == |base| == |mask| {
      forall i | 0 <= i < |x|
        ensures And(base[i] as nat, mask[i] as nat) == And(x[i] as nat, mask[i] as nat)
                <==> AgreeUnder(base[i] as nat, x[i] as nat, mask[i] as nat, 8)
      {
        assert Pow2(8) == 256;
        AndUnderMask(base[i] as nat, x[i] as nat, mask[i] as nat, 8);
      }
      BytesAndBits(base, x, mask);
    }
  }

  /** Bit by bit is byte by byte. */
  lemma BytesAndBits(base: Bytes, x: Bytes, mask: Bytes)
    requires |x| == |base| == |mask|
    ensures (forall i | 0 <= i < |x| :: AgreeUnder(base[i] as nat, x[i] as nat, mask[i] as nat, 8))
            <==> AgreeIn(base, x, mask)
  {
    hide Bit;
    if AgreeIn(base, x, mask) {
      forall i | 0 <= i < |x|
        ensures AgreeUnder(base[i] as nat, x[i] as nat, mask[i] as nat, 8)
      {
        var (a, b, m) := (base[i] as nat, x[i] as nat, mask[i] as nat);
        forall j: nat | j < 8 && Bit(m, j)
          ensures Bit(a, j) == Bit(b, j)
        {
          var k := 8 * i + (7 - j);
          assert k / 8 == i && 7 - k % 8 == j;
          assert AddressBit(mask, k) ==> AddressBit(base, k) == AddressBit(x, k);
        }
      }
    } else {
      var k: nat :| k < 8 * |x| && AddressBit(mask, k) && AddressBit(base, k) != AddressBit(x, k);
      var i, j := k / 8, 7 - k % 8;
      assert 0 <= i < |x| && j < 8 && Bit(mask[i] as nat, j) && Bit(base[i] as nat, j) != Bit(x[i] as nat, j);
    }
  }

  // ----- Networks by prefix -----

  /** The number of `width` bits whose `ones` highest are set. */
  function HighBits(ones: nat, width: nat): (x: nat)
    ensures x < Pow2(width)
  {
    if width == 0 then 0 else 2 * HighBits(ones, width - 1) + if ones >= width then 1 else 0
  }

  lemma {:induction false} HighBitsAre(ones: nat, width: nat, k: nat)
    requires k < width
    ensures Bit(HighBits(ones, width), k) <==> width - k <= ones
  {
    if k > 0 {
      HighBitsAre(ones, width - 1, k - 1);
    }
  }

  /** The mask of `n` ones on `length` bytes. */
  function PrefixMask(n: nat, length: nat): (mask: Bytes)
    ensures |mask| == length
  {
    seq(length, i requires 0 <= i < length => ByteOf(HighBits(if n > 8 * i then n - 8 * i else 0, 8)))
  }

  function ByteOf(x: nat): (b: byte)
    requires x < Pow2(8)
    ensures b as nat == x
  {
    assert Pow2(8) == 256;
    x as byte
  }

  lemma PrefixMaskBits(n: nat, length: nat, k: nat)
    requires k < 8 * length
    ensures AddressBit(PrefixMask(n, length), k) <==> k < n
  {
    var i := k / 8;
    HighBitsAre(if n > 8 * i then n - 8 * i else 0, 8, 7 - k % 8);
  }

  /** A network as it is written: an address of 4 or 16 bytes and a prefix length. */
  datatype Prefix = Prefix(base: IP, bits: nat) {
    predicate Valid() {
      (|base| == 4 || |base| == 16) && bits <= 8 * |base|
    }

    function Net(): IPNet {
      IPNet(base, PrefixMask(bits, |base|))
    }

    /** The address has the prefix: the same kind, and the same first bits. For an IPv4 network written in
        16 bytes the first 96 are those that say so. */
    ghost predicate Covers(ip: IP) {
      var (own, x) := (Shortest(base), Shortest(ip));
      var skipped := 8 * |base| - 8 * |own|;
      |own| == |x| && forall k: nat | k < 8 * |x| && k + skipped < bits :: AddressBit(own, k) == AddressBit(x, k)
    }
  }

  lemma ContainsIffCovered(p: Prefix, ip: IP)
    requires p.Valid() && (|ip| == 4 || |ip| == 16)
    ensures Contains(p.Net(), ip) <==> p.Covers(ip)
  {
    hide Contains, AddressBit, PrefixMask;
    ContainsIffBitsAgree(p.Net(), ip);
    var own, mask := Shortest(p.base), MaskOf(p.Net());
    var skipped := 8 * |p.base| - 8 * |own|;
    assert |mask| == |own|;
    forall k: nat | k < 8 * |own|
      ensures AddressBit(mask, k) <==> k + skipped < p.bits
    {
      PrefixMaskBits(p.bits, |p.base|, k + skipped);
      TailBits(p.Net().mask, |p.base| - |own|, k);
    }
  }

  lemma TailBits(ip: Bytes, from: nat, k: nat)
    requires from <= |ip| && k < 8 * (|ip| - from)
    ensures AddressBit(ip[from..], k) == AddressBit(ip, k + 8 * from)
  {
    assert (k + 8 * from) / 8 == from + k / 8 && (k + 8 * from) % 8 == k % 8;
  }

  // ----- Packets as they are built -----

  /** An IPv4 header has its destination behind 16 bytes, an IPv6 header behind 24. */
  predicate IsHead(head: Bytes, dst: IP) {
    || (|dst| == 4 && |head| == 16 && head[0] / 16 == 4)
    || (|dst| == 16 && |head| == 24 && head[0] / 16 == 6)
  }

  lemma DestinationIsRead(head: Bytes, dst: IP, rest: Bytes)
    requires IsHead(head, dst)
    ensures HasFixedHeader(head + dst + rest) && Destination(head + dst + rest) == dst
  {
    var data := head + dst + rest;
    assert data[0] == head[0];
    assert data[|head|..|head| + |dst|] == dst;
  }

  const MULTICAST_4 := Prefix([224, 0, 0, 0], 4)
  const MULTICAST_6 := Prefix([255, 0, 0, 0, 0, 0, 0, 0, 0, 0, 0, 0, 0, 0, 0, 0], 8)

  /** The addresses everybody gets: 224.0.0.0/4, ff00::/8, and IPv4 addresses that end in 255. */
  ghost predicate Everybody(dst: IP) {
    || MULTICAST_4.Covers(dst) || MULTICAST_6.Covers(dst)
    || (|Shortest(dst)| == 4 && Shortest(dst)[3] == 255)
  }

  lemma BroadcastIff(dst: IP)
    requires |dst| == 4 || |dst| == 16
    ensures IsBroadcast(dst) <==> Everybody(dst)
  {
    hide AddressBit;
    var x := Shortest(dst);
    if |x| == 4 {
      FirstNibble(x, MULTICAST_4.base);
    } else {
      FirstByte(x, MULTICAST_6.base);
    }
  }

  lemma FirstNibble(a: IP, b: IP)
    requires a != [] && b != []
    ensures a[0] / 16 == b[0] / 16 <==> forall k: nat | k < 4 :: AddressBit(a, k) == AddressBit(b, k)
  {
    hide Bit;
    var x, y := a[0] as nat, b[0] as nat;
    forall k: nat | k < 4
      ensures AddressBit(a, k) == Bit(x / 16, 3 - k) && AddressBit(b, k) == Bit(y / 16, 3 - k)
    {
      UpperBit(x, 3 - k);
      UpperBit(y, 3 - k);
    }
    assert Pow2(4) == 16;
    if forall k: nat | k < 4 :: AddressBit(a, k) == AddressBit(b, k) {
      forall k: nat | k < 4
        ensures Bit(x / 16, k) == Bit(y / 16, k)
      {
        assert AddressBit(a, 3 - k) == AddressBit(b, 3 - k);
      }
      BitsDetermine(x / 16, y / 16, 4);
    }
  }

  lemma UpperBit(x: nat, k: nat)
    ensures Bit(x, k + 4) == Bit(x / 16, k)
  {
    assert Bit(x, k + 4) == Bit(x / 2, k + 3);
    assert Bit(x / 2, k + 3) == Bit(x / 2 / 2, k + 2);
    assert Bit(x / 2 / 2, k + 2) == Bit(x / 2 / 2 / 2, k + 1);
    assert Bit(x / 2 / 2 / 2, k + 1) == Bit(x / 2 / 2 / 2 / 2, k);
    assert x / 2 / 2 / 2 / 2 == x / 16;
  }

  lemma FirstByte(a: IP, b: IP)
    requires a != [] && b != []
    ensures a[0] == b[0] <==> forall k: nat | k < 8 :: AddressBit(a, k) == AddressBit(b, k)
  {
    hide Bit;
    var x, y := a[0] as nat, b[0] as nat;
    assert Pow2(8) == 256;
    if forall k: nat | k < 8 :: AddressBit(a, k) == AddressBit(b, k) {
      forall k: nat | k < 8
        ensures Bit(x, k) == Bit(y, k)
      {
        assert AddressBit(a, 7 - k) == AddressBit(b, 7 - k);
      }
      BitsDetermine(x, y, 8);
    }
  }

  ghost predicate Meant(ips: seq<Prefix>, routes: seq<Prefix>, dst: IP) {
    Everybody(dst) || (exists p <- ips :: p.Covers(dst)) || (exists p <- routes :: p.Covers(dst))
  }

  function Nets(prefixes: seq<Prefix>): (nets: seq<IPNet>)
    ensures |nets| == |prefixes| && forall i | 0 <= i < |nets| :: nets[i] == prefixes[i].Net()
  {
    seq(|prefixes|, i requires 0 <= i < |prefixes| => prefixes[i].Net())
  }

  /** A packet of either version, however it is built around its destination, is meant for a peer if and
      only if the destination is a broadcast or multicast address, or has the prefix of one of the peer's
      networks. */
  lemma RoutedIffMeant(ips: seq<Prefix>, routes: seq<Prefix>, head: Bytes, dst: IP, rest: Bytes)
    requires IsHead(head, dst) && forall p <- ips + routes :: p.Valid()
    ensures HasFixedHeader(head + dst + rest)
    ensures Routed(Nets(ips), Nets(routes), head + dst + rest) <==> Meant(ips, routes, dst)
  {
    hide Contains, IsBroadcast, Everybody;
    DestinationIsRead(head, dst, rest);
    BroadcastIff(dst);
    OneContains(ips, dst);
    OneContains(routes, dst);
  }

  lemma OneContains(prefixes: seq<Prefix>, dst: IP)
    requires (forall p <- prefixes :: p.Valid()) && (|dst| == 4 || |dst| == 16)
    ensures (exists n <- Nets(prefixes) :: Contains(n, dst)) <==> exists p <- prefixes :: p.Covers(dst)
  {
    hide Contains;
    forall p <- prefixes
      ensures Contains(p.Net(), dst) <==> p.Covers(dst)
    {
      ContainsIffCovered(p, dst);
    }
    if exists p <- prefixes :: p.Covers(dst) {
      var p :| p in prefixes && p.Covers(dst);
      var i :| 0 <= i < |prefixes| && prefixes[i] == p;
      assert Nets(prefixes)[i] in Nets(prefixes);
    }
  }
}
