/**
 Classifying a NAT by STUN (pkg/nat/service_stun.go), against any NAT: a mapping that may depend on
 the destination in any way, and a filter that may look at everything contacted through the mapping a
 packet arrives at. Run on a socket of their own, the mapping and the filter tests follow sections 4.3
 and 4.4 of RFC 5780; run one after the other on one socket, the first primes the filter for the second.
 */
module Stun {
  import opened Basics
  import opened NatPlan

  datatype Behavior = NoNAT | EndpointIndependent | AddressDependent | AddressPortDependent | Unknown

  datatype Error = TimedOutError | NoOtherAddress | TestFailure

  datatype Result = Ok(behavior: Behavior) | Err(error: Error)

  /** What one internal socket sees: the external address used for a destination, and whether a packet
      from a source comes in, given what was contacted through the mapping it is sent to. */
  datatype Nat = Nat(mapped: Address -> Address, admits: (set<Address>, Address) -> bool)

  /** A server with two addresses that differ in IP and port, and tells the second one or not. */
  datatype Server = Server(primary: Address, other: Address, tellsOther: bool)
  {
    predicate Valid() {
      primary.ip != other.ip && primary.port != other.port
    }
  }

  datatype Change = Same | ChangePort | ChangeBoth

  datatype Reply = Message(xorAddr: Address, otherAddr: Option<Address>) | Silence

  /** The address a server's reply to a request sent to its primary address comes from. */
  function Source(server: Server, dest: Address, change: Change): Address {
    match change
    case Same => dest
    case ChangePort => Address(server.primary.ip, server.other.port)
    case ChangeBoth => server.other
  }

  /** What was contacted through the mapping used for `dest`. */
  function Via(box: Nat, contacted: set<Address>, dest: Address): set<Address> {
    set c | c in contacted && box.mapped(c) == box.mapped(dest)
  }

  function Answer(box: Nat, server: Server, contacted: set<Address>, dest: Address, change: Change): Reply {
    if box.admits(Via(box, contacted, dest), Source(server, dest, change))
    then Message(box.mapped(dest), if server.tellsOther then Some(server.other) else None)
    else Silence
  }

  /** The result of a test series, what has been contacted, and the mapped addresses collected. */
  datatype Outcome = Outcome(result: Result, contacted: set<Address>, mappedAddrs: seq<Address>)

  /** Test 2 goes to the server's other IP, test 3 to its other IP and port. */
  function SecondTarget(server: Server): Address {
    Address(server.other.ip, server.primary.port)
  }

  // ----- The code -----

  class StunServerConn {
    const box: Nat
    const server: Server
    const localAddr: Address
    const remoteAddr: Address
    var otherAddr: Option<Address>
    var mappedAddrs: seq<Address>
    var contacted: set<Address>

    ghost predicate Valid()
      reads this
    {
      remoteAddr == server.primary && server.Valid()
    }

    constructor (box: Nat, server: Server, localAddr: Address)
      requires server.Valid()
      ensures Valid() && this.box == box && this.server == server && this.localAddr == localAddr
      ensures otherAddr == None && mappedAddrs == [] && contacted == {}
    {
      this.box, this.server, this.localAddr, remoteAddr := box, server, localAddr, server.primary;
      otherAddr, mappedAddrs, contacted := None, [], {};
    }

    /** Sends a request and waits for the reply. */
    method Do(dest: Address, change: Change) returns (r: Reply)
      modifies this`contacted
      ensures contacted == old(contacted) + {dest}
      ensures r == Answer(box, server, contacted, dest, change)
    {
      contacted := contacted + {dest};
      r := Answer(box, server, contacted, dest, change);
    }

    /** Mapping test 1 and filter test 1: the primary address, learning the other one. */
    method FirstTest() returns (xorAddr: Option<Address>, error: Error)
      requires Valid()
      modifies this
      ensures Valid() && contacted == old(contacted) + {remoteAddr}
      ensures xorAddr.Some? <==> Answer(box, server, contacted, remoteAddr, Same).Message? && server.tellsOther
      ensures if xorAddr.Some?
              then && xorAddr.value == box.mapped(remoteAddr) && otherAddr == Some(server.other)
                   && mappedAddrs == old(mappedAddrs) + [xorAddr.value]
              else mappedAddrs == old(mappedAddrs)
      ensures xorAddr == None ==>
                error == if Answer(box, server, contacted, remoteAddr, Same).Silence?
                         then TimedOutError else NoOtherAddress
    {
      var r := Do(remoteAddr, Same);
      if r.Silence? {
        return None, TimedOutError;
      }
      if r.otherAddr == None {
        return None, NoOtherAddress;
      }
      otherAddr := r.otherAddr;
      mappedAddrs := mappedAddrs + [r.xorAddr];
      return Some(r.xorAddr), TestFailure;
    }

    /** Mapping tests 2 and 3: the same request to another address. */
    method MappingTest(dest: Address) returns (xorAddr: Option<Address>)
      requires Valid()
      modifies this`contacted, this`mappedAddrs
      ensures Valid() && contacted == old(contacted) + {dest}
      ensures xorAddr == if Answer(box, server, contacted, dest, Same).Message? then Some(box.mapped(dest)) else None
      ensures mappedAddrs == if xorAddr.Some? then old(mappedAddrs) + [xorAddr.value] else old(mappedAddrs)
    {
      var r := Do(dest, Same);
      if r.Silence? {
        return None;
      }
      mappedAddrs := mappedAddrs + [r.xorAddr];
      return Some(r.xorAddr);
    }

    method MappingTests() returns (result: Result)
      requires Valid()
      modifies this
      ensures Valid()
      ensures Outcome(result, contacted, mappedAddrs)
              == MappingOutcome(box, server, localAddr, old(contacted), old(mappedAddrs))
      ensures result.Ok? ==> otherAddr == Some(server.other)
    {
      var test1, error := FirstTest();
      if test1 == None {
        return Err(error);
      }
      if test1.value == localAddr {
        return Ok(NoNAT);
      }
      var test2 := MappingTest(Address(otherAddr.value.ip, remoteAddr.port));
      if test2 == None {
        return Err(TimedOutError);
      }
      if test2 == test1 {
        return Ok(EndpointIndependent);
      }
      var test3 := MappingTest(otherAddr.value);
      if test3 == None {
        return Err(TimedOutError);
      }
      return Ok(if test3 == test2 then AddressDependent else AddressPortDependent);
    }

    /** Filter tests 2 and 3: asks for a reply from another address. */
    method FilterTest(change: Change) returns (came: bool)
      requires Valid() && change != Same
      modifies this`contacted, this`mappedAddrs
      ensures Valid() && contacted == old(contacted) + {remoteAddr}
      ensures came == Answer(box, server, contacted, remoteAddr, change).Message?
      ensures mappedAddrs == if came then old(mappedAddrs) + [box.mapped(remoteAddr)] else old(mappedAddrs)
    {
      var r := Do(remoteAddr, change);
      came := r.Message?;
      if came {
        mappedAddrs := mappedAddrs + [r.xorAddr];
      }
    }

    method FilterTests() returns (result: Result)
      requires Valid()
      modifies this
      ensures Valid()
      ensures Outcome(result, contacted, mappedAddrs)
              == FilterOutcome(box, server, old(contacted), old(mappedAddrs))
    {
      var test1, error := FirstTest();
      if test1 == None {
        return Err(error);
      }
      var came := FilterTest(ChangeBoth);
      if came {
        return Ok(EndpointIndependent);
      }
      assert contacted + {remoteAddr} == contacted;
      came := FilterTest(ChangePort);
      return Ok(if came then AddressDependent else AddressPortDependent);
    }
  }

  /** The elements of `s`, each once, in order of first appearance. */
  function Firsts<T(==,!new)>(s: seq<T>): (r: seq<T>)
    ensures Distinct(r) && forall x :: x in r <==> x in s
  {
    if s == [] then []
    else
      var init, x := s[..|s| - 1], s[|s| - 1];
      assert s == init + [x];
      if x in Firsts(init) then Firsts(init) else Firsts(init) + [x]
  }

  function Ips(addrs: seq<Address>): seq<string> {
    seq(|addrs|, i requires 0 <= i < |addrs| => addrs[i].ip)
  }

  function Ports(addrs: seq<Address>): seq<Port> {
    seq(|addrs|, i requires 0 <= i < |addrs| => addrs[i].port)
  }

  datatype StunBehavior = StunBehavior(mapping: Behavior, filter: Behavior, localAddr: Address,
                                       mappedAddrs: seq<Address>, mappedIpList: seq<string>,
                                       mappedPortList: seq<Port>)

  method CollectLists(addrs: seq<Address>) returns (ipList: seq<string>, portList: seq<Port>)
    ensures ipList == Firsts(Ips(addrs)) && portList == Firsts(Ports(addrs))
  {
    ipList, portList := [], [];
    for i := 0 to |addrs|
      invariant ipList == Firsts(Ips(addrs)[..i]) && portList == Firsts(Ports(addrs)[..i])
    {
      assert Ips(addrs)[..i + 1][..i] == Ips(addrs)[..i] && Ports(addrs)[..i + 1][..i] == Ports(addrs)[..i];
      if addrs[i].ip !in ipList {
        ipList := ipList + [addrs[i].ip];
      }
      if addrs[i].port !in portList {
        portList := portList + [addrs[i].port];
      }
    }
    assert Ips(addrs)[..|addrs|] == Ips(addrs) && Ports(addrs)[..|addrs|] == Ports(addrs);
  }

  /** Both series on one socket: the filter tests start from what the mapping tests contacted. */
  method AnalyzeStunBehavior(box: Nat, server: Server, localAddr: Address)
    returns (report: Option<StunBehavior>, error: Error)
    requires server.Valid()
    ensures var m := MappingOutcome(box, server, localAddr, {}, []);
            var f := FilterOutcome(box, server, m.contacted, m.mappedAddrs);
            if m.result.Err? then report == None && error == m.result.error
            else if f.result.Err? then report == None && error == f.result.error
            else report == Some(StunBehavior(m.result.behavior, f.result.behavior, localAddr, f.mappedAddrs,
                                             Firsts(Ips(f.mappedAddrs)), Firsts(Ports(f.mappedAddrs))))
  {
    hide Answer;
    var conn := new StunServerConn(box, server, localAddr);
    var mapping := conn.MappingTests();
    if mapping.Err? {
      return None, mapping.error;
    }
    var filter := conn.FilterTests();
    if filter.Err? {
      return None, filter.error;
    }
    var ipList, portList := CollectLists(conn.mappedAddrs);
    return Some(StunBehavior(mapping.behavior, filter.behavior, conn.localAddr, conn.mappedAddrs, ipList, portList)),
           TestFailure;
  }

  method MappingTests(box: Nat, server: Server, localAddr: Address) returns (result: Result)
    requires server.Valid()
    ensures result == MappingOutcome(box, server, localAddr, {}, []).result
  {
    var conn := new StunServerConn(box, server, localAddr);
    result := conn.MappingTests();
  }

  method FilterTests(box: Nat, server: Server, localAddr: Address) returns (result: Result)
    requires server.Valid()
    ensures result == FilterOutcome(box, server, {}, []).result
  {
    var conn := new StunServerConn(box, server, localAddr);
    result := conn.FilterTests();
  }

  // ----- The series as functions -----

  function MappingOutcome(box: Nat, server: Server, local: Address, contacted: set<Address>,
                          addrs: seq<Address>): Outcome
  {
    var (first, second, third) := (server.primary, SecondTarget(server), server.other);
    var (seen1, seen2, seen3) :=
      (contacted + {first}, contacted + {first} + {second}, contacted + {first} + {second} + {third});
    if Answer(box, server, seen1, first, Same).Silence? then Outcome(Err(TimedOutError), seen1, addrs)
    else if !server.tellsOther then Outcome(Err(NoOtherAddress), seen1, addrs)
    else if box.mapped(first) == local then Outcome(Ok(NoNAT), seen1, addrs + [box.mapped(first)])
    else if Answer(box, server, seen2, second, Same).Silence?
    then Outcome(Err(TimedOutError), seen2, addrs + [box.mapped(first)])
    else if box.mapped(second) == box.mapped(first)
    then Outcome(Ok(EndpointIndependent), seen2, addrs + [box.mapped(first)] + [box.mapped(second)])
    else if Answer(box, server, seen3, third, Same).Silence?
    then Outcome(Err(TimedOutError), seen3, addrs + [box.mapped(first)] + [box.mapped(second)])
    else Outcome(Ok(if box.mapped(third) == box.mapped(second) then AddressDependent else AddressPortDependent), seen3,
                 addrs + [box.mapped(first)] + [box.mapped(second)] + [box.mapped(third)])
  }

  function FilterOutcome(box: Nat, server: Server, contacted: set<Address>, addrs: seq<Address>): Outcome {
    var (seen, first) := (contacted + {server.primary}, server.primary);
    if Answer(box, server, seen, first, Same).Silence? then Outcome(Err(TimedOutError), seen, addrs)
    else if !server.tellsOther then Outcome(Err(NoOtherAddress), seen, addrs)
    else if Answer(box, server, seen, first, ChangeBoth).Message?
    then Outcome(Ok(EndpointIndependent), seen, addrs + [box.mapped(first)] + [box.mapped(first)])
    else if Answer(box, server, seen, first, ChangePort).Message?
    then Outcome(Ok(AddressDependent), seen, addrs + [box.mapped(first)] + [box.mapped(first)])
    else Outcome(Ok(AddressPortDependent), seen, addrs + [box.mapped(first)])
  }

  // ----- What a NAT is -----

  /** A packet from an address that was itself contacted comes in: replies are not lost. */
  ghost predicate Lossless(box: Nat) {
    forall seen: set<Address>, src: Address :: src in seen ==> box.admits(seen, src)
  }

  /** The part of a destination that behaviour of this class may depend on. */
  predicate SameKey(b: Behavior, a: Address, c: Address) {
    match b
    case AddressDependent => a.ip == c.ip
    case AddressPortDependent => a == c
    case _ => true
  }

  /** The mapping depends on no more than the class says (section 4.1 of RFC 4787). */
  ghost predicate MapsAtMost(box: Nat, b: Behavior) {
    forall a, c | SameKey(b, a, c) :: box.mapped(a) == box.mapped(c)
  }

  /** And on no less: destinations with different keys get different mappings. */
  ghost predicate MapsApart(box: Nat, b: Behavior) {
    forall a, c | !SameKey(b, a, c) :: box.mapped(a) != box.mapped(c)
  }

  /** A source with the key of something contacted comes in (section 5 of RFC 4787). */
  ghost predicate FiltersAtMost(box: Nat, b: Behavior) {
    forall seen: set<Address>, a, c | a in seen && SameKey(b, a, c) :: box.admits(seen, c)
  }

  ghost predicate FiltersApart(box: Nat, b: Behavior) {
    forall seen: set<Address>, c | (forall a <- seen :: !SameKey(b, a, c)) :: !box.admits(seen, c)
  }

  predicate AtMost(a: Behavior, b: Behavior) {
    match b
    case EndpointIndependent => a == NoNAT || a == EndpointIndependent
    case AddressDependent => a == NoNAT || a == EndpointIndependent || a == AddressDependent
    case _ => a != Unknown
  }

  predicate IsClass(b: Behavior) {
    b in {EndpointIndependent, AddressDependent, AddressPortDependent}
  }

  lemma Solicited(box: Nat, server: Server, contacted: set<Address>, dest: Address)
    requires Lossless(box) && dest in contacted
    ensures Answer(box, server, contacted, dest, Same).Message?
  {
    assert dest in Via(box, contacted, dest);
  }

  /** What the mapping tests report is decided by three mappings. */
  lemma MappingReport(box: Nat, server: Server, local: Address, contacted: set<Address>, addrs: seq<Address>)
    requires Lossless(box) && server.tellsOther
    ensures var (first, second, third) := (server.primary, SecondTarget(server), server.other);
            MappingOutcome(box, server, local, contacted, addrs).result
            == Ok(if box.mapped(first) == local then NoNAT
                  else if box.mapped(second) == box.mapped(first) then EndpointIndependent
                  else if box.mapped(third) == box.mapped(second) then AddressDependent
                  else AddressPortDependent)
  {
    hide Answer;
    var (first, second, third) := (server.primary, SecondTarget(server), server.other);
    Solicited(box, server, contacted + {first}, first);
    Solicited(box, server, contacted + {first} + {second}, second);
    Solicited(box, server, contacted + {first} + {second} + {third}, third);
  }

  /** The mapping tests never report a stronger dependence than the NAT has, and they name its class
      exactly when it gives the addresses of the tests, as far as their keys differ in that class,
      different mappings, as it does when it tells all keys apart; no NAT is reported exactly if the
      server sees the socket's own address. */
  lemma MappingTestsSound(box: Nat, server: Server, local: Address, b: Behavior)
    requires Lossless(box) && server.Valid() && server.tellsOther && IsClass(b) && MapsAtMost(box, b)
    ensures var result := MappingOutcome(box, server, local, {}, []).result;
            && result.Ok? && AtMost(result.behavior, b)
            && (result.behavior == NoNAT <==> box.mapped(server.primary) == local)
            && (result.behavior == b <==>
                  && box.mapped(server.primary) != local
                  && (b != EndpointIndependent ==> box.mapped(SecondTarget(server)) != box.mapped(server.primary))
                  && (b == AddressPortDependent ==> box.mapped(server.other) != box.mapped(SecondTarget(server))))
            && (box.mapped(server.primary) != local && MapsApart(box, b) ==> result.behavior == b)
  {
    hide MappingOutcome;
    MappingReport(box, server, local, {}, []);
    assert SameKey(b, SecondTarget(server), server.other) || b == AddressPortDependent;
  }

  /** The address the sockets are opened on: the unspecified IP and a port. */
  const UNSPECIFIED := "0.0.0.0"

  /** On such a socket a host without any NAT, which every server sees at its one public address, is
      reported as endpoint-independent: its absence goes unnoticed. */
  lemma MissingNatGoesUnnoticed(box: Nat, server: Server, port: Port, public: Address)
    requires Lossless(box) && server.Valid() && server.tellsOther
    requires (forall a :: box.mapped(a) == public) && public.ip != UNSPECIFIED
    ensures MappingOutcome(box, server, Address(UNSPECIFIED, port), {}, []).result == Ok(EndpointIndependent)
  {
    hide MappingOutcome;
    MappingReport(box, server, Address(UNSPECIFIED, port), {}, []);
  }

  /** What the filter tests report is decided by two packets and everything contacted through the
      mapping they arrive at. */
  lemma FilterReport(box: Nat, server: Server, contacted: set<Address>, addrs: seq<Address>)
    requires Lossless(box) && server.tellsOther
    ensures var via := Via(box, contacted + {server.primary}, server.primary);
            FilterOutcome(box, server, contacted, addrs).result
            == Ok(if box.admits(via, server.other) then EndpointIndependent
                  else if box.admits(via, Address(server.primary.ip, server.other.port)) then AddressDependent
                  else AddressPortDependent)
  {
    Solicited(box, server, contacted + {server.primary}, server.primary);
  }

  lemma Admits(box: Nat, b: Behavior, seen: set<Address>, c: Address)
    ensures FiltersAtMost(box, b) && (exists a <- seen :: SameKey(b, a, c)) ==> box.admits(seen, c)
    ensures FiltersApart(box, b) && (forall a <- seen :: !SameKey(b, a, c)) ==> !box.admits(seen, c)
  {
  }

  /** The filter tests on a fresh socket never report a stronger dependence than the NAT has, and name
      its class exactly when it drops the replies from addresses whose keys differ in that class from
      the one contacted, as it does when it tells all keys apart. */
  lemma FilterTestsSound(box: Nat, server: Server, b: Behavior)
    requires Lossless(box) && server.Valid() && server.tellsOther && IsClass(b) && FiltersAtMost(box, b)
    ensures var result := FilterOutcome(box, server, {}, []).result;
            && result.Ok? && AtMost(result.behavior, b) && result.behavior != NoNAT
            && (result.behavior == b <==>
                  && (b != EndpointIndependent ==> !box.admits({server.primary}, server.other))
                  && (b == AddressPortDependent ==>
                        !box.admits({server.primary}, Address(server.primary.ip, server.other.port))))
            && (FiltersApart(box, b) ==> result.behavior == b)
  {
    hide FilterOutcome, FiltersAtMost, FiltersApart, Lossless;
    FilterReport(box, server, {}, []);
    var via, near := {server.primary}, Address(server.primary.ip, server.other.port);
    assert Via(box, {} + {server.primary}, server.primary) == via;
    Admits(box, b, via, server.other);
    Admits(box, b, via, near);
    assert SameKey(b, server.primary, near) || b == AddressPortDependent;
    assert SameKey(b, server.primary, server.other) || b != EndpointIndependent;
  }

  /** What the mapping tests leave contacted through the mapping of the primary address. */
  lemma PrimedVia(box: Nat, server: Server, local: Address)
    requires Lossless(box) && server.tellsOther
    ensures var (home, second, third) :=
              (box.mapped(server.primary), box.mapped(SecondTarget(server)), box.mapped(server.other));
            Via(box, MappingOutcome(box, server, local, {}, []).contacted + {server.primary}, server.primary)
            == {server.primary}
               + (if home != local && second == home then {SecondTarget(server)} else {})
               + (if home != local && second != home && third == home then {server.other} else {})
  {
    hide Answer;
    var (first, second, third) := (server.primary, SecondTarget(server), server.other);
    Solicited(box, server, {} + {first}, first);
    Solicited(box, server, {} + {first} + {second}, second);
    Solicited(box, server, {} + {first} + {second} + {third}, third);
  }

  /** Run on the same socket after the mapping tests, the filter tests report the class of a NAT's
      filter if and only if it is endpoint-independent, or there is no mapping to speak of, or no
      mapping test that went to the other IP used the mapping the filter tests use: for an
      address-dependent filter either of the two spoils it, for the strictest only the third does. */
  lemma CombinedFilterIff(box: Nat, server: Server, local: Address, b: Behavior)
    requires Lossless(box) && server.Valid() && server.tellsOther
    requires IsClass(b) && FiltersAtMost(box, b) && FiltersApart(box, b)
    ensures var m := MappingOutcome(box, server, local, {}, []);
            var result := FilterOutcome(box, server, m.contacted, m.mappedAddrs).result;
            var (home, second, third) :=
              (box.mapped(server.primary), box.mapped(SecondTarget(server)), box.mapped(server.other));
            && result.Ok?
            && (result.behavior == b <==>
                  || b == EndpointIndependent
                  || home == local
                  || (b == AddressDependent && second != home && third != home)
                  || (b == AddressPortDependent && (second == home || third != home)))
            && (result.behavior != b ==> result.behavior == EndpointIndependent)
  {
    hide MappingOutcome, FilterOutcome, FiltersAtMost, FiltersApart, Lossless, Via;
    var m := MappingOutcome(box, server, local, {}, []);
    FilterReport(box, server, m.contacted, m.mappedAddrs);
    PrimedVia(box, server, local);
    var via := Via(box, m.contacted + {server.primary}, server.primary);
    var near := Address(server.primary.ip, server.other.port);
    Admits(box, b, via, server.other);
    Admits(box, b, via, near);
    assert server.primary in via;
  }

  /** In particular, once the mapping is reported endpoint-independent, exactly the address-dependent
      filters are misreported, as endpoint-independent. */
  lemma MisreportedBehindEasyMapping(box: Nat, server: Server, local: Address, b: Behavior)
    requires Lossless(box) && server.Valid() && server.tellsOther
    requires IsClass(b) && FiltersAtMost(box, b) && FiltersApart(box, b)
    requires MappingOutcome(box, server, local, {}, []).result == Ok(EndpointIndependent)
    ensures var m := MappingOutcome(box, server, local, {}, []);
            FilterOutcome(box, server, m.contacted, m.mappedAddrs).result
            == Ok(if b == AddressDependent then EndpointIndependent else b)
  {
    hide FilterOutcome;
    CombinedFilterIff(box, server, local, b);
    MappingReport(box, server, local, {}, []);
  }

  // ----- What is collected -----

  /** The addresses collected on one socket, behind any NAT, in order: where the server's addresses that
      were contacted saw the socket, and the primary one's again for every filter test that was answered. */
  lemma CollectedMappings(box: Nat, server: Server, local: Address)
    requires Lossless(box) && server.Valid() && server.tellsOther
    ensures var m := MappingOutcome(box, server, local, {}, []);
            var f := FilterOutcome(box, server, m.contacted, m.mappedAddrs);
            var (home, second, third) :=
              (box.mapped(server.primary), box.mapped(SecondTarget(server)), box.mapped(server.other));
            && m.mappedAddrs == (if home == local then [home]
                                 else if second == home then [home, second] else [home, second, third])
            && f.mappedAddrs == m.mappedAddrs + (if f.result == Ok(AddressPortDependent) then [home] else [home, home])
            && f.contacted == m.contacted
            && (forall x :: x in f.mappedAddrs <==> exists c <- f.contacted :: box.mapped(c) == x)
  {
    hide Answer;
    var (first, second, third) := (server.primary, SecondTarget(server), server.other);
    Solicited(box, server, {} + {first}, first);
    Solicited(box, server, {} + {first} + {second}, second);
    Solicited(box, server, {} + {first} + {second} + {third}, third);
    var m := MappingOutcome(box, server, local, {}, []);
    Solicited(box, server, m.contacted + {first}, first);
    assert m.contacted + {first} == m.contacted;
    assert first in m.contacted;
    assert box.mapped(second) == box.mapped(first) ==> forall c <- m.contacted :: c == first || c == second;
  }

  /** A longer list keeps the order of what came first. */
  lemma {:induction false} FirstsGrow<T(!new)>(a: seq<T>, b: seq<T>)
    ensures Firsts(a) <= Firsts(a + b)
    decreases |b|
  {
    if b == [] {
      assert a + b == a;
    } else {
      var init := b[..|b| - 1];
      assert (a + b)[..|a + b| - 1] == a + init;
      FirstsGrow(a, init);
    }
  }

  /** A NAT with one mapping and an address-dependent filter. */
  function RestrictedCone(home: Address): Nat {
    Nat(_ => home, (seen: set<Address>, src: Address) => exists a <- seen :: a.ip == src.ip)
  }

  /** It is such a NAT, and the filter tests name its filter on a fresh socket and miss it after the
      mapping tests. */
  lemma RestrictedConeIsMisreported(server: Server, local: Address, home: Address)
    requires server.Valid() && server.tellsOther && home != local
    ensures var box := RestrictedCone(home);
            && Lossless(box) && MapsAtMost(box, EndpointIndependent)
            && FiltersAtMost(box, AddressDependent) && FiltersApart(box, AddressDependent)
            && var m := MappingOutcome(box, server, local, {}, []);
               && m.result == Ok(EndpointIndependent)
               && FilterOutcome(box, server, {}, []).result == Ok(AddressDependent)
               && FilterOutcome(box, server, m.contacted, m.mappedAddrs).result == Ok(EndpointIndependent)
  {
    hide MappingOutcome, FilterOutcome;
    var box := RestrictedCone(home);
    MappingReport(box, server, local, {}, []);
    FilterTestsSound(box, server, AddressDependent);
    MisreportedBehindEasyMapping(box, server, local, AddressDependent);
  }
}
