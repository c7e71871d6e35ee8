/**
 pkg/nat/nat.go: `genEndpoint` opens the local sockets and expands the remote targets of a plan, and
 `MakeHole` works through the plan's actions. Opening a socket, drawing random numbers and what a
 wait yields come from outside and are parameters here. Lowering the TTL has no effect on what is
 sent: the code restores the TTL before the datagram leaves.
 */
module MakeHole {
  import opened Basics
  import opened Sampling
  import opened NatPlan

  const MAX_REPEAT := 5

  /** The node's side of a plan, with resolved addresses. */
  datatype Nat = Nat(localAddrs: seq<Address>, remoteMappedAddrs: seq<Address>, role: Role,
                     resource: Resource, actions: seq<Action>)

  function NatOf(r: AnalyzeResult): Nat {
    Nat(r.localAddrs, r.remoteMappedAddrs, r.role, r.resource, r.actions)
  }

  /** An open socket: the `ListenUDP` call that opened it, and the address asked for, if any. */
  datatype Socket = Socket(call: nat, bound: Option<Address>)

  // ----- genEndpoint -----

  /** The addresses `ListenUDP` is called with, in order. */
  function ListenCalls(t: Nat): (calls: seq<Option<Address>>)
    ensures |calls| == |t.localAddrs| + Max(0, t.resource.localPortCount - 1)
  {
    seq(|t.localAddrs|, i requires 0 <= i < |t.localAddrs| => Some(t.localAddrs[i]))
    + seq(Max(0, t.resource.localPortCount - 1), _ => None)
  }

  /** The sockets of the first `n` calls; a call that fails leaves none. */
  function OpenedBy(calls: seq<Option<Address>>, listens: nat -> bool, n: nat): seq<Socket>
    requires n <= |calls|
  {
    if n == 0 then []
    else OpenedBy(calls, listens, n - 1) + if listens(n - 1) then [Socket(n - 1, calls[n - 1])] else []
  }

  /** Every call that succeeds leaves one socket, in the order of the calls; the first are bound to the
      plan's own addresses and the others to ports of the system's choice. */
  ghost predicate OwnSockets(t: Nat, listens: nat -> bool, locals: seq<Socket>) {
    && (forall s <- locals ::
          && listens(s.call) && s.call < |t.localAddrs| + Max(0, t.resource.localPortCount - 1)
          && s.bound == if s.call < |t.localAddrs| then Some(t.localAddrs[s.call]) else None)
    && (forall i, k | 0 <= i < k < |locals| :: locals[i].call < locals[k].call)
    && (forall c: nat | c < |t.localAddrs| + Max(0, t.resource.localPortCount - 1) && listens(c) ::
          exists k | 0 <= k < |locals| :: locals[k].call == c)
  }

  ghost predicate InOrder(calls: seq<Option<Address>>, listens: nat -> bool, locals: seq<Socket>, n: nat) {
    && n <= |calls|
    && (forall s <- locals :: s.call < n && listens(s.call) && s.bound == calls[s.call])
    && (forall i, k | 0 <= i < k < |locals| :: locals[i].call < locals[k].call)
  }

  lemma {:induction false} OpenedInOrder(calls: seq<Option<Address>>, listens: nat -> bool, n: nat)
    requires n <= |calls|
    ensures InOrder(calls, listens, OpenedBy(calls, listens, n), n)
  {
    if n > 0 {
      OpenedInOrder(calls, listens, n - 1);
      var init, locals := OpenedBy(calls, listens, n - 1), OpenedBy(calls, listens, n);
      assert forall s <- locals :: s in init || (listens(n - 1) && s == Socket(n - 1, calls[n - 1]));
      assert forall i | 0 <= i < |init| :: init[i] in init;
    }
  }

  lemma {:induction false} OpenedIfListening(calls: seq<Option<Address>>, listens: nat -> bool, n: nat, c: nat)
    requires c < n <= |calls| && listens(c)
    ensures exists k | 0 <= k < |OpenedBy(calls, listens, n)| :: OpenedBy(calls, listens, n)[k].call == c
  {
    var init, locals := OpenedBy(calls, listens, n - 1), OpenedBy(calls, listens, n);
    if c == n - 1 {
      assert locals[|init|].call == c;
    } else {
      OpenedIfListening(calls, listens, n - 1, c);
      var k :| 0 <= k < |init| && init[k].call == c;
      assert locals[k].call == c;
    }
  }

  lemma OpenedAreOwn(t: Nat, listens: nat -> bool)
    ensures OwnSockets(t, listens, OpenedBy(ListenCalls(t), listens, |ListenCalls(t)|))
  {
    hide OpenedBy;
    var calls := ListenCalls(t);
    OpenedInOrder(calls, listens, |calls|);
    forall c: nat | c < |calls| && listens(c)
      ensures exists k | 0 <= k < |OpenedBy(calls, listens, |calls|)| ::
                OpenedBy(calls, listens, |calls|)[k].call == c
    {
      OpenedIfListening(calls, listens, |calls|, c);
    }
  }

  ghost predicate OnMappedIP(a: Address, mapped: seq<Address>) {
    exists m <- mapped :: m.ip == a.ip
  }

  /** `remotes` is what the plan's remote side may expand to: its mapped addresses and, if more than
      one port is asked for, that many further ports in the window on the same IPs. */
  ghost predicate Expands(t: Nat, remotes: seq<Address>) {
    var mapped, res := t.remoteMappedAddrs, t.resource;
    var lo, hi := Min(res.remotePortStart, res.remotePortEnd), Max(res.remotePortStart, res.remotePortEnd);
    && mapped <= remotes
    && var extras := remotes[|mapped|..];
    && |extras| == (if res.remotePortCount > 1 then Min(res.remotePortCount, hi - lo) else 0)
    && (forall a <- extras :: lo <= a.port < hi && OnMappedIP(a, mapped))
    && (forall i, j | 0 <= i < j < |extras| :: extras[i].port != extras[j].port)
  }

  /** The window of sprayed ports holds only ports, and there is an IP to spray. */
  predicate Sprayable(t: Nat) {
    t.resource.remotePortCount > 1 ==>
      && t.remoteMappedAddrs != []
      && 0 <= t.resource.remotePortStart <= 0x1_0000 && 0 <= t.resource.remotePortEnd <= 0x1_0000
  }

  /** Opens the plan's local addresses and then ephemeral ports up to the plan's count. */
  method OpenSockets(t: Nat, listens: nat -> bool) returns (locals: seq<Socket>)
    ensures locals == OpenedBy(ListenCalls(t), listens, |ListenCalls(t)|)
    ensures OwnSockets(t, listens, locals)
  {
    hide OwnSockets;
    OpenedAreOwn(t, listens);
    locals := [];
    ghost var calls := ListenCalls(t);
    for i := 0 to |t.localAddrs|
      invariant locals == OpenedBy(calls, listens, i)
    {
      if listens(i) {
        locals := locals + [Socket(i, Some(t.localAddrs[i]))];
      }
    }
    var i := 1;
    while i < t.resource.localPortCount
      invariant 1 <= i && (i <= t.resource.localPortCount || i == 1)
      invariant locals == OpenedBy(calls, listens, |t.localAddrs| + i - 1)
    {
      var call := |t.localAddrs| + i - 1;
      if listens(call) {
        locals := locals + [Socket(call, None)];
      }
      i := i + 1;
    }
  }

  method GenEndpoint(t: Nat, listens: nat -> bool, ports: nat -> nat, picks: nat -> nat)
    returns (locals: seq<Socket>, remotes: seq<Address>)
    requires Sprayable(t)
    requires Fair(ports, Max(t.resource.remotePortStart, t.resource.remotePortEnd)
                         - Min(t.resource.remotePortStart, t.resource.remotePortEnd))
    ensures locals == OpenedBy(ListenCalls(t), listens, |ListenCalls(t)|)
    ensures OwnSockets(t, listens, locals)
    ensures Expands(t, remotes)
    ensures forall k | |t.remoteMappedAddrs| <= k < |remotes| ::
              remotes[k].ip == t.remoteMappedAddrs[picks(k - |t.remoteMappedAddrs|) % |t.remoteMappedAddrs|].ip
  {
    hide Fair, OwnSockets;
    locals := OpenSockets(t, listens);
    remotes := t.remoteMappedAddrs;
    if t.resource.remotePortCount > 1 {
      var extras := Spray(t, ports, picks);
      remotes := remotes + extras;
      assert remotes[|t.remoteMappedAddrs|..] == extras;
    } else {
      assert remotes[|t.remoteMappedAddrs|..] == [];
    }
  }

  /** Gives every additional port one of the mapped IPs. */
  method Spray(t: Nat, ports: nat -> nat, picks: nat -> nat) returns (extras: seq<Address>)
    requires Sprayable(t) && t.resource.remotePortCount > 1
    requires Fair(ports, Max(t.resource.remotePortStart, t.resource.remotePortEnd)
                         - Min(t.resource.remotePortStart, t.resource.remotePortEnd))
    ensures Expands(t, t.remoteMappedAddrs + extras)
    ensures forall k | 0 <= k < |extras| ::
              extras[k].ip == t.remoteMappedAddrs[picks(k) % |t.remoteMappedAddrs|].ip
  {
    hide Fair, Expands;
    var mapped, res := t.remoteMappedAddrs, t.resource;
    var additional, _ := NoRepeatRandInts(res.remotePortStart, res.remotePortEnd, res.remotePortCount, ports);
    extras := [];
    var ips := seq(|mapped|, i requires 0 <= i < |mapped| => mapped[i].ip);
    for k := 0 to |additional|
      invariant |extras| == k
      invariant forall i | 0 <= i < k ::
                  extras[i].port == additional[i] && extras[i].ip == mapped[picks(i) % |mapped|].ip
    {
      var ip := RandomOne(ips, picks(k));
      assert additional[k] in additional;
      extras := extras + [Address(ip, additional[k])];
    }
    Sprayed(t, picks, additional, extras);
  }

  lemma Sprayed(t: Nat, picks: nat -> nat, additional: seq<int>, extras: seq<Address>)
    requires Sprayable(t) && t.resource.remotePortCount > 1
    requires var (lo, hi) := (Min(t.resource.remotePortStart, t.resource.remotePortEnd),
                              Max(t.resource.remotePortStart, t.resource.remotePortEnd));
             |additional| == Min(t.resource.remotePortCount, hi - lo) && forall x <- additional :: lo <= x < hi
    requires Distinct(additional) && |extras| == |additional|
    requires var mapped := t.remoteMappedAddrs;
             forall i | 0 <= i < |extras| ::
               extras[i].port == additional[i] && extras[i].ip == mapped[picks(i) % |mapped|].ip
    ensures Expands(t, t.remoteMappedAddrs + extras)
  {
    var mapped := t.remoteMappedAddrs;
    assert (mapped + extras)[|mapped|..] == extras;
    forall i | 0 <= i < |extras|
      ensures additional[i] in additional && OnMappedIP(extras[i], mapped)
    {
      assert mapped[picks(i) % |mapped|] in mapped;
    }
  }

  lemma {:induction false} OpenedSize(calls: seq<Option<Address>>, listens: nat -> bool, n: nat)
    requires n <= |calls|
    ensures |OpenedBy(calls, listens, n)| <= n
    ensures (forall k | 0 <= k < n :: listens(k)) ==> |OpenedBy(calls, listens, n)| == n
  {
    if n > 0 {
      OpenedSize(calls, listens, n - 1);
    }
  }

  /** When exactly one side is hard, the easy side aims at the hard side's two mapped addresses and
      at exactly 1024 targets on their IPs, with pairwise different valid ports from a window that
      covers [10000, 65000); the hard side never holds more than 256 sockets. */
  lemma OneHardTargets(hard: DetectResult, easy: DetectResult, hr: AnalyzeResult, er: AnalyzeResult,
                       listens: nat -> bool, remotes: seq<Address>)
    requires Hard(hard) && !Hard(easy)
    requires Implements(hr, PlanFor(hard, easy).0) && Implements(er, PlanFor(hard, easy).1)
    requires Expands(NatOf(er), remotes)
    ensures |remotes| == 2 + 1024 && {remotes[0], remotes[1]} == Mapped(hard)
    ensures forall a <- remotes[2..] ::
              er.resource.remotePortStart <= a.port < er.resource.remotePortEnd
              && a.ip in {hard.primary.ip, hard.secondary.ip}
    ensures forall i, j | 0 <= i < j < 1024 :: remotes[2..][i].port != remotes[2..][j].port
    ensures er.resource.remotePortStart <= 10000 && 65000 <= er.resource.remotePortEnd
    ensures var calls := ListenCalls(NatOf(hr));
            |calls| == 256 && |OpenedBy(calls, listens, |calls|)| <= 256
  {
    OneHardResources(hard, easy);
    OpenedSize(ListenCalls(NatOf(hr)), listens, 256);
    var mapped := er.remoteMappedAddrs;
    DistinctCount(mapped);
    assert mapped == remotes[..2];
    assert ToSet(mapped) == {mapped[0], mapped[1]};
    forall a <- remotes[2..]
      ensures a.ip in {hard.primary.ip, hard.secondary.ip}
    {
      var m :| m in mapped && m.ip == a.ip;
      assert m in ToSet(mapped);
    }
  }

  /** Where nothing is sprayed, the one target is the easy peer's mapped address: at both sides if both are
      easy, with a socket each, and at the hard side if the other is easy, from up to 256 sockets. */
  lemma OnlyTarget(local: DetectResult, remote: DetectResult, r: AnalyzeResult, remotes: seq<Address>)
    requires !Hard(remote) && Implements(r, PlanFor(local, remote).0) && Expands(NatOf(r), remotes)
    ensures |ListenCalls(NatOf(r))| == if Hard(local) then 256 else 1
    ensures remotes == [remote.primary]
  {
    if Hard(local) {
      OneHardResources(local, remote);
    } else {
      DoubleEasyResources(local, remote);
    }
    DistinctCount(r.remoteMappedAddrs);
    assert r.remoteMappedAddrs[0] in ToSet(r.remoteMappedAddrs);
  }

  lemma OnlyTargetOfAsked(local: DetectResult, remote: DetectResult, r: AnalyzeResult, remotes: seq<Address>)
    requires !Hard(local) && Implements(r, PlanFor(local, remote).1) && Expands(NatOf(r), remotes)
    ensures |ListenCalls(NatOf(r))| == if Hard(remote) then 256 else 1
    ensures remotes == [local.primary]
  {
    if Hard(remote) {
      SwapIffOneSideHard(local, remote);
      OneHardResources(remote, local);
    } else {
      DoubleEasyResources(local, remote);
    }
    DistinctCount(r.remoteMappedAddrs);
    assert r.remoteMappedAddrs[0] in ToSet(r.remoteMappedAddrs);
  }

  /** `remotes` are the peer's own and mapped addresses and exactly 1024 further targets on their IPs, with
      pairwise different ports from the plan's window. */
  ghost predicate SpraysAround(peer: DetectResult, res: Resource, remotes: seq<Address>) {
    var addrs := {peer.local, peer.primary, peer.secondary};
    && |remotes| == |addrs| + 1024 && ToSet(remotes[..|addrs|]) == addrs
    && (forall a <- remotes[|addrs|..] ::
          && res.remotePortStart <= a.port < res.remotePortEnd
          && a.ip in {peer.local.ip, peer.primary.ip, peer.secondary.ip})
    && (forall i, j | |addrs| <= i < j < |remotes| :: remotes[i].port != remotes[j].port)
  }

  /** When both are hard, each side calls for 256 sockets, and sprays. */
  lemma DoubleHardTargets(local: DetectResult, remote: DetectResult, asked: bool, r: AnalyzeResult,
                          remotes: seq<Address>)
    requires Hard(local) && Hard(remote)
    requires Implements(r, if asked then PlanFor(local, remote).0 else PlanFor(local, remote).1)
    requires Expands(NatOf(r), remotes)
    ensures |ListenCalls(NatOf(r))| == 256
    ensures SpraysAround(if asked then remote else local, r.resource, remotes)
  {
    hide Expands, PlanFor, Distinct, SpraysAround;
    DoubleHardResources(local, remote);
    PlansComplementary(local, remote);
    SpraysWidely(if asked then remote else local, r, remotes);
  }

  lemma SpraysWidely(peer: DetectResult, r: AnalyzeResult, remotes: seq<Address>)
    requires r.resource.remotePortCount == 1024 && r.resource.remotePortStart + 1024 <= r.resource.remotePortEnd
    requires Distinct(r.remoteMappedAddrs) && ToSet(r.remoteMappedAddrs) == {peer.local, peer.primary, peer.secondary}
    requires Expands(NatOf(r), remotes)
    ensures SpraysAround(peer, r.resource, remotes)
  {
    hide Expands, Distinct;
    var mapped := r.remoteMappedAddrs;
    DistinctCount(mapped);
    Extras(NatOf(r), remotes);
    assert mapped == remotes[..|mapped|];
    forall a <- remotes[|mapped|..]
      ensures a.ip in {peer.local.ip, peer.primary.ip, peer.secondary.ip}
    {
      var m :| m in mapped && m.ip == a.ip;
      assert m in ToSet(mapped);
    }
  }

  /** The targets behind the mapped addresses. */
  lemma Extras(t: Nat, remotes: seq<Address>)
    requires Expands(t, remotes)
    ensures var n := |t.remoteMappedAddrs|;
            var (lo, hi) := (Min(t.resource.remotePortStart, t.resource.remotePortEnd),
                             Max(t.resource.remotePortStart, t.resource.remotePortEnd));
            && t.remoteMappedAddrs <= remotes
            && |remotes| == n + (if t.resource.remotePortCount > 1 then Min(t.resource.remotePortCount, hi - lo) else 0)
            && (forall a <- remotes[n..] :: lo <= a.port < hi && OnMappedIP(a, t.remoteMappedAddrs))
            && (forall i, j | n <= i < j < |remotes| :: remotes[i].port != remotes[j].port)
  {
    var n := |t.remoteMappedAddrs|;
    forall i, j | n <= i < j < |remotes|
      ensures remotes[i].port != remotes[j].port
    {
      assert remotes[i] == remotes[n..][i - n] && remotes[j] == remotes[n..][j - n];
    }
  }

  lemma {:induction false} DistinctCount(s: seq<Address>)
    requires Distinct(s)
    ensures |ToSet(s)| == |s|
  {
    if s != [] {
      DistinctCount(s[1..]);
      assert ToSet(s) == {s[0]} + ToSet(s[1..]);
      assert s[0] !in s[1..];
    }
  }

  // ----- MakeHole -----

  /** A datagram that reached one of the node's sockets. */
  datatype Arrival = Arrival(socket: Socket, from: Address)

  /** What happens outside: what each socket, by its index, reads before the deadline of the `k`-th
      wait, and the order in which the goroutines of that wait, one per socket, finish. */
  datatype World = World(arrives: nat -> nat -> Option<Address>, finishing: nat -> seq<nat>)

  ghost predicate AllFinish(locals: seq<Socket>, finishing: seq<nat>) {
    forall i: nat :: i in finishing <==> i < |locals|
  }

  ghost predicate Possible(locals: seq<Socket>, w: World) {
    forall k: nat :: AllFinish(locals, w.finishing(k))
  }

  /** The first goroutine to finish with a datagram wins. */
  function FirstReply(locals: seq<Socket>, arrives: nat -> Option<Address>, finishing: seq<nat>): Option<Arrival> {
    if finishing == [] then None
    else
      var i := finishing[0];
      if i < |locals| && arrives(i).Some? then Some(Arrival(locals[i], arrives(i).value))
      else FirstReply(locals, arrives, finishing[1..])
  }

  /** The outcomes of the waits, one after the other. */
  function Waits(locals: seq<Socket>, w: World): nat -> Option<Arrival> {
    (k: nat) => FirstReply(locals, w.arrives(k), w.finishing(k))
  }

  /** A wait yields what one of the node's own sockets read, and fails only if none of those whose
      goroutines finished read anything. */
  lemma {:induction false} FirstReplyIsOwn(locals: seq<Socket>, arrives: nat -> Option<Address>, finishing: seq<nat>)
    ensures var r := FirstReply(locals, arrives, finishing);
            && (r.None? <==> forall i <- finishing | i < |locals| :: arrives(i).None?)
            && (r.Some? ==> exists i | 0 <= i < |locals| ::
                              r.value.socket == locals[i] && arrives(i) == Some(r.value.from))
  {
    if finishing != [] {
      FirstReplyIsOwn(locals, arrives, finishing[1..]);
      assert finishing == [finishing[0]] + finishing[1..];
    }
  }

  /** The socket at place `m` of the finishing order has read something, and none before it has. */
  ghost predicate FinishesFirst(arrives: nat -> Option<Address>, finishing: seq<nat>, m: nat) {
    m < |finishing| && arrives(finishing[m]).Some? && forall j | 0 <= j < m :: arrives(finishing[j]).None?
  }

  /** `wait`: the sockets are read by a goroutine each, and the first to finish with a datagram wins. */
  method WaitForReply(locals: seq<Socket>, arrives: nat -> Option<Address>, finishing: seq<nat>)
    returns (r: Option<Arrival>)
    requires AllFinish(locals, finishing)
    ensures r == FirstReply(locals, arrives, finishing)
    ensures r.None? <==> forall i | 0 <= i < |locals| :: arrives(i).None?
    ensures r.Some? ==> exists m: nat :: FinishesFirst(arrives, finishing, m) && finishing[m] < |locals|
                                         && r == Some(Arrival(locals[finishing[m]], arrives(finishing[m]).value))
  {
    FirstReplyIsOwn(locals, arrives, finishing);
    assert finishing[0..] == finishing;
    for k := 0 to |finishing|
      invariant FirstReply(locals, arrives, finishing[k..]) == FirstReply(locals, arrives, finishing)
      invariant forall j | 0 <= j < k :: arrives(finishing[j]).None?
    {
      var i := finishing[k];
      assert i in finishing;
      if arrives(i).Some? {
        assert FinishesFirst(arrives, finishing, k);
        return Some(Arrival(locals[i], arrives(i).value));
      }
      assert finishing[k..][1..] == finishing[k + 1..];
    }
    return None;
  }

  datatype Instr = Sleep(seconds: nat) | SendAll | Wait(echo: bool)

  /** What `MakeHole` did, in order. */
  datatype Event = Slept(seconds: nat) | Sent(datagrams: seq<(Socket, Address)>) | TimedOut
                 | Received(arrival: Arrival) | Echoed(arrival: Arrival)

  function Rounds(n: nat, echo: bool): seq<Instr> {
    if n == 0 then [] else [SendAll, Wait(echo)] + Rounds(n - 1, echo)
  }

  /** The instructions one action amounts to if no wait succeeds. */
  function ActionProgram(a: Action): seq<Instr> {
    (if a.wait > 0 then [Sleep(a.wait)] else [])
    + (if a.tryRemote then [SendAll] else [])
    + Rounds(if a.repeated then MAX_REPEAT else 1, a.tryRemote)
  }

  function Program(actions: seq<Action>): seq<Instr> {
    if actions == [] then [] else ActionProgram(actions[0]) + Program(actions[1..])
  }

  /** Every socket sends one datagram to every target. */
  function AllPairs(locals: seq<Socket>, remotes: seq<Address>): seq<(Socket, Address)> {
    if locals == [] then [] else Row(locals[0], remotes) + AllPairs(locals[1..], remotes)
  }

  function Row(local: Socket, remotes: seq<Address>): (row: seq<(Socket, Address)>)
    ensures |row| == |remotes|
    ensures forall i | 0 <= i < |remotes| :: row[i] == (local, remotes[i])
  {
    seq(|remotes|, i requires 0 <= i < |remotes| => (local, remotes[i]))
  }

  /** Straight-line execution up to the first wait that yields something. `waits` says what the
      `k`-th wait yields. */
  function Interpret(prog: seq<Instr>, pairs: seq<(Socket, Address)>, waits: nat -> Option<Arrival>, k: nat)
    : (seq<Event>, Option<Arrival>)
    decreases |prog|
  {
    if prog == [] then ([], None)
    else
      match prog[0]
      case Sleep(n) =>
        var (trace, result) := Interpret(prog[1..], pairs, waits, k);
        ([Slept(n)] + trace, result)
      case SendAll =>
        var (trace, result) := Interpret(prog[1..], pairs, waits, k);
        ([Sent(pairs)] + trace, result)
      case Wait(echo) =>
        if waits(k).Some? then
          ([Received(waits(k).value)] + (if echo then [Echoed(waits(k).value)] else []), waits(k))
        else
          var (trace, result) := Interpret(prog[1..], pairs, waits, k + 1);
          ([TimedOut] + trace, result)
  }

  /** Where the `j`-th datagram of the `i`-th socket stands among rows of `n`. */
  function Place(i: nat, j: nat, n: nat): nat {
    i * n + j
  }

  lemma PlaceNext(i: nat, j: nat, n: nat)
    ensures Place(0, j, n) == j && Place(i + 1, j, n) == n + Place(i, j, n)
  {
  }

  /** Socket by socket, target by target. */
  lemma {:induction false} AllPairsAt(locals: seq<Socket>, remotes: seq<Address>, i: nat, j: nat)
    requires i < |locals| && j < |remotes|
    ensures Place(i, j, |remotes|) < |AllPairs(locals, remotes)|
    ensures AllPairs(locals, remotes)[Place(i, j, |remotes|)] == (locals[i], remotes[j])
  {
    hide Place;
    var row, rest := Row(locals[0], remotes), AllPairs(locals[1..], remotes);
    if i == 0 {
      PlaceNext(0, j, |remotes|);
    } else {
      PlaceNext(i - 1, j, |remotes|);
      AllPairsAt(locals[1..], remotes, i - 1, j);
    }
  }

  /** Every socket has sent to every target, once, socket by socket. */
  ghost predicate EachToEach(datagrams: seq<(Socket, Address)>, locals: seq<Socket>, remotes: seq<Address>) {
    && |datagrams| == |locals| * |remotes|
    && forall i, j | 0 <= i < |locals| && 0 <= j < |remotes| ::
         && Place(i, j, |remotes|) < |datagrams|
         && datagrams[Place(i, j, |remotes|)] == (locals[i], remotes[j])
  }

  lemma AllPairsEachToEach(locals: seq<Socket>, remotes: seq<Address>)
    ensures EachToEach(AllPairs(locals, remotes), locals, remotes)
  {
    hide AllPairs, Place;
    AllPairsSize(locals, remotes);
    forall i, j | 0 <= i < |locals| && 0 <= j < |remotes|
      ensures Place(i, j, |remotes|) < |AllPairs(locals, remotes)|
      ensures AllPairs(locals, remotes)[Place(i, j, |remotes|)] == (locals[i], remotes[j])
    {
      AllPairsAt(locals, remotes, i, j);
    }
  }

  lemma NoPairs(remotes: seq<Address>)
    ensures AllPairs([], remotes) == []
  {
  }

  lemma NextPairs(locals: seq<Socket>, remotes: seq<Address>, i: nat)
    requires i < |locals|
    ensures AllPairs(locals[i..], remotes) == Row(locals[i], remotes) + AllPairs(locals[i + 1..], remotes)
  {
    assert locals[i..][0] == locals[i] && locals[i..][1..] == locals[i + 1..];
  }

  /** `send`. */
  method Send(locals: seq<Socket>, remotes: seq<Address>) returns (datagrams: seq<(Socket, Address)>)
    ensures datagrams == AllPairs(locals, remotes)
    ensures EachToEach(datagrams, locals, remotes)
  {
    hide EachToEach, Place, AllPairs;
    datagrams := [];
    NoPairs(remotes);
    assert locals[0..] == locals && locals[|locals|..] == [];
    for i := 0 to |locals|
      invariant datagrams + AllPairs(locals[i..], remotes) == AllPairs(locals, remotes)
    {
      ghost var before := datagrams;
      for j := 0 to |remotes|
        invariant datagrams == before + Row(locals[i], remotes)[..j]
      {
        datagrams := datagrams + [(locals[i], remotes[j])];
      }
      assert Row(locals[i], remotes)[..|remotes|] == Row(locals[i], remotes);
      NextPairs(locals, remotes, i);
    }
    AllPairsEachToEach(locals, remotes);
  }

  /** The goal of a run is met if its trace so far, continued by the rest of the program, is it. */
  ghost predicate OnCourse(goal: (seq<Event>, Option<Arrival>), trace: seq<Event>, rest: seq<Instr>,
                           pairs: seq<(Socket, Address)>, waits: nat -> Option<Arrival>, k: nat) {
    var ahead := Interpret(rest, pairs, waits, k);
    goal.0 == trace + ahead.0 && goal.1 == ahead.1
  }

  lemma CourseStep(goal: (seq<Event>, Option<Arrival>), trace: seq<Event>, instr: Instr, rest: seq<Instr>,
                   pairs: seq<(Socket, Address)>, waits: nat -> Option<Arrival>, k: nat)
    requires OnCourse(goal, trace, [instr] + rest, pairs, waits, k)
    ensures match instr
            case Sleep(n) => OnCourse(goal, trace + [Slept(n)], rest, pairs, waits, k)
            case SendAll => OnCourse(goal, trace + [Sent(pairs)], rest, pairs, waits, k)
            case Wait(echo) =>
              if waits(k).None? then OnCourse(goal, trace + [TimedOut], rest, pairs, waits, k + 1)
              else
                && goal.0 == trace + [Received(waits(k).value)] + (if echo then [Echoed(waits(k).value)] else [])
                && goal.1 == waits(k)
  {
    assert ([instr] + rest)[1..] == rest;
  }

  /** The inner loop: at most `times` rounds of sending and waiting. */
  method RunRounds(locals: seq<Socket>, remotes: seq<Address>, w: World, k0: nat,
                   times: nat, echo: bool, trace0: seq<Event>,
                   ghost after: seq<Instr>, ghost goal: (seq<Event>, Option<Arrival>))
    returns (trace: seq<Event>, result: Option<Arrival>, k: nat)
    requires Possible(locals, w)
    requires OnCourse(goal, trace0, Rounds(times, echo) + after, AllPairs(locals, remotes), Waits(locals, w), k0)
    ensures result.Some? ==> goal.0 == trace && goal.1 == result
    ensures result.None? ==> OnCourse(goal, trace, after, AllPairs(locals, remotes), Waits(locals, w), k)
  {
    hide OnCourse, Interpret, AllPairs, FirstReply;
    trace, k := trace0, k0;
    ghost var pairs := AllPairs(locals, remotes);
    for i := 0 to times
      invariant OnCourse(goal, trace, Rounds(times - i, echo) + after, pairs, Waits(locals, w), k)
    {
      ghost var tail := Rounds(times - i - 1, echo) + after;
      assert Rounds(times - i, echo) + after == [SendAll] + ([Wait(echo)] + tail);
      CourseStep(goal, trace, SendAll, [Wait(echo)] + tail, pairs, Waits(locals, w), k);
      var datagrams := Send(locals, remotes);
      trace := trace + [Sent(datagrams)];
      CourseStep(goal, trace, Wait(echo), tail, pairs, Waits(locals, w), k);
      var arrival := WaitForReply(locals, w.arrives(k), w.finishing(k));
      if arrival.None? {
        trace, k := trace + [TimedOut], k + 1;
        continue;
      }
      trace := trace + [Received(arrival.value)];
      if echo {
        trace := trace + [Echoed(arrival.value)];
      } else {
        assert trace + [] == trace;
      }
      return trace, arrival, k;
    }
    assert Rounds(0, echo) + after == after;
    result := None;
  }

  /** One action: sleep, try the remote, then the inner loop. */
  method RunAction(action: Action, locals: seq<Socket>, remotes: seq<Address>,
                   w: World, k0: nat, trace0: seq<Event>,
                   ghost after: seq<Instr>, ghost goal: (seq<Event>, Option<Arrival>))
    returns (trace: seq<Event>, result: Option<Arrival>, k: nat)
    requires Possible(locals, w)
    requires OnCourse(goal, trace0, ActionProgram(action) + after, AllPairs(locals, remotes), Waits(locals, w), k0)
    ensures result.Some? ==> goal.0 == trace && goal.1 == result
    ensures result.None? ==> OnCourse(goal, trace, after, AllPairs(locals, remotes), Waits(locals, w), k)
  {
    hide OnCourse, Interpret, AllPairs, Rounds;
    trace := trace0;
    ghost var pairs := AllPairs(locals, remotes);
    var times := if action.repeated then MAX_REPEAT else 1;
    ghost var rounds := Rounds(times, action.tryRemote) + after;
    ghost var sends := (if action.tryRemote then [SendAll] else []) + rounds;
    assert ActionProgram(action) + after == (if action.wait > 0 then [Sleep(action.wait)] else []) + sends;
    if action.wait > 0 {
      CourseStep(goal, trace, Sleep(action.wait), sends, pairs, Waits(locals, w), k0);
      trace := trace + [Slept(action.wait)];
    } else {
      assert [] + sends == sends;
    }
    if action.tryRemote {
      CourseStep(goal, trace, SendAll, rounds, pairs, Waits(locals, w), k0);
      var datagrams := Send(locals, remotes);
      trace := trace + [Sent(datagrams)];
    } else {
      assert [] + rounds == rounds;
    }
    trace, result, k := RunRounds(locals, remotes, w, k0, times, action.tryRemote, trace, after, goal);
  }

  /** The action loop of `MakeHole`. It does exactly what its actions, flattened into a program,
      prescribe up to the first wait that yields a datagram. */
  method MakeHole(t: Nat, locals: seq<Socket>, remotes: seq<Address>, w: World)
    returns (trace: seq<Event>, result: Option<Arrival>)
    requires Possible(locals, w)
    ensures trace == Interpret(Program(t.actions), AllPairs(locals, remotes), Waits(locals, w), 0).0
    ensures result == Interpret(Program(t.actions), AllPairs(locals, remotes), Waits(locals, w), 0).1
  {
    ghost var pairs := AllPairs(locals, remotes);
    ghost var goal := Interpret(Program(t.actions), pairs, Waits(locals, w), 0);
    trace, result := [], None;
    var k := 0;
    assert t.actions[0..] == t.actions;
    for i := 0 to |t.actions|
      invariant OnCourse(goal, trace, Program(t.actions[i..]), pairs, Waits(locals, w), k)
    {
      hide OnCourse, Interpret, AllPairs, ActionProgram;
      assert t.actions[i..][0] == t.actions[i] && t.actions[i..][1..] == t.actions[i + 1..];
      trace, result, k := RunAction(t.actions[i], locals, remotes, w, k, trace,
                                    Program(t.actions[i + 1..]), goal);
      if result.Some? {
        return;
      }
    }
    result := None;
  }

  // ----- How much work that is -----

  function CountWaits(prog: seq<Instr>): nat {
    if prog == [] then 0 else (if prog[0].Wait? then 1 else 0) + CountWaits(prog[1..])
  }

  function CountSends(prog: seq<Instr>): nat {
    if prog == [] then 0 else (if prog[0].SendAll? then 1 else 0) + CountSends(prog[1..])
  }

  /** Five waits for a repeating action, one for any other. */
  function WaitBudget(actions: seq<Action>): nat {
    if actions == [] then 0 else (if actions[0].repeated then MAX_REPEAT else 1) + WaitBudget(actions[1..])
  }

  /** One send per wait, and one more for every action that tries the remote first. */
  function SendBudget(actions: seq<Action>): nat {
    if actions == [] then 0
    else (if actions[0].repeated then MAX_REPEAT else 1) + (if actions[0].tryRemote then 1 else 0)
         + SendBudget(actions[1..])
  }

  lemma {:induction false} CountsAppend(a: seq<Instr>, b: seq<Instr>)
    ensures CountWaits(a + b) == CountWaits(a) + CountWaits(b)
    ensures CountSends(a + b) == CountSends(a) + CountSends(b)
  {
    if a == [] {
      assert a + b == b;
    } else {
      assert (a + b)[1..] == a[1..] + b;
      CountsAppend(a[1..], b);
    }
  }

  lemma {:induction false} RoundsCounts(n: nat, echo: bool)
    ensures CountWaits(Rounds(n, echo)) == n && CountSends(Rounds(n, echo)) == n
  {
    if n > 0 {
      var p := Rounds(n, echo);
      assert p[1..][1..] == Rounds(n - 1, echo);
      assert p[1..] == [Wait(echo)] + Rounds(n - 1, echo);
      RoundsCounts(n - 1, echo);
    }
  }

  lemma {:induction false} ProgramCounts(actions: seq<Action>)
    ensures CountWaits(Program(actions)) == WaitBudget(actions)
    ensures CountSends(Program(actions)) == SendBudget(actions)
  {
    if actions != [] {
      var a := actions[0];
      var sleep := if a.wait > 0 then [Sleep(a.wait)] else [];
      var send := if a.tryRemote then [SendAll] else [];
      var rounds := Rounds(if a.repeated then MAX_REPEAT else 1, a.tryRemote);
      RoundsCounts(if a.repeated then MAX_REPEAT else 1, a.tryRemote);
      CountsAppend(sleep + send, rounds);
      CountsAppend(sleep, send);
      CountsAppend(ActionProgram(a), Program(actions[1..]));
      ProgramCounts(actions[1..]);
    }
  }

  function WaitsIn(trace: seq<Event>): nat {
    if trace == [] then 0
    else (if trace[0].TimedOut? || trace[0].Received? then 1 else 0) + WaitsIn(trace[1..])
  }

  function DatagramsIn(trace: seq<Event>): nat {
    if trace == [] then 0
    else (if trace[0].Sent? then |trace[0].datagrams| else if trace[0].Echoed? then 1 else 0)
         + DatagramsIn(trace[1..])
  }

  /** A program sends at most as often as it says, and one echo. */
  lemma {:induction false} SendsBounded(prog: seq<Instr>, pairs: seq<(Socket, Address)>,
                                        waits: nat -> Option<Arrival>, k: nat)
    ensures DatagramsIn(Interpret(prog, pairs, waits, k).0) <= CountSends(prog) * |pairs| + 1
    decreases |prog|
  {
    if prog != [] {
      var trace := Interpret(prog, pairs, waits, k).0;
      if prog[0].Wait? && waits(k).Some? {
        ReceiveTrace(waits(k).value, prog[0].echo);
      } else {
        var k' := if prog[0].Wait? then k + 1 else k;
        SendsBounded(prog[1..], pairs, waits, k');
        assert trace[1..] == Interpret(prog[1..], pairs, waits, k').0;
        OneMore(CountSends(prog[1..]), |pairs|);
      }
    }
  }

  /** Running a program waits at most as often as the program says; it succeeds with the first datagram
      a wait yields and stops there. */
  lemma {:induction false} InterpretBounded(prog: seq<Instr>, pairs: seq<(Socket, Address)>,
                                            waits: nat -> Option<Arrival>, k: nat)
    ensures var (trace, result) := Interpret(prog, pairs, waits, k);
            && WaitsIn(trace) <= CountWaits(prog)
            && (result.None? ==> WaitsIn(trace) == CountWaits(prog)
                                 && forall w | k <= w < k + CountWaits(prog) :: waits(w).None?)
            && (result.Some? ==>
                  WaitsIn(trace) > 0 && result == waits(k + WaitsIn(trace) - 1)
                  && forall w | k <= w < k + WaitsIn(trace) - 1 :: waits(w).None?)
    decreases |prog|
  {
    if prog != [] {
      var trace := Interpret(prog, pairs, waits, k).0;
      if prog[0].Wait? && waits(k).Some? {
        ReceiveTrace(waits(k).value, prog[0].echo);
      } else {
        var k' := if prog[0].Wait? then k + 1 else k;
        InterpretBounded(prog[1..], pairs, waits, k');
        assert trace[1..] == Interpret(prog[1..], pairs, waits, k').0;
      }
    }
  }

  lemma OneMore(n: nat, m: nat)
    ensures (1 + n) * m == m + n * m
  {
  }

  lemma ReceiveTrace(a: Arrival, echo: bool)
    ensures var trace := [Received(a)] + (if echo then [Echoed(a)] else []);
            WaitsIn(trace) == 1 && DatagramsIn(trace) == if echo then 1 else 0
  {
    var rest := if echo then [Echoed(a)] else [];
    assert ([Received(a)] + rest)[1..] == rest;
    assert WaitsIn([]) == 0 && DatagramsIn([]) == 0;
    if echo {
      assert rest[1..] == [];
      assert WaitsIn([Echoed(a)]) == 0 && DatagramsIn([Echoed(a)]) == 1;
    }
  }

  lemma {:induction false} AllPairsSize(locals: seq<Socket>, remotes: seq<Address>)
    ensures |AllPairs(locals, remotes)| == |locals| * |remotes|
  {
    if locals != [] {
      AllPairsSize(locals[1..], remotes);
      OneMore(|locals| - 1, |remotes|);
    }
  }

  /** For any action list and any outcomes of the waits: `MakeHole` waits at most five times per
      repeating action and once per other action, every send round is one datagram per socket and
      target, and if it fails it has exhausted every wait. */
  lemma MakeHoleWorkBound(t: Nat, locals: seq<Socket>, remotes: seq<Address>, waits: nat -> Option<Arrival>)
    ensures var (trace, result) := Interpret(Program(t.actions), AllPairs(locals, remotes), waits, 0);
            && WaitsIn(trace) <= WaitBudget(t.actions)
            && DatagramsIn(trace) <= SendBudget(t.actions) * (|locals| * |remotes|) + 1
            && (result.None? <==> forall w | 0 <= w < WaitBudget(t.actions) :: waits(w).None?)
  {
    ProgramCounts(t.actions);
    AllPairsSize(locals, remotes);
    SendsBounded(Program(t.actions), AllPairs(locals, remotes), waits, 0);
    InterpretBounded(Program(t.actions), AllPairs(locals, remotes), waits, 0);
  }

  /** A success is a datagram that one of the node's own sockets read during the last wait; nothing is
      sent afterwards but the echo. And `MakeHole` fails if and only if no socket read anything during
      any of its waits. */
  lemma SuccessIsOwnDatagram(t: Nat, locals: seq<Socket>, remotes: seq<Address>, w: World)
    requires Possible(locals, w)
    ensures var (trace, result) := Interpret(Program(t.actions), AllPairs(locals, remotes), Waits(locals, w), 0);
            && (result.Some? ==>
                  && 0 < WaitsIn(trace) <= WaitBudget(t.actions)
                  && (exists i | 0 <= i < |locals| ::
                        && result.value.socket == locals[i]
                        && w.arrives(WaitsIn(trace) - 1)(i) == Some(result.value.from))
                  && EndsWith(trace, result.value))
            && (result.None? <==>
                  forall k, i | 0 <= k < WaitBudget(t.actions) && 0 <= i < |locals| :: w.arrives(k)(i).None?)
  {
    hide Interpret, AllPairs, Program, FirstReply, EndsWith, WaitsIn, DatagramsIn, WaitBudget, SendBudget;
    var waits := Waits(locals, w);
    var (trace, result) := Interpret(Program(t.actions), AllPairs(locals, remotes), waits, 0);
    MakeHoleWorkBound(t, locals, remotes, waits);
    ProgramCounts(t.actions);
    InterpretBounded(Program(t.actions), AllPairs(locals, remotes), waits, 0);
    InterpretEnds(Program(t.actions), AllPairs(locals, remotes), waits, 0);
    forall k: nat
      ensures waits(k).None? <==> forall i | 0 <= i < |locals| :: w.arrives(k)(i).None?
    {
      FirstReplyIsOwn(locals, w.arrives(k), w.finishing(k));
      assert AllFinish(locals, w.finishing(k));
    }
    if result.Some? {
      var k := WaitsIn(trace) - 1;
      assert result == waits(k);
      FirstReplyIsOwn(locals, w.arrives(k), w.finishing(k));
    }
  }

  /** The trace ends with receiving `a`, or with that and the echo. */
  predicate EndsWith(trace: seq<Event>, a: Arrival) {
    || (|trace| > 0 && trace[|trace| - 1] == Received(a))
    || (|trace| > 1 && trace[|trace| - 2] == Received(a) && trace[|trace| - 1] == Echoed(a))
  }

  lemma {:induction false} InterpretEnds(prog: seq<Instr>, pairs: seq<(Socket, Address)>,
                                         waits: nat -> Option<Arrival>, k: nat)
    ensures var (trace, result) := Interpret(prog, pairs, waits, k);
            result.Some? ==> EndsWith(trace, result.value)
    decreases |prog|
  {
    if prog != [] && !(prog[0].Wait? && waits(k).Some?) {
      InterpretEnds(prog[1..], pairs, waits, if prog[0].Wait? then k + 1 else k);
    }
  }

  /** Every plan `Analyze` makes opens at most 256 sockets and aims at no more than 1027 targets. */
  lemma PlanSize(local: DetectResult, remote: DetectResult, r: AnalyzeResult, listens: nat -> bool,
                 remotes: seq<Address>)
    requires Implements(r, PlanFor(local, remote).0) || Implements(r, PlanFor(local, remote).1)
    requires Expands(NatOf(r), remotes)
    ensures var calls := ListenCalls(NatOf(r));
            |OpenedBy(calls, listens, |calls|)| <= 256 && |remotes| <= 1027
  {
    var calls := ListenCalls(NatOf(r));
    OpenedSize(calls, listens, |calls|);
    DistinctCount(r.remoteMappedAddrs);
    MappedSize(local, remote);
  }

  lemma MappedSize(local: DetectResult, remote: DetectResult)
    ensures forall p <- {PlanFor(local, remote).0, PlanFor(local, remote).1} ::
              |p.remoteMapped| <= 3 && |p.localAddrs| == 1
              && p.resource.localPortCount <= 256 && p.resource.remotePortCount <= 1024
  {
    Small(local.local, local.primary, local.secondary);
    Small(remote.local, remote.primary, remote.secondary);
  }

  lemma Small(a: Address, b: Address, c: Address)
    ensures |{a} + {b, c}| <= 3 && |{b, c}| <= 2
  {
    assert {b, c} == {b} + {c};
    assert {a} + {b, c} == {a} + ({b} + {c});
  }

  /** The budget of every plan `Analyze` makes: six waits, eight send rounds, and, with every socket
      opened and every target expanded, at most 256 x 1027 datagrams a round. */
  lemma PlanBudget(local: DetectResult, remote: DetectResult, r: AnalyzeResult, listens: nat -> bool,
                   remotes: seq<Address>, waits: nat -> Option<Arrival>)
    requires Implements(r, PlanFor(local, remote).0) || Implements(r, PlanFor(local, remote).1)
    requires Expands(NatOf(r), remotes)
    ensures var t := NatOf(r);
            var locals := OpenedBy(ListenCalls(t), listens, |ListenCalls(t)|);
            var (trace, _) := Interpret(Program(t.actions), AllPairs(locals, remotes), waits, 0);
            WaitsIn(trace) <= 6 && DatagramsIn(trace) <= 8 * (256 * 1027) + 1
  {
    hide Interpret, Program, WaitsIn, DatagramsIn, AllPairs, ListenCalls, OpenedBy, SendBudget, WaitBudget;
    hide Expands, PlanFor;
    var t := NatOf(r);
    var calls := ListenCalls(t);
    var locals := OpenedBy(calls, listens, |calls|);
    PlanSize(local, remote, r, listens, remotes);
    PlanActionsBudget(local, remote);
    MakeHoleWorkBound(t, locals, remotes, waits);
    Product(|locals|, 256, |remotes|, 1027);
    Product(SendBudget(t.actions), 8, |locals| * |remotes|, 256 * 1027);
  }

  lemma Product(a: nat, b: nat, c: nat, d: nat)
    requires a <= b && c <= d
    ensures a * c <= b * d
  {
    assert a * c <= b * c && b * c <= b * d;
  }

  lemma PlanActionsBudget(local: DetectResult, remote: DetectResult)
    ensures forall p <- {PlanFor(local, remote).0, PlanFor(local, remote).1} ::
              WaitBudget(p.actions) == 6 && SendBudget(p.actions) <= 8
  {
    forall p <- {PlanFor(local, remote).0, PlanFor(local, remote).1}
      ensures WaitBudget(p.actions) == 6 && SendBudget(p.actions) <= 8
    {
      assert |p.actions| == 2 && p.actions[1..][1..] == [];
    }
  }

  /** `n` rounds of sending to everybody and waiting in vain. */
  function Unanswered(n: nat, pairs: seq<(Socket, Address)>): seq<Event> {
    if n == 0 then [] else [Sent(pairs), TimedOut] + Unanswered(n - 1, pairs)
  }

  /** Rounds go on until a wait yields something, which is echoed or not. */
  lemma {:induction false} RoundsTrace(n: nat, echo: bool, pairs: seq<(Socket, Address)>,
                                       waits: nat -> Option<Arrival>, k: nat)
    ensures var (trace, result) := Interpret(Rounds(n, echo), pairs, waits, k);
            match result
            case None => trace == Unanswered(n, pairs) && forall w | k <= w < k + n :: waits(w).None?
            case Some(a) =>
              exists m: nat | m < n ::
                && waits(k + m) == Some(a) && (forall w | k <= w < k + m :: waits(w).None?)
                && trace == Unanswered(m, pairs) + [Sent(pairs), Received(a)] + if echo then [Echoed(a)] else []
  {
    if n > 0 {
      hide Interpret, Rounds;
      RoundsStep(n, echo, pairs, waits, k);
      if waits(k).Some? {
        assert Unanswered(0, pairs) == [] && waits(k + 0) == waits(k);
        assert [Sent(pairs), Received(waits(k).value)] == [] + [Sent(pairs), Received(waits(k).value)];
      } else {
        RoundsTrace(n - 1, echo, pairs, waits, k + 1);
        var (trace, result) := Interpret(Rounds(n - 1, echo), pairs, waits, k + 1);
        if result.Some? {
          var end := [Sent(pairs), Received(result.value)] + if echo then [Echoed(result.value)] else [];
          var m: nat :| m < n - 1 && waits(k + 1 + m) == result
                        && (forall w | k + 1 <= w < k + 1 + m :: waits(w).None?)
                        && trace == Unanswered(m, pairs) + [Sent(pairs), Received(result.value)]
                                    + if echo then [Echoed(result.value)] else [];
          assert trace == Unanswered(m, pairs) + end;
          assert [Sent(pairs), TimedOut] + trace == Unanswered(m + 1, pairs) + end;
          assert Unanswered(m + 1, pairs) + end
              == Unanswered(m + 1, pairs) + [Sent(pairs), Received(result.value)]
                 + if echo then [Echoed(result.value)] else [];
          assert waits(k + (m + 1)) == result;
        }
      }
    }
  }

  lemma RoundsStep(n: nat, echo: bool, pairs: seq<(Socket, Address)>, waits: nat -> Option<Arrival>, k: nat)
    requires n > 0
    ensures var now := Interpret(Rounds(n, echo), pairs, waits, k);
            var later := Interpret(Rounds(n - 1, echo), pairs, waits, k + 1);
            now == if waits(k).Some?
                   then ([Sent(pairs), Received(waits(k).value)] + (if echo then [Echoed(waits(k).value)] else []),
                         waits(k))
                   else ([Sent(pairs), TimedOut] + later.0, later.1)
  {
    hide Interpret;
    var rest := Rounds(n - 1, echo);
    assert Rounds(n, echo) == [SendAll] + ([Wait(echo)] + rest);
    InterpretStep(SendAll, [Wait(echo)] + rest, pairs, waits, k);
    InterpretStep(Wait(echo), rest, pairs, waits, k);
    if waits(k).Some? {
      var end := if echo then [Echoed(waits(k).value)] else [];
      assert [Sent(pairs)] + ([Received(waits(k).value)] + end) == [Sent(pairs), Received(waits(k).value)] + end;
    } else {
      var later := Interpret(rest, pairs, waits, k + 1).0;
      assert [Sent(pairs)] + ([TimedOut] + later) == [Sent(pairs), TimedOut] + later;
    }
  }

  /** What every plan makes a node do, in order. Unless both nodes are hard, the client sleeps for a second
      where the server sends at once; then both send and wait, send again, and send and wait up to five times.
      What a wait yields ends it, and is echoed, except by a client's first wait. */
  lemma PlanTrace(local: DetectResult, remote: DetectResult, asked: bool, pairs: seq<(Socket, Address)>,
                  waits: nat -> Option<Arrival>)
    ensures var plan := if asked then PlanFor(local, remote).0 else PlanFor(local, remote).1;
            var patient := plan.role == ClientSide && !(Hard(local) && Hard(remote));
            var start := [if patient then Slept(1) else Sent(pairs), Sent(pairs)];
            var (trace, result) := Interpret(Program(plan.actions), pairs, waits, 0);
            match result
            case None => trace == start + [TimedOut, Sent(pairs)] + Unanswered(MAX_REPEAT, pairs)
            case Some(a) =>
              || (waits(0) == Some(a) && trace == start + [Received(a)] + if patient then [] else [Echoed(a)])
              || exists m: nat | m < MAX_REPEAT ::
                   && waits(1 + m) == Some(a) && (forall w | 0 <= w < 1 + m :: waits(w).None?)
                   && trace == start + [TimedOut, Sent(pairs)]
                               + (Unanswered(m, pairs) + [Sent(pairs), Received(a)] + [Echoed(a)])
  {
    hide Rounds, Unanswered;
    var plan := if asked then PlanFor(local, remote).0 else PlanFor(local, remote).1;
    var patient := plan.role == ClientSide && !(Hard(local) && Hard(remote));
    PlanProgram(local, remote, asked);
    RoundsTrace(MAX_REPEAT, true, pairs, waits, 1);
    var rounds := Rounds(MAX_REPEAT, true);
    var first := if patient then Sleep(1) else SendAll;
    FourSteps(first, !patient, rounds, pairs, waits);
  }

  /** The programs of all plans: sending before every wait, and at once where the NAT is to be opened. */
  lemma PlanProgram(local: DetectResult, remote: DetectResult, asked: bool)
    ensures var plan := if asked then PlanFor(local, remote).0 else PlanFor(local, remote).1;
            var patient := plan.role == ClientSide && !(Hard(local) && Hard(remote));
            Program(plan.actions)
            == [if patient then Sleep(1) else SendAll, SendAll, Wait(!patient), SendAll] + Rounds(MAX_REPEAT, true)
  {
    hide Program, Rounds;
    var plan := if asked then PlanFor(local, remote).0 else PlanFor(local, remote).1;
    assert plan.actions == [plan.actions[0], plan.actions[1]];
    TwoActions(plan.actions[0], plan.actions[1]);
  }

  lemma TwoActions(a: Action, b: Action)
    requires !a.repeated && b.repeated && b.wait == 0 && b.tryRemote
    ensures Program([a, b])
            == (if a.wait > 0 then [Sleep(a.wait)] else []) + (if a.tryRemote then [SendAll] else [])
               + [SendAll, Wait(a.tryRemote), SendAll] + Rounds(MAX_REPEAT, true)
  {
    hide ActionProgram, Rounds;
    FirstAction(a);
    SecondAction(b);
    assert [a, b][1..] == [b] && [b][1..] == [];
    assert Program([]) == [] && Program([b]) == ActionProgram(b) + [];
    assert Program([a, b]) == ActionProgram(a) + Program([b]);
  }

  lemma FirstAction(a: Action)
    requires !a.repeated
    ensures ActionProgram(a)
            == (if a.wait > 0 then [Sleep(a.wait)] else []) + (if a.tryRemote then [SendAll] else [])
               + [SendAll, Wait(a.tryRemote)]
  {
    assert Rounds(1, a.tryRemote) == [SendAll, Wait(a.tryRemote)] + Rounds(0, a.tryRemote);
  }

  lemma SecondAction(b: Action)
    requires b.repeated && b.wait == 0 && b.tryRemote
    ensures ActionProgram(b) == [SendAll] + Rounds(MAX_REPEAT, true)
  {
    hide Rounds;
  }

  lemma FourSteps(first: Instr, echo: bool, rest: seq<Instr>, pairs: seq<(Socket, Address)>,
                  waits: nat -> Option<Arrival>)
    requires !first.Wait?
    ensures var event := if first.Sleep? then Slept(first.seconds) else Sent(pairs);
            var (trace, result) := Interpret([first, SendAll, Wait(echo), SendAll] + rest, pairs, waits, 0);
            if waits(0).Some?
            then result == waits(0)
                 && trace == [event, Sent(pairs)] + [Received(waits(0).value)]
                             + if echo then [Echoed(waits(0).value)] else []
            else var (later, end) := Interpret(rest, pairs, waits, 1);
                 result == end && trace == [event, Sent(pairs)] + [TimedOut, Sent(pairs)] + later
  {
    hide Interpret;
    InterpretStep(first, [SendAll, Wait(echo), SendAll] + rest, pairs, waits, 0);
    InterpretStep(SendAll, [Wait(echo), SendAll] + rest, pairs, waits, 0);
    InterpretStep(Wait(echo), [SendAll] + rest, pairs, waits, 0);
    InterpretStep(SendAll, rest, pairs, waits, 1);
    assert [first, SendAll, Wait(echo), SendAll] + rest == [first] + ([SendAll, Wait(echo), SendAll] + rest);
    assert [SendAll, Wait(echo), SendAll] + rest == [SendAll] + ([Wait(echo), SendAll] + rest);
    assert [Wait(echo), SendAll] + rest == [Wait(echo)] + ([SendAll] + rest);
  }

  lemma InterpretStep(instr: Instr, rest: seq<Instr>, pairs: seq<(Socket, Address)>,
                      waits: nat -> Option<Arrival>, k: nat)
    ensures var now := Interpret([instr] + rest, pairs, waits, k);
            match instr
            case Sleep(n) =>
              var later := Interpret(rest, pairs, waits, k);
              now == ([Slept(n)] + later.0, later.1)
            case SendAll =>
              var later := Interpret(rest, pairs, waits, k);
              now == ([Sent(pairs)] + later.0, later.1)
            case Wait(echo) =>
              if waits(k).Some?
              then now == ([Received(waits(k).value)] + (if echo then [Echoed(waits(k).value)] else []), waits(k))
              else var later := Interpret(rest, pairs, waits, k + 1);
                   now == ([TimedOut] + later.0, later.1)
  {
    assert ([instr] + rest)[1..] == rest;
  }

  /** The easy side's window for sprayed ports lies within the ports, and there is always an IP to spray. */
  lemma PlansAreSprayable(local: DetectResult, remote: DetectResult, r: AnalyzeResult)
    requires Implements(r, PlanFor(local, remote).0) || Implements(r, PlanFor(local, remote).1)
    ensures Sprayable(NatOf(r)) && r.remoteMappedAddrs != []
  {
    assert Mapped(local) != {} && Mapped(remote) != {};
    assert ToSet([]) == {};
  }

  /** The whole way at one node: the plan for its side, its sockets and targets, and `MakeHole` on them. For
      every pair of reports, whatever sockets fail to open, numbers are drawn and datagrams arrive, it ends
      within six waits and the datagram bound, with a datagram that one of its own sockets read, or with
      nothing if and only if none of them read anything. `w` is the world as seen from `n` sockets. */
  method Traverse(local: DetectResult, remote: DetectResult, asked: bool, listens: nat -> bool,
                  ports: nat -> nat, picks: nat -> nat, w: nat -> World)
    returns (r: AnalyzeResult, locals: seq<Socket>, remotes: seq<Address>, trace: seq<Event>, result: Option<Arrival>)
    requires forall span: nat :: Fair(ports, span)
    requires forall some: seq<Socket> :: Possible(some, w(|some|))
    ensures Implements(r, if asked then PlanFor(local, remote).0 else PlanFor(local, remote).1)
    ensures locals == OpenedBy(ListenCalls(NatOf(r)), listens, |ListenCalls(NatOf(r))|) && |locals| <= 256
    ensures Expands(NatOf(r), remotes) && |remotes| <= 1027
    ensures (trace, result)
            == Interpret(Program(r.actions), AllPairs(locals, remotes), Waits(locals, w(|locals|)), 0)
    ensures WaitsIn(trace) <= 6 && DatagramsIn(trace) <= 8 * (256 * 1027) + 1
    ensures result.Some? ==> WaitsIn(trace) > 0 && exists i | 0 <= i < |locals| ::
              && result.value.socket == locals[i]
              && w(|locals|).arrives(WaitsIn(trace) - 1)(i) == Some(result.value.from)
    ensures result.None? <==>
              forall k, i | 0 <= k < 6 && 0 <= i < |locals| :: w(|locals|).arrives(k)(i).None?
  {
    hide Fair, Interpret, Program, AllPairs, Expands, OpenedBy, ListenCalls, WaitsIn, DatagramsIn, Waits, Possible;
    hide PlanFor, WaitBudget;
    var l, r' := Analyze(local, remote);
    r := if asked then l else r';
    PlansAreSprayable(local, remote, r);
    locals, remotes := GenEndpoint(NatOf(r), listens, ports, picks);
    trace, result := MakeHole(NatOf(r), locals, remotes, w(|locals|));
    PlanSize(local, remote, r, listens, remotes);
    PlanBudget(local, remote, r, listens, remotes, Waits(locals, w(|locals|)));
    PlanActionsBudget(local, remote);
    SuccessIsOwnDatagram(NatOf(r), locals, remotes, w(|locals|));
  }
}
