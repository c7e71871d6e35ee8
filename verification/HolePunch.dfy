/**
 Two nodes behind NATs run `MakeHole` on the plans `Analyze` made for them. Both NATs are easy in the
 terms of sections 4.1 and 5 of RFC 4787: endpoint-independent mapping, so each node's one socket is
 seen at one address, and address-and-port-dependent filtering, so a datagram comes in only from an
 address the node has sent to when the datagram arrives. Datagrams are in flight for as long as they
 like and overtake each other, but none is lost. The two programs interleave freely, and third parties
 may send to the mapped addresses at any time.
 */
module HolePunch {
  import opened Basics
  import opened NatPlan
  import opened MakeHole

  datatype Phase = Running | Echoing(to: Address) | Done(raddr: Address) | Failed

  /** One node: the address its NAT maps its socket to, the targets of its plan, its program, the
      addresses its NAT lets in and the datagrams its socket holds (by source). */
  datatype Node = Node(mapped: Address, targets: set<Address>, prog: seq<Instr>, pc: nat,
                       sentTo: set<Address>, inbox: seq<Address>, phase: Phase)

  /** Both nodes, the datagrams in flight to each (by source), and who was the first to send (a
      history variable). */
  datatype System = System(client: Node, server: Node, toClient: multiset<Address>, toServer: multiset<Address>,
                           first: Option<Role>)

  datatype Step = Exec(who: Role) | Timeout(who: Role) | Arrives(who: Role, from: Address)
                | Stranger(who: Role, from: Address)

  function NodeFor(own: DetectResult, p: Plan): Node {
    Node(own.primary, p.remoteMapped, Program(p.actions), 0, {}, [], Running)
  }

  /** The two plans at work; the node that asked is the client. */
  function Start(local: DetectResult, remote: DetectResult): System {
    var (l, r) := PlanFor(local, remote);
    System(NodeFor(local, l), NodeFor(remote, r), multiset{}, multiset{}, None)
  }

  /** The NAT in front of `n` lets a datagram in or drops it. */
  function Arrive(n: Node, from: Address): Node {
    if from in n.sentTo then n.(inbox := n.inbox + [from]) else n
  }

  /** A wait goes on until there is a datagram. */
  predicate CanExec(n: Node) {
    match n.phase
    case Running => n.pc < |n.prog| ==> n.prog[n.pc].Wait? ==> n.inbox != []
    case Echoing(_) => true
    case _ => false
  }

  predicate Sends(n: Node) {
    n.phase.Running? && n.pc < |n.prog| && n.prog[n.pc].SendAll?
  }

  /** The next thing `MakeHole` does at `n`, and where it sends a datagram. */
  function ExecAt(n: Node): (Node, set<Address>)
    requires CanExec(n)
  {
    if n.phase.Echoing? then
      (n.(phase := Done(n.phase.to), sentTo := n.sentTo + {n.phase.to}), {n.phase.to})
    else if n.pc >= |n.prog| then (n.(phase := Failed), {})
    else
      match n.prog[n.pc]
      case Sleep(_) => (n.(pc := n.pc + 1), {})
      case SendAll => (n.(pc := n.pc + 1, sentTo := n.sentTo + n.targets), n.targets)
      case Wait(echo) =>
        (n.(inbox := n.inbox[1..], phase := if echo then Echoing(n.inbox[0]) else Done(n.inbox[0])), {})
  }

  /** The datagrams that set out for a node at `mapped` when `from` sends to `dests`. */
  function Launched(from: Address, dests: set<Address>, mapped: Address): multiset<Address> {
    if mapped in dests then multiset{from} else multiset{}
  }

  function At(s: System, who: Role): Node {
    if who.ClientSide? then s.client else s.server
  }

  function Flying(s: System, who: Role): multiset<Address> {
    if who.ClientSide? then s.toClient else s.toServer
  }

  /** A wait may time out whenever nothing has arrived. A stranger is not the peer. */
  predicate Enabled(s: System, step: Step) {
    match step
    case Exec(who) => CanExec(At(s, who))
    case Timeout(who) =>
      var n := At(s, who);
      n.phase.Running? && n.pc < |n.prog| && n.prog[n.pc].Wait? && n.inbox == []
    case Arrives(who, from) => from in Flying(s, who)
    case Stranger(who, from) => from != s.client.mapped && from != s.server.mapped
  }

  function Next(s: System, step: Step): System
    requires Enabled(s, step)
  {
    match step
    case Exec(who) =>
      var first := if s.first.None? && Sends(At(s, who)) then Some(who) else s.first;
      var (n, dests) := ExecAt(At(s, who));
      if who.ClientSide? then
        s.(client := n, toServer := s.toServer + Launched(n.mapped, dests, s.server.mapped), first := first)
      else
        s.(server := n, toClient := s.toClient + Launched(n.mapped, dests, s.client.mapped), first := first)
    case Timeout(who) =>
      if who.ClientSide? then s.(client := s.client.(pc := s.client.pc + 1))
      else s.(server := s.server.(pc := s.server.pc + 1))
    case Arrives(who, from) =>
      if who.ClientSide? then s.(client := Arrive(s.client, from), toClient := s.toClient - multiset{from})
      else s.(server := Arrive(s.server, from), toServer := s.toServer - multiset{from})
    case Stranger(who, from) =>
      if who.ClientSide? then s.(client := Arrive(s.client, from)) else s.(server := Arrive(s.server, from))
  }

  /** `steps` is a run from `s`. */
  ghost predicate IsRun(s: System, steps: seq<Step>)
    decreases |steps|
  {
    steps == [] || (Enabled(s, steps[0]) && IsRun(Next(s, steps[0]), steps[1..]))
  }

  ghost function After(s: System, steps: seq<Step>): System
    requires IsRun(s, steps)
    decreases |steps|
  {
    if steps == [] then s else After(Next(s, steps[0]), steps[1..])
  }

  // ----- Whoever succeeds has found the peer -----

  /** Nothing but the peer's address is aimed at, let in, held or reported. */
  ghost predicate OnlyPeer(n: Node, peer: Address) {
    && n.targets == {peer} && n.sentTo <= {peer}
    && (forall i | 0 <= i < |n.inbox| :: n.inbox[i] == peer)
    && (n.phase.Echoing? ==> n.phase.to == peer)
    && (n.phase.Done? ==> n.phase.raddr == peer)
  }

  ghost predicate Agreed(s: System) {
    && OnlyPeer(s.client, s.server.mapped) && OnlyPeer(s.server, s.client.mapped)
    && (forall a <- s.toClient :: a == s.server.mapped) && (forall a <- s.toServer :: a == s.client.mapped)
    && s.client.mapped != s.server.mapped
  }

  lemma ExecKeepsPeer(n: Node, peer: Address)
    requires OnlyPeer(n, peer) && CanExec(n)
    ensures OnlyPeer(ExecAt(n).0, peer) && ExecAt(n).0.mapped == n.mapped
  {
  }

  lemma ArriveKeepsPeer(n: Node, peer: Address, from: Address)
    requires OnlyPeer(n, peer)
    ensures OnlyPeer(Arrive(n, from), peer) && Arrive(n, from).mapped == n.mapped
    ensures from != peer ==> Arrive(n, from) == n
  {
  }

  lemma StepKeepsAgreement(s: System, step: Step)
    requires Agreed(s) && Enabled(s, step)
    ensures Agreed(Next(s, step))
    ensures Next(s, step).client.mapped == s.client.mapped && Next(s, step).server.mapped == s.server.mapped
  {
    hide ExecAt, Arrive, CanExec;
    var peer := if step.who.ClientSide? then s.server.mapped else s.client.mapped;
    match step
    case Exec(who) =>
      ExecKeepsPeer(At(s, who), peer);
    case Timeout(who) =>
    case Arrives(who, from) =>
      ArriveKeepsPeer(At(s, who), peer, from);
    case Stranger(who, from) =>
      ArriveKeepsPeer(At(s, who), peer, from);
  }

  lemma {:induction false} RunKeepsAgreement(s: System, steps: seq<Step>)
    requires Agreed(s) && IsRun(s, steps)
    ensures Agreed(After(s, steps))
    ensures After(s, steps).client.mapped == s.client.mapped
    ensures After(s, steps).server.mapped == s.server.mapped
    decreases |steps|
  {
    hide Agreed, Next, Enabled;
    if steps != [] {
      StepKeepsAgreement(s, steps[0]);
      RunKeepsAgreement(Next(s, steps[0]), steps[1..]);
    }
  }

  /** In every run between two easy nodes, whatever times out, however long datagrams take and whoever
      else sends, a node that succeeds has found the other node's mapped address. */
  lemma SuccessMeansAgreement(local: DetectResult, remote: DetectResult, steps: seq<Step>)
    requires !Hard(local) && !Hard(remote) && local.primary != remote.primary
    requires IsRun(Start(local, remote), steps)
    ensures var s := After(Start(local, remote), steps);
            && (s.client.phase.Done? ==> s.client.phase.raddr == remote.primary)
            && (s.server.phase.Done? ==> s.server.phase.raddr == local.primary)
  {
    hide Next, Enabled, Program;
    assert remote.primary == remote.secondary && local.primary == local.secondary;
    RunKeepsAgreement(Start(local, remote), steps);
  }

  /** A datagram from a third party is never let in. */
  lemma StrangersBounce(s: System, who: Role, from: Address)
    requires Agreed(s) && Enabled(s, Stranger(who, from))
    ensures Next(s, Stranger(who, from)) == s
  {
  }

  // ----- When both succeed -----

  /** How the two programs begin. */
  ghost predicate Begins(client: seq<Instr>, server: seq<Instr>) {
    && |client| >= 3 && client[0] == Sleep(1) && client[1] == SendAll && client[2] == Wait(false)
    && |server| >= 3 && server[0] == SendAll && server[1] == SendAll && server[2] == Wait(true)
  }

  lemma Openings()
    ensures Begins(Program(CLIENT_ACTIONS), Program(SERVER_ACTIONS))
  {
    assert CLIENT_ACTIONS[0] == Action(1, false, false, false);
    assert SERVER_ACTIONS[0] == Action(0, true, true, false);
    assert Rounds(1, false) == [SendAll, Wait(false)] + Rounds(0, false) == [SendAll, Wait(false)];
    assert Rounds(1, true) == [SendAll, Wait(true)] + Rounds(0, true) == [SendAll, Wait(true)];
    assert ActionProgram(CLIENT_ACTIONS[0]) == [Sleep(1)] + [] + [SendAll, Wait(false)];
    assert ActionProgram(SERVER_ACTIONS[0]) == [] + [SendAll] + [SendAll, Wait(true)];
  }

  predicate NoTimeouts(steps: seq<Step>) {
    forall i | 0 <= i < |steps| :: !steps[i].Timeout?
  }

  predicate HasSent(n: Node) {
    n.sentTo != {}
  }

  /** Something has reached the node: it is in the inbox or has been received. */
  predicate Reached(n: Node) {
    n.inbox != [] || n.phase.Echoing? || n.phase.Done?
  }

  /** Where the nodes can be when no wait has timed out. */
  ghost predicate Opening(s: System) {
    && Agreed(s)
    && Begins(s.client.prog, s.server.prog)
    && s.client.pc <= 2 && s.server.pc <= 2
    && (s.client.phase.Running? || s.client.phase.Done?)
    && !s.server.phase.Failed?
    && (HasSent(s.client) <==> s.client.pc == 2) && (HasSent(s.server) <==> s.server.pc >= 1)
    && (s.client.phase.Done? ==> s.client.pc == 2) && (!s.server.phase.Running? ==> s.server.pc == 2)
    && (s.first.None? <==> !HasSent(s.client) && !HasSent(s.server))
  }

  /** Not decided yet: the server has not sent, and the client's datagram has not arrived. */
  ghost predicate Undecided(s: System) {
    && Opening(s)
    && !HasSent(s.server) && !Reached(s.server) && s.toClient == multiset{} && !Reached(s.client)
    && s.toServer == (if HasSent(s.client) then multiset{s.client.mapped} else multiset{})
    && (HasSent(s.client) ==> s.first == Some(ClientSide))
  }

  /** The server's hole is open before the client's datagram arrives. */
  ghost predicate Opened(s: System) {
    && Opening(s) && HasSent(s.server)
    && (if !HasSent(s.client) then s.toServer == multiset{} && !Reached(s.server)
        else if Reached(s.server) then s.toServer == multiset{}
        else s.toServer == multiset{s.client.mapped})
    && (s.server.phase.Done? ==> HasSent(s.client) && (s.toClient != multiset{} || Reached(s.client)))
  }

  /** The client's only datagram has been filtered. */
  ghost predicate Missed(s: System) {
    && Opening(s) && HasSent(s.client) && s.first == Some(ClientSide)
    && s.toServer == multiset{} && !Reached(s.server)
    && (HasSent(s.server) ==> s.toClient != multiset{} || Reached(s.client))
  }

  /** Neither node can go on and nothing is in flight. */
  predicate Finished(s: System) {
    && !CanExec(s.client) && !CanExec(s.server)
    && s.toClient == multiset{} && s.toServer == multiset{}
  }

  ghost predicate BothSucceeded(s: System) {
    s.client.phase == Done(s.server.mapped) && s.server.phase == Done(s.client.mapped)
  }

  /** The server's first step, which sends, comes before a datagram from `from` arrives at its NAT. */
  predicate SendsBeforeHearing(steps: seq<Step>, from: Address) {
    steps != [] && steps[0] != Arrives(ServerSide, from)
    && (steps[0] == Exec(ServerSide) || SendsBeforeHearing(steps[1..], from))
  }

  /** What agreement says about where a node sends. */
  lemma AgreedTargets(s: System)
    requires Agreed(s)
    ensures s.client.targets == {s.server.mapped} && s.server.targets == {s.client.mapped}
    ensures s.client.mapped != s.server.mapped
    ensures s.client.phase.Echoing? ==> s.client.phase.to == s.server.mapped
    ensures s.server.phase.Echoing? ==> s.server.phase.to == s.client.mapped
  {
  }

  lemma OpenedExecClient(s: System)
    requires Opened(s) && CanExec(s.client)
    ensures Opened(Next(s, Exec(ClientSide)))
  {
    hide Agreed;
    AgreedTargets(s);
    StepKeepsAgreement(s, Exec(ClientSide));
  }

  lemma OpenedExecServer(s: System)
    requires Opened(s) && CanExec(s.server)
    ensures Opened(Next(s, Exec(ServerSide)))
  {
    hide Agreed;
    AgreedTargets(s);
    StepKeepsAgreement(s, Exec(ServerSide));
  }

  lemma OpenedExec(s: System, who: Role)
    requires Opened(s) && CanExec(At(s, who))
    ensures Opened(Next(s, Exec(who)))
  {
    hide Opened, Next, CanExec;
    if who.ClientSide? {
      OpenedExecClient(s);
    } else {
      OpenedExecServer(s);
    }
  }

  lemma OpenedArrives(s: System, who: Role, from: Address)
    requires Opened(s) && from in Flying(s, who)
    ensures Opened(Next(s, Arrives(who, from)))
  {
    StepKeepsAgreement(s, Arrives(who, from));
  }

  lemma MissedExec(s: System, who: Role)
    requires Missed(s) && CanExec(At(s, who))
    ensures Missed(Next(s, Exec(who)))
  {
    StepKeepsAgreement(s, Exec(who));
  }

  lemma MissedArrives(s: System, who: Role, from: Address)
    requires Missed(s) && from in Flying(s, who)
    ensures Missed(Next(s, Arrives(who, from)))
  {
    StepKeepsAgreement(s, Arrives(who, from));
  }

  lemma UndecidedExec(s: System, who: Role)
    requires Undecided(s) && CanExec(At(s, who))
    ensures if who.ServerSide? then Opened(Next(s, Exec(who))) else Undecided(Next(s, Exec(who)))
  {
    StepKeepsAgreement(s, Exec(who));
  }

  lemma UndecidedArrives(s: System, who: Role, from: Address)
    requires Undecided(s) && from in Flying(s, who)
    ensures who == ServerSide && from == s.client.mapped
    ensures Missed(Next(s, Arrives(who, from)))
  {
    StepKeepsAgreement(s, Arrives(who, from));
  }

  lemma OpenedStep(s: System, step: Step)
    requires Opened(s) && Enabled(s, step) && !step.Timeout?
    ensures Opened(Next(s, step))
  {
    match step
    case Exec(who) => OpenedExec(s, who);
    case Arrives(who, from) => OpenedArrives(s, who, from);
    case Stranger(who, from) => StrangersBounce(s, who, from);
  }

  lemma MissedStep(s: System, step: Step)
    requires Missed(s) && Enabled(s, step) && !step.Timeout?
    ensures Missed(Next(s, step))
  {
    match step
    case Exec(who) => MissedExec(s, who);
    case Arrives(who, from) => MissedArrives(s, who, from);
    case Stranger(who, from) => StrangersBounce(s, who, from);
  }

  lemma {:induction false} RunKeepsOpened(s: System, steps: seq<Step>)
    requires Opened(s) && IsRun(s, steps) && NoTimeouts(steps)
    ensures Opened(After(s, steps))
    decreases |steps|
  {
    hide Opened, Next, Enabled;
    if steps != [] {
      OpenedStep(s, steps[0]);
      RunKeepsOpened(Next(s, steps[0]), steps[1..]);
    }
  }

  lemma {:induction false} RunKeepsMissed(s: System, steps: seq<Step>)
    requires Missed(s) && IsRun(s, steps) && NoTimeouts(steps)
    ensures Missed(After(s, steps))
    decreases |steps|
  {
    hide Missed, Next, Enabled;
    if steps != [] {
      MissedStep(s, steps[0]);
      RunKeepsMissed(Next(s, steps[0]), steps[1..]);
    }
  }

  /** A run that starts undecided stays so, until the server sends or the client's datagram arrives. */
  lemma {:induction false} RunDecides(s: System, steps: seq<Step>)
    requires Undecided(s) && IsRun(s, steps) && NoTimeouts(steps)
    ensures var s' := After(s, steps);
            if SendsBeforeHearing(steps, s.client.mapped) then Opened(s') else Undecided(s') || Missed(s')
    ensures After(s, steps).client.mapped == s.client.mapped && After(s, steps).server.mapped == s.server.mapped
    decreases |steps|
  {
    hide Opened, Missed, Undecided, Next, Enabled;
    assert Agreed(s) by { UndecidedAgrees(s); }
    RunKeepsAgreement(s, steps);
    if steps != [] {
      var s', rest := Next(s, steps[0]), steps[1..];
      StepKeepsAgreement(s, steps[0]);
      UndecidedStep(s, steps[0]);
      if steps[0] == Exec(ServerSide) {
        RunKeepsOpened(s', rest);
      } else if steps[0] == Arrives(ServerSide, s.client.mapped) {
        RunKeepsMissed(s', rest);
      } else {
        RunDecides(s', rest);
      }
    }
  }

  lemma UndecidedAgrees(s: System)
    requires Undecided(s)
    ensures Agreed(s)
  {
  }

  lemma UndecidedStep(s: System, step: Step)
    requires Undecided(s) && Enabled(s, step) && !step.Timeout?
    ensures var s' := Next(s, step);
            if step == Exec(ServerSide) then Opened(s')
            else if step == Arrives(ServerSide, s.client.mapped) then Missed(s')
            else Undecided(s')
  {
    match step
    case Exec(who) => UndecidedExec(s, who);
    case Arrives(who, from) => UndecidedArrives(s, who, from);
    case Stranger(who, from) => StrangersBounce(s, who, from);
  }

  lemma FinishedOpened(s: System)
    requires Opened(s) && Finished(s)
    ensures BothSucceeded(s)
  {
    assert s.client.phase.Running? ==> s.client.inbox == [];
    assert s.server.phase.Running? ==> s.server.inbox == [];
  }

  lemma FinishedMissed(s: System)
    requires Missed(s) && Finished(s)
    ensures s.client.phase == Done(s.server.mapped) && !s.server.phase.Done?
  {
    assert s.client.phase.Running? ==> s.client.inbox == [];
  }

  lemma StartIsUndecided(local: DetectResult, remote: DetectResult)
    requires !Hard(local) && !Hard(remote) && local.primary != remote.primary
    ensures Undecided(Start(local, remote))
  {
    hide Program;
    Openings();
    assert remote.primary == remote.secondary && local.primary == local.secondary;
  }

  /** Two easy nodes whose waits outlast every delay: once neither can go on and nothing is in flight,
      both have succeeded, each with the other's mapped address, if and only if the server's first
      datagram left before the client's arrived at the server's NAT. Otherwise that datagram, the only
      one the client sends, was filtered: the client succeeds without echoing, and the server waits in
      vain. */
  lemma BothSucceedIffOpenedInTime(local: DetectResult, remote: DetectResult, steps: seq<Step>)
    requires !Hard(local) && !Hard(remote) && local.primary != remote.primary
    requires IsRun(Start(local, remote), steps) && NoTimeouts(steps)
    requires Finished(After(Start(local, remote), steps))
    ensures var s := After(Start(local, remote), steps);
            && (BothSucceeded(s) <==> SendsBeforeHearing(steps, local.primary))
            && s.client.phase == Done(remote.primary)
            && s.client.mapped == local.primary && s.server.mapped == remote.primary
  {
    hide Next, Enabled, Opened, Missed, Undecided, Opening;
    var s, s' := Start(local, remote), After(Start(local, remote), steps);
    StartIsUndecided(local, remote);
    RunDecides(s, steps);
    if SendsBeforeHearing(steps, local.primary) {
      FinishedOpened(s');
    } else {
      if Undecided(s') {
        UndecidedCanGoOn(s');
      }
      FinishedMissed(s');
    }
  }

  lemma UndecidedCanGoOn(s: System)
    requires Undecided(s)
    ensures !Finished(s)
  {
  }

  /** It is enough that the server's first send comes before the client's, however long the datagrams
      take. */
  lemma ServerFirstSuffices(local: DetectResult, remote: DetectResult, steps: seq<Step>)
    requires !Hard(local) && !Hard(remote) && local.primary != remote.primary
    requires IsRun(Start(local, remote), steps) && NoTimeouts(steps)
    requires Finished(After(Start(local, remote), steps))
    ensures After(Start(local, remote), steps).first == Some(ServerSide)
            ==> BothSucceeded(After(Start(local, remote), steps))
  {
    hide Next, Enabled, Opened, Undecided, Opening;
    var s, s' := Start(local, remote), After(Start(local, remote), steps);
    StartIsUndecided(local, remote);
    RunDecides(s, steps);
    if SendsBeforeHearing(steps, local.primary) {
      FinishedOpened(s');
    } else if Undecided(s') {
      UndecidedCanGoOn(s');
    }
  }

  /** But it is not needed: if the client sends first, both still succeed when its datagram is slower
      than the server's first send. */
  lemma ClientFirstCanSucceed(local: DetectResult, remote: DetectResult) returns (steps: seq<Step>)
    requires !Hard(local) && !Hard(remote) && local.primary != remote.primary
    ensures IsRun(Start(local, remote), steps) && NoTimeouts(steps)
    ensures Finished(After(Start(local, remote), steps))
    ensures After(Start(local, remote), steps).first == Some(ClientSide)
    ensures BothSucceeded(After(Start(local, remote), steps))
  {
    hide Program, PlanFor;
    var s := Start(local, remote);
    StartIsUndecided(local, remote);
    var s1 := Next(s, Exec(ClientSide));
    UndecidedExec(s, ClientSide);
    var s2 := Next(s1, Exec(ClientSide));
    UndecidedExec(s1, ClientSide);
    assert s2.first == Some(ClientSide);
    var s3 := Next(s2, Exec(ServerSide));
    UndecidedExec(s2, ServerSide);
    var rest := RunsCanFinish(s3);
    RunKeepsFirst(s3, rest);
    steps := [Exec(ServerSide)] + rest;
    OneMore(s2, Exec(ServerSide), rest);
    assert SendsBeforeHearing(steps, local.primary);
    OneMore(s1, Exec(ClientSide), steps);
    steps := [Exec(ClientSide)] + steps;
    assert SendsBeforeHearing(steps, local.primary);
    OneMore(s, Exec(ClientSide), steps);
    steps := [Exec(ClientSide)] + steps;
    assert SendsBeforeHearing(steps, local.primary);
    BothSucceedIffOpenedInTime(local, remote, steps);
  }

  /** And without it they may not: if the client's datagram arrives before the server sends, the server
      never succeeds. */
  lemma ClientTooEarly(local: DetectResult, remote: DetectResult) returns (steps: seq<Step>)
    requires !Hard(local) && !Hard(remote) && local.primary != remote.primary
    ensures IsRun(Start(local, remote), steps) && NoTimeouts(steps)
    ensures Finished(After(Start(local, remote), steps))
    ensures !After(Start(local, remote), steps).server.phase.Done?
    ensures !BothSucceeded(After(Start(local, remote), steps))
  {
    hide Program, PlanFor;
    var s := Start(local, remote);
    StartIsUndecided(local, remote);
    var s1 := Next(s, Exec(ClientSide));
    UndecidedExec(s, ClientSide);
    var s2 := Next(s1, Exec(ClientSide));
    UndecidedExec(s1, ClientSide);
    var arrival := Arrives(ServerSide, local.primary);
    var s3 := Next(s2, arrival);
    UndecidedArrives(s2, ServerSide, local.primary);
    var rest := RunsCanFinish(s3);
    RunKeepsMissed(s3, rest);
    FinishedMissed(After(s3, rest));
    OneMore(s2, arrival, rest);
    OneMore(s1, Exec(ClientSide), [arrival] + rest);
    OneMore(s, Exec(ClientSide), [Exec(ClientSide)] + ([arrival] + rest));
    steps := [Exec(ClientSide)] + ([Exec(ClientSide)] + ([arrival] + rest));
  }

  lemma OneMore(s: System, step: Step, rest: seq<Step>)
    requires Enabled(s, step) && IsRun(Next(s, step), rest)
    ensures IsRun(s, [step] + rest) && After(s, [step] + rest) == After(Next(s, step), rest)
    ensures NoTimeouts(rest) && !step.Timeout? ==> NoTimeouts([step] + rest)
    ensures forall from: Address ::
              SendsBeforeHearing([step] + rest, from)
              <==> step != Arrives(ServerSide, from) && (step == Exec(ServerSide) || SendsBeforeHearing(rest, from))
  {
    hide Next, Enabled;
    assert ([step] + rest)[1..] == rest;
  }

  lemma {:induction false} RunKeepsFirst(s: System, steps: seq<Step>)
    requires IsRun(s, steps) && s.first.Some?
    ensures After(s, steps).first == s.first
    decreases |steps|
  {
    if steps != [] {
      RunKeepsFirst(Next(s, steps[0]), steps[1..]);
    }
  }

  // ----- Every run comes to an end -----

  /** Work left at a node: every instruction once, and the step that ends the program; each may also
      send a datagram that has to arrive. */
  function Left(n: Node): nat {
    match n.phase
    case Running => if n.pc <= |n.prog| then |n.prog| - n.pc + 2 else 2
    case Echoing(_) => 1
    case _ => 0
  }

  function Work(s: System): nat {
    2 * (Left(s.client) + Left(s.server)) + |s.toClient| + |s.toServer|
  }

  function CountSteps(steps: seq<Step>): nat {
    if steps == [] then 0 else (if steps[0].Stranger? then 0 else 1) + CountSteps(steps[1..])
  }

  /** From every state the run can go on, without a timeout, until it is finished. */
  lemma {:induction false} RunsCanFinish(s: System) returns (steps: seq<Step>)
    ensures IsRun(s, steps) && NoTimeouts(steps) && Finished(After(s, steps))
    decreases Work(s)
  {
    hide Next, Work;
    steps := [];
    if !Finished(s) {
      var step := SomeStep(s);
      StepDoesWork(s, step);
      var rest := RunsCanFinish(Next(s, step));
      steps := [step] + rest;
      assert steps[1..] == rest;
    }
  }

  lemma SomeStep(s: System) returns (step: Step)
    requires !Finished(s)
    ensures Enabled(s, step) && (step.Exec? || step.Arrives?)
  {
    if CanExec(s.client) {
      step := Exec(ClientSide);
    } else if CanExec(s.server) {
      step := Exec(ServerSide);
    } else if s.toClient != multiset{} {
      var from :| from in s.toClient;
      step := Arrives(ClientSide, from);
    } else {
      var from :| from in s.toServer;
      step := Arrives(ServerSide, from);
    }
  }

  /** Every run comes to an end: no more steps of nodes and datagrams than work left. */
  lemma {:induction false} RunsAreFinite(s: System, steps: seq<Step>)
    requires IsRun(s, steps)
    ensures CountSteps(steps) <= Work(s)
    decreases |steps|
  {
    hide Next, Enabled, Work;
    if steps != [] {
      RunsAreFinite(Next(s, steps[0]), steps[1..]);
      StepDoesWork(s, steps[0]);
    }
  }

  lemma ExecDoesWork(n: Node)
    requires CanExec(n)
    ensures Left(ExecAt(n).0) + 1 <= Left(n)
  {
  }

  lemma ExecStepDoesWork(s: System, who: Role)
    requires CanExec(At(s, who))
    ensures Work(Next(s, Exec(who))) + 1 <= Work(s)
  {
    hide ExecAt, CanExec, Left, Sends;
    ExecDoesWork(At(s, who));
  }

  lemma TimeoutDoesWork(s: System, who: Role)
    requires Enabled(s, Timeout(who))
    ensures Work(Next(s, Timeout(who))) + 1 <= Work(s)
  {
  }

  lemma ArriveIsNoWork(n: Node, from: Address)
    ensures Left(Arrive(n, from)) == Left(n)
  {
  }

  lemma StepDoesWork(s: System, step: Step)
    requires Enabled(s, step)
    ensures Work(Next(s, step)) + (if step.Stranger? then 0 else 1) <= Work(s)
  {
    hide ExecAt, Left, Arrive, Launched;
    match step
    case Exec(who) => ExecStepDoesWork(s, who);
    case Timeout(who) => TimeoutDoesWork(s, who);
    case Arrives(who, from) => ArriveIsNoWork(At(s, who), from);
    case Stranger(who, from) => ArriveIsNoWork(At(s, who), from);
  }
}
