/**
 pkg/nat/analyze.go: from what two nodes observed of their NATs, `Analyze` derives one traversal plan
 for each. Addresses are structured and resolvable; `filter` yields a map's keys, so the order of a
 plan's remote addresses is arbitrary and the specification speaks of them as a set.
 */
module NatPlan {
  import opened Basics

  type Port = p: int | 0 <= p < 0x1_0000

  datatype Address = Address(ip: string, port: Port)

  /** What a node reports: its socket's own address, and how two ports of the detector saw it. */
  datatype DetectResult = DetectResult(local: Address, primary: Address, secondary: Address)

  datatype Role = ServerSide | ClientSide

  datatype Action = Action(wait: nat, tryRemote: bool, lowTTL: bool, repeated: bool)

  datatype Resource = Resource(localPortCount: int, remotePortCount: int, remotePortStart: int, remotePortEnd: int)

  datatype AnalyzeResult = AnalyzeResult(localAddrs: seq<Address>, remoteLocalAddrs: seq<Address>,
                                         remoteMappedAddrs: seq<Address>, role: Role,
                                         resource: Resource, actions: seq<Action>)

  /** A plan up to the order of its remote addresses. */
  datatype Plan = Plan(localAddrs: seq<Address>, remoteLocal: set<Address>, remoteMapped: set<Address>,
                       role: Role, resource: Resource, actions: seq<Action>)

  predicate IsMultiExternIP(r: DetectResult) {
    r.primary.ip != r.secondary.ip
  }

  predicate IsRandomPort(r: DetectResult) {
    r.primary.port != r.secondary.port
  }

  /** The detector's two ports saw the node at different addresses. */
  predicate Hard(r: DetectResult) {
    IsRandomPort(r) || IsMultiExternIP(r)
  }

  /** The smaller and the larger observed port and their distance. */
  function PortsDistance(r: DetectResult): (int, int, int) {
    if r.secondary.port - r.primary.port > 0
    then (r.primary.port, r.secondary.port, r.secondary.port - r.primary.port)
    else (r.secondary.port, r.primary.port, r.primary.port - r.secondary.port)
  }

  function Mapped(r: DetectResult): set<Address> {
    {r.primary, r.secondary}
  }

  const CLIENT_ACTIONS := [Action(1, false, false, false), Action(0, true, false, true)]
  const SERVER_ACTIONS := [Action(0, true, true, false), Action(0, true, true, true)]
  const HARD_ACTIONS := [Action(0, true, true, false), Action(0, true, false, true)]

  /** The window of ports to spray: at least [10000, 65000), wider if the peer was seen outside. */
  function Window(r: DetectResult): (int, int) {
    (Min(PortsDistance(r).0, 10000), Max(PortsDistance(r).1, 65000))
  }

  function DoubleEasyPlan(local: DetectResult, remote: DetectResult): (Plan, Plan) {
    (Plan([local.local], {remote.local}, Mapped(remote), ClientSide, Resource(1, 1, 0, 0), CLIENT_ACTIONS),
     Plan([remote.local], {local.local}, Mapped(local), ServerSide, Resource(1, 1, 0, 0), SERVER_ACTIONS))
  }

  /** `local` is hard, `remote` is easy. */
  function HasEasyPlan(local: DetectResult, remote: DetectResult): (Plan, Plan) {
    var (ls, le) := Window(local);
    (Plan([local.local], {remote.local}, Mapped(remote), ClientSide,
          Resource(256, 1, remote.primary.port, 0), CLIENT_ACTIONS),
     Plan([remote.local], {local.local}, Mapped(local), ServerSide,
          Resource(1, 1024, ls, le), SERVER_ACTIONS))
  }

  function DoubleHardPlan(local: DetectResult, remote: DetectResult): (Plan, Plan) {
    var (ls, le) := Window(local);
    (Plan([local.local], {}, {remote.local} + Mapped(remote), ClientSide,
          Resource(256, 1024, 10000, 65000), HARD_ACTIONS),
     Plan([remote.local], {}, {local.local} + Mapped(local), ServerSide,
          Resource(256, 1024, ls, le), HARD_ACTIONS))
  }

  function PlanFor(local: DetectResult, remote: DetectResult): (Plan, Plan) {
    if !Hard(local) && !Hard(remote) then DoubleEasyPlan(local, remote)
    else if Hard(local) && !Hard(remote) then HasEasyPlan(local, remote)
    else if !Hard(local) && Hard(remote) then
      var (r, l) := HasEasyPlan(remote, local);
      (l, r)
    else DoubleHardPlan(local, remote)
  }

  // ----- The code -----

  function ToSet(s: seq<Address>): set<Address> {
    set a | a in s
  }

  ghost predicate Implements(r: AnalyzeResult, p: Plan) {
    && r.localAddrs == p.localAddrs && r.role == p.role && r.resource == p.resource && r.actions == p.actions
    && Distinct(r.remoteLocalAddrs) && ToSet(r.remoteLocalAddrs) == p.remoteLocal
    && Distinct(r.remoteMappedAddrs) && ToSet(r.remoteMappedAddrs) == p.remoteMapped
  }

  /** Removes duplicates through a map, whose keys come in any order. */
  method Filter(addrs: seq<Address>) returns (keys: seq<Address>)
    ensures Distinct(keys) && ToSet(keys) == ToSet(addrs)
  {
    var amap: map<Address, bool> := map[];
    for i := 0 to |addrs|
      invariant amap.Keys == ToSet(addrs[..i])
    {
      amap := amap[addrs[i] := true];
      assert addrs[..i + 1] == addrs[..i] + [addrs[i]];
    }
    assert addrs[..|addrs|] == addrs;
    keys := Keys(amap);
  }

  /** The loop over the map. */
  method Keys(amap: map<Address, bool>) returns (keys: seq<Address>)
    ensures Distinct(keys) && ToSet(keys) == amap.Keys
  {
    keys := [];
    var rest := amap.Keys;
    while rest != {}
      invariant Distinct(keys) && rest !! ToSet(keys)
      invariant rest + ToSet(keys) == amap.Keys
      decreases rest
    {
      var a :| a in rest;
      ghost var was := keys;
      keys := keys + [a];
      assert ToSet(keys) == ToSet(was) + {a};
      rest := rest - {a};
    }
  }

  method AnalyzeDoubleEasy(local: DetectResult, remote: DetectResult)
    returns (lresult: AnalyzeResult, rresult: AnalyzeResult)
    ensures Implements(lresult, DoubleEasyPlan(local, remote).0)
    ensures Implements(rresult, DoubleEasyPlan(local, remote).1)
  {
    var rl := Filter([remote.local]);
    var rm := Filter([remote.primary, remote.secondary]);
    var ll := Filter([local.local]);
    var lm := Filter([local.primary, local.secondary]);
    lresult := AnalyzeResult([local.local], rl, rm, ClientSide, Resource(1, 1, 0, 0), CLIENT_ACTIONS);
    rresult := AnalyzeResult([remote.local], ll, lm, ServerSide, Resource(1, 1, 0, 0), SERVER_ACTIONS);
  }

  /** The lower and upper bound for ports, clamped outwards. */
  method Clamped(r: DetectResult) returns (ls: int, le: int)
    ensures (ls, le) == Window(r) && ls <= 10000 && 65000 <= le
    ensures ls <= r.primary.port <= le && ls <= r.secondary.port <= le
  {
    var (s, e, _) := PortsDistance(r);
    ls, le := s, e;
    if ls > 10000 {
      ls := 10000;
    }
    if le < 65000 {
      le := 65000;
    }
  }

  method AnalyzeHasEasy(local: DetectResult, remote: DetectResult)
    returns (lresult: AnalyzeResult, rresult: AnalyzeResult)
    ensures Implements(lresult, HasEasyPlan(local, remote).0)
    ensures Implements(rresult, HasEasyPlan(local, remote).1)
  {
    var rl := Filter([remote.local]);
    var rm := Filter([remote.primary, remote.secondary]);
    lresult := AnalyzeResult([local.local], rl, rm, ClientSide,
                             Resource(256, 1, remote.primary.port, 0), CLIENT_ACTIONS);
    var ls, le := Clamped(local);
    var ll := Filter([local.local]);
    var lm := Filter([local.primary, local.secondary]);
    rresult := AnalyzeResult([remote.local], ll, lm, ServerSide, Resource(1, 1024, ls, le), SERVER_ACTIONS);
  }

  method AnalyzeDoubleHard(local: DetectResult, remote: DetectResult)
    returns (lresult: AnalyzeResult, rresult: AnalyzeResult)
    ensures Implements(lresult, DoubleHardPlan(local, remote).0)
    ensures Implements(rresult, DoubleHardPlan(local, remote).1)
  {
    var rm := Filter([remote.local, remote.primary, remote.secondary]);
    lresult := AnalyzeResult([local.local], [], rm, ClientSide, Resource(256, 1024, 10000, 65000), HARD_ACTIONS);
    var ls, le := Clamped(local);
    var lm := Filter([local.local, local.primary, local.secondary]);
    rresult := AnalyzeResult([remote.local], [], lm, ServerSide, Resource(256, 1024, ls, le), HARD_ACTIONS);
  }

  method Analyze(local: DetectResult, remote: DetectResult)
    returns (lresult: AnalyzeResult, rresult: AnalyzeResult)
    ensures Implements(lresult, PlanFor(local, remote).0)
    ensures Implements(rresult, PlanFor(local, remote).1)
  {
    var hardLocal := IsRandomPort(local) || IsMultiExternIP(local);
    var hardRemote := IsRandomPort(remote) || IsMultiExternIP(remote);
    if !hardLocal && !hardRemote {
      lresult, rresult := AnalyzeDoubleEasy(local, remote);
    } else if hardLocal && !hardRemote {
      lresult, rresult := AnalyzeHasEasy(local, remote);
    } else if !hardLocal && hardRemote {
      rresult, lresult := AnalyzeHasEasy(remote, local);
    } else {
      lresult, rresult := AnalyzeDoubleHard(local, remote);
    }
  }

  // ----- What the plans promise -----

  /** `plan` is one node's side of a traversal against a peer that reported `peer`. */
  ghost predicate Targets(plan: Plan, own: DetectResult, peer: DetectResult) {
    plan.localAddrs == [own.local] && Mapped(peer) <= plan.remoteMapped <= Mapped(peer) + {peer.local}
  }

  /** Every pair of plans is complementary: one client and one server, each listening on its own
      address and aiming at the peer's mapped addresses, and the client waits before it disturbs
      the server's punched hole unless both sides are hard. */
  lemma PlansComplementary(local: DetectResult, remote: DetectResult)
    ensures var (l, r) := PlanFor(local, remote);
            && {l.role, r.role} == {ClientSide, ServerSide}
            && Targets(l, local, remote) && Targets(r, remote, local)
            && (Hard(local) && Hard(remote) ==> l.remoteLocal == r.remoteLocal == {})
            && (!(Hard(local) && Hard(remote)) ==> l.remoteLocal == {remote.local} && r.remoteLocal == {local.local})
            && (Hard(local) != Hard(remote) ==> (l.role == ClientSide <==> Hard(local)))
            && (!(Hard(local) && Hard(remote)) ==>
                  var (client, server) := if l.role.ClientSide? then (l, r) else (r, l);
                  && client.actions[0].wait > 0 && !client.actions[0].tryRemote
                  && server.actions[0].wait == 0 && server.actions[0].tryRemote)
  {
  }

  /** Which packets are meant to expire on the way: all of the server's and none of the client's; if both
      nodes are hard, those of the first action on either side. */
  lemma LowTTLs(local: DetectResult, remote: DetectResult)
    ensures var (l, r) := PlanFor(local, remote);
            forall plan <- [l, r] ::
              && |plan.actions| == 2 && plan.actions[1].repeated && !plan.actions[0].repeated
              && plan.actions[0].lowTTL == (plan.role == ServerSide || (Hard(local) && Hard(remote)))
              && plan.actions[1].lowTTL == (plan.role == ServerSide && !(Hard(local) && Hard(remote)))
  {
  }

  /** It does not matter which node asked exactly when one side is hard and the other easy; in the
      two symmetric cases the node that asked becomes the client. */
  lemma SwapIffOneSideHard(local: DetectResult, remote: DetectResult)
    ensures var (l, r) := PlanFor(local, remote);
            PlanFor(remote, local) == (r, l) <==> Hard(local) != Hard(remote)
  {
    var (l, r) := PlanFor(local, remote);
    if Hard(local) == Hard(remote) {
      assert l.role == ClientSide && PlanFor(remote, local).0.role == ClientSide;
      assert r.role == ServerSide;
    }
  }

  /** When one side is hard, the easy side sprays 1024 ports from a window that covers [10000, 65000)
      and reaches up to and including both observed ports, and the hard side opens 256 sockets. */
  lemma OneHardResources(local: DetectResult, remote: DetectResult)
    requires Hard(local) && !Hard(remote)
    ensures var (hard, easy) := PlanFor(local, remote);
            var res := easy.resource;
            && res.localPortCount == 1 && res.remotePortCount == 1024
            && 0 <= res.remotePortStart <= 10000 && 65000 <= res.remotePortEnd <= 0xFFFF
            && (forall a <- Mapped(local) :: res.remotePortStart <= a.port <= res.remotePortEnd)
            && (res.remotePortStart == 10000 || exists a <- Mapped(local) :: a.port == res.remotePortStart)
            && (res.remotePortEnd == 65000 || exists a <- Mapped(local) :: a.port == res.remotePortEnd)
            && hard.resource == Resource(256, 1, remote.primary.port, 0)
            && hard.remoteMapped == {remote.primary} && |easy.remoteMapped| == 2
  {
    assert remote.primary == remote.secondary;
    assert Mapped(local) == {local.primary} + {local.secondary};
    assert local.primary in Mapped(local) && local.secondary in Mapped(local);
  }

  /** When both are easy, each opens one socket, sprays nothing and aims at the peer's one address. */
  lemma DoubleEasyResources(local: DetectResult, remote: DetectResult)
    requires !Hard(local) && !Hard(remote)
    ensures var (l, r) := PlanFor(local, remote);
            && l.resource.localPortCount == 1 && l.resource.remotePortCount == 1
            && r.resource.localPortCount == 1 && r.resource.remotePortCount == 1
            && l.remoteMapped == {remote.primary} && r.remoteMapped == {local.primary}
  {
    assert local.primary == local.secondary && remote.primary == remote.secondary;
  }

  /** When both are hard, both open 256 sockets, spray 1024 ports and add the peer's own address to its
      mapped ones. The server's window covers [10000, 65000) and reaches up to and including the ports the
      client was observed at; the client's is just [10000, 65000), wherever the server was observed. */
  lemma DoubleHardResources(local: DetectResult, remote: DetectResult)
    requires Hard(local) && Hard(remote)
    ensures var (client, server) := PlanFor(local, remote);
            && client.role == ClientSide && server.role == ServerSide
            && client.resource == Resource(256, 1024, 10000, 65000)
            && client.remoteMapped == {remote.local, remote.primary, remote.secondary}
            && server.remoteMapped == {local.local, local.primary, local.secondary}
            && var res := server.resource;
               && res.localPortCount == 256 && res.remotePortCount == 1024
               && 0 <= res.remotePortStart <= 10000 && 65000 <= res.remotePortEnd <= 0xFFFF
               && (forall a <- Mapped(local) :: res.remotePortStart <= a.port <= res.remotePortEnd)
               && (res.remotePortStart == 10000 || exists a <- Mapped(local) :: a.port == res.remotePortStart)
               && (res.remotePortEnd == 65000 || exists a <- Mapped(local) :: a.port == res.remotePortEnd)
  {
    assert Mapped(local) == {local.primary} + {local.secondary};
    assert local.primary in Mapped(local) && local.secondary in Mapped(local);
    assert {remote.local} + Mapped(remote) == {remote.local, remote.primary, remote.secondary};
    assert {local.local} + Mapped(local) == {local.local, local.primary, local.secondary};
  }
}
