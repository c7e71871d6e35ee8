/**
 From the hub to the hole: the plans that a completed punch handler has sent are the plans the two nodes
 run `MakeHole` on, and for two easy nodes they succeed.
 */
module Punching {
  import opened Basics
  import opened NatPlan
  import Hub
  import HubCompletion
  import HolePunch

  /** What a node starts from that got `response` and has the mapping `own`. */
  function NodeFrom(own: DetectResult, response: Hub.PunchResponse): HolePunch.Node {
    HolePunch.NodeFor(own, response.localNat)
  }

  /** The two nodes of handler `h`, each with the plan it was sent. */
  ghost function Launch(s: Hub.System, h: nat): HolePunch.System
    requires h in s.handlers && s.handlers[h].stage.Completed? && |Hub.Entries(s.log, h)| == 2
  {
    var (sent, handler) := (Hub.Entries(s.log, h), s.handlers[h]);
    HolePunch.System(NodeFrom(handler.req.mapping, sent[0].response),
                     NodeFrom(handler.stage.reply.mapping, sent[1].response), multiset{}, multiset{}, None)
  }

  /** In every run of the hub, a completed handler has launched exactly the two nodes that hole punching
      starts from: the requester with its own mapping, and the remote node with the mapping it reported for
      this handler's request. */
  lemma HandlersLaunchThePunch(steps: seq<Hub.Step>, h: nat)
    requires Hub.IsRun(Hub.START, steps) && h in Hub.After(Hub.START, steps).handlers
    requires Hub.After(Hub.START, steps).handlers[h].stage.Completed?
    ensures var s := Hub.After(Hub.START, steps);
            var handler := s.handlers[h];
            && |Hub.Entries(s.log, h)| == 2
            && handler.stage.ticket in s.reported
            && s.reported[handler.stage.ticket].mapping == handler.stage.reply.mapping
            && Launch(s, h) == HolePunch.Start(handler.req.mapping, handler.stage.reply.mapping)
  {
    hide Hub.IsRun, Hub.After, Hub.Entries, PlanFor, HolePunch.NodeFor;
    Hub.PunchProtocol(steps, h);
    Hub.RepliesReachTheirHandlers(steps);
  }

  /** End to end, for two easy nodes with different mapped addresses: whatever the hub did before and
      besides, the nodes that a completed handler has launched, once they can do no more and no wait has
      timed out, have both succeeded if and only if the server's first datagram left before the client's
      arrived. */
  lemma PunchedNodesMeet(steps: seq<Hub.Step>, h: nat, punch: seq<HolePunch.Step>)
    requires Hub.IsRun(Hub.START, steps) && h in Hub.After(Hub.START, steps).handlers
    requires Hub.After(Hub.START, steps).handlers[h].stage.Completed?
    requires |Hub.Entries(Hub.After(Hub.START, steps).log, h)| == 2
    requires var handler := Hub.After(Hub.START, steps).handlers[h];
             var (own, peer) := (handler.req.mapping, handler.stage.reply.mapping);
             !Hard(own) && !Hard(peer) && own.primary != peer.primary
    requires HolePunch.IsRun(Launch(Hub.After(Hub.START, steps), h), punch) && HolePunch.NoTimeouts(punch)
    requires HolePunch.Finished(HolePunch.After(Launch(Hub.After(Hub.START, steps), h), punch))
    ensures var s := Hub.After(Hub.START, steps);
            var (own, peer) := (s.handlers[h].req.mapping, s.handlers[h].stage.reply.mapping);
            var end := HolePunch.After(Launch(s, h), punch);
            && end.client.phase == HolePunch.Done(peer.primary)
            && (end.server.phase == HolePunch.Done(own.primary)
                <==> HolePunch.SendsBeforeHearing(punch, own.primary))
  {
    hide Hub.IsRun, Hub.After, Hub.Entries, HolePunch.IsRun, HolePunch.After, PlanFor, Launch, HolePunch.Start;
    var s := Hub.After(Hub.START, steps);
    HandlersLaunchThePunch(steps, h);
    HolePunch.BothSucceedIffOpenedInTime(s.handlers[h].req.mapping, s.handlers[h].stage.reply.mapping, punch);
  }

  /** The theorems above are not about nothing: whatever the hub has done before, any two easy nodes with
      different mapped addresses can log in and be introduced, each gets the plan it is launched with, and
      then they can meet, even if the client is the first to send. */
  lemma AnyTwoEasyNodesCanMeet(before: seq<Hub.Step>, a: nat, b: nat, h: nat, name: string, req: Hub.PunchRequest,
                               mapping: DetectResult, ip: string)
    returns (steps: seq<Hub.Step>, punch: seq<HolePunch.Step>)
    requires Hub.IsRun(Hub.START, before) && a != b && name != req.peerName
    requires a !in Hub.After(Hub.START, before).sessions && b !in Hub.After(Hub.START, before).sessions
    requires h !in Hub.After(Hub.START, before).handlers
    requires !Hard(req.mapping) && !Hard(mapping) && req.mapping.primary != mapping.primary
    ensures Hub.IsRun(Hub.START, steps)
    ensures var s := Hub.After(Hub.START, steps);
            && h in s.handlers && s.handlers[h].stage.Completed? && |Hub.Entries(s.log, h)| == 2
            && a in s.sessions && b in s.sessions && |s.sessions[a].got| == |s.sessions[b].got| == 1
            && Launch(s, h).client == NodeFrom(req.mapping, s.sessions[a].got[0])
            && Launch(s, h).server == NodeFrom(mapping, s.sessions[b].got[0])
            && HolePunch.IsRun(Launch(s, h), punch) && HolePunch.NoTimeouts(punch)
            && HolePunch.Finished(HolePunch.After(Launch(s, h), punch))
            && HolePunch.BothSucceeded(HolePunch.After(Launch(s, h), punch))
  {
    hide Hub.IsRun, Hub.After, Hub.Entries, HolePunch.IsRun, HolePunch.After, PlanFor, HolePunch.NodeFor,
         HolePunch.Finished, HolePunch.BothSucceeded;
    steps := HubCompletion.AnyTwoCanBeIntroduced(before, a, b, h, name, req, mapping, ip);
    HandlersLaunchThePunch(steps, h);
    punch := HolePunch.ClientFirstCanSucceed(req.mapping, mapping);
  }
}
