/**
 The hub's theorems say what a completed punch handler has done. Here it is shown that handlers do
 complete: a handler with a reply can always send both responses, and whatever the hub has done so far,
 two nodes that log in can be introduced to each other.
 */
module HubCompletion {
  import opened NatPlan
  import opened Hub

  lemma {:induction false} OneMore(s: System, steps: seq<Step>, step: Step)
    requires IsRun(s, steps) && Enabled(After(s, steps), step) && Timely(After(s, steps), step)
    ensures IsRun(s, steps + [step]) && After(s, steps + [step]) == Next(After(s, steps), step)
    decreases |steps|
  {
    hide Next, Enabled, Timely;
    if steps == [] {
      assert [] + [step] == [step] && [step][1..] == [];
    } else {
      assert (steps + [step])[1..] == steps[1..] + [step];
      OneMore(Next(s, steps[0]), steps[1..], step);
    }
  }

  // ----- A handler with a reply -----

  /** In every reachable state a handler that has the reply can send both responses, whatever has
      become of the sessions; then it is completed, and they are the last two of the log. */
  lemma RepliedCanComplete(steps: seq<Step>, h: nat)
    requires IsRun(START, steps) && h in After(START, steps).handlers
    requires After(START, steps).handlers[h].stage.Replied?
    ensures var s := After(START, steps);
            var handler := s.handlers[h];
            var Replied(remote, ticket, reply) := handler.stage;
            var more := steps + [SendFirst(h)] + [SendSecond(h)];
            && IsRun(START, more)
            && After(START, more).handlers == s.handlers[h := handler.(stage := Completed(remote, ticket, reply))]
            && Known(s, h)
            && var (first, second) := Responses(handler, reply, LocalName(s, h), RemoteName(s, h));
               After(START, more).log == s.log + [Posted(h, handler.session, first)] + [Posted(h, remote, second)]
  {
    hide Inv, Responses, IdOf, IsRun, After;
    StartInv();
    RunKeepsInv(START, steps);
    var s := After(START, steps);
    HandlerIsKnown(s, h);
    OneMore(START, steps, SendFirst(h));
    NamesKept(s, h);
    var s1 := AfterSendFirst(s, h);
    StageIrrelevant(s.handlers[h], s1.handlers[h], s.handlers[h].stage.reply, LocalName(s, h), RemoteName(s, h));
    OneMore(START, steps + [SendFirst(h)], SendSecond(h));
  }

  lemma HandlerIsKnown(s: System, h: nat)
    requires Inv(s) && h in s.handlers
    ensures Known(s, h)
  {
    hide Matching, Logged;
  }

  lemma NamesKept(s: System, h: nat)
    requires Enabled(s, SendFirst(h))
    ensures var s' := AfterSendFirst(s, h);
            Known(s', h) && LocalName(s', h) == LocalName(s, h) && RemoteName(s', h) == RemoteName(s, h)
  {
    hide Responses, IdOf;
  }

  /** How many of its own steps a handler is from its end, if its wait times out. */
  function StepsLeft(stage: Stage): nat {
    match stage
    case Begin => 5
    case Found(_) => 4
    case Drawn(_, _) => 3
    case Written(_, _) => 2
    case Waiting(_, _) => 1
    case Replied(_, _, _) => 2
    case HalfSent(_, _, _) => 1
    case Completed(_, _, _) => 0
    case GaveUp => 0
  }

  /** The step a handler can always take. */
  function OwnStep(stage: Stage, h: nat): Step
    requires StepsLeft(stage) > 0
  {
    match stage
    case Begin => Lookup(h)
    case Found(_) => Draw(h)
    case Drawn(_, _) => Write(h)
    case Written(_, _) => Register(h)
    case Waiting(_, _) => TimeOut(h)
    case Replied(_, _, _) => SendFirst(h)
    case HalfSent(_, _, _) => SendSecond(h)
  }

  /** No handler is stuck: in every reachable state, a few steps of its own take it to its end, and none that
      has the reply gives up. */
  lemma {:induction false} HandlersCanEnd(steps: seq<Step>, h: nat) returns (more: seq<Step>)
    requires IsRun(START, steps) && h in After(START, steps).handlers
    ensures IsRun(START, steps + more) && h in After(START, steps + more).handlers
    ensures |more| <= StepsLeft(After(START, steps).handlers[h].stage)
    ensures var end := After(START, steps + more).handlers[h].stage;
            (end.Completed? || end.GaveUp?) && (HasReply(After(START, steps).handlers[h].stage) ==> end.Completed?)
    decreases StepsLeft(After(START, steps).handlers[h].stage)
  {
    hide Inv, IsRun, After, Next, Enabled;
    var s := After(START, steps);
    if StepsLeft(s.handlers[h].stage) == 0 {
      more := [];
      assert steps + [] == steps;
    } else {
      StartInv();
      RunKeepsInv(START, steps);
      HandlerIsKnown(s, h);
      var step := OwnStep(s.handlers[h].stage, h);
      OwnStepGetsOn(s, h);
      OneMore(START, steps, step);
      var rest := HandlersCanEnd(steps + [step], h);
      more := [step] + rest;
      assert steps + more == steps + [step] + rest;
    }
  }

  lemma OwnStepGetsOn(s: System, h: nat)
    requires Known(s, h) && StepsLeft(s.handlers[h].stage) > 0
    ensures var step := OwnStep(s.handlers[h].stage, h);
            && Enabled(s, step) && Timely(s, step)
            && h in Next(s, step).handlers
            && var (stage, stage') := (s.handlers[h].stage, Next(s, step).handlers[h].stage);
               StepsLeft(stage') < StepsLeft(stage) && (HasReply(stage) ==> HasReply(stage'))
  {
    hide IdOf, Responses, Post;
  }

  lemma StageIrrelevant(handler: Handler, handler': Handler, reply: Reply, a: string, b: string)
    requires handler.req == handler'.req
    ensures Responses(handler, reply, a, b) == Responses(handler', reply, a, b)
  {
    hide PlanFor;
  }

  // ----- Two nodes that log in -----

  /** After a run the sessions `a` and `b` and the handler `h` are these, and so is the number of draws. */
  ghost predicate Shows(steps: seq<Step>, a: nat, sa: Session, b: nat, sb: Session, h: nat, handler: Handler,
                        issued: nat) {
    && a != b && IsRun(START, steps)
    && var s := After(START, steps);
       && a in s.sessions && s.sessions[a] == sa && b in s.sessions && s.sessions[b] == sb
       && h in s.handlers && s.handlers[h] == handler && s.issued == issued
  }

  function NewSession(name: string): Session {
    Session(name, true, [], {}, [], [], map[], [], [])
  }

  /** Both have logged in. */
  ghost predicate LoggedIn(steps: seq<Step>, a: nat, sa: Session, b: nat, sb: Session, h: nat, issued: nat) {
    && a != b && IsRun(START, steps)
    && var s := After(START, steps);
       && a in s.sessions && s.sessions[a] == sa && b in s.sessions && s.sessions[b] == sb
       && h !in s.handlers && s.issued == issued && sb.name in s.registry && s.registry[sb.name] == b
  }

  lemma BothLogIn(before: seq<Step>, a: nat, b: nat, h: nat, name: string, peer: string) returns (steps: seq<Step>)
    requires IsRun(START, before) && a != b && name != peer
    requires a !in After(START, before).sessions && b !in After(START, before).sessions
    requires h !in After(START, before).handlers
    ensures LoggedIn(steps, a, NewSession(name), b, NewSession(peer), h, After(START, before).issued + 2)
  {
    hide IdOf, Inv, IsRun, After, ClosedIn;
    StartInv();
    RunKeepsInv(START, before);
    var s := After(START, before);
    RegisteredExist(s);
    ClosedKeeps(s.sessions, s.registry, name);
    OneMore(START, before, Login(a, name));
    steps := before + [Login(a, name)];
    var s1 := AfterLogin(s, a, name);
    OthersStayOpen(s1, peer, a);
    ClosedKeeps(s1.sessions, s1.registry, peer);
    OneMore(START, steps, Login(b, peer));
    steps := steps + [Login(b, peer)];
  }

  lemma OthersStayOpen(s: System, name: string, a: nat)
    requires a in s.sessions && (name in s.registry ==> s.registry[name] != a)
    ensures var closed := ClosedIn(s.sessions, s.registry, name);
            a in closed && closed[a] == s.sessions[a]
  {
  }

  /** And the punch request of the first has a handler. */
  lemma Introduced(before: seq<Step>, a: nat, b: nat, h: nat, name: string, req: PunchRequest)
    returns (steps: seq<Step>)
    requires IsRun(START, before) && a != b && name != req.peerName
    requires a !in After(START, before).sessions && b !in After(START, before).sessions
    requires h !in After(START, before).handlers
    ensures Shows(steps, a, NewSession(name).(asks := [req]), b, NewSession(req.peerName), h,
                  Handler(a, req, 0, Begin), After(START, before).issued + 2)
    ensures var s := After(START, steps);
            req.peerName in s.registry && s.registry[req.peerName] == b
  {
    hide IdOf, IsRun, After;
    steps := BothLogIn(before, a, b, h, name, req.peerName);
    var s := After(START, steps);
    OneMore(START, steps, AskPunch(a, req));
    steps := steps + [AskPunch(a, req)];
    var s1 := AfterAskPunch(s, a, req);
    assert s1.sessions[a].up == [req] && s1.sessions[a].asks == [req];
    OneMore(START, steps, Dispatch(a, h));
    steps := steps + [Dispatch(a, h)];
    assert AfterDispatch(s1, a, h).sessions[a] == NewSession(name).(asks := [req]);
  }

  lemma RegisteredExist(s: System)
    requires Inv(s)
    ensures forall n <- s.registry :: s.registry[n] in s.sessions
  {
    hide Matching, Logged;
  }

  /** The handler has found the remote session and waits for the answer to its request. */
  lemma Asked(before: seq<Step>, a: nat, sa: Session, b: nat, h: nat, req: PunchRequest, n: nat)
    returns (steps: seq<Step>)
    requires Shows(before, a, sa, b, NewSession(req.peerName), h, Handler(a, req, 0, Begin), n)
    requires req.peerName in After(START, before).registry && After(START, before).registry[req.peerName] == b
    ensures Shows(steps, a, sa, b,
                  NewSession(req.peerName).(down := [DetectRequest(IdOf(n + 1), n + 1)],
                                            replyer := map[IdOf(n + 1) := h]),
                  h, Handler(a, req, 0, Waiting(b, n + 1)), n + 1)
  {
    hide IdOf, IsRun, After;
    var s := After(START, before);
    OneMore(START, before, Lookup(h));
    steps := before + [Lookup(h)];
    var s1 := AfterLookup(s, h);
    OneMore(START, steps, Draw(h));
    steps := steps + [Draw(h)];
    var s2 := AfterDraw(s1, h);
    OneMore(START, steps, Write(h));
    steps := steps + [Write(h)];
    var s3 := AfterWrite(s2, h);
    assert s3.sessions[b].down == [DetectRequest(IdOf(n + 1), n + 1)];
    OneMore(START, steps, Register(h));
    steps := steps + [Register(h)];
    assert AfterRegister(s3, h).sessions[b].replyer == map[IdOf(n + 1) := h];
  }

  /** The node of `b` answers, and the reply is delivered to the handler, in time. */
  lemma Told(before: seq<Step>, a: nat, sa: Session, b: nat, h: nat, req: PunchRequest, n: nat,
             mapping: DetectResult, ip: string) returns (steps: seq<Step>)
    requires Shows(before, a, sa, b,
                   NewSession(req.peerName).(down := [DetectRequest(IdOf(n), n)], replyer := map[IdOf(n) := h]),
                   h, Handler(a, req, 0, Waiting(b, n)), n)
    ensures Shows(steps, a, sa, b, NewSession(req.peerName), h,
                  Handler(a, req, 0, Replied(b, n, Reply(IdOf(n), n, mapping, ip))), n)
  {
    hide IdOf, IsRun, After;
    var s := After(START, before);
    OneMore(START, before, NodeReceives(b));
    steps := before + [NodeReceives(b)];
    var s1 := AfterNodeReceives(s, b);
    assert s1.sessions[b].down == [] && s1.sessions[b].pending == {n};
    OneMore(START, steps, NodeReplies(b, n, mapping, ip));
    steps := steps + [NodeReplies(b, n, mapping, ip)];
    var s2 := AfterNodeReplies(s1, b, n, mapping, ip);
    assert s2.sessions[b].pending == {} && s2.sessions[b].replies == [Reply(IdOf(n), n, mapping, ip)];
    OneMore(START, steps, Deliver(b));
    steps := steps + [Deliver(b)];
    var s3 := AfterDeliver(s2, b);
    assert s3.sessions[b].replies == [] && s3.sessions[b].replyer == map[];
  }

  /** The handler sends both responses, and both nodes receive theirs. */
  lemma Sent(before: seq<Step>, a: nat, sa: Session, b: nat, sb: Session, h: nat, handler: Handler, n: nat)
    returns (steps: seq<Step>)
    requires Shows(before, a, sa, b, sb, h, handler, n)
    requires handler.session == a && handler.stage.Replied? && handler.stage.remote == b
    requires sa.open && sa.down == [] && sa.got == [] && sb.open && sb.down == [] && sb.got == []
    ensures var (first, second) := Responses(handler, handler.stage.reply, sa.name, sb.name);
            Shows(steps, a, sa.(got := [first]), b, sb.(got := [second]), h,
                  handler.(stage := Completed(b, handler.stage.ticket, handler.stage.reply)), n + 2)
  {
    hide IdOf, IsRun, After, Responses;
    var (first, second) := Responses(handler, handler.stage.reply, sa.name, sb.name);
    var s := After(START, before);
    OneMore(START, before, SendFirst(h));
    steps := before + [SendFirst(h)];
    var s1 := AfterSendFirst(s, h);
    StageIrrelevant(handler, s1.handlers[h], handler.stage.reply, sa.name, sb.name);
    assert s1.sessions[a].down == [Punch(IdOf(n + 1), first)];
    OneMore(START, steps, SendSecond(h));
    steps := steps + [SendSecond(h)];
    var s2 := AfterSendSecond(s1, h);
    assert s2.sessions[a].down == [Punch(IdOf(n + 1), first)] && s2.sessions[b].down == [Punch(IdOf(n + 2), second)];
    OneMore(START, steps, NodeReceives(a));
    steps := steps + [NodeReceives(a)];
    var s3 := AfterNodeReceives(s2, a);
    assert s3.sessions[a] == sa.(got := [first]);
    OneMore(START, steps, NodeReceives(b));
    steps := steps + [NodeReceives(b)];
    assert AfterNodeReceives(s3, b).sessions[b] == sb.(got := [second]);
  }

  /** Whatever the hub has done before: two nodes can log in under different names, the first can ask for
      a punch with the second, and without a late reply the handler completes and each node gets the plan
      for its side, computed from the first one's request and what the second one reports. */
  lemma AnyTwoCanBeIntroduced(before: seq<Step>, a: nat, b: nat, h: nat, name: string, req: PunchRequest,
                              mapping: DetectResult, ip: string) returns (steps: seq<Step>)
    requires IsRun(START, before) && a != b && name != req.peerName
    requires a !in After(START, before).sessions && b !in After(START, before).sessions
    requires h !in After(START, before).handlers
    ensures IsRun(START, steps)
    ensures var s := After(START, steps);
            && h in s.handlers && s.handlers[h].session == a && s.handlers[h].req == req
            && s.handlers[h].stage.Completed? && s.handlers[h].stage.remote == b
            && s.handlers[h].stage.reply.mapping == mapping
            && a in s.sessions && s.sessions[a].name == name && b in s.sessions && s.sessions[b].name == req.peerName
            && var (l, r) := PlanFor(req.mapping, mapping);
               && s.sessions[a].got == [PunchResponse(req.localIp, ip, l, r, req.peerName)]
               && s.sessions[b].got == [PunchResponse(ip, req.localIp, r, l, name)]
  {
    hide IdOf, IsRun, After, PlanFor;
    var n := After(START, before).issued + 3;
    steps := Introduced(before, a, b, h, name, req);
    var sa := NewSession(name).(asks := [req]);
    steps := Asked(steps, a, sa, b, h, req, n - 1);
    steps := Told(steps, a, sa, b, h, req, n, mapping, ip);
    steps := Sent(steps, a, sa, b, NewSession(req.peerName), h,
                  Handler(a, req, 0, Replied(b, n, Reply(IdOf(n), n, mapping, ip))), n);
  }

  // ----- Which sessions are open -----

  /** An open session is the one registered under its name. */
  ghost predicate OpenAreRegistered(s: System) {
    forall sid <- s.sessions | s.sessions[sid].open ::
      s.sessions[sid].name in s.registry && s.registry[s.sessions[sid].name] == sid
  }

  /** The same sessions are open under the same names. */
  ghost predicate SameOpen(s: System, s': System) {
    && s'.registry == s.registry && s'.sessions.Keys == s.sessions.Keys
    && forall sid <- s.sessions ::
         s'.sessions[sid].open == s.sessions[sid].open && s'.sessions[sid].name == s.sessions[sid].name
  }

  lemma SessionStepsKeepOpen(s: System, step: Step)
    requires Enabled(s, step) && (step.AskPunch? || step.Dispatch? || step.NodeReceives? || step.NodeReplies?)
    ensures SameOpen(s, Next(s, step))
  {
    hide IdOf;
  }

  lemma DeliverKeepsOpen(s: System, sid: nat)
    requires Enabled(s, Deliver(sid))
    ensures SameOpen(s, AfterDeliver(s, sid))
  {
    hide Hits;
    assert !Hits(s, sid) ==> AfterDeliver(s, sid).handlers == s.handlers;
  }

  lemma HandlerStepsKeepOpen(s: System, step: Step)
    requires Enabled(s, step) && (step.Lookup? || step.Draw? || step.Write? || step.Register? || step.TimeOut?)
    ensures SameOpen(s, Next(s, step))
  {
    hide IdOf;
  }

  lemma SendStepsKeepOpen(s: System, step: Step)
    requires Enabled(s, step) && (step.SendFirst? || step.SendSecond?)
    ensures SameOpen(s, Next(s, step))
  {
    hide IdOf, Responses;
  }

  lemma StepKeepsOpenRegistered(s: System, step: Step)
    requires OpenAreRegistered(s) && Enabled(s, step)
    ensures OpenAreRegistered(Next(s, step))
  {
    if step.Login? || step.Leave? {
      LoginLeaveKeepOpenRegistered(s, step);
    } else {
      hide AfterDeliver, Hits;
      if step.Deliver? {
        DeliverKeepsOpen(s, step.sid);
      } else if step.SendFirst? || step.SendSecond? {
        SendStepsKeepOpen(s, step);
      } else if step.AskPunch? || step.Dispatch? || step.NodeReceives? || step.NodeReplies? {
        SessionStepsKeepOpen(s, step);
      } else {
        HandlerStepsKeepOpen(s, step);
      }
      SameOpenKeepsRegistered(s, Next(s, step));
    }
  }

  lemma SameOpenKeepsRegistered(s: System, s': System)
    requires OpenAreRegistered(s) && SameOpen(s, s')
    ensures OpenAreRegistered(s')
  {
  }

  lemma LoginLeaveKeepOpenRegistered(s: System, step: Step)
    requires OpenAreRegistered(s) && Enabled(s, step) && (step.Login? || step.Leave?)
    ensures OpenAreRegistered(Next(s, step))
  {
  }

  lemma {:induction false} RunKeepsOpenRegistered(s: System, steps: seq<Step>)
    requires OpenAreRegistered(s) && IsRun(s, steps)
    ensures OpenAreRegistered(After(s, steps))
    decreases |steps|
  {
    hide OpenAreRegistered, Next, Enabled, Timely;
    if steps != [] {
      StepKeepsOpenRegistered(s, steps[0]);
      RunKeepsOpenRegistered(Next(s, steps[0]), steps[1..]);
    }
  }

  /** In every run no two open sessions have the same name: a login closes the session that had it, and a
      leaving node closes its own session and whatever has taken its name. */
  lemma OneOpenSessionPerName(steps: seq<Step>, a: nat, b: nat)
    requires IsRun(START, steps)
    requires a in After(START, steps).sessions && b in After(START, steps).sessions
    ensures var s := After(START, steps);
            && (s.sessions[a].open && s.sessions[b].open && s.sessions[a].name == s.sessions[b].name ==> a == b)
            && (s.sessions[a].open ==>
                  s.sessions[a].name in s.registry && s.registry[s.sessions[a].name] == a)
  {
    hide IsRun, After;
    RunKeepsOpenRegistered(START, steps);
  }

  /** In every run, when a node leaves, its name becomes free: nobody is registered under it, no open
      session has it, and the sessions of other names are as they were. */
  lemma LeavingFreesTheName(steps: seq<Step>, sid: nat)
    requires IsRun(START, steps) && sid in After(START, steps).sessions
    ensures var s := After(START, steps);
            var (more, name) := (steps + [Leave(sid)], s.sessions[sid].name);
            && IsRun(START, more) && name !in After(START, more).registry
            && var sessions := After(START, more).sessions;
               && sessions.Keys == s.sessions.Keys
               && forall other <- sessions ::
                    && (sessions[other].open ==> sessions[other].name != name)
                    && (s.sessions[other].name != name ==> sessions[other] == s.sessions[other])
  {
    hide IsRun, After, Matching, Logged;
    StartInv();
    RunKeepsInv(START, steps);
    OneMore(START, steps, Leave(sid));
    RunKeepsOpenRegistered(START, steps + [Leave(sid)]);
    var s := After(START, steps);
    LeaveTouches(s, sid);
  }

  lemma LeaveTouches(s: System, sid: nat)
    requires Linked(s) && Enabled(s, Leave(sid))
    ensures var (s', name) := (AfterLeave(s, sid), s.sessions[sid].name);
            && s'.sessions.Keys == s.sessions.Keys && name !in s'.registry
            && forall other <- s.sessions ::
                 && s'.sessions[other].name == s.sessions[other].name
                 && (s.sessions[other].name != name ==> s'.sessions[other] == s.sessions[other])
  {
    hide Known;
  }
}
