/**
 What the bound on draws in the hub's theorems is for: a run of the hub in which 2^32 ids are drawn
 between a request and the delivery of its late reply, and a handler is given the answer to another
 handler's request.
 */
module HubWrapAround {
  import opened Hub
  import opened NatPlan

  /** A run of the hub with no bound on lateness. */
  ghost predicate Feasible(s: System, steps: seq<Step>)
    decreases |steps|
  {
    steps == [] || (Enabled(s, steps[0]) && Feasible(Next(s, steps[0]), steps[1..]))
  }

  ghost function Played(s: System, steps: seq<Step>): System
    requires Feasible(s, steps)
    decreases |steps|
  {
    if steps == [] then s else Played(Next(s, steps[0]), steps[1..])
  }

  ghost predicate Reachable(s: System) {
    exists steps :: Feasible(START, steps) && Played(START, steps) == s
  }

  lemma {:induction false} OneStepMore(s: System, steps: seq<Step>, step: Step)
    requires Feasible(s, steps) && Enabled(Played(s, steps), step)
    ensures Feasible(s, steps + [step]) && Played(s, steps + [step]) == Next(Played(s, steps), step)
    decreases |steps|
  {
    hide Next, Enabled;
    if steps == [] {
      assert [] + [step] == [step] && [step][1..] == [];
    } else {
      assert (steps + [step])[1..] == steps[1..] + [step];
      OneStepMore(Next(s, steps[0]), steps[1..], step);
    }
  }

  lemma StartReachable()
    ensures Reachable(START)
  {
    assert Feasible(START, []) && Played(START, []) == START;
  }

  lemma ReachNext(s: System, step: Step)
    requires Reachable(s) && Enabled(s, step)
    ensures Reachable(Next(s, step))
  {
    hide Next, Enabled, Feasible, Played;
    var steps :| Feasible(START, steps) && Played(START, steps) == s;
    OneStepMore(START, steps, step);
  }

  const A: nat := 0
  const B: nat := 1

  /** Two nodes are logged in, and two handlers of the first are to punch with the second. */
  ghost predicate TwoHandlers(s: System) {
    && s.issued == 2 && s.sessions.Keys == {A, B} && s.registry == map["a" := A, "b" := B]
    && s.sessions[B] == Session("b", true, [], {}, [], [], map[], [], [])
    && s.asked == map[] && s.reported == map[]
    && s.handlers.Keys == {0, 1}
    && s.handlers[0].session == A && s.handlers[0].stage == Found(B)
    && s.handlers[1].session == A && s.handlers[1].stage == Begin && s.handlers[1].req.peerName == "b"
  }

  /** The first has given up, but the reply to its request, with the third id, is on its way. */
  ghost predicate LateReply(s: System, n: nat, m: DetectResult) {
    && s.issued == n && A in s.sessions && B in s.sessions
    && s.sessions[B].open && s.sessions[B].replies == [Reply(3, 3, m, "ip")]
    && 1 in s.handlers && s.handlers[1].session == A && s.handlers[1].stage == Found(B)
    && (forall sid <- s.sessions :: sid < n)
    && ("c" in s.registry ==> s.registry["c"] != A && s.registry["c"] != B)
  }

  lemma FirstPart(m: DetectResult) returns (s: System)
    ensures Reachable(s) && TwoHandlers(s)
  {
    hide Reachable, IdOf;
    var req := PunchRequest("b", "ip", m);
    StartReachable();
    s := START;
    ReachNext(s, Login(A, "a"));
    s := AfterLogin(s, A, "a");
    ReachNext(s, Login(B, "b"));
    s := AfterLogin(s, B, "b");
    assert s.sessions[B] == Session("b", true, [], {}, [], [], map[], [], []);
    ReachNext(s, AskPunch(A, req));
    s := AfterAskPunch(s, A, req);
    ReachNext(s, AskPunch(A, req));
    s := AfterAskPunch(s, A, req);
    assert s.sessions[A].up == [req, req];
    ReachNext(s, Dispatch(A, 0));
    s := AfterDispatch(s, A, 0);
    assert s.sessions[A].up == [req];
    ReachNext(s, Dispatch(A, 1));
    s := AfterDispatch(s, A, 1);
    ReachNext(s, Lookup(0));
    s := AfterLookup(s, 0);
  }

  /** The first handler waits for the answer to the request it has written under the third id. */
  ghost predicate Asked(s: System) {
    && s.issued == 3 && s.sessions.Keys == {A, B} && s.registry == map["a" := A, "b" := B]
    && s.sessions[B] == Session("b", true, [DetectRequest(3, 3)], {}, [], [], map[3 := 0], [], [])
    && s.handlers.Keys == {0, 1}
    && s.handlers[0].session == A && s.handlers[0].stage == Waiting(B, 3)
    && s.handlers[1].session == A && s.handlers[1].stage == Begin && s.handlers[1].req.peerName == "b"
  }

  lemma SecondPart(s0: System) returns (s: System)
    requires Reachable(s0) && TwoHandlers(s0)
    ensures Reachable(s) && Asked(s)
  {
    hide Reachable;
    s := s0;
    ReachNext(s, Draw(0));
    s := AfterDraw(s, 0);
    ReachNext(s, Write(0));
    s := AfterWrite(s, 0);
    ReachNext(s, Register(0));
    s := AfterRegister(s, 0);
    assert s.sessions[B].down == [DetectRequest(3, 3)] && s.sessions[B].replyer == map[3 := 0];
  }

  /** The answer is on its way back. */
  ghost predicate Answered(s: System, m: DetectResult) {
    && s.issued == 3 && s.sessions.Keys == {A, B} && s.registry == map["a" := A, "b" := B]
    && s.sessions[B].open && s.sessions[B].name == "b" && s.sessions[B].replies == [Reply(3, 3, m, "ip")]
    && s.handlers.Keys == {0, 1}
    && s.handlers[0].session == A && s.handlers[0].stage == Waiting(B, 3)
    && s.handlers[1].session == A && s.handlers[1].stage == Begin && s.handlers[1].req.peerName == "b"
  }

  lemma ThirdPart(s0: System, m: DetectResult) returns (s: System)
    requires Reachable(s0) && Asked(s0)
    ensures Reachable(s) && Answered(s, m)
  {
    hide Reachable;
    s := s0;
    ReachNext(s, NodeReceives(B));
    s := AfterNodeReceives(s, B);
    assert s.sessions[B].pending == {3};
    ReachNext(s, NodeReplies(B, 3, m, "ip"));
    s := AfterNodeReplies(s, B, 3, m, "ip");
  }

  lemma FourthPart(s0: System, m: DetectResult) returns (s: System)
    requires Reachable(s0) && Answered(s0, m)
    ensures Reachable(s) && LateReply(s, 3, m)
  {
    hide Reachable;
    s := s0;
    ReachNext(s, TimeOut(0));
    s := AfterTimeOut(s, 0);
    ReachNext(s, Lookup(1));
    s := AfterLookup(s, 1);
  }

  /** Other nodes log in, each drawing an id. */
  lemma {:induction false} ManyLogins(s0: System, n: nat, more: nat, m: DetectResult) returns (s: System)
    requires Reachable(s0) && LateReply(s0, n, m) && n >= 3
    ensures Reachable(s) && LateReply(s, n + more, m)
    decreases more
  {
    hide Reachable, IdOf;
    s := s0;
    if more > 0 {
      ReachNext(s, Login(n, "c"));
      s := ManyLogins(AfterLogin(s, n, "c"), n + 1, more - 1, m);
    }
  }

  /** The second handler waits under the third id as well. */
  ghost predicate Crossed(s: System, m: DetectResult) {
    && A in s.sessions && B in s.sessions
    && s.sessions[B].replies == [Reply(3, 3, m, "ip")]
    && 3 in s.sessions[B].replyer && s.sessions[B].replyer[3] == 1
    && 1 in s.handlers && s.handlers[1].session == A && s.handlers[1].stage == Waiting(B, 3 + ID_SPACE)
  }

  lemma LastPart(s0: System, m: DetectResult) returns (s: System)
    requires Reachable(s0) && LateReply(s0, 2 + ID_SPACE, m)
    ensures Reachable(s) && Crossed(s, m)
  {
    hide Reachable;
    s := s0;
    ReachNext(s, Draw(1));
    s := AfterDraw(s, 1);
    ReachNext(s, Write(1));
    s := AfterWrite(s, 1);
    ReachNext(s, Register(1));
    s := AfterRegister(s, 1);
  }

  /** A reachable state of the hub in which a handler holds the reply to another handler's request:
      the reply is 2^32 draws late and carries the id of the handler's own request. */
  lemma LateReplyReachesWrongHandler(m: DetectResult) returns (s: System, h: nat)
    ensures Reachable(s) && h in s.handlers && s.handlers[h].stage.Replied?
    ensures var stage := s.handlers[h].stage;
            && stage.reply.id == IdOf(stage.ticket)
            && stage.ticket == stage.reply.ticket + ID_SPACE
  {
    hide Reachable, TwoHandlers, Asked, Answered, LateReply;
    s := FirstPart(m);
    s := SecondPart(s);
    s := ThirdPart(s, m);
    s := FourthPart(s, m);
    s := ManyLogins(s, 3, ID_SPACE - 1, m);
    s := LastPart(s, m);
    h := 1;
    ReachNext(s, Deliver(B));
    s := AfterDeliver(s, B);
  }
}
