/**
 A handler that waits for an answer can get it: nothing that goes on in the hub besides loses its
 request, its waiter or the reply, as long as ids do not repeat. `HubWrapAround` shows what happens
 when they do.
 */
module HubDelivery {
  import opened NatPlan
  import opened Hub
  import opened HubCompletion

  // ----- What the hub keeps -----

  /** A handler whose request is written has it on record. */
  ghost predicate OnRecord(s: System) {
    forall h <- s.handlers | s.handlers[h].stage.Written? || s.handlers[h].stage.Waiting? ::
      s.handlers[h].stage.ticket in s.asked && s.asked[s.handlers[h].stage.ticket] == s.handlers[h].stage.remote
  }

  /** The request is on its way to the node. */
  predicate Travels(down: seq<Down>, t: nat) {
    exists i | 0 <= i < |down| :: down[i] == DetectRequest(IdOf(t), t)
  }

  /** A request without an answer is on its way to the node or at the node. */
  ghost predicate NotLost(s: System) {
    forall t <- s.asked | t !in s.reported ::
      s.asked[t] in s.sessions && (t in s.sessions[s.asked[t]].pending || Travels(s.sessions[s.asked[t]].down, t))
  }

  /** As long as no id has been given twice, a waiting handler has its entry. */
  ghost predicate Listed(s: System) {
    forall h <- s.handlers | s.handlers[h].stage.Waiting? && s.issued < ID_SPACE ::
      && s.handlers[h].stage.remote in s.sessions
      && var (t, replyer) := (s.handlers[h].stage.ticket, s.sessions[s.handlers[h].stage.remote].replyer);
         IdOf(t) in replyer && replyer[IdOf(t)] == h
  }

  ghost predicate Kept(s: System) {
    OnRecord(s) && NotLost(s) && Listed(s)
  }

  lemma SameIdSameHandler(s: System, h: nat, g: nat)
    requires Inv(s) && s.issued < ID_SPACE && h in s.handlers && g in s.handlers
    requires HasTicket(s.handlers[h].stage) && HasTicket(s.handlers[g].stage)
    requires IdOf(s.handlers[h].stage.ticket) == IdOf(s.handlers[g].stage.ticket)
    ensures h == g
  {
    hide IdOf, Logged, WaitersOk, RequestsOk, RepliesOk, HandlerOk, Linked;
    SameIdSameDraw(s.handlers[h].stage.ticket, s.handlers[g].stage.ticket);
    assert TicketsOk(s.handlers, s.issued, s.asked);
  }

  // ----- Steps of sessions -----

  lemma LoginKeepsKept(s: System, sid: nat, name: string)
    requires Kept(s) && Enabled(s, Login(sid, name))
    ensures Kept(AfterLogin(s, sid, name))
  {
    hide IdOf, ClosedIn, Travels;
    ClosedKeeps(s.sessions, s.registry, name);
  }

  lemma LeaveKeepsKept(s: System, sid: nat)
    requires Kept(s) && Enabled(s, Leave(sid))
    ensures Kept(AfterLeave(s, sid))
  {
    hide IdOf, ClosedIn, Travels;
    ClosedKeeps(s.sessions, s.registry, s.sessions[sid].name);
  }

  lemma RequestStepsKeepKept(s: System, step: Step)
    requires Kept(s) && Enabled(s, step) && (step.AskPunch? || step.Dispatch?)
    ensures Kept(Next(s, step))
  {
    hide IdOf, Travels;
  }

  lemma TravelsOn(down: seq<Down>, t: nat)
    requires down != [] && Travels(down, t)
    ensures down[0] == DetectRequest(IdOf(t), t) || Travels(down[1..], t)
  {
    hide IdOf;
    var i :| 0 <= i < |down| && down[i] == DetectRequest(IdOf(t), t);
    assert i > 0 ==> down[1..][i - 1] == down[i];
  }

  lemma TravelsBefore(down: seq<Down>, d: Down, t: nat)
    ensures Travels(down, t) ==> Travels(down + [d], t)
    ensures d == DetectRequest(IdOf(t), t) ==> Travels(down + [d], t)
  {
    hide IdOf;
    if Travels(down, t) {
      var i :| 0 <= i < |down| && down[i] == DetectRequest(IdOf(t), t);
      assert (down + [d])[i] == down[i];
    }
    assert (down + [d])[|down|] == d;
  }

  lemma NodeReceivesKeepsKept(s: System, sid: nat)
    requires Kept(s) && Enabled(s, NodeReceives(sid))
    ensures Kept(AfterNodeReceives(s, sid))
  {
    hide IdOf, Travels;
    forall t | Travels(s.sessions[sid].down, t)
      ensures s.sessions[sid].down[0] == DetectRequest(IdOf(t), t) || Travels(s.sessions[sid].down[1..], t)
    {
      TravelsOn(s.sessions[sid].down, t);
    }
  }

  lemma NodeRepliesKeepsKept(s: System, sid: nat, ticket: nat, mapping: DetectResult, ip: string)
    requires Kept(s) && Enabled(s, NodeReplies(sid, ticket, mapping, ip))
    ensures Kept(AfterNodeReplies(s, sid, ticket, mapping, ip))
  {
    hide IdOf, Travels;
  }

  lemma DeliverKeepsKept(s: System, sid: nat)
    requires Inv(s) && Kept(s) && Enabled(s, Deliver(sid))
    ensures Kept(AfterDeliver(s, sid))
  {
    hide IdOf, Travels, Matching, Logged, Linked;
    var s' := AfterDeliver(s, sid);
    if Hits(s, sid) {
      var h := s.sessions[sid].replyer[s.sessions[sid].replies[0].id];
      WaiterIsRight(s, sid, s.sessions[sid].replies[0].id);
      forall g <- s'.handlers | s'.handlers[g].stage.Waiting? && s'.issued < ID_SPACE
        ensures IdOf(s.handlers[g].stage.ticket) != s.sessions[sid].replies[0].id
      {
        if IdOf(s.handlers[g].stage.ticket) == s.sessions[sid].replies[0].id {
          SameIdSameHandler(s, h, g);
        }
      }
    }
  }

  lemma WaiterIsRight(s: System, sid: nat, id: nat)
    requires Inv(s) && sid in s.sessions && id in s.sessions[sid].replyer
    ensures var h := s.sessions[sid].replyer[id];
            && h in s.handlers && s.handlers[h].stage.Waiting?
            && s.handlers[h].stage.remote == sid && IdOf(s.handlers[h].stage.ticket) == id
  {
    hide IdOf, Logged, TicketsOk, RequestsOk, RepliesOk, HandlerOk, Linked;
    assert WaitersOk(sid, s.sessions[sid].replyer, s.handlers);
  }

  // ----- Steps of handlers -----

  lemma QuietStepsKeepKept(s: System, step: Step)
    requires Kept(s) && Enabled(s, step) && (step.Lookup? || step.Draw?)
    ensures Kept(Next(s, step))
  {
    hide IdOf, Travels;
  }

  lemma DrawnIsNew(s: System, h: nat)
    requires Inv(s) && h in s.handlers && s.handlers[h].stage.Drawn?
    ensures s.handlers[h].stage.ticket !in s.asked
  {
    hide IdOf, Logged, WaitersOk, RequestsOk, RepliesOk, HandlerOk, Linked;
    assert TicketsOk(s.handlers, s.issued, s.asked);
  }

  lemma WriteKeepsKept(s: System, h: nat)
    requires Inv(s) && Kept(s) && Enabled(s, Write(h))
    ensures Kept(AfterWrite(s, h))
  {
    hide IdOf, Travels, Matching, Logged, Linked;
    DrawnIsNew(s, h);
    var Drawn(remote, ticket) := s.handlers[h].stage;
    forall t: nat
      ensures Travels(s.sessions[remote].down, t) ==>
                Travels(s.sessions[remote].down + [DetectRequest(IdOf(ticket), ticket)], t)
    {
      TravelsBefore(s.sessions[remote].down, DetectRequest(IdOf(ticket), ticket), t);
    }
    TravelsBefore(s.sessions[remote].down, DetectRequest(IdOf(ticket), ticket), ticket);
  }

  lemma RegisterKeepsKept(s: System, h: nat)
    requires Inv(s) && Kept(s) && Enabled(s, Register(h))
    ensures Kept(AfterRegister(s, h))
  {
    hide IdOf, Travels, Matching, Logged, Linked;
    var Written(remote, ticket) := s.handlers[h].stage;
    forall g <- s.handlers | s.handlers[g].stage.Waiting? && s.issued < ID_SPACE
      ensures IdOf(s.handlers[g].stage.ticket) != IdOf(ticket)
    {
      if IdOf(s.handlers[g].stage.ticket) == IdOf(ticket) {
        SameIdSameHandler(s, h, g);
      }
    }
  }

  lemma TimeOutKeepsKept(s: System, h: nat)
    requires Inv(s) && Kept(s) && Enabled(s, TimeOut(h))
    ensures Kept(AfterTimeOut(s, h))
  {
    hide IdOf, Travels, Matching, Logged, Linked;
    var Waiting(remote, ticket) := s.handlers[h].stage;
    forall g <- s.handlers | g != h && s.handlers[g].stage.Waiting? && s.issued < ID_SPACE
      ensures IdOf(s.handlers[g].stage.ticket) != IdOf(ticket)
    {
      if IdOf(s.handlers[g].stage.ticket) == IdOf(ticket) {
        SameIdSameHandler(s, h, g);
      }
    }
  }

  lemma PostKeepsDown(s: System, to: nat, response: PunchResponse)
    requires to in s.sessions
    ensures var sessions := Post(s, to, response);
            && sessions.Keys == s.sessions.Keys
            && forall sid <- sessions ::
                 && sessions[sid].pending == s.sessions[sid].pending && sessions[sid].replyer == s.sessions[sid].replyer
                 && forall t: nat :: Travels(s.sessions[sid].down, t) ==> Travels(sessions[sid].down, t)
  {
    hide IdOf, Travels;
    forall t: nat
      ensures Travels(s.sessions[to].down, t) ==> Travels(Post(s, to, response)[to].down, t)
    {
      TravelsBefore(s.sessions[to].down, Punch(IdOf(s.issued + 1), response), t);
    }
  }

  lemma SendFirstKeepsKept(s: System, h: nat)
    requires Kept(s) && Enabled(s, SendFirst(h))
    ensures Kept(AfterSendFirst(s, h))
  {
    hide IdOf, Travels, Post, Responses;
    var handler := s.handlers[h];
    var response := Responses(handler, handler.stage.reply, LocalName(s, h), RemoteName(s, h)).0;
    PostKeepsDown(s, handler.session, response);
  }

  lemma SendSecondKeepsKept(s: System, h: nat)
    requires Kept(s) && Enabled(s, SendSecond(h))
    ensures Kept(AfterSendSecond(s, h))
  {
    hide IdOf, Travels, Post, Responses;
    var handler := s.handlers[h];
    var response := Responses(handler, handler.stage.reply, LocalName(s, h), RemoteName(s, h)).1;
    PostKeepsDown(s, handler.stage.remote, response);
  }

  lemma StepKeepsKept(s: System, step: Step)
    requires Inv(s) && Kept(s) && Enabled(s, step)
    ensures Kept(Next(s, step))
  {
    hide Inv, Kept, AfterLogin, AfterLeave, AfterWrite, AfterRegister, AfterNodeReceives, AfterNodeReplies,
         AfterDeliver, AfterTimeOut, AfterSendFirst, AfterSendSecond;
    match step
    case Login(sid, name) => LoginKeepsKept(s, sid, name);
    case Leave(sid) => LeaveKeepsKept(s, sid);
    case NodeReceives(sid) => NodeReceivesKeepsKept(s, sid);
    case NodeReplies(sid, ticket, mapping, ip) => NodeRepliesKeepsKept(s, sid, ticket, mapping, ip);
    case Deliver(sid) => DeliverKeepsKept(s, sid);
    case Write(h) => WriteKeepsKept(s, h);
    case Register(h) => RegisterKeepsKept(s, h);
    case TimeOut(h) => TimeOutKeepsKept(s, h);
    case SendFirst(h) => SendFirstKeepsKept(s, h);
    case SendSecond(h) => SendSecondKeepsKept(s, h);
    case Lookup(_) => QuietStepsKeepKept(s, step);
    case Draw(_) => QuietStepsKeepKept(s, step);
    case AskPunch(_, _) => RequestStepsKeepKept(s, step);
    case Dispatch(_, _) => RequestStepsKeepKept(s, step);
  }

  /** In every run: no unanswered request is lost, and until an id is given twice every waiting handler has
      its entry in the table of its session. */
  lemma {:induction false} RunKeepsKept(s: System, steps: seq<Step>)
    requires Inv(s) && Kept(s) && IsRun(s, steps)
    ensures Inv(After(s, steps)) && Kept(After(s, steps))
    decreases |steps|
  {
    hide Inv, Kept, Next, Enabled, Timely;
    if steps != [] {
      StepKeepsInv(s, steps[0]);
      StepKeepsKept(s, steps[0]);
      RunKeepsKept(Next(s, steps[0]), steps[1..]);
    }
  }

  // ----- A waiting handler can complete -----

  /** After a run, `h` waits on session `b` for the answer to its ticket, and no id has been given twice. */
  ghost predicate Waits(steps: seq<Step>, h: nat, b: nat, t: nat) {
    && IsRun(START, steps)
    && var s := After(START, steps);
       && s.issued < ID_SPACE && b in s.sessions && h in s.handlers && s.handlers[h].stage == Waiting(b, t)
  }

  lemma RunFacts(steps: seq<Step>)
    requires IsRun(START, steps)
    ensures Inv(After(START, steps)) && Kept(After(START, steps))
  {
    hide Inv, Next, Enabled, Timely, IsRun, After;
    StartInv();
    RunKeepsKept(START, steps);
  }

  /** The node of the remote session receives its messages until it has the request. */
  lemma {:induction false} RequestArrives(steps: seq<Step>, h: nat, b: nat, t: nat) returns (more: seq<Step>)
    requires Waits(steps, h, b, t) && t !in After(START, steps).reported
    ensures Waits(steps + more, h, b, t) && t !in After(START, steps + more).reported
    ensures t in After(START, steps + more).sessions[b].pending
    ensures After(START, steps + more).handlers == After(START, steps).handlers
    decreases |After(START, steps).sessions[b].down|
  {
    hide Inv, IsRun, After, IdOf, Travels;
    var s := After(START, steps);
    RunFacts(steps);
    if t in s.sessions[b].pending {
      more := [];
      assert steps + [] == steps;
    } else {
      TravelsSomewhere(s.sessions[b].down, t);
      OneMore(START, steps, NodeReceives(b));
      var rest := RequestArrives(steps + [NodeReceives(b)], h, b, t);
      more := [NodeReceives(b)] + rest;
      assert steps + more == steps + [NodeReceives(b)] + rest;
    }
  }

  lemma TravelsSomewhere(down: seq<Down>, t: nat)
    ensures Travels(down, t) ==> down != []
  {
  }

  /** The reply to the handler's own request is the last on its way to the hub. */
  ghost predicate ReplyLast(steps: seq<Step>, h: nat, b: nat, t: nat, r: Reply) {
    && Waits(steps, h, b, t) && r.ticket == t && r.id == IdOf(t)
    && var replies := After(START, steps).sessions[b].replies;
       replies != [] && replies[|replies| - 1] == r && forall i | 0 <= i < |replies| - 1 :: replies[i].ticket != t
  }

  /** The replies in front of it go to others or nowhere, and it comes to the handler. */
  lemma {:induction false} ReplyArrives(steps: seq<Step>, h: nat, b: nat, t: nat, r: Reply) returns (more: seq<Step>)
    requires ReplyLast(steps, h, b, t, r)
    ensures IsRun(START, steps + more)
    ensures var s := After(START, steps + more);
            h in s.handlers && s.handlers[h] == After(START, steps).handlers[h].(stage := Replied(b, t, r))
    decreases |After(START, steps).sessions[b].replies|
  {
    hide Inv, IsRun, After, IdOf, Travels;
    var s := After(START, steps);
    RunFacts(steps);
    DeliverInTime(s, b);
    OneMore(START, steps, Deliver(b));
    if |s.sessions[b].replies| == 1 {
      more := [Deliver(b)];
      ListedHits(s, h, b, t);
    } else {
      OthersReply(s, h, b, t);
      var rest := ReplyArrives(steps + [Deliver(b)], h, b, t, r);
      more := [Deliver(b)] + rest;
      assert steps + more == steps + [Deliver(b)] + rest;
    }
  }

  /** Without a repeated id no reply is late. */
  lemma DeliverInTime(s: System, b: nat)
    requires s.issued < ID_SPACE && Enabled(s, Deliver(b))
    ensures Timely(s, Deliver(b))
  {
    hide IdOf;
  }

  lemma ListedHits(s: System, h: nat, b: nat, t: nat)
    requires Kept(s) && s.issued < ID_SPACE && b in s.sessions
    requires h in s.handlers && s.handlers[h].stage == Waiting(b, t)
    requires s.sessions[b].replies != [] && s.sessions[b].replies[0].id == IdOf(t)
    ensures Hits(s, b) && s.sessions[b].replyer[IdOf(t)] == h
  {
    hide IdOf, Travels, NotLost, OnRecord;
  }

  /** A reply to another request does not touch the handler. */
  lemma OthersReply(s: System, h: nat, b: nat, t: nat)
    requires Inv(s) && s.issued < ID_SPACE && b in s.sessions && h in s.handlers && s.handlers[h].stage == Waiting(b, t)
    requires s.sessions[b].replies != [] && s.sessions[b].replies[0].ticket != t
    ensures s.sessions[b].replies[0].id != IdOf(t)
    ensures AfterDeliver(s, b).handlers.Keys == s.handlers.Keys && AfterDeliver(s, b).handlers[h] == s.handlers[h]
    ensures AfterDeliver(s, b).sessions.Keys == s.sessions.Keys
    ensures AfterDeliver(s, b).sessions[b].replies == s.sessions[b].replies[1..]
    ensures AfterDeliver(s, b).issued == s.issued
  {
    hide IdOf, Inv;
    IdsDiffer(s, h, b, t);
    if Hits(s, b) {
      WaiterIsRight(s, b, s.sessions[b].replies[0].id);
    }
  }

  lemma IdsDiffer(s: System, h: nat, b: nat, t: nat)
    requires Inv(s) && s.issued < ID_SPACE && b in s.sessions && h in s.handlers && s.handlers[h].stage == Waiting(b, t)
    requires s.sessions[b].replies != [] && s.sessions[b].replies[0].ticket != t
    ensures s.sessions[b].replies[0].id != IdOf(t)
  {
    hide IdOf, Logged, WaitersOk, RequestsOk, HandlerOk, Linked;
    var r := s.sessions[b].replies[0];
    assert RepliesOk(b, s.sessions[b].replies, s.reported);
    assert r.ticket in s.asked;
    assert TicketsOk(s.handlers, s.issued, s.asked);
    if r.id == IdOf(t) {
      SameIdSameDraw(r.ticket, t);
    }
  }

  /** In every reachable state in which no id has been given twice, a handler that waits for an answer the
      node has not given yet can get it, whatever mapping the node reports, and complete: its request is not
      lost, its entry is there, and replies to others pass it by. */
  lemma WaitingCanComplete(steps: seq<Step>, h: nat, mapping: DetectResult, ip: string) returns (more: seq<Step>)
    requires IsRun(START, steps) && h in After(START, steps).handlers && After(START, steps).issued < ID_SPACE
    requires After(START, steps).handlers[h].stage.Waiting?
    requires After(START, steps).handlers[h].stage.ticket !in After(START, steps).reported
    ensures IsRun(START, steps + more)
    ensures var (handler, end) := (After(START, steps).handlers[h], After(START, steps + more));
            var Waiting(remote, ticket) := handler.stage;
            && h in end.handlers
            && end.handlers[h]
               == handler.(stage := Completed(remote, ticket, Reply(IdOf(ticket), ticket, mapping, ip)))
  {
    hide Inv, IsRun, After, IdOf, Responses, Kept;
    var s := After(START, steps);
    var Waiting(b, t) := s.handlers[h].stage;
    RunFacts(steps);
    HandlerIsKnown(s, h);
    var first := RequestArrives(steps, h, b, t);
    var at := steps + first;
    RunFacts(at);
    var step := NodeReplies(b, t, mapping, ip);
    OneMore(START, at, step);
    NotYetReplied(After(START, at), b, t);
    var r := Reply(IdOf(t), t, mapping, ip);
    var second := ReplyArrives(at + [step], h, b, t, r);
    var told := at + [step] + second;
    RepliedCanComplete(told, h);
    more := first + [step] + second + [SendFirst(h)] + [SendSecond(h)];
    assert steps + more == told + [SendFirst(h)] + [SendSecond(h)];
  }

  lemma NotYetReplied(s: System, b: nat, t: nat)
    requires Inv(s) && b in s.sessions && t !in s.reported
    ensures forall i | 0 <= i < |s.sessions[b].replies| :: s.sessions[b].replies[i].ticket != t
  {
    hide IdOf, Logged, WaitersOk, RequestsOk, HandlerOk, TicketsOk, Linked;
    assert RepliesOk(b, s.sessions[b].replies, s.reported);
  }
}
