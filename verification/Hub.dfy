/**
 The punch protocol of pkg/hub over the message layer of pkg/proto. Any number of nodes are logged in
 at the hub, and for every punch request a handler runs on its own: it asks the other node for its
 NAT mapping, waits for the reply under a request id, and sends both nodes their plans. The handlers
 share one 32-bit id counter and interleave in atomic steps: drawing an id, writing, registering
 the waiter, timing out, receiving. Sessions come and go at any time.
 */
module Hub {
  import opened NatPlan

  /** Number of different request ids. */
  const ID_SPACE := 0x1_0000_0000

  /** The id drawn as the `n`-th; the counter wraps around. */
  function IdOf(n: nat): (id: nat)
    ensures id < ID_SPACE
  {
    n % ID_SPACE
  }

  datatype PunchRequest = PunchRequest(peerName: string, localIp: string, mapping: DetectResult)

  datatype PunchResponse = PunchResponse(localIp: string, remoteIp: string, localNat: Plan, remoteNat: Plan,
                                         remotePeerName: string)

  /** What a node answers to a request for its mapping. The ticket, the number of the draw that gave
      the id, is not on the wire; it tells requests with the same id apart. */
  datatype Reply = Reply(id: nat, ticket: nat, mapping: DetectResult, ip: string)

  datatype Down = DetectRequest(id: nat, ticket: nat) | Punch(id: nat, response: PunchResponse)

  /** A session: the messages on their way to the node, the requests the node is working on, the
      punch requests and replies on their way to the hub, the table of waiters by id, and, as
      history, the punch responses the node has got and the punch requests it has ever made. */
  datatype Session = Session(name: string, open: bool, down: seq<Down>, pending: set<nat>,
                             up: seq<PunchRequest>, replies: seq<Reply>, replyer: map<nat, nat>,
                             got: seq<PunchResponse>, asks: seq<PunchRequest>)

  /** Where a `handlePunch` is: before its lookup, with the remote session, with an id, with the
      request written, registered, with the reply, with one response sent, with both, or stopped. */
  datatype Stage = Begin | Found(remote: nat) | Drawn(remote: nat, ticket: nat)
                 | Written(remote: nat, ticket: nat) | Waiting(remote: nat, ticket: nat)
                 | Replied(remote: nat, ticket: nat, reply: Reply)
                 | HalfSent(remote: nat, ticket: nat, reply: Reply)
                 | Completed(remote: nat, ticket: nat, reply: Reply)
                 | GaveUp

  /** The `nth` request of its session is only recorded. */
  datatype Handler = Handler(session: nat, req: PunchRequest, nth: int, stage: Stage)

  /** One `SendSuccess` of a punch response, whether or not the session still took it. */
  datatype Posted = Posted(handler: nat, to: nat, response: PunchResponse)

  datatype Report = Report(session: nat, mapping: DetectResult, ip: string)

  /** The hub and its nodes. The last three fields are history: the responses sent, the session
      each ticket was written to, and what its node answered. */
  datatype System = System(issued: nat, sessions: map<nat, Session>, registry: map<string, nat>,
                           handlers: map<nat, Handler>, log: seq<Posted>,
                           asked: map<nat, nat>, reported: map<nat, Report>)

  datatype Step =
    | Login(sid: nat, name: string)
    | Leave(sid: nat)
    | AskPunch(sid: nat, req: PunchRequest)
    | Dispatch(sid: nat, h: nat)
    | Lookup(h: nat)
    | Draw(h: nat)
    | Write(h: nat)
    | Register(h: nat)
    | NodeReceives(sid: nat)
    | NodeReplies(sid: nat, ticket: nat, mapping: DetectResult, ip: string)
    | Deliver(sid: nat)
    | TimeOut(h: nat)
    | SendFirst(h: nat)
    | SendSecond(h: nat)

  predicate Known(s: System, h: nat) {
    && h in s.handlers && s.handlers[h].session in s.sessions
    && var stage := s.handlers[h].stage;
       stage.Begin? || stage.GaveUp? || stage.remote in s.sessions
  }

  predicate Enabled(s: System, step: Step) {
    match step
    case Login(sid, _) => sid !in s.sessions
    case Leave(sid) => sid in s.sessions
    case AskPunch(sid, _) => sid in s.sessions && s.sessions[sid].open
    case Dispatch(sid, h) => sid in s.sessions && s.sessions[sid].up != [] && h !in s.handlers
    case Lookup(h) => Known(s, h) && s.handlers[h].stage.Begin?
    case Draw(h) => Known(s, h) && s.handlers[h].stage.Found?
    case Write(h) => Known(s, h) && s.handlers[h].stage.Drawn?
    case Register(h) => Known(s, h) && s.handlers[h].stage.Written?
    case NodeReceives(sid) => sid in s.sessions && s.sessions[sid].down != []
    case NodeReplies(sid, ticket, _, _) => sid in s.sessions && ticket in s.sessions[sid].pending
    case Deliver(sid) => sid in s.sessions && s.sessions[sid].replies != []
    case TimeOut(h) => Known(s, h) && s.handlers[h].stage.Waiting?
    case SendFirst(h) => Known(s, h) && s.handlers[h].stage.Replied?
    case SendSecond(h) => Known(s, h) && s.handlers[h].stage.HalfSent?
  }

  function At(s: System, h: nat, stage: Stage): map<nat, Handler>
    requires h in s.handlers
  {
    s.handlers[h := s.handlers[h].(stage := stage)]
  }

  function ClosedIn(sessions: map<nat, Session>, registry: map<string, nat>, name: string): map<nat, Session> {
    if name in registry && registry[name] in sessions
    then sessions[registry[name] := sessions[registry[name]].(open := false)]
    else sessions
  }

  /** The two responses a handler computes from its request and the reply. */
  function Responses(h: Handler, reply: Reply, localName: string, remoteName: string)
    : (PunchResponse, PunchResponse)
  {
    var (l, r) := PlanFor(h.req.mapping, reply.mapping);
    (PunchResponse(h.req.localIp, reply.ip, l, r, remoteName),
     PunchResponse(reply.ip, h.req.localIp, r, l, localName))
  }

  /** Sends a response to a session under a new id; a closed session swallows it. */
  function Post(s: System, to: nat, response: PunchResponse): map<nat, Session>
    requires to in s.sessions
  {
    var t := s.sessions[to];
    if t.open then s.sessions[to := t.(down := t.down + [Punch(IdOf(s.issued + 1), response)])] else s.sessions
  }

  /** The next reply finds a waiter under its id. */
  predicate Hits(s: System, sid: nat)
    requires sid in s.sessions && s.sessions[sid].replies != []
  {
    var (id, replyer) := (s.sessions[sid].replies[0].id, s.sessions[sid].replyer);
    id in replyer && replyer[id] in s.handlers && s.handlers[replyer[id]].stage.Waiting?
  }

  function AfterLogin(s: System, sid: nat, name: string): System
    requires Enabled(s, Login(sid, name))
  {
    // The login response draws an id; a session of the same name is closed and replaced.
    s.(issued := s.issued + 1,
       sessions := ClosedIn(s.sessions, s.registry, name)[sid := Session(name, true, [], {}, [], [], map[], [], [])],
       registry := s.registry[name := sid])
  }

  function AfterLeave(s: System, sid: nat): System
    requires Enabled(s, Leave(sid))
  {
    var name := s.sessions[sid].name;
    var sessions := ClosedIn(s.sessions, s.registry, name);
    s.(sessions := sessions[sid := sessions[sid].(open := false)], registry := s.registry - {name})
  }

  function AfterAskPunch(s: System, sid: nat, req: PunchRequest): System
    requires Enabled(s, AskPunch(sid, req))
  {
    var t := s.sessions[sid];
    s.(sessions := s.sessions[sid := t.(up := t.up + [req], asks := t.asks + [req])])
  }

  function AfterDispatch(s: System, sid: nat, h: nat): System
    requires Enabled(s, Dispatch(sid, h))
  {
    var t := s.sessions[sid];
    s.(sessions := s.sessions[sid := t.(up := t.up[1..])],
       handlers := s.handlers[h := Handler(sid, t.up[0], |t.asks| - |t.up|, Begin)])
  }

  function AfterLookup(s: System, h: nat): System
    requires Enabled(s, Lookup(h))
  {
    var name := s.handlers[h].req.peerName;
    s.(handlers := At(s, h, if name in s.registry && s.registry[name] in s.sessions
                            then Found(s.registry[name]) else GaveUp))
  }

  function AfterDraw(s: System, h: nat): System
    requires Enabled(s, Draw(h))
  {
    s.(issued := s.issued + 1, handlers := At(s, h, Drawn(s.handlers[h].stage.remote, s.issued + 1)))
  }

  function AfterWrite(s: System, h: nat): System
    requires Enabled(s, Write(h))
  {
    var Drawn(remote, ticket) := s.handlers[h].stage;
    var t := s.sessions[remote];
    if !t.open then s.(handlers := At(s, h, GaveUp))
    else s.(sessions := s.sessions[remote := t.(down := t.down + [DetectRequest(IdOf(ticket), ticket)])],
            handlers := At(s, h, Written(remote, ticket)), asked := s.asked[ticket := remote])
  }

  function AfterRegister(s: System, h: nat): System
    requires Enabled(s, Register(h))
  {
    var Written(remote, ticket) := s.handlers[h].stage;
    var t := s.sessions[remote];
    s.(sessions := s.sessions[remote := t.(replyer := t.replyer[IdOf(ticket) := h])],
       handlers := At(s, h, Waiting(remote, ticket)))
  }

  function AfterNodeReceives(s: System, sid: nat): System
    requires Enabled(s, NodeReceives(sid))
  {
    var t := s.sessions[sid];
    var pending := if t.down[0].DetectRequest? then t.pending + {t.down[0].ticket} else t.pending;
    var got := if t.down[0].Punch? then t.got + [t.down[0].response] else t.got;
    s.(sessions := s.sessions[sid := t.(down := t.down[1..], pending := pending, got := got)])
  }

  function AfterNodeReplies(s: System, sid: nat, ticket: nat, mapping: DetectResult, ip: string): System
    requires Enabled(s, NodeReplies(sid, ticket, mapping, ip))
  {
    var t := s.sessions[sid];
    s.(sessions := s.sessions[sid := t.(pending := t.pending - {ticket},
                                        replies := t.replies + [Reply(IdOf(ticket), ticket, mapping, ip)])],
       reported := s.reported[ticket := Report(sid, mapping, ip)])
  }

  function AfterDeliver(s: System, sid: nat): System
    requires Enabled(s, Deliver(sid))
  {
    var t := s.sessions[sid];
    var r := t.replies[0];
    var rest := t.(replies := t.replies[1..]);
    if Hits(s, sid) then
      var h := t.replyer[r.id];
      var stage := s.handlers[h].stage;
      s.(sessions := s.sessions[sid := rest.(replyer := t.replyer - {r.id})],
         handlers := At(s, h, Replied(stage.remote, stage.ticket, r)))
    else s.(sessions := s.sessions[sid := rest])
  }

  function AfterTimeOut(s: System, h: nat): System
    requires Enabled(s, TimeOut(h))
  {
    var Waiting(remote, ticket) := s.handlers[h].stage;
    var t := s.sessions[remote];
    s.(sessions := s.sessions[remote := t.(replyer := t.replyer - {IdOf(ticket)})], handlers := At(s, h, GaveUp))
  }

  function AfterSendFirst(s: System, h: nat): System
    requires Enabled(s, SendFirst(h))
  {
    var Replied(remote, ticket, reply) := s.handlers[h].stage;
    var own := s.handlers[h].session;
    var response := Responses(s.handlers[h], reply, s.sessions[own].name, s.sessions[remote].name).0;
    s.(issued := s.issued + 1, sessions := Post(s, own, response),
       handlers := At(s, h, HalfSent(remote, ticket, reply)), log := s.log + [Posted(h, own, response)])
  }

  function AfterSendSecond(s: System, h: nat): System
    requires Enabled(s, SendSecond(h))
  {
    var HalfSent(remote, ticket, reply) := s.handlers[h].stage;
    var own := s.handlers[h].session;
    var response := Responses(s.handlers[h], reply, s.sessions[own].name, s.sessions[remote].name).1;
    s.(issued := s.issued + 1, sessions := Post(s, remote, response),
       handlers := At(s, h, Completed(remote, ticket, reply)), log := s.log + [Posted(h, remote, response)])
  }

  function Next(s: System, step: Step): System
    requires Enabled(s, step)
  {
    match step
    case Login(sid, name) => AfterLogin(s, sid, name)
    case Leave(sid) => AfterLeave(s, sid)
    case AskPunch(sid, req) => AfterAskPunch(s, sid, req)
    case Dispatch(sid, h) => AfterDispatch(s, sid, h)
    case Lookup(h) => AfterLookup(s, h)
    case Draw(h) => AfterDraw(s, h)
    case Write(h) => AfterWrite(s, h)
    case Register(h) => AfterRegister(s, h)
    case NodeReceives(sid) => AfterNodeReceives(s, sid)
    case NodeReplies(sid, ticket, mapping, ip) => AfterNodeReplies(s, sid, ticket, mapping, ip)
    case Deliver(sid) => AfterDeliver(s, sid)
    case TimeOut(h) => AfterTimeOut(s, h)
    case SendFirst(h) => AfterSendFirst(s, h)
    case SendSecond(h) => AfterSendSecond(s, h)
  }

  // ----- Invariants -----

  predicate HasTicket(stage: Stage) {
    !stage.Begin? && !stage.Found? && !stage.GaveUp?
  }

  predicate HasReply(stage: Stage) {
    stage.Replied? || stage.HalfSent? || stage.Completed?
  }

  /** Everything refers to something that exists. */
  ghost predicate Linked(s: System) {
    && (forall h <- s.handlers :: Known(s, h))
    && (forall n <- s.registry :: s.registry[n] in s.sessions && s.sessions[s.registry[n]].name == n)
  }

  /** Every handler has drawn a ticket of its own, and a ticket not yet written was never asked. */
  ghost predicate TicketsOk(handlers: map<nat, Handler>, issued: nat, asked: map<nat, nat>) {
    && (forall h <- handlers :: HasTicket(handlers[h].stage) ==> handlers[h].stage.ticket <= issued)
    && (forall h, g | h in handlers && g in handlers && h != g
                      && HasTicket(handlers[h].stage) && HasTicket(handlers[g].stage) ::
          handlers[h].stage.ticket != handlers[g].stage.ticket)
    && (forall h <- handlers :: handlers[h].stage.Drawn? ==> handlers[h].stage.ticket !in asked)
    && (forall t <- asked :: t <= issued)
  }

  /** A waiter entry belongs to a handler that waits on that session under that id. */
  ghost predicate WaitersOk(sid: nat, replyer: map<nat, nat>, handlers: map<nat, Handler>) {
    forall id <- replyer ::
      var h := replyer[id];
      && h in handlers && handlers[h].stage.Waiting?
      && handlers[h].stage.remote == sid && IdOf(handlers[h].stage.ticket) == id
  }

  ghost predicate Unanswered(sid: nat, ticket: nat, asked: map<nat, nat>, reported: map<nat, Report>) {
    ticket in asked && asked[ticket] == sid && ticket !in reported
  }

  /** Between its request and its answer a ticket is in one place, on the session it was written to. */
  ghost predicate RequestsOk(sid: nat, down: seq<Down>, pending: set<nat>,
                             asked: map<nat, nat>, reported: map<nat, Report>) {
    && (forall i | 0 <= i < |down| && down[i].DetectRequest? ::
          Unanswered(sid, down[i].ticket, asked, reported) && down[i].ticket !in pending)
    && (forall i, j | 0 <= i < j < |down| && down[i].DetectRequest? && down[j].DetectRequest? ::
          down[i].ticket != down[j].ticket)
    && (forall t <- pending :: Unanswered(sid, t, asked, reported))
  }

  /** `r` is what the node of session `sid` answered to the request with that ticket. */
  ghost predicate Answers(sid: nat, r: Reply, reported: map<nat, Report>) {
    && r.id == IdOf(r.ticket)
    && r.ticket in reported && reported[r.ticket] == Report(sid, r.mapping, r.ip)
  }

  ghost predicate RepliesOk(sid: nat, replies: seq<Reply>, reported: map<nat, Report>) {
    forall i | 0 <= i < |replies| :: Answers(sid, replies[i], reported)
  }

  /** A handler that has a reply has the answer of its remote node to its own request. */
  ghost predicate HandlerOk(handler: Handler, reported: map<nat, Report>) {
    HasReply(handler.stage) ==>
      var stage := handler.stage;
      stage.reply.ticket == stage.ticket && Answers(stage.remote, stage.reply, reported)
  }

  function Entries(log: seq<Posted>, h: nat): seq<Posted> {
    if log == [] then []
    else Entries(log[..|log| - 1], h) + if log[|log| - 1].handler == h then [log[|log| - 1]] else []
  }

  /** The responses a handler in this stage has sent. */
  ghost function Expected(h: nat, handler: Handler, localName: string, remoteName: string): seq<Posted> {
    if !handler.stage.HalfSent? && !handler.stage.Completed? then []
    else
      var (first, second) := Responses(handler, handler.stage.reply, localName, remoteName);
      [Posted(h, handler.session, first)]
      + if handler.stage.Completed? then [Posted(h, handler.stage.remote, second)] else []
  }

  ghost predicate LogOk(h: nat, handler: Handler, log: seq<Posted>, localName: string, remoteName: string) {
    Entries(log, h) == Expected(h, handler, localName, remoteName)
  }

  function LocalName(s: System, h: nat): string
    requires Known(s, h)
  {
    s.sessions[s.handlers[h].session].name
  }

  function RemoteName(s: System, h: nat): string
    requires Known(s, h)
  {
    var stage := s.handlers[h].stage;
    if stage.Begin? || stage.GaveUp? then "" else s.sessions[stage.remote].name
  }

  /** Tickets, waiters, requests and replies fit together. */
  ghost predicate Matching(s: System) {
    && TicketsOk(s.handlers, s.issued, s.asked) && s.reported.Keys <= s.asked.Keys
    && (forall sid <- s.sessions :: WaitersOk(sid, s.sessions[sid].replyer, s.handlers))
    && (forall sid <- s.sessions ::
          RequestsOk(sid, s.sessions[sid].down, s.sessions[sid].pending, s.asked, s.reported))
    && (forall sid <- s.sessions :: RepliesOk(sid, s.sessions[sid].replies, s.reported))
    && (forall h <- s.handlers :: HandlerOk(s.handlers[h], s.reported))
  }

  /** The log holds what the handlers have sent so far. */
  ghost predicate Logged(s: System)
    requires Linked(s)
  {
    && (forall i | 0 <= i < |s.log| :: s.log[i].handler in s.handlers)
    && (forall h <- s.handlers :: LogOk(h, s.handlers[h], s.log, LocalName(s, h), RemoteName(s, h)))
  }

  ghost predicate Inv(s: System) {
    Linked(s) && Matching(s) && Logged(s)
  }

  /** When a reply is matched with a waiter, fewer than 2^32 ids have been drawn since either. */
  predicate Timely(s: System, step: Step)
    requires Enabled(s, step)
  {
    match step
    case Deliver(sid) =>
      var t := s.sessions[sid];
      var r := t.replies[0];
      Hits(s, sid) ==>
        && s.issued - r.ticket < ID_SPACE
        && s.issued - s.handlers[t.replyer[r.id]].stage.ticket < ID_SPACE
    case _ => true
  }

  /** Two draws give the same id and are less than 2^32 apart only if they are the same draw. */
  lemma SameIdSameDraw(a: nat, b: nat)
    requires IdOf(a) == IdOf(b)
    ensures a == b <==> -ID_SPACE < a - b < ID_SPACE
  {
    var qa, qb := a / ID_SPACE, b / ID_SPACE;
    assert a - b == ID_SPACE * (qa - qb);
  }

  // ----- How the parts change -----

  /** A handler may move on, keep or drop its ticket, or draw the next one; only a drawn ticket may
      become asked. */
  lemma TicketsAdvance(handlers: map<nat, Handler>, issued: nat, asked: map<nat, nat>,
                       h: nat, handler: Handler, issued': nat, asked': map<nat, nat>)
    requires TicketsOk(handlers, issued, asked) && issued <= issued'
    requires forall t <- asked' ::
               t in asked || (h in handlers && handlers[h].stage.Drawn? && t == handlers[h].stage.ticket)
    requires HasTicket(handler.stage) ==>
               if h in handlers && HasTicket(handlers[h].stage) then handler.stage.ticket == handlers[h].stage.ticket
               else handler.stage.ticket == issued' == issued + 1
    requires handler.stage.Drawn? ==> handler.stage.ticket !in asked'
    ensures TicketsOk(handlers[h := handler], issued', asked')
  {
  }

  lemma TicketsIssue(handlers: map<nat, Handler>, issued: nat, asked: map<nat, nat>)
    requires TicketsOk(handlers, issued, asked)
    ensures TicketsOk(handlers, issued + 1, asked)
  {
  }

  /** A handler that does not wait may change at will. */
  lemma WaitersAdvance(s: System, h: nat, handler: Handler)
    requires Inv(s)
    requires h in s.handlers ==> !s.handlers[h].stage.Waiting?
    ensures forall sid <- s.sessions :: WaitersOk(sid, s.sessions[sid].replyer, s.handlers[h := handler])
  {
  }

  /** A handler that waits may stop once its entry is gone: other entries have other ids or wait on
      other sessions. */
  lemma WaitersStop(s: System, h: nat, handler: Handler)
    requires Inv(s) && h in s.handlers && s.handlers[h].stage.Waiting?
    ensures var stage := s.handlers[h].stage;
            forall sid <- s.sessions ::
              WaitersOk(sid, if sid == stage.remote then s.sessions[sid].replyer - {IdOf(stage.ticket)}
                             else s.sessions[sid].replyer, s.handlers[h := handler])
  {
    hide RequestsOk, RepliesOk, LogOk, TicketsOk, HandlerOk, IdOf;
  }

  lemma WaitersRegister(s: System, h: nat, handler: Handler)
    requires Inv(s) && h in s.handlers && s.handlers[h].stage.Written?
    requires handler.stage == Waiting(s.handlers[h].stage.remote, s.handlers[h].stage.ticket)
    ensures var stage := handler.stage;
            forall sid <- s.sessions ::
              WaitersOk(sid, if sid == stage.remote then s.sessions[sid].replyer[IdOf(stage.ticket) := h]
                             else s.sessions[sid].replyer, s.handlers[h := handler])
  {
    hide RequestsOk, RepliesOk, LogOk, TicketsOk, HandlerOk, IdOf;
  }

  lemma EmptySessionOk(s: System, sid: nat)
    ensures WaitersOk(sid, map[], s.handlers) && RequestsOk(sid, [], {}, s.asked, s.reported)
    ensures RepliesOk(sid, [], s.reported)
  {
  }

  /** Writing a request under a ticket nobody has asked before. */
  lemma RequestsWrite(sid: nat, down: seq<Down>, pending: set<nat>, asked: map<nat, nat>,
                      reported: map<nat, Report>, to: nat, ticket: nat)
    requires RequestsOk(sid, down, pending, asked, reported)
    requires ticket !in asked && ticket !in reported
    ensures RequestsOk(sid, if sid == to then down + [DetectRequest(IdOf(ticket), ticket)] else down,
                       pending, asked[ticket := to], reported)
  {
  }

  lemma RequestsPost(sid: nat, down: seq<Down>, pending: set<nat>, asked: map<nat, nat>,
                     reported: map<nat, Report>, id: nat, response: PunchResponse)
    requires RequestsOk(sid, down, pending, asked, reported)
    ensures RequestsOk(sid, down + [Punch(id, response)], pending, asked, reported)
  {
  }

  lemma RequestsReceive(sid: nat, down: seq<Down>, pending: set<nat>, asked: map<nat, nat>,
                        reported: map<nat, Report>)
    requires RequestsOk(sid, down, pending, asked, reported) && down != []
    ensures RequestsOk(sid, down[1..], if down[0].DetectRequest? then pending + {down[0].ticket} else pending,
                       asked, reported)
  {
  }

  lemma RequestsReply(sid: nat, down: seq<Down>, pending: set<nat>, asked: map<nat, nat>,
                      reported: map<nat, Report>, from: nat, ticket: nat, report: Report)
    requires RequestsOk(sid, down, pending, asked, reported)
    requires ticket in asked && asked[ticket] == from
    requires sid == from ==> ticket in pending
    ensures RequestsOk(sid, down, if sid == from then pending - {ticket} else pending,
                       asked, reported[ticket := report])
  {
  }

  lemma RepliesReply(sid: nat, replies: seq<Reply>, reported: map<nat, Report>, from: nat, r: Reply)
    requires RepliesOk(sid, replies, reported) && r.ticket !in reported && r.id == IdOf(r.ticket)
    ensures RepliesOk(sid, if sid == from then replies + [r] else replies,
                      reported[r.ticket := Report(from, r.mapping, r.ip)])
  {
  }

  lemma HandlerReply(handler: Handler, reported: map<nat, Report>, ticket: nat, report: Report)
    requires HandlerOk(handler, reported) && ticket !in reported
    ensures HandlerOk(handler, reported[ticket := report])
  {
  }

  lemma {:induction false} NoEntriesOfOthers(log: seq<Posted>, h: nat)
    requires forall i | 0 <= i < |log| :: log[i].handler != h
    ensures Entries(log, h) == []
  {
    if log != [] {
      NoEntriesOfOthers(log[..|log| - 1], h);
    }
  }

  lemma EntriesPost(log: seq<Posted>, e: Posted, h: nat)
    ensures Entries(log + [e], h) == Entries(log, h) + if e.handler == h then [e] else []
  {
    assert (log + [e])[..|log|] == log;
  }

  // ----- Every step keeps the invariant -----

  predicate HasSent(stage: Stage) {
    stage.HalfSent? || stage.Completed?
  }

  /** What a handler keeps that is new, or moves on without waiting, answering or sending. */
  lemma QuietMove(s: System, h: nat, handler: Handler, issued': nat, asked': map<nat, nat>)
    requires Inv(s) && s.issued <= issued'
    requires h in s.handlers ==> !s.handlers[h].stage.Waiting? && !HasSent(s.handlers[h].stage)
    requires !HasReply(handler.stage)
    requires forall t <- asked' ::
               t in s.asked || (h in s.handlers && s.handlers[h].stage.Drawn? && t == s.handlers[h].stage.ticket)
    requires HasTicket(handler.stage) ==>
               if h in s.handlers && HasTicket(s.handlers[h].stage)
               then handler.stage.ticket == s.handlers[h].stage.ticket
               else handler.stage.ticket == issued' == s.issued + 1
    requires handler.stage.Drawn? ==> handler.stage.ticket !in asked'
    ensures TicketsOk(s.handlers[h := handler], issued', asked')
    ensures forall sid <- s.sessions :: WaitersOk(sid, s.sessions[sid].replyer, s.handlers[h := handler])
    ensures HandlerOk(handler, s.reported)
  {
    hide RequestsOk, RepliesOk;
    TicketsAdvance(s.handlers, s.issued, s.asked, h, handler, issued', asked');
    WaitersAdvance(s, h, handler);
  }

  lemma StillSilent(s: System, h: nat)
    requires Inv(s) && (h in s.handlers ==> !HasSent(s.handlers[h].stage))
    ensures Entries(s.log, h) == []
  {
    hide RequestsOk, RepliesOk, WaitersOk, TicketsOk, HandlerOk, Responses;
    if h !in s.handlers {
      NoEntriesOfOthers(s.log, h);
    }
  }

  /** What a waiting handler keeps when it stops waiting: its entry goes, the others stay. */
  lemma WakeUp(s: System, h: nat, handler: Handler)
    requires Inv(s) && h in s.handlers && s.handlers[h].stage.Waiting?
    requires !HasSent(handler.stage)
    requires HasTicket(handler.stage) ==> handler.stage.ticket == s.handlers[h].stage.ticket && !handler.stage.Drawn?
    ensures TicketsOk(s.handlers[h := handler], s.issued, s.asked)
    ensures var stage := s.handlers[h].stage;
            forall sid <- s.sessions ::
              WaitersOk(sid, if sid == stage.remote then s.sessions[sid].replyer - {IdOf(stage.ticket)}
                             else s.sessions[sid].replyer, s.handlers[h := handler])
  {
    hide RequestsOk, RepliesOk;
    TicketsAdvance(s.handlers, s.issued, s.asked, h, handler, s.issued, s.asked);
    WaitersStop(s, h, handler);
  }

  /** The names a handler's responses carry change only with its sessions. */
  lemma NamesStay(s: System, s': System)
    requires Linked(s) && s.sessions.Keys <= s'.sessions.Keys && s.handlers.Keys <= s'.handlers.Keys
    requires forall sid <- s.sessions :: s'.sessions[sid].name == s.sessions[sid].name
    ensures forall h <- s.handlers | s'.handlers[h] == s.handlers[h] ::
              && Known(s', h)
              && LocalName(s', h) == LocalName(s, h) && RemoteName(s', h) == RemoteName(s, h)
  {
  }

  /** Steps of handlers that have sent nothing, and of sessions, leave the log as it should be. */
  lemma LoggedStays(s: System, s': System)
    requires Inv(s) && Linked(s') && s'.log == s.log
    requires s.sessions.Keys <= s'.sessions.Keys && s.handlers.Keys <= s'.handlers.Keys
    requires forall sid <- s.sessions :: s'.sessions[sid].name == s.sessions[sid].name
    requires forall h <- s'.handlers ::
               || (h in s.handlers && s'.handlers[h] == s.handlers[h])
               || (!HasSent(s'.handlers[h].stage) && (h in s.handlers ==> !HasSent(s.handlers[h].stage)))
    ensures Logged(s')
  {
    hide Matching, Responses, LocalName, RemoteName, Entries, Expected;
    NamesStay(s, s');
    forall h <- s'.handlers
      ensures LogOk(h, s'.handlers[h], s'.log, LocalName(s', h), RemoteName(s', h))
    {
      if h in s.handlers && s'.handlers[h] == s.handlers[h] {
        assert LogOk(h, s.handlers[h], s.log, LocalName(s, h), RemoteName(s, h));
      } else {
        StillSilent(s, h);
        NothingExpected(h, s'.handlers[h], LocalName(s', h), RemoteName(s', h));
      }
    }
  }

  lemma NothingExpected(h: nat, handler: Handler, a: string, b: string)
    requires !HasSent(handler.stage)
    ensures Expected(h, handler, a, b) == []
  {
  }

  /** Nothing loses its link when handlers move on and sessions keep their names. */
  lemma LinkedStays(s: System, s': System)
    requires Linked(s) && s.sessions.Keys <= s'.sessions.Keys
    requires forall sid <- s.sessions :: s'.sessions[sid].name == s.sessions[sid].name
    requires forall n <- s'.registry ::
               || (n in s.registry && s'.registry[n] == s.registry[n])
               || (s'.registry[n] in s'.sessions && s'.sessions[s'.registry[n]].name == n)
    requires forall h <- s'.handlers :: (h in s.handlers && s'.handlers[h] == s.handlers[h]) || Known(s', h)
    ensures Linked(s')
  {
  }

  lemma HandlerKnown(s: System, h: nat)
    requires Linked(s) && h in s.handlers
    ensures Known(s, h)
  {
  }

  lemma ClosedKeeps(sessions: map<nat, Session>, registry: map<string, nat>, name: string)
    ensures var closed := ClosedIn(sessions, registry, name);
            && closed.Keys == sessions.Keys
            && forall sid <- sessions :: closed[sid] == sessions[sid].(open := closed[sid].open)
  {
  }

  lemma LoginKeepsInv(s: System, sid: nat, name: string)
    requires Inv(s) && Enabled(s, Login(sid, name))
    ensures Inv(AfterLogin(s, sid, name))
  {
    hide TicketsOk, WaitersOk, RequestsOk, RepliesOk, HandlerOk, Logged, Responses, IdOf, Timely, Linked, ClosedIn;
    ClosedKeeps(s.sessions, s.registry, name);
    TicketsIssue(s.handlers, s.issued, s.asked);
    EmptySessionOk(s, sid);
    LinkedStays(s, AfterLogin(s, sid, name));
    LoggedStays(s, AfterLogin(s, sid, name));
  }

  lemma LeaveKeepsInv(s: System, sid: nat)
    requires Inv(s) && Enabled(s, Leave(sid))
    ensures Inv(AfterLeave(s, sid))
  {
    hide TicketsOk, WaitersOk, RequestsOk, RepliesOk, HandlerOk, Logged, Responses, IdOf, Timely, Linked, ClosedIn;
    ClosedKeeps(s.sessions, s.registry, s.sessions[sid].name);
    LinkedStays(s, AfterLeave(s, sid));
    LoggedStays(s, AfterLeave(s, sid));
  }

  lemma AskPunchKeepsInv(s: System, sid: nat, req: PunchRequest)
    requires Inv(s) && Enabled(s, AskPunch(sid, req))
    ensures Inv(AfterAskPunch(s, sid, req))
  {
    hide TicketsOk, WaitersOk, RequestsOk, RepliesOk, HandlerOk, Logged, Responses, IdOf, Timely, Linked;
    LinkedStays(s, AfterAskPunch(s, sid, req));
    LoggedStays(s, AfterAskPunch(s, sid, req));
  }

  lemma DispatchKeepsInv(s: System, sid: nat, h: nat)
    requires Inv(s) && Enabled(s, Dispatch(sid, h))
    ensures Inv(AfterDispatch(s, sid, h))
  {
    hide TicketsOk, WaitersOk, RequestsOk, RepliesOk, HandlerOk, Logged, Responses, IdOf, Timely, Linked;
    QuietMove(s, h, AfterDispatch(s, sid, h).handlers[h], s.issued, s.asked);
    LinkedStays(s, AfterDispatch(s, sid, h));
    LoggedStays(s, AfterDispatch(s, sid, h));
  }

  lemma LookupKeepsInv(s: System, h: nat)
    requires Inv(s) && Enabled(s, Lookup(h))
    ensures Inv(AfterLookup(s, h))
  {
    hide TicketsOk, WaitersOk, RequestsOk, RepliesOk, HandlerOk, Logged, Responses, IdOf, Timely;
    QuietMove(s, h, AfterLookup(s, h).handlers[h], s.issued, s.asked);
    LoggedStays(s, AfterLookup(s, h));
  }

  lemma DrawIsFresh(s: System)
    requires Inv(s)
    ensures s.issued + 1 !in s.asked
  {
  }

  lemma DrawKeepsInv(s: System, h: nat)
    requires Inv(s) && Enabled(s, Draw(h))
    ensures Inv(AfterDraw(s, h))
  {
    hide TicketsOk, WaitersOk, RequestsOk, RepliesOk, HandlerOk, Logged, Responses, IdOf, Timely, Linked;
    DrawIsFresh(s);
    QuietMove(s, h, AfterDraw(s, h).handlers[h], s.issued + 1, s.asked);
    LinkedStays(s, AfterDraw(s, h));
    LoggedStays(s, AfterDraw(s, h));
  }

  lemma DrawnIsUnasked(s: System, h: nat)
    requires Inv(s) && h in s.handlers && s.handlers[h].stage.Drawn?
    ensures s.handlers[h].stage.ticket !in s.asked && s.handlers[h].stage.ticket !in s.reported
  {
  }

  lemma WriteKeepsInv(s: System, h: nat)
    requires Inv(s) && Enabled(s, Write(h))
    ensures Inv(AfterWrite(s, h))
  {
    if s.sessions[s.handlers[h].stage.remote].open {
      WriteOpenKeepsInv(s, h);
    } else {
      WriteClosedKeepsInv(s, h);
    }
  }

  lemma WriteClosedKeepsInv(s: System, h: nat)
    requires Inv(s) && Enabled(s, Write(h)) && !s.sessions[s.handlers[h].stage.remote].open
    ensures Inv(AfterWrite(s, h))
  {
    hide TicketsOk, WaitersOk, RequestsOk, RepliesOk, HandlerOk, Logged, Responses, IdOf, Timely, Linked;
    QuietMove(s, h, AfterWrite(s, h).handlers[h], s.issued, s.asked);
    LinkedStays(s, AfterWrite(s, h));
    LoggedStays(s, AfterWrite(s, h));
  }

  lemma WriteOpenKeepsInv(s: System, h: nat)
    requires Inv(s) && Enabled(s, Write(h)) && s.sessions[s.handlers[h].stage.remote].open
    ensures Inv(AfterWrite(s, h))
  {
    hide TicketsOk, WaitersOk, RequestsOk, RepliesOk, HandlerOk, Logged, Responses, IdOf, Timely, Linked;
    var s' := AfterWrite(s, h);
    var ticket, to := s.handlers[h].stage.ticket, s.handlers[h].stage.remote;
    DrawnIsUnasked(s, h);
    QuietMove(s, h, s'.handlers[h], s.issued, s'.asked);
    forall sid <- s.sessions
      ensures RequestsOk(sid, s'.sessions[sid].down, s'.sessions[sid].pending, s'.asked, s.reported)
    {
      RequestsWrite(sid, s.sessions[sid].down, s.sessions[sid].pending, s.asked, s.reported, to, ticket);
    }
    LinkedStays(s, s');
    LoggedStays(s, s');
  }

  lemma RegisterMove(s: System, h: nat, handler: Handler)
    requires Inv(s) && h in s.handlers && s.handlers[h].stage.Written?
    requires handler.stage == Waiting(s.handlers[h].stage.remote, s.handlers[h].stage.ticket)
    ensures TicketsOk(s.handlers[h := handler], s.issued, s.asked)
    ensures HandlerOk(handler, s.reported)
  {
    hide RequestsOk, RepliesOk, WaitersOk;
    TicketsAdvance(s.handlers, s.issued, s.asked, h, handler, s.issued, s.asked);
  }

  lemma RegisterKeepsInv(s: System, h: nat)
    requires Inv(s) && Enabled(s, Register(h))
    ensures Inv(AfterRegister(s, h))
  {
    hide TicketsOk, WaitersOk, RequestsOk, RepliesOk, HandlerOk, Logged, Responses, IdOf, Timely, Linked;
    var handler := AfterRegister(s, h).handlers[h];
    RegisterMove(s, h, handler);
    WaitersRegister(s, h, handler);
    LinkedStays(s, AfterRegister(s, h));
    LoggedStays(s, AfterRegister(s, h));
  }

  lemma NodeReceivesKeepsInv(s: System, sid: nat)
    requires Inv(s) && Enabled(s, NodeReceives(sid))
    ensures Inv(AfterNodeReceives(s, sid))
  {
    hide TicketsOk, WaitersOk, RequestsOk, RepliesOk, HandlerOk, Logged, Responses, IdOf, Timely, Linked;
    RequestsReceive(sid, s.sessions[sid].down, s.sessions[sid].pending, s.asked, s.reported);
    LinkedStays(s, AfterNodeReceives(s, sid));
    LoggedStays(s, AfterNodeReceives(s, sid));
  }

  lemma PendingIsUnanswered(s: System, sid: nat, ticket: nat)
    requires Inv(s) && sid in s.sessions && ticket in s.sessions[sid].pending
    ensures Unanswered(sid, ticket, s.asked, s.reported)
  {
  }

  lemma NodeRepliesKeepsInv(s: System, sid: nat, ticket: nat, mapping: DetectResult, ip: string)
    requires Inv(s) && Enabled(s, NodeReplies(sid, ticket, mapping, ip))
    ensures Inv(AfterNodeReplies(s, sid, ticket, mapping, ip))
  {
    hide TicketsOk, WaitersOk, RequestsOk, RepliesOk, HandlerOk, Logged, Responses, IdOf, Timely, Linked;
    var s' := AfterNodeReplies(s, sid, ticket, mapping, ip);
    var report := Report(sid, mapping, ip);
    PendingIsUnanswered(s, sid, ticket);
    forall t <- s.sessions
      ensures RequestsOk(t, s'.sessions[t].down, s'.sessions[t].pending, s.asked, s'.reported)
      ensures RepliesOk(t, s'.sessions[t].replies, s'.reported)
    {
      RequestsReply(t, s.sessions[t].down, s.sessions[t].pending, s.asked, s.reported, sid, ticket, report);
      RepliesReply(t, s.sessions[t].replies, s.reported, sid, Reply(IdOf(ticket), ticket, mapping, ip));
    }
    forall h <- s.handlers
      ensures HandlerOk(s.handlers[h], s'.reported)
    {
      HandlerReply(s.handlers[h], s.reported, ticket, report);
    }
    LinkedStays(s, s');
    LoggedStays(s, s');
  }

  lemma NothingToAnswer(handler: Handler, reported: map<nat, Report>)
    requires !HasReply(handler.stage)
    ensures HandlerOk(handler, reported)
  {
  }

  lemma TimeOutKeepsInv(s: System, h: nat)
    requires Inv(s) && Enabled(s, TimeOut(h))
    ensures Inv(AfterTimeOut(s, h))
  {
    hide TicketsOk, WaitersOk, RequestsOk, RepliesOk, HandlerOk, Logged, Responses, IdOf, Timely, Linked;
    var handler := AfterTimeOut(s, h).handlers[h];
    WakeUp(s, h, handler);
    NothingToAnswer(handler, s.reported);
    LinkedStays(s, AfterTimeOut(s, h));
    LoggedStays(s, AfterTimeOut(s, h));
  }

  /** The waiter a delivered reply finds. */
  predicate Matches(s: System, sid: nat, h: nat)
    requires sid in s.sessions && s.sessions[sid].replies != []
  {
    Hits(s, sid) && s.sessions[sid].replyer[s.sessions[sid].replies[0].id] == h
  }

  /** A reply is handed to the handler that asked for it if and only if fewer than 2^32 ids lie
      between the two draws. */
  lemma MatchedIffWithinIdSpace(s: System, sid: nat, h: nat)
    requires Inv(s) && Enabled(s, Deliver(sid)) && Matches(s, sid, h)
    ensures var s' := AfterDeliver(s, sid);
            var (waiter, reply) := (s.handlers[h].stage.ticket, s.sessions[sid].replies[0]);
            && s'.handlers[h].stage == Replied(sid, waiter, reply)
            && reply.id == IdOf(waiter)
            && (reply.ticket == waiter <==> -ID_SPACE < reply.ticket - waiter < ID_SPACE)
  {
    hide RequestsOk, TicketsOk, LogOk, HandlerOk, IdOf;
    var r := s.sessions[sid].replies[0];
    assert WaitersOk(sid, s.sessions[sid].replyer, s.handlers);
    assert Answers(sid, r, s.reported);
    SameIdSameDraw(r.ticket, s.handlers[h].stage.ticket);
  }

  /** In time, the reply handed over is the answer to the handler's own request. */
  lemma MatchedInTime(s: System, sid: nat, h: nat)
    requires Inv(s) && Enabled(s, Deliver(sid)) && Matches(s, sid, h) && Timely(s, Deliver(sid))
    ensures var stage := AfterDeliver(s, sid).handlers[h].stage;
            && stage == Replied(sid, s.handlers[h].stage.ticket, s.sessions[sid].replies[0])
            && stage.reply.id == IdOf(stage.ticket)
            && HandlerOk(AfterDeliver(s, sid).handlers[h], s.reported)
    ensures s.handlers[h].stage.remote == sid
  {
    hide RequestsOk, LogOk, IdOf;
    MatchedIffWithinIdSpace(s, sid, h);
    assert Answers(sid, s.sessions[sid].replies[0], s.reported);
    assert WaitersOk(sid, s.sessions[sid].replyer, s.handlers);
  }

  lemma RepliesTake(sid: nat, replies: seq<Reply>, reported: map<nat, Report>)
    requires RepliesOk(sid, replies, reported) && replies != []
    ensures RepliesOk(sid, replies[1..], reported)
  {
  }

  lemma DeliverKeepsInv(s: System, sid: nat)
    requires Inv(s) && Enabled(s, Deliver(sid)) && Timely(s, Deliver(sid))
    ensures Inv(AfterDeliver(s, sid))
  {
    hide Inv, AfterDeliver, Timely;
    var t := s.sessions[sid];
    if Hits(s, sid) {
      MatchKeepsInv(s, sid, t.replyer[t.replies[0].id]);
    } else {
      DropKeepsInv(s, sid);
    }
  }

  lemma MatchKeepsInv(s: System, sid: nat, h: nat)
    requires Inv(s) && Enabled(s, Deliver(sid)) && Timely(s, Deliver(sid)) && Matches(s, sid, h)
    ensures Inv(AfterDeliver(s, sid))
  {
    hide TicketsOk, WaitersOk, RequestsOk, RepliesOk, HandlerOk, Logged, Responses, IdOf, Timely, Linked;
    var s' := AfterDeliver(s, sid);
    RepliesTake(sid, s.sessions[sid].replies, s.reported);
    MatchedInTime(s, sid, h);
    WakeUp(s, h, s'.handlers[h]);
    HandlerKnown(s, h);
    LinkedStays(s, s');
    LoggedStays(s, s');
  }

  lemma DropKeepsInv(s: System, sid: nat)
    requires Inv(s) && Enabled(s, Deliver(sid)) && !Hits(s, sid)
    ensures Inv(AfterDeliver(s, sid))
  {
    hide TicketsOk, WaitersOk, RequestsOk, RepliesOk, HandlerOk, Logged, Responses, IdOf, Timely, Linked;
    RepliesTake(sid, s.sessions[sid].replies, s.reported);
    LinkedStays(s, AfterDeliver(s, sid));
    LoggedStays(s, AfterDeliver(s, sid));
  }

  /** What a handler with a reply keeps when it sends a response. */
  lemma SendMove(s: System, h: nat, handler: Handler)
    requires Inv(s) && h in s.handlers && HasReply(s.handlers[h].stage) && HasReply(handler.stage)
    requires handler.stage.remote == s.handlers[h].stage.remote
    requires handler.stage.ticket == s.handlers[h].stage.ticket && handler.stage.reply == s.handlers[h].stage.reply
    ensures TicketsOk(s.handlers[h := handler], s.issued + 1, s.asked)
    ensures forall sid <- s.sessions :: WaitersOk(sid, s.sessions[sid].replyer, s.handlers[h := handler])
    ensures HandlerOk(handler, s.reported)
  {
    hide RequestsOk, RepliesOk, LogOk;
    TicketsAdvance(s.handlers, s.issued, s.asked, h, handler, s.issued + 1, s.asked);
    WaitersAdvance(s, h, handler);
    assert HandlerOk(s.handlers[h], s.reported);
  }

  /** A response sent by `h` changes no other handler's part of the log. */
  lemma SendLogOthers(s: System, h: nat, e: Posted)
    requires Inv(s) && e.handler == h
    ensures forall g <- s.handlers :: g != h ==>
              LogOk(g, s.handlers[g], s.log + [e], LocalName(s, g), RemoteName(s, g))
  {
    hide RequestsOk, RepliesOk, WaitersOk, TicketsOk, HandlerOk, IdOf, PlanFor, Entries, Expected;
    forall g <- s.handlers | g != h
      ensures LogOk(g, s.handlers[g], s.log + [e], LocalName(s, g), RemoteName(s, g))
    {
      EntriesPost(s.log, e, g);
      assert LogOk(g, s.handlers[g], s.log, LocalName(s, g), RemoteName(s, g));
      assert Entries(s.log, g) + [] == Entries(s.log, g);
    }
  }

  lemma SendFirstLog(h: nat, handler: Handler, log: seq<Posted>, a: string, b: string)
    requires LogOk(h, handler, log, a, b) && handler.stage.Replied?
    ensures var stage := handler.stage;
            LogOk(h, handler.(stage := HalfSent(stage.remote, stage.ticket, stage.reply)),
                  log + [Posted(h, handler.session, Responses(handler, stage.reply, a, b).0)], a, b)
  {
    EntriesPost(log, Posted(h, handler.session, Responses(handler, handler.stage.reply, a, b).0), h);
  }

  lemma SendSecondLog(h: nat, handler: Handler, log: seq<Posted>, a: string, b: string)
    requires LogOk(h, handler, log, a, b) && handler.stage.HalfSent?
    ensures var stage := handler.stage;
            LogOk(h, handler.(stage := Completed(stage.remote, stage.ticket, stage.reply)),
                  log + [Posted(h, stage.remote, Responses(handler, stage.reply, a, b).1)], a, b)
  {
    EntriesPost(log, Posted(h, handler.stage.remote, Responses(handler, handler.stage.reply, a, b).1), h);
  }

  lemma PostKeepsSessions(s: System, to: nat, response: PunchResponse)
    requires Inv(s) && to in s.sessions
    ensures var sessions := Post(s, to, response);
            && sessions.Keys == s.sessions.Keys
            && (forall sid <- sessions ::
                  && sessions[sid].name == s.sessions[sid].name && sessions[sid].replyer == s.sessions[sid].replyer
                  && sessions[sid].replies == s.sessions[sid].replies
                  && RequestsOk(sid, sessions[sid].down, sessions[sid].pending, s.asked, s.reported))
  {
    hide RepliesOk, WaitersOk, TicketsOk, HandlerOk, LogOk, IdOf;
    RequestsPost(to, s.sessions[to].down, s.sessions[to].pending, s.asked, s.reported, IdOf(s.issued + 1), response);
  }

  /** The state after handler `h` has sent `e` and moved on to `handler`. */
  function Sent(s: System, h: nat, handler: Handler, e: Posted): System
    requires e.to in s.sessions
  {
    s.(issued := s.issued + 1, sessions := Post(s, e.to, e.response), handlers := s.handlers[h := handler],
       log := s.log + [e])
  }

  lemma SentKeepsInv(s: System, h: nat, handler: Handler, e: Posted)
    requires Inv(s) && h in s.handlers && HasReply(s.handlers[h].stage) && HasReply(handler.stage)
    requires handler.session == s.handlers[h].session && handler.stage.remote == s.handlers[h].stage.remote
    requires handler.stage.ticket == s.handlers[h].stage.ticket && handler.stage.reply == s.handlers[h].stage.reply
    requires e.handler == h && e.to in s.sessions
    requires Known(s, h) && LogOk(h, handler, s.log + [e], LocalName(s, h), RemoteName(s, h))
    ensures Inv(Sent(s, h, handler, e))
  {
    hide TicketsOk, WaitersOk, RequestsOk, RepliesOk, HandlerOk, LogOk, Responses, IdOf, Post;
    PostKeepsSessions(s, e.to, e.response);
    SendMove(s, h, handler);
    SendLogOthers(s, h, e);
  }

  lemma SendFirstKeepsInv(s: System, h: nat)
    requires Inv(s) && Enabled(s, SendFirst(h))
    ensures Inv(AfterSendFirst(s, h))
  {
    hide Matching, LogOk, Responses, Post;
    var handler := s.handlers[h];
    var response := Responses(handler, handler.stage.reply, LocalName(s, h), RemoteName(s, h)).0;
    SendFirstLog(h, handler, s.log, LocalName(s, h), RemoteName(s, h));
    SentKeepsInv(s, h, AfterSendFirst(s, h).handlers[h], Posted(h, handler.session, response));
  }

  lemma SendSecondKeepsInv(s: System, h: nat)
    requires Inv(s) && Enabled(s, SendSecond(h))
    ensures Inv(AfterSendSecond(s, h))
  {
    hide Matching, LogOk, Responses, Post;
    var handler := s.handlers[h];
    var response := Responses(handler, handler.stage.reply, LocalName(s, h), RemoteName(s, h)).1;
    SendSecondLog(h, handler, s.log, LocalName(s, h), RemoteName(s, h));
    SentKeepsInv(s, h, AfterSendSecond(s, h).handlers[h], Posted(h, handler.stage.remote, response));
  }

  lemma StepKeepsInv(s: System, step: Step)
    requires Inv(s) && Enabled(s, step) && Timely(s, step)
    ensures Inv(Next(s, step))
  {
    hide Inv, Timely, AfterLogin, AfterLeave, AfterAskPunch, AfterDispatch, AfterLookup, AfterDraw, AfterWrite,
         AfterRegister, AfterNodeReceives, AfterNodeReplies, AfterDeliver, AfterTimeOut, AfterSendFirst,
         AfterSendSecond;
    match step
    case Login(sid, name) => LoginKeepsInv(s, sid, name);
    case Leave(sid) => LeaveKeepsInv(s, sid);
    case AskPunch(sid, req) => AskPunchKeepsInv(s, sid, req);
    case Dispatch(sid, h) => DispatchKeepsInv(s, sid, h);
    case Lookup(h) => LookupKeepsInv(s, h);
    case Draw(h) => DrawKeepsInv(s, h);
    case Write(h) => WriteKeepsInv(s, h);
    case Register(h) => RegisterKeepsInv(s, h);
    case NodeReceives(sid) => NodeReceivesKeepsInv(s, sid);
    case NodeReplies(sid, ticket, mapping, ip) => NodeRepliesKeepsInv(s, sid, ticket, mapping, ip);
    case Deliver(sid) => DeliverKeepsInv(s, sid);
    case TimeOut(h) => TimeOutKeepsInv(s, h);
    case SendFirst(h) => SendFirstKeepsInv(s, h);
    case SendSecond(h) => SendSecondKeepsInv(s, h);
  }

  /** A handler talks to a session of the name it was asked for. */
  ghost predicate Named(s: System) {
    forall h <- s.handlers | !s.handlers[h].stage.Begin? && !s.handlers[h].stage.GaveUp? ::
      Known(s, h) && s.sessions[s.handlers[h].stage.remote].name == s.handlers[h].req.peerName
  }

  /** Sessions keep their names, and handlers their requests and, until they give up, their sessions. */
  ghost predicate Steady(s: System, s': System) {
    && (forall sid <- s.sessions :: sid in s'.sessions && s'.sessions[sid].name == s.sessions[sid].name)
    && (forall h <- s'.handlers | !s'.handlers[h].stage.Begin? && !s'.handlers[h].stage.GaveUp? ::
          && h in s.handlers && !s.handlers[h].stage.Begin? && !s.handlers[h].stage.GaveUp?
          && s'.handlers[h].session == s.handlers[h].session && s'.handlers[h].req == s.handlers[h].req
          && s'.handlers[h].stage.remote == s.handlers[h].stage.remote)
  }

  lemma SessionStepsAreSteady(s: System, step: Step)
    requires Enabled(s, step) && Linked(s)
    requires step.Login? || step.Leave? || step.AskPunch? || step.NodeReceives? || step.NodeReplies?
    ensures Steady(s, Next(s, step))
  {
    hide IdOf, Linked;
  }

  lemma FirstStepsAreSteady(s: System, step: Step)
    requires Enabled(s, step) && (step.Dispatch? || step.Draw?)
    ensures Steady(s, Next(s, step))
  {
    hide IdOf;
  }

  lemma WriteIsSteady(s: System, h: nat)
    requires Enabled(s, Write(h))
    ensures Steady(s, AfterWrite(s, h))
  {
    hide IdOf;
  }

  lemma RegisterIsSteady(s: System, h: nat)
    requires Enabled(s, Register(h))
    ensures Steady(s, AfterRegister(s, h))
  {
    hide IdOf;
  }

  lemma TimeOutIsSteady(s: System, h: nat)
    requires Enabled(s, TimeOut(h))
    ensures Steady(s, AfterTimeOut(s, h))
  {
    hide IdOf;
  }

  lemma DeliverIsSteady(s: System, sid: nat)
    requires Enabled(s, Deliver(sid))
    ensures Steady(s, AfterDeliver(s, sid))
  {
    hide IdOf;
  }

  lemma SendStepsAreSteady(s: System, step: Step)
    requires Enabled(s, step) && (step.SendFirst? || step.SendSecond?)
    ensures Steady(s, Next(s, step))
  {
    hide Responses, IdOf;
  }

  lemma StepKeepsNamed(s: System, step: Step)
    requires Inv(s) && Named(s) && Enabled(s, step)
    ensures Named(Next(s, step))
  {
    hide TicketsOk, WaitersOk, RequestsOk, RepliesOk, HandlerOk, LogOk, Responses, IdOf;
    if step.Lookup? {
      assert Linked(s);
    } else {
      if step.Login? || step.Leave? || step.AskPunch? || step.NodeReceives? || step.NodeReplies? {
        SessionStepsAreSteady(s, step);
      } else if step.Deliver? {
        DeliverIsSteady(s, step.sid);
      } else if step.SendFirst? || step.SendSecond? {
        SendStepsAreSteady(s, step);
      } else if step.Write? {
        WriteIsSteady(s, step.h);
      } else if step.Register? {
        RegisterIsSteady(s, step.h);
      } else if step.TimeOut? {
        TimeOutIsSteady(s, step.h);
      } else {
        FirstStepsAreSteady(s, step);
      }
      hide Next, Enabled, Inv;
    }
  }

  // ----- One handler for every request -----

  /** The requests not yet dispatched are the last ones made. */
  predicate Undispatched(t: Session) {
    |t.up| <= |t.asks| && t.up == t.asks[|t.asks| - |t.up|..]
  }

  /** The handler works on one of the others. */
  predicate WorksOn(handler: Handler, t: Session) {
    0 <= handler.nth < |t.asks| - |t.up| && handler.req == t.asks[handler.nth]
  }

  ghost predicate AsksOk(s: System) {
    && (forall sid <- s.sessions :: Undispatched(s.sessions[sid]))
    && (forall h <- s.handlers ::
          s.handlers[h].session in s.sessions && WorksOn(s.handlers[h], s.sessions[s.handlers[h].session]))
    && (forall h, g | h in s.handlers && g in s.handlers && h != g && s.handlers[h].session == s.handlers[g].session ::
          s.handlers[h].nth != s.handlers[g].nth)
  }

  /** No request is made or dispatched. */
  ghost predicate SameAsks(s: System, s': System) {
    && (forall sid <- s.sessions ::
          && sid in s'.sessions
          && s'.sessions[sid].asks == s.sessions[sid].asks && s'.sessions[sid].up == s.sessions[sid].up)
    && (forall sid <- s'.sessions :: sid in s.sessions || (s'.sessions[sid].asks == [] && s'.sessions[sid].up == []))
    && s'.handlers.Keys == s.handlers.Keys
    && (forall h <- s.handlers ::
          && s'.handlers[h].session == s.handlers[h].session
          && s'.handlers[h].req == s.handlers[h].req && s'.handlers[h].nth == s.handlers[h].nth)
  }

  lemma LoginKeepsAsks(s: System, sid: nat, name: string)
    requires Enabled(s, Login(sid, name))
    ensures SameAsks(s, AfterLogin(s, sid, name))
  {
    hide IdOf, ClosedIn;
    ClosedKeeps(s.sessions, s.registry, name);
  }

  lemma LeaveKeepsAsks(s: System, sid: nat)
    requires Enabled(s, Leave(sid))
    ensures SameAsks(s, AfterLeave(s, sid))
  {
    hide IdOf, ClosedIn;
    ClosedKeeps(s.sessions, s.registry, s.sessions[sid].name);
  }

  lemma MatchKeepsAsks(s: System, sid: nat)
    requires Enabled(s, Deliver(sid)) && Hits(s, sid)
    ensures SameAsks(s, AfterDeliver(s, sid))
  {
    hide IdOf;
  }

  lemma DropKeepsAsks(s: System, sid: nat)
    requires Enabled(s, Deliver(sid)) && !Hits(s, sid)
    ensures SameAsks(s, AfterDeliver(s, sid))
  {
    hide Hits;
  }

  lemma DeliverKeepsAsks(s: System, sid: nat)
    requires Enabled(s, Deliver(sid))
    ensures SameAsks(s, AfterDeliver(s, sid))
  {
    hide SameAsks, AfterDeliver;
    if Hits(s, sid) {
      MatchKeepsAsks(s, sid);
    } else {
      DropKeepsAsks(s, sid);
    }
  }

  lemma NodeReceivesKeepsAsks(s: System, sid: nat)
    requires Enabled(s, NodeReceives(sid))
    ensures SameAsks(s, AfterNodeReceives(s, sid))
  {
    hide IdOf;
  }

  lemma NodeRepliesKeepsAsks(s: System, sid: nat, ticket: nat, mapping: DetectResult, ip: string)
    requires Enabled(s, NodeReplies(sid, ticket, mapping, ip))
    ensures SameAsks(s, AfterNodeReplies(s, sid, ticket, mapping, ip))
  {
    hide IdOf;
  }

  lemma WriteKeepsAsks(s: System, h: nat)
    requires Enabled(s, Write(h))
    ensures SameAsks(s, AfterWrite(s, h))
  {
    hide IdOf;
  }

  lemma TimeOutKeepsAsks(s: System, h: nat)
    requires Enabled(s, TimeOut(h))
    ensures SameAsks(s, AfterTimeOut(s, h))
  {
    hide IdOf;
  }

  lemma RegisterKeepsAsks(s: System, h: nat)
    requires Enabled(s, Register(h))
    ensures SameAsks(s, AfterRegister(s, h))
  {
    hide IdOf;
  }

  lemma HandlerStepsKeepAsks(s: System, step: Step)
    requires Enabled(s, step) && (step.Lookup? || step.Draw?)
    ensures SameAsks(s, Next(s, step))
  {
    hide IdOf;
  }

  lemma SendStepsKeepAsks(s: System, step: Step)
    requires Enabled(s, step) && (step.SendFirst? || step.SendSecond?)
    ensures SameAsks(s, Next(s, step))
  {
    hide IdOf, Responses;
  }

  lemma AskedOnce(t: Session, req: PunchRequest)
    requires Undispatched(t)
    ensures Undispatched(t.(up := t.up + [req], asks := t.asks + [req]))
  {
    var n := |t.asks| - |t.up|;
    assert (t.asks + [req])[n..] == t.asks[n..] + [req];
  }

  lemma StillWorksOn(handler: Handler, t: Session, req: PunchRequest)
    requires Undispatched(t) && WorksOn(handler, t)
    ensures WorksOn(handler, t.(up := t.up + [req], asks := t.asks + [req]))
    ensures t.up != [] ==> WorksOn(handler, t.(up := t.up[1..])) && handler.nth < |t.asks| - |t.up|
  {
  }

  lemma DispatchedOnce(t: Session)
    requires Undispatched(t) && t.up != []
    ensures Undispatched(t.(up := t.up[1..]))
  {
    var n := |t.asks| - |t.up|;
    assert t.asks[n..][1..] == t.asks[n + 1..];
  }

  lemma NewestWork(t: Session, handler: Handler)
    requires Undispatched(t) && t.up != []
    requires handler.nth == |t.asks| - |t.up| && handler.req == t.up[0]
    ensures WorksOn(handler, t.(up := t.up[1..]))
  {
  }

  lemma AskKeepsAsks(s: System, sid: nat, req: PunchRequest)
    requires AsksOk(s) && Enabled(s, AskPunch(sid, req))
    ensures AsksOk(AfterAskPunch(s, sid, req))
  {
    hide Undispatched, WorksOn;
    var s' := AfterAskPunch(s, sid, req);
    AskedOnce(s.sessions[sid], req);
    forall h <- s.handlers
      ensures s.handlers[h].session in s'.sessions && WorksOn(s.handlers[h], s'.sessions[s.handlers[h].session])
    {
      if s.handlers[h].session == sid {
        StillWorksOn(s.handlers[h], s.sessions[sid], req);
      }
    }
  }

  lemma DispatchKeepsAsks(s: System, sid: nat, h: nat)
    requires AsksOk(s) && Enabled(s, Dispatch(sid, h))
    ensures AsksOk(AfterDispatch(s, sid, h))
  {
    hide Undispatched, WorksOn;
    var s', t := AfterDispatch(s, sid, h), s.sessions[sid];
    DispatchedOnce(t);
    NewestWork(t, s'.handlers[h]);
    forall g <- s.handlers
      ensures s.handlers[g].session in s'.sessions && WorksOn(s.handlers[g], s'.sessions[s.handlers[g].session])
      ensures s.handlers[g].session == sid ==> s.handlers[g].nth != s'.handlers[h].nth
    {
      if s.handlers[g].session == sid {
        StillWorksOn(s.handlers[g], t, t.up[0]);
      }
    }
  }

  lemma SameWork(handler: Handler, handler': Handler, t: Session, t': Session)
    requires handler'.nth == handler.nth && handler'.req == handler.req && t'.asks == t.asks && t'.up == t.up
    requires WorksOn(handler, t)
    ensures WorksOn(handler', t')
  {
  }

  lemma SameQueue(t: Session, t': Session)
    requires Undispatched(t) && t'.asks == t.asks && t'.up == t.up
    ensures Undispatched(t')
  {
  }

  lemma EmptyQueue(t: Session)
    requires t.asks == [] && t.up == []
    ensures Undispatched(t)
  {
  }

  lemma SameAsksKeepAsks(s: System, s': System)
    requires AsksOk(s) && SameAsks(s, s')
    ensures AsksOk(s')
  {
    hide WorksOn, Undispatched;
    forall sid <- s'.sessions
      ensures Undispatched(s'.sessions[sid])
    {
      if sid in s.sessions {
        SameQueue(s.sessions[sid], s'.sessions[sid]);
      } else {
        EmptyQueue(s'.sessions[sid]);
      }
    }
    forall h <- s'.handlers
      ensures s'.handlers[h].session in s'.sessions
      ensures WorksOn(s'.handlers[h], s'.sessions[s'.handlers[h].session])
    {
      var sid := s.handlers[h].session;
      SameWork(s.handlers[h], s'.handlers[h], s.sessions[sid], s'.sessions[sid]);
    }
    forall h, g | h in s'.handlers && g in s'.handlers && h != g && s'.handlers[h].session == s'.handlers[g].session
      ensures s'.handlers[h].nth != s'.handlers[g].nth
    {
      assert s.handlers[h].session == s.handlers[g].session;
    }
  }

  lemma StepKeepsAsks(s: System, step: Step)
    requires AsksOk(s) && Enabled(s, step)
    ensures AsksOk(Next(s, step))
  {
    hide AsksOk, SameAsks, AfterAskPunch, AfterDispatch, AfterDeliver;
    if step.AskPunch? {
      AskKeepsAsks(s, step.sid, step.req);
    } else if step.Dispatch? {
      DispatchKeepsAsks(s, step.sid, step.h);
    } else {
      if step.Login? {
        LoginKeepsAsks(s, step.sid, step.name);
      } else if step.Leave? {
        LeaveKeepsAsks(s, step.sid);
      } else if step.NodeReceives? {
        NodeReceivesKeepsAsks(s, step.sid);
      } else if step.NodeReplies? {
        NodeRepliesKeepsAsks(s, step.sid, step.ticket, step.mapping, step.ip);
      } else if step.Write? {
        WriteKeepsAsks(s, step.h);
      } else if step.TimeOut? {
        TimeOutKeepsAsks(s, step.h);
      } else if step.Register? {
        RegisterKeepsAsks(s, step.h);
      } else if step.Deliver? {
        DeliverKeepsAsks(s, step.sid);
      } else if step.SendFirst? || step.SendSecond? {
        SendStepsKeepAsks(s, step);
      } else {
        HandlerStepsKeepAsks(s, step);
      }
      SameAsksKeepAsks(s, Next(s, step));
    }
  }

  // ----- What is sent is what is on the wire -----

  function Punches(down: seq<Down>): seq<PunchResponse> {
    if down == [] then []
    else (if down[0].Punch? then [down[0].response] else []) + Punches(down[1..])
  }

  function PostedTo(log: seq<Posted>, sid: nat): seq<PunchResponse> {
    if log == [] then []
    else PostedTo(log[..|log| - 1], sid) + if log[|log| - 1].to == sid then [log[|log| - 1].response] else []
  }

  /** What the node of `sid` has got and will get is what was sent to it, up to the session's end. */
  ghost predicate Arrives(t: Session, posted: seq<PunchResponse>) {
    && t.got + Punches(t.down) <= posted
    && (t.open ==> t.got + Punches(t.down) == posted)
  }

  ghost predicate WireOk(s: System) {
    && (forall i | 0 <= i < |s.log| :: s.log[i].to in s.sessions)
    && (forall sid <- s.sessions :: Arrives(s.sessions[sid], PostedTo(s.log, sid)))
  }

  lemma {:induction false} PunchesAppend(down: seq<Down>, d: Down)
    ensures Punches(down + [d]) == Punches(down) + if d.Punch? then [d.response] else []
  {
    if down == [] {
      assert [d][1..] == [];
    } else {
      var rest := down[1..];
      var first := if down[0].Punch? then [down[0].response] else [];
      assert (down + [d])[0] == down[0] && (down + [d])[1..] == rest + [d];
      PunchesAppend(rest, d);
      assert Punches(down + [d]) == first + Punches(rest + [d]);
    }
  }

  lemma PostedNext(log: seq<Posted>, e: Posted, sid: nat)
    ensures PostedTo(log + [e], sid) == PostedTo(log, sid) + if e.to == sid then [e.response] else []
  {
    assert (log + [e])[..|log|] == log;
  }

  lemma {:induction false} NothingPosted(log: seq<Posted>, sid: nat)
    requires forall i | 0 <= i < |log| :: log[i].to != sid
    ensures PostedTo(log, sid) == []
  {
    if log != [] {
      NothingPosted(log[..|log| - 1], sid);
    }
  }

  /** A session that has the same messages and is not opened. */
  predicate SameWire(t: Session, t': Session) {
    t'.got + Punches(t'.down) == t.got + Punches(t.down) && (t'.open ==> t.open)
  }

  /** Nothing is sent or lost: every session has the same messages, and a new one none. */
  ghost predicate SameWires(s: System, s': System) {
    && s'.log == s.log
    && (forall sid <- s.sessions :: sid in s'.sessions && SameWire(s.sessions[sid], s'.sessions[sid]))
    && (forall sid <- s'.sessions :: sid in s.sessions || (s'.sessions[sid].got == [] && s'.sessions[sid].down == []))
  }

  lemma SessionStepsKeepWires(s: System, step: Step)
    requires Enabled(s, step) && (step.Login? || step.Leave?)
    ensures SameWires(s, Next(s, step))
  {
    hide ClosedIn, Punches;
    var name := if step.Login? then step.name else s.sessions[step.sid].name;
    ClosedKeeps(s.sessions, s.registry, name);
    ClosedNotReopened(s.sessions, s.registry, name);
  }

  lemma ClosedNotReopened(sessions: map<nat, Session>, registry: map<string, nat>, name: string)
    ensures var closed := ClosedIn(sessions, registry, name);
            closed.Keys == sessions.Keys && forall sid <- sessions :: closed[sid].open ==> sessions[sid].open
  {
  }

  lemma SilentStepsKeepWires(s: System, step: Step)
    requires Enabled(s, step) && !step.SendFirst? && !step.SendSecond? && !step.Write? && !step.NodeReceives?
    requires !step.Login? && !step.Leave?
    ensures SameWires(s, Next(s, step))
  {
    hide IdOf, Hits, Punches;
  }

  lemma WriteKeepsWires(s: System, h: nat)
    requires Enabled(s, Write(h))
    ensures SameWires(s, AfterWrite(s, h))
  {
    hide IdOf, Punches;
    var ticket := s.handlers[h].stage.ticket;
    PunchesAppend(s.sessions[s.handlers[h].stage.remote].down, DetectRequest(IdOf(ticket), ticket));
  }

  lemma PunchesHead(down: seq<Down>)
    requires down != []
    ensures Punches(down) == (if down[0].Punch? then [down[0].response] else []) + Punches(down[1..])
  {
  }

  lemma NodeReceivesKeepsWires(s: System, sid: nat)
    requires Enabled(s, NodeReceives(sid))
    ensures SameWires(s, AfterNodeReceives(s, sid))
  {
    hide Punches;
    var t := s.sessions[sid];
    PunchesHead(t.down);
    if t.down[0].Punch? {
      assert t.got + ([t.down[0].response] + Punches(t.down[1..]))
          == t.got + [t.down[0].response] + Punches(t.down[1..]);
    } else {
      assert [] + Punches(t.down[1..]) == Punches(t.down[1..]);
    }
  }

  /** A response goes to the log and to an open session's wire at once. */
  lemma PostKeepsWire(s: System, h: nat, to: nat, response: PunchResponse)
    requires WireOk(s) && to in s.sessions
    ensures var sessions := Post(s, to, response);
            && sessions.Keys == s.sessions.Keys
            && (forall sid <- sessions :: Arrives(sessions[sid], PostedTo(s.log + [Posted(h, to, response)], sid)))
  {
    hide IdOf, PostedTo, Punches;
    var sessions := Post(s, to, response);
    PunchesAppend(s.sessions[to].down, Punch(IdOf(s.issued + 1), response));
    forall sid <- sessions
      ensures Arrives(sessions[sid], PostedTo(s.log + [Posted(h, to, response)], sid))
    {
      PostedNext(s.log, Posted(h, to, response), sid);
      assert Arrives(s.sessions[sid], PostedTo(s.log, sid));
    }
  }

  lemma SendKeepsWire(s: System, step: Step)
    requires WireOk(s) && Enabled(s, step) && (step.SendFirst? || step.SendSecond?)
    ensures WireOk(Next(s, step))
  {
    hide Arrives, PostedTo, Punches, Post, Responses, IdOf;
    var s' := Next(s, step);
    var e := s'.log[|s.log|];
    PostKeepsWire(s, e.handler, e.to, e.response);
  }

  lemma SameWiresKeepWire(s: System, s': System)
    requires WireOk(s) && SameWires(s, s')
    ensures WireOk(s')
  {
    hide PostedTo, Punches;
    forall sid <- s'.sessions
      ensures Arrives(s'.sessions[sid], PostedTo(s'.log, sid))
    {
      if sid in s.sessions {
        assert Arrives(s.sessions[sid], PostedTo(s.log, sid));
      } else {
        NothingPosted(s.log, sid);
        NothingOnWire(s'.sessions[sid]);
      }
    }
  }

  lemma StepKeepsWire(s: System, step: Step)
    requires WireOk(s) && Enabled(s, step)
    ensures WireOk(Next(s, step))
  {
    hide WireOk, SameWires, AfterWrite, AfterNodeReceives;
    if step.SendFirst? || step.SendSecond? {
      SendKeepsWire(s, step);
    } else {
      if step.Write? {
        WriteKeepsWires(s, step.h);
      } else if step.NodeReceives? {
        NodeReceivesKeepsWires(s, step.sid);
      } else if step.Login? || step.Leave? {
        SessionStepsKeepWires(s, step);
      } else {
        SilentStepsKeepWires(s, step);
      }
      SameWiresKeepWire(s, Next(s, step));
    }
  }

  lemma NothingOnWire(t: Session)
    requires t.got == [] && t.down == []
    ensures Arrives(t, [])
  {
  }

  // ----- All runs -----

  const START := System(0, map[], map[], map[], [], map[], map[])

  /** A run in which no reply is matched more than 2^32 draws late. */
  ghost predicate IsRun(s: System, steps: seq<Step>)
    decreases |steps|
  {
    steps == [] || (Enabled(s, steps[0]) && Timely(s, steps[0]) && IsRun(Next(s, steps[0]), steps[1..]))
  }

  ghost function After(s: System, steps: seq<Step>): System
    requires IsRun(s, steps)
    decreases |steps|
  {
    if steps == [] then s else After(Next(s, steps[0]), steps[1..])
  }

  lemma {:induction false} RunKeepsInv(s: System, steps: seq<Step>)
    requires Inv(s) && IsRun(s, steps)
    ensures Inv(After(s, steps))
    decreases |steps|
  {
    hide Inv, Next, Enabled, Timely;
    if steps != [] {
      StepKeepsInv(s, steps[0]);
      RunKeepsInv(Next(s, steps[0]), steps[1..]);
    }
  }

  lemma {:induction false} RunKeepsNamed(s: System, steps: seq<Step>)
    requires Inv(s) && Named(s) && IsRun(s, steps)
    ensures Named(After(s, steps))
    decreases |steps|
  {
    hide Inv, Named, Next, Enabled, Timely;
    if steps != [] {
      StepKeepsInv(s, steps[0]);
      StepKeepsNamed(s, steps[0]);
      RunKeepsNamed(Next(s, steps[0]), steps[1..]);
    }
  }

  lemma StartInv()
    ensures Inv(START) && Named(START)
  {
  }

  /** Hub-side correlation, all runs: a response that `SendMessage` returned carries the id of the
      handler's own request, was produced by the node of the session the request went to, for that
      very request, and was returned to no other handler. */
  lemma RepliesReachTheirHandlers(steps: seq<Step>)
    requires IsRun(START, steps)
    ensures var s := After(START, steps);
            && (forall h <- s.handlers :: HasReply(s.handlers[h].stage) ==>
                  var stage := s.handlers[h].stage;
                  && stage.reply.id == IdOf(stage.ticket) && stage.reply.ticket == stage.ticket
                  && stage.ticket in s.reported
                  && s.reported[stage.ticket] == Report(stage.remote, stage.reply.mapping, stage.reply.ip))
            && (forall h, g | h in s.handlers && g in s.handlers && h != g
                              && HasReply(s.handlers[h].stage) && HasReply(s.handlers[g].stage) ::
                  s.handlers[h].stage.reply.ticket != s.handlers[g].stage.reply.ticket)
  {
    hide RequestsOk, RepliesOk, WaitersOk, LogOk, IdOf, Enabled, Timely, Next;
    StartInv();
    RunKeepsInv(START, steps);
    var s := After(START, steps);
    assert TicketsOk(s.handlers, s.issued, s.asked);
    assert forall h <- s.handlers :: HandlerOk(s.handlers[h], s.reported);
  }

  /** The two responses are each other's mirror image. */
  predicate Mirror(a: PunchResponse, b: PunchResponse) {
    && a.localIp == b.remoteIp && a.remoteIp == b.localIp
    && a.localNat == b.remoteNat && a.remoteNat == b.localNat
    && {a.localNat.role, a.remoteNat.role} == {ClientSide, ServerSide}
  }

  /** The punch protocol, all runs, any number of nodes and handlers: a completed handler has sent
      exactly two responses, one to each node, that mirror each other and were computed from the
      requester's mapping and the mapping that node reported for this handler's own request; any
      other handler has sent none, or the first. */
  lemma PunchProtocol(steps: seq<Step>, h: nat)
    requires IsRun(START, steps) && h in After(START, steps).handlers
    ensures var s := After(START, steps);
            var handler := s.handlers[h];
            var sent := Entries(s.log, h);
            && Known(s, h)
            && (handler.stage.Completed? ==>
                  && |sent| == 2
                  && sent[0].to == handler.session && sent[1].to == handler.stage.remote
                  && Mirror(sent[0].response, sent[1].response)
                  && sent[0].response.remotePeerName == s.sessions[handler.stage.remote].name
                  && sent[1].response.remotePeerName == s.sessions[handler.session].name
                  && handler.stage.ticket in s.reported
                  && var report := s.reported[handler.stage.ticket];
                     && report.session == handler.stage.remote
                     && sent[0].response.localIp == handler.req.localIp && sent[0].response.remoteIp == report.ip
                     && (sent[0].response.localNat, sent[0].response.remoteNat)
                        == PlanFor(handler.req.mapping, report.mapping))
            && (!handler.stage.Completed? ==> |sent| == if handler.stage.HalfSent? then 1 else 0)
  {
    hide RequestsOk, RepliesOk, WaitersOk, TicketsOk, PlanFor, Enabled, Timely, Next;
    StartInv();
    RunKeepsInv(START, steps);
    var s := After(START, steps);
    var handler := s.handlers[h];
    assert LogOk(h, handler, s.log, LocalName(s, h), RemoteName(s, h));
    assert HandlerOk(handler, s.reported);
    if handler.stage.Completed? {
      PlansComplementary(handler.req.mapping, handler.stage.reply.mapping);
    }
  }

  /** Whoever comes and goes between a handler's steps, the session it asks is one that logged in
      under the name in its request, and the requester is told that name. */
  lemma PunchesTheNamedPeer(steps: seq<Step>, h: nat)
    requires IsRun(START, steps) && h in After(START, steps).handlers
    ensures var s := After(START, steps);
            var handler := s.handlers[h];
            && (!handler.stage.Begin? && !handler.stage.GaveUp? ==>
                  Known(s, h) && s.sessions[handler.stage.remote].name == handler.req.peerName)
            && (handler.stage.Completed? ==>
                  |Entries(s.log, h)| == 2 && Entries(s.log, h)[0].response.remotePeerName == handler.req.peerName)
  {
    hide Inv, PlanFor, Enabled, Timely, Next, IsRun, After, Mirror, Entries;
    StartInv();
    RunKeepsNamed(START, steps);
    PunchProtocol(steps, h);
  }

  /** In every run the punch responses a node has got followed by those on their
      way to it are, in order, those that handlers sent to its session: all of them while the session
      is open, and those of a prefix of the run after it was closed. */
  lemma {:induction false} ResponsesArriveInOrder(steps: seq<Step>)
    requires IsRun(START, steps)
    ensures WireOk(After(START, steps))
  {
    RunKeepsWire(START, steps);
  }

  lemma {:induction false} RunKeepsWire(s: System, steps: seq<Step>)
    requires WireOk(s) && IsRun(s, steps)
    ensures WireOk(After(s, steps))
    decreases |steps|
  {
    hide WireOk, Next, Enabled, Timely;
    if steps != [] {
      StepKeepsWire(s, steps[0]);
      RunKeepsWire(Next(s, steps[0]), steps[1..]);
    }
  }

  lemma {:induction false} RunKeepsAsks(s: System, steps: seq<Step>)
    requires AsksOk(s) && IsRun(s, steps)
    ensures AsksOk(After(s, steps))
    decreases |steps|
  {
    hide AsksOk, Next, Enabled, Timely;
    if steps != [] {
      StepKeepsAsks(s, steps[0]);
      RunKeepsAsks(Next(s, steps[0]), steps[1..]);
    }
  }

  /** In every run each handler works on a punch request that the node of its session made, and no
      request gets two handlers. */
  lemma OneHandlerPerRequest(steps: seq<Step>, h: nat, g: nat)
    requires IsRun(START, steps)
    requires h in After(START, steps).handlers && g in After(START, steps).handlers
    ensures var s := After(START, steps);
            var (a, b) := (s.handlers[h], s.handlers[g]);
            && a.session in s.sessions && 0 <= a.nth < |s.sessions[a.session].asks|
            && a.req == s.sessions[a.session].asks[a.nth]
            && (a.session == b.session && a.nth == b.nth ==> h == g)
  {
    hide Next, Enabled, Timely, IsRun, After;
    RunKeepsAsks(START, steps);
  }
}
