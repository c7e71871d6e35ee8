/**
 A transport over a whole run. `Transports` shows that the objects, with their recycled buffers,
 make the steps of `Turn`, `Read` and `Take`; here those steps are interleaved in any order and the
 three queues are compared with the frames the connection carries.
 */
module Queues {
  import opened Basics
  import opened Frames
  import opened Reader
  import opened Transports

  /** `ReadRaw` comes with the length of the caller's buffer; `ReleaseTaken` is a dispatcher that stops
      and gives back everything it took. */
  datatype Op = LoopTurn | ReadRaw(room: nat) | TakeReq | TakeResp | ReleaseTaken | CloseOp

  /** What became of a raw packet taken from its queue. */
  datatype Handed = Copied(body: Bytes) | TooLong(body: Bytes)

  function Hand(body: Bytes, room: nat): Handed {
    if |body| <= room then Copied(body) else TooLong(body)
  }

  /** The bodies taken from the raw queue. */
  function Taken(raw: seq<Handed>): (bodies: seq<Bytes>)
    ensures |bodies| == |raw|
    ensures forall i | 0 <= i < |raw| :: bodies[i] == raw[i].body
  {
    seq(|raw|, i requires 0 <= i < |raw| => raw[i].body)
  }

  /** A transport and what its users have taken from each queue so far. */
  datatype Run = Run(view: Outside, raw: seq<Handed>, req: seq<Bytes>, resp: seq<Bytes>)

  /** One step. A receive on an empty queue does nothing: it blocks or reports the closed channel. */
  function Do(r: Run, op: Op): Run {
    var v := r.view;
    match op
    case LoopTurn => r.(view := Turn(v))
    case ReadRaw(room) =>
      if v.raw == [] then r else r.(view := v.(raw := v.raw[1..]), raw := r.raw + [Hand(v.raw[0], room)])
    case TakeReq =>
      if v.req == [] then r else r.(view := v.(req := v.req[1..]), req := r.req + [v.req[0]])
    case TakeResp =>
      if v.resp == [] then r else r.(view := v.(resp := v.resp[1..]), resp := r.resp + [v.resp[0]])
    case ReleaseTaken => r
    case CloseOp => r.(view := v.(done := true, broken := true))
  }

  function Execute(r: Run, ops: seq<Op>): Run
    decreases |ops|
  {
    if ops == [] then r else Execute(Do(r, ops[0]), ops[1..])
  }

  /** The bodies the read loop sends to the queue of `tag`: every raw frame, and every request or
      response with a body. */
  function Tagged(tag: uint16, frames: seq<Frame>): seq<Bytes> {
    if frames == [] then []
    else
      (if frames[0].tag == tag && (tag == RAW || frames[0].body != []) then [frames[0].body] else [])
      + Tagged(tag, frames[1..])
  }

  /** One pong for every ping and for nothing else. */
  function Pongs(frames: seq<Frame>): seq<Bytes> {
    if frames == [] then []
    else (if frames[0].tag == PING then [Encode(Frame(PONG, []))] else []) + Pongs(frames[1..])
  }

  /** What the users of each queue have received, followed by what is waiting for them. */
  function Delivered(r: Run, tag: uint16): seq<Bytes> {
    if tag == RAW then Taken(r.raw) + r.view.raw
    else if tag == REQ then r.req + r.view.req
    else if tag == RESP then r.resp + r.view.resp
    else []
  }

  const QUEUE_TAGS := {RAW, REQ, RESP}

  /** Delivered and still to come make up everything the queue of `tag` should get. */
  ghost predicate Whole(r: Run, tag: uint16, frames: seq<Frame>) {
    Delivered(r, tag) + Tagged(tag, Decoded(r.view.input)) == Tagged(tag, frames)
  }

  /** Pongs sent and pings still to come make up one pong for every ping. */
  ghost predicate Answered(r: Run, frames: seq<Frame>) {
    r.view.out + Pongs(Decoded(r.view.input)) == Pongs(frames)
  }

  /** The bookkeeping of a run over a connection that carries `frames`: nothing is delivered out of
      turn, and as long as nobody has called `Close` nothing is missing either. */
  ghost predicate Accounts(r: Run, frames: seq<Frame>, closable: bool) {
    && (forall tag <- QUEUE_TAGS :: Delivered(r, tag) <= Tagged(tag, frames))
    && r.view.done == r.view.broken
    && (r.view.done && !closable ==> Decoded(r.view.input) == [])
    && (!r.view.done || !closable ==> (forall tag <- QUEUE_TAGS :: Whole(r, tag, frames)) && Answered(r, frames))
  }

  lemma DecodedStep(v: Input)
    ensures var (o, v') := Unpack(v);
            Decoded(v) == match o
                          case Closed => []
                          case Malformed => Decoded(v')
                          case Got(f) => [f] + Decoded(v')
    ensures Unpack(v).0.Closed? ==> Decoded(Unpack(v).1) == []
  {
  }

  /** A decoded frame adds its body to the queue of its tag and to no other. */
  lemma SortDelivers(r: Run, f: Frame, tag: uint16)
    requires tag in QUEUE_TAGS && !r.view.done
    ensures Delivered(r.(view := Sort(r.view, f)), tag)
            == Delivered(r, tag) + if f.tag == tag && (tag == RAW || f.body != []) then [f.body] else []
  {
    hide Encode;
  }

  /** A frame moves from what is still to come to what its queue has delivered. */
  lemma MoveOver(tag: uint16, delivered: seq<Bytes>, f: Frame, later: seq<Frame>)
    ensures delivered + Tagged(tag, [f] + later)
            == (delivered + if f.tag == tag && (tag == RAW || f.body != []) then [f.body] else []) + Tagged(tag, later)
  {
    assert ([f] + later)[1..] == later;
  }

  /** A turn on an open transport keeps every queue whole. */
  lemma TurnKeepsWhole(r: Run, tag: uint16, frames: seq<Frame>)
    requires tag in QUEUE_TAGS && !r.view.done && Whole(r, tag, frames)
    ensures Whole(Do(r, LoopTurn), tag, frames)
  {
    hide Unpack, Decoded, Sort, Tagged, Delivered;
    DecodedStep(r.view.input);
    var (o, v') := Unpack(r.view.input);
    match o
    case Got(f) =>
      var fed := r.(view := r.view.(input := v', alive := MAX_ALIVE));
      MoveOver(tag, Delivered(r, tag), f, Decoded(v'));
      SameDelivered(r, fed, tag);
      SortDelivers(fed, f, tag);
      SortKeepsInput(fed.view, f);
    case Malformed =>
      SameDelivered(r, r.(view := r.view.(input := v')), tag);
    case Closed =>
      SameDelivered(r, r.(view := r.view.(input := v', done := true, broken := true)), tag);
  }

  /** What is delivered depends on the queues and the receivers alone. */
  lemma SameDelivered(r: Run, r': Run, tag: uint16)
    requires r.raw == r'.raw && r.req == r'.req && r.resp == r'.resp
    requires r.view.raw == r'.view.raw && r.view.req == r'.view.req && r.view.resp == r'.view.resp
    ensures Delivered(r, tag) == Delivered(r', tag)
  {
  }

  lemma SortKeepsInput(v: Outside, f: Frame)
    ensures Sort(v, f).input == v.input
  {
  }

  /** A decoded frame is answered if and only if it is a ping. */
  lemma SortAnswers(v: Outside, f: Frame)
    requires !v.done && !v.broken
    ensures Sort(v, f).out == v.out + if f.tag == PING then [Encode(Frame(PONG, []))] else []
  {
    hide Encode;
  }

  lemma TurnKeepsAnswered(r: Run, frames: seq<Frame>)
    requires !r.view.done && !r.view.broken && Answered(r, frames)
    ensures Answered(Do(r, LoopTurn), frames)
  {
    hide Unpack, Decoded, Encode, Sort;
    DecodedStep(r.view.input);
    var (o, v') := Unpack(r.view.input);
    if o.Got? {
      assert ([o.frame] + Decoded(v'))[1..] == Decoded(v');
      SortAnswers(r.view.(input := v', alive := MAX_ALIVE), o.frame);
      SortKeepsInput(r.view.(input := v', alive := MAX_ALIVE), o.frame);
    }
  }

  lemma WholeIsInTurn(r: Run, tag: uint16, frames: seq<Frame>)
    requires Whole(r, tag, frames)
    ensures Delivered(r, tag) <= Tagged(tag, frames)
  {
  }

  /** A closed transport decodes on, but delivers nothing more. */
  lemma TurnWhenDone(r: Run)
    requires r.view.done && r.view.broken
    ensures var r' := Do(r, LoopTurn);
            && r'.view.done && r'.view.broken && r'.view.out == r.view.out
            && (forall tag <- QUEUE_TAGS :: Delivered(r', tag) == Delivered(r, tag))
            && (Decoded(r.view.input) == [] ==> Decoded(r'.view.input) == [])
  {
    hide Unpack, Decoded, Encode;
    DecodedStep(r.view.input);
  }

  lemma TurnAccounts(r: Run, frames: seq<Frame>, closable: bool)
    requires Accounts(r, frames, closable)
    ensures Accounts(Do(r, LoopTurn), frames, closable)
  {
    hide Unpack, Decoded, Encode, Tagged, Pongs, Delivered, Turn;
    if r.view.done {
      TurnWhenDone(r);
    } else {
      var r' := Do(r, LoopTurn);
      TurnOnOpen(r);
      TurnKeepsAnswered(r, frames);
      forall tag <- QUEUE_TAGS
        ensures Whole(r', tag, frames) && Delivered(r', tag) <= Tagged(tag, frames)
      {
        TurnKeepsWhole(r, tag, frames);
        WholeIsInTurn(r', tag, frames);
      }
    }
  }

  /** An open transport closes exactly when the connection has ended. */
  lemma TurnOnOpen(r: Run)
    requires !r.view.done && !r.view.broken
    ensures var r' := Do(r, LoopTurn);
            && r'.view.done == r'.view.broken
            && (r'.view.done ==> Decoded(r'.view.input) == [])
  {
    hide Unpack, Decoded, Encode;
    DecodedStep(r.view.input);
  }

  lemma ReceiveAccounts(r: Run, op: Op, frames: seq<Frame>, closable: bool)
    requires Accounts(r, frames, closable) && (op.ReadRaw? || op.TakeReq? || op.TakeResp? || op.ReleaseTaken?)
    ensures Accounts(Do(r, op), frames, closable)
  {
    hide Decoded, Encode, Tagged, Pongs;
    var r' := Do(r, op);
    assert r'.view.input == r.view.input && r'.view.out == r.view.out;
    forall tag <- QUEUE_TAGS
      ensures Delivered(r', tag) == Delivered(r, tag)
    {
      ReceiveKeepsDelivered(r, op, tag);
    }
    hide Delivered, Do;
    assert forall tag <- QUEUE_TAGS :: Whole(r', tag, frames) == Whole(r, tag, frames);
  }

  lemma ReceiveKeepsDelivered(r: Run, op: Op, tag: uint16)
    requires (op.ReadRaw? || op.TakeReq? || op.TakeResp? || op.ReleaseTaken?)
    ensures Delivered(Do(r, op), tag) == Delivered(r, tag)
  {
  }

  lemma {:induction false} RunAccounts(r: Run, ops: seq<Op>, frames: seq<Frame>, closable: bool)
    requires Accounts(r, frames, closable) && (CloseOp in ops ==> closable)
    ensures Accounts(Execute(r, ops), frames, closable)
    decreases |ops|
  {
    hide Turn, Decoded, Accounts, Do;
    if ops != [] {
      StepAccounts(r, ops[0], frames, closable);
      RunAccounts(Do(r, ops[0]), ops[1..], frames, closable);
    }
  }

  lemma StepAccounts(r: Run, op: Op, frames: seq<Frame>, closable: bool)
    requires Accounts(r, frames, closable) && (op == CloseOp ==> closable)
    ensures Accounts(Do(r, op), frames, closable)
  {
    hide Turn, Decoded, Tagged, Pongs;
    match op
    case LoopTurn => TurnAccounts(r, frames, closable);
    case CloseOp =>
      assert forall tag <- QUEUE_TAGS :: Delivered(Do(r, op), tag) == Delivered(r, tag);
    case _ => ReceiveAccounts(r, op, frames, closable);
  }

  function Opened(input: Input): Run {
    Run(Outside(input, [], [], [], [], false, MAX_ALIVE, false), [], [], [])
  }

  /** Over every interleaving of the read loop with the receivers and with `Close`, what a queue has
      delivered is, body for body and in order, a prefix of what the frames with its tag carried;
      and without a `Close`, delivered and still undecoded frames make up the whole, and every ping
      has caused exactly one pong, a pong none. */
  lemma QueuesCarryTheirFrames(input: Input, ops: seq<Op>)
    ensures var end := Execute(Opened(input), ops);
            && (forall tag <- QUEUE_TAGS :: Delivered(end, tag) <= Tagged(tag, Decoded(input)))
            && (CloseOp !in ops ==>
                  (forall tag <- QUEUE_TAGS :: Whole(end, tag, Decoded(input))) && Answered(end, Decoded(input)))
  {
    hide Decoded, Tagged, Pongs, Execute;
    var start := Opened(input);
    assert forall tag <- QUEUE_TAGS :: Delivered(start, tag) == [];
    RunAccounts(start, ops, Decoded(input), CloseOp in ops);
  }

  lemma {:induction false} ExecuteNext(r: Run, ops: seq<Op>, op: Op)
    ensures Execute(r, ops + [op]) == Do(Execute(r, ops), op)
    decreases |ops|
  {
    hide Do;
    if ops == [] {
      assert [op][1..] == [] && [] + [op] == [op];
    } else {
      assert (ops + [op])[1..] == ops[1..] + [op];
      ExecuteNext(Do(r, ops[0]), ops[1..], op);
    }
  }

  /** One step hands over at most one raw packet, and only a read does. */
  lemma DoHands(r: Run, op: Op)
    ensures var r' := Do(r, op);
            && r.raw <= r'.raw
            && (|r'.raw| > |r.raw| ==>
                  && op.ReadRaw? && |r'.raw| == |r.raw| + 1 && r.view.raw != []
                  && r'.raw[|r.raw|].body == r.view.raw[0]
                  && (r'.raw[|r.raw|].Copied? <==> |r.view.raw[0]| <= op.room))
  {
    hide Turn;
  }

  /** Every raw packet handed over in a run was taken by one read of it, the `i`-th operation; it is the
      packet whose turn it was, and it was returned whole if and only if it fitted that read's buffer. */
  lemma {:induction false} HandedIfItFits(r: Run, ops: seq<Op>, k: nat) returns (i: nat)
    requires |r.raw| <= k < |Execute(r, ops).raw|
    ensures i < |ops| && ops[i].ReadRaw? && |Execute(r, ops[..i]).raw| == k
    ensures Execute(r, ops[..i]).view.raw != []
    ensures var h := Execute(r, ops).raw[k];
            && h.body == Execute(r, ops[..i]).view.raw[0]
            && (h.Copied? <==> |h.body| <= ops[i].room)
    decreases |ops|
  {
    hide Do, Execute;
    if ops == [] {
      assert Execute(r, []) == r by { ExecuteNothing(r); }
      assert false;
    } else {
      var init, op := ops[..|ops| - 1], ops[|ops| - 1];
      assert ops == init + [op];
      ExecuteNext(r, init, op);
      var before := Execute(r, init);
      DoHands(before, op);
      if k < |before.raw| {
        i := HandedIfItFits(r, init, k);
        assert init[..i] == ops[..i];
      } else {
        i := |ops| - 1;
      }
    }
  }

  lemma ExecuteNothing(r: Run)
    ensures Execute(r, []) == r
  {
  }

  // ----- Everything gets through -----

  function Times(n: nat, op: Op): (ops: seq<Op>)
    ensures |ops| == n && forall o <- ops :: o == op
  {
    seq(n, _ => op)
  }

  lemma {:induction false} ExecuteAppend(r: Run, a: seq<Op>, b: seq<Op>)
    ensures Execute(r, a + b) == Execute(Execute(r, a), b)
    decreases |a|
  {
    hide Do;
    if a == [] {
      assert a + b == b;
    } else {
      assert (a + b)[1..] == a[1..] + b;
      ExecuteAppend(Do(r, a[0]), a[1..], b);
    }
  }

  lemma ExecuteFirst(r: Run, n: nat, op: Op)
    requires n > 0
    ensures Execute(r, Times(n, op)) == Execute(Do(r, op), Times(n - 1, op))
  {
    hide Do;
    assert Times(n, op)[1..] == Times(n - 1, op);
  }

  /** Enough turns of the read loop decode whatever the connection carries, and take nothing from a queue. */
  lemma {:induction false} TurnsDecodeAll(r: Run) returns (n: nat)
    ensures var r' := Execute(r, Times(n, LoopTurn));
            && Decoded(r'.view.input) == []
            && r'.raw == r.raw && r'.req == r.req && r'.resp == r.resp
    decreases Measure(r.view.input)
  {
    hide Turn, Decoded, Execute;
    DecodedStep(r.view.input);
    TurnReads(r.view);
    if Unpack(r.view.input).0.Closed? {
      n := 1;
      ExecuteFirst(r, 1, LoopTurn);
      assert Times(0, LoopTurn) == [];
      ExecuteNothing(Do(r, LoopTurn));
    } else {
      n := TurnsDecodeAll(Do(r, LoopTurn));
      n := n + 1;
      ExecuteFirst(r, n, LoopTurn);
    }
  }

  lemma TurnReads(v: Outside)
    ensures Turn(v).input == Unpack(v.input).1
  {
    hide Unpack, Encode;
  }

  /** As many receives as there are bodies in a queue empty it, and touch nothing else of the view. */
  lemma {:induction false} ReadsDrain(r: Run, room: nat)
    ensures Execute(r, Times(|r.view.raw|, ReadRaw(room))).view == r.view.(raw := [])
    decreases |r.view.raw|
  {
    if r.view.raw == [] {
      assert Times(0, ReadRaw(room)) == [];
    } else {
      ExecuteFirst(r, |r.view.raw|, ReadRaw(room));
      ReadsDrain(Do(r, ReadRaw(room)), room);
    }
  }

  lemma {:induction false} RequestsDrain(r: Run)
    ensures Execute(r, Times(|r.view.req|, TakeReq)).view == r.view.(req := [])
    decreases |r.view.req|
  {
    if r.view.req == [] {
      assert Times(0, TakeReq) == [];
    } else {
      ExecuteFirst(r, |r.view.req|, TakeReq);
      RequestsDrain(Do(r, TakeReq));
    }
  }

  lemma {:induction false} ResponsesDrain(r: Run)
    ensures Execute(r, Times(|r.view.resp|, TakeResp)).view == r.view.(resp := [])
    decreases |r.view.resp|
  {
    if r.view.resp == [] {
      assert Times(0, TakeResp) == [];
    } else {
      ExecuteFirst(r, |r.view.resp|, TakeResp);
      ResponsesDrain(Do(r, TakeResp));
    }
  }

  /** Nothing is held up for ever: whatever has happened, as long as nobody has closed the transport, the
      read loop and the receivers can go on until every raw packet, request and response the connection
      carries has been received, in order and none twice, and every ping has been answered. */
  lemma EverythingCanBeReceived(input: Input, ops: seq<Op>, room: nat) returns (more: seq<Op>)
    requires CloseOp !in ops
    ensures CloseOp !in more && forall op <- more :: op.ReadRaw? ==> op.room == room
    ensures var (end, frames) := (Execute(Opened(input), ops + more), Decoded(input));
            && Taken(end.raw) == Tagged(RAW, frames)
            && end.req == Tagged(REQ, frames) && end.resp == Tagged(RESP, frames)
            && end.view.out == Pongs(frames)
  {
    hide Execute, Do, Decoded, Turn;
    var r := Execute(Opened(input), ops);
    var n := TurnsDecodeAll(r);
    var turns := Times(n, LoopTurn);
    var r1 := Execute(r, turns);
    var raws := Times(|r1.view.raw|, ReadRaw(room));
    ReadsDrain(r1, room);
    var r2 := Execute(r1, raws);
    var requests := Times(|r2.view.req|, TakeReq);
    RequestsDrain(r2);
    var r3 := Execute(r2, requests);
    var responses := Times(|r3.view.resp|, TakeResp);
    ResponsesDrain(r3);
    more := turns + raws + requests + responses;
    ExecuteAppend(r, turns, raws);
    ExecuteAppend(r, turns + raws, requests);
    ExecuteAppend(r, turns + raws + requests, responses);
    ExecuteAppend(Opened(input), ops, more);
    QueuesCarryTheirFrames(input, ops + more);
    NothingLeft(Execute(r3, responses), Decoded(input));
  }

  lemma NothingLeft(r: Run, frames: seq<Frame>)
    requires Decoded(r.view.input) == [] && r.view.raw == [] && r.view.req == [] && r.view.resp == []
    requires Answered(r, frames) && forall tag <- QUEUE_TAGS :: Whole(r, tag, frames)
    ensures Taken(r.raw) == Tagged(RAW, frames) && r.req == Tagged(REQ, frames) && r.resp == Tagged(RESP, frames)
    ensures r.view.out == Pongs(frames)
  {
    hide Decoded;
    assert RAW in QUEUE_TAGS && REQ in QUEUE_TAGS && RESP in QUEUE_TAGS;
    assert Whole(r, RAW, frames) && Whole(r, REQ, frames) && Whole(r, RESP, frames);
    assert Tagged(RAW, []) == Tagged(REQ, []) == Tagged(RESP, []) == Pongs([]) == [];
  }

  // ----- The objects over a whole run -----

  /** What the users of one transport have taken from its queues. */
  datatype Log = Log(raw: seq<Handed>, req: seq<Bytes>, resp: seq<Bytes>)

  const EMPTY_LOG := Log([], [], [])

  function RunOf(view: Outside, log: Log): Run {
    Run(view, log.raw, log.req, log.resp)
  }

  function Extended(log: Log, more: Log): Log {
    Log(log.raw + more.raw, log.req + more.req, log.resp + more.resp)
  }

  /** One step on the objects, and what it takes from the queues. */
  method Perform(t: Transport, op: Op) returns (more: Log)
    requires t.Valid()
    modifies t, t.reader, t.reader.buf, t.reader.conn, t.pool, t.sink, t.Channels(), t.Reach()
    ensures t.Valid() && forall x <- t.Reach() :: x in old(t.Reach()) || fresh(x)
    ensures Takes(old(t.View()), op, more, t.View())
  {
    hide Turn, Channel.Contents, Channel.Valid;
    more := EMPTY_LOG;
    match op
    case LoopTurn =>
      var running := t.ReadLoopTurn();
    case ReadRaw(room) =>
      if t.rawCh.items != [] {
        QueuedPacketsFit(t);
        var p := t.rawCh.items[0];
        var body := p.buf[HEADER_SIZE..HEADER_SIZE + p.length];
        var b := new byte[room];
        var n, ok := t.Read(b);
        more := more.(raw := [if ok then Copied(b[..n]) else TooLong(body)]);
      }
    case TakeReq =>
      if t.reqCh.items != [] {
        var body := t.Take(t.reqCh);
        more := more.(req := [body]);
      }
    case TakeResp =>
      if t.respCh.items != [] {
        var body := t.Take(t.respCh);
        more := more.(resp := [body]);
      }
    case ReleaseTaken =>
      t.ReleaseHeld();
    case CloseOp =>
      t.Close();
  }

  /** What a step takes from the queues and leaves behind. */
  ghost predicate Takes(v: Outside, op: Op, more: Log, v': Outside) {
    match op
    case LoopTurn => more == EMPTY_LOG && v' == Turn(v)
    case ReadRaw(room) =>
      if v.raw == [] then more == EMPTY_LOG && v' == v
      else more == Log([Hand(v.raw[0], room)], [], []) && v' == v.(raw := v.raw[1..])
    case TakeReq =>
      if v.req == [] then more == EMPTY_LOG && v' == v
      else more == Log([], [v.req[0]], []) && v' == v.(req := v.req[1..])
    case TakeResp =>
      if v.resp == [] then more == EMPTY_LOG && v' == v
      else more == Log([], [], [v.resp[0]]) && v' == v.(resp := v.resp[1..])
    case ReleaseTaken => more == EMPTY_LOG && v' == v
    case CloseOp => more == EMPTY_LOG && v' == v.(done := true, broken := true)
  }

  lemma DoTakes(v: Outside, log: Log, op: Op, more: Log, v': Outside)
    requires Takes(v, op, more, v')
    ensures Do(RunOf(v, log), op) == RunOf(v', Extended(log, more))
  {
    hide Turn;
    assert log.raw + [] == log.raw && log.req + [] == log.req && log.resp + [] == log.resp;
  }

  lemma QueuedPacketsFit(t: Transport)
    requires t.Valid()
    ensures |t.View().raw| == |t.rawCh.items|
    ensures forall i | 0 <= i < |t.View().raw| :: |t.View().raw[i]| <= MAX_PAYLOAD
    ensures forall i | 0 <= i < |t.View().raw| ::
              t.rawCh.items[i].Valid() && t.View().raw[i] == t.rawCh.items[i].Body()
  {
    forall i | 0 <= i < |t.View().raw|
      ensures |t.View().raw[i]| <= MAX_PAYLOAD
      ensures t.rawCh.items[i].Valid() && t.View().raw[i] == t.rawCh.items[i].Body()
    {
      assert t.rawCh.items[i] in t.rawCh.items;
    }
  }

  // ----- Many transports, one pool -----

  /** Any number of transports on one pool, each with its own connection and buffers. */
  ghost predicate Together(ts: seq<Transport>)
    reads *
  {
    && (forall i | 0 <= i < |ts| :: ts[i].Valid())
    && (forall i, j | 0 <= i < j < |ts| :: Apart(ts[i], ts[j]))
  }

  ghost function Views(ts: seq<Transport>): (views: seq<Outside>)
    requires Together(ts)
    reads *
    ensures |views| == |ts| && forall i | 0 <= i < |ts| :: ts[i].Valid() && views[i] == ts[i].View()
  {
    seq(|ts|, i requires 0 <= i < |ts| && Together(ts) reads * => ts[i].View())
  }

  /** Every buffer that is free or held by one of the transports. */
  ghost function AllReach(ts: seq<Transport>): set<array<byte>>
    reads *
  {
    set t, b | t in ts && b in t.Reach() :: b
  }

  lemma ApartBothWays(t: Transport, u: Transport)
    ensures Apart(t, u) <==> Apart(u, t)
  {
  }

  lemma OthersApart(ts: seq<Transport>, i: nat, j: nat)
    requires Together(ts) && i < |ts| && j < |ts| && i != j
    ensures ts[j].Valid() && Apart(ts[i], ts[j]) && ts[i].Reach() !! ts[j].Live()
  {
    ApartBothWays(ts[i], ts[j]);
  }

  lemma AllApart(ts: seq<Transport>, i: nat)
    requires Together(ts) && i < |ts|
    ensures forall j | 0 <= j < |ts| && j != i ::
              ts[j].Valid() && Apart(ts[i], ts[j]) && ts[i].Reach() !! ts[j].Live()
    ensures forall j, k | 0 <= j < k < |ts| && j != i && k != i :: Apart(ts[j], ts[k])
  {
    forall j | 0 <= j < |ts| && j != i
      ensures ts[j].Valid() && Apart(ts[i], ts[j]) && ts[i].Reach() !! ts[j].Live()
    {
      OthersApart(ts, i, j);
    }
  }

  /** Another transport is valid and holds the buffers it held. */
  method PerformApart(t: Transport, ghost others: set<Transport>, op: Op) returns (more: Log)
    requires t.Valid() && forall u <- others :: u.Valid() && Apart(t, u) && t.Reach() !! u.Live()
    modifies t, t.reader, t.reader.buf, t.reader.conn, t.pool, t.sink, t.Channels(), t.Reach()
    ensures t.Valid() && Takes(old(t.View()), op, more, t.View())
    ensures forall x <- t.Reach() :: x in old(t.Reach()) || fresh(x)
    ensures forall u <- others ::
              u.Valid() && old(u.Valid()) && u.Live() == old(u.Live()) && t.Reach() !! u.Live()
  {
    hide Channel.Contents, Takes;
    more := Perform(t, op);
    forall u <- others
      ensures u.Valid() && u.Live() == old(u.Live()) && t.Reach() !! u.Live()
    {
      assert u.Live() == old(u.Live());
    }
  }

  /** And it looks as it looked. */
  method PerformBeside(t: Transport, ghost others: set<Transport>, op: Op) returns (more: Log)
    requires t.Valid() && forall u <- others :: u.Valid() && Apart(t, u) && t.Reach() !! u.Live()
    modifies t, t.reader, t.reader.buf, t.reader.conn, t.pool, t.sink, t.Channels(), t.Reach()
    ensures t.Valid() && Takes(old(t.View()), op, more, t.View())
    ensures forall x <- t.Reach() :: x in old(t.Reach()) || fresh(x)
    ensures forall u <- others ::
              && u.Valid() && old(u.Valid()) && u.View() == old(u.View()) && u.Live() == old(u.Live())
              && Apart(t, u)
  {
    hide Channel.Contents, Takes;
    more := PerformApart(t, others, op);
    forall u <- others
      ensures Apart(t, u) && u.View() == old(u.View())
    {
      assert u.reader.View() == old(u.reader.View());
      assert u.rawCh.Contents() == old(u.rawCh.Contents());
      assert u.reqCh.Contents() == old(u.reqCh.Contents());
      assert u.respCh.Contents() == old(u.respCh.Contents());
    }
  }

  /** What one of many transports does leaves the others apart from it and from each other. */
  method PerformAmong(ts: seq<Transport>, i: nat, op: Op) returns (more: Log)
    requires Together(ts) && i < |ts| && ts[i].Valid()
    modifies ts[i], ts[i].reader, ts[i].reader.buf, ts[i].reader.conn, ts[i].pool, ts[i].sink,
             ts[i].Channels(), ts[i].Reach()
    ensures ts[i].Valid() && Takes(old(ts[i].View()), op, more, ts[i].View())
    ensures forall x <- ts[i].Reach() :: x in old(ts[i].Reach()) || fresh(x)
    ensures forall j | 0 <= j < |ts| && j != i ::
              && ts[j].Valid() && old(ts[j].Valid()) && Apart(ts[i], ts[j])
              && ts[j].View() == old(ts[j].View()) && ts[j].Live() == old(ts[j].Live())
    ensures forall j, k | 0 <= j < k < |ts| && j != i && k != i :: Apart(ts[j], ts[k])
  {
    hide Takes, Together, Parts, Transport.Valid, Transport.View, Transport.Reach, Transport.Live;
    ghost var others := set j | 0 <= j < |ts| && j != i :: ts[j];
    AllApart(ts, i);
    more := PerformBeside(ts[i], others, op);
    assert forall j | 0 <= j < |ts| && j != i :: ts[j] in others;
  }

  method PerformAt(ts: seq<Transport>, i: nat, op: Op) returns (more: Log)
    requires Together(ts) && i < |ts|
    modifies ts[i], ts[i].reader, ts[i].reader.buf, ts[i].reader.conn, ts[i].pool, ts[i].sink,
             ts[i].Channels(), ts[i].Reach()
    ensures Together(ts)
    ensures Views(ts) == old(Views(ts))[i := Views(ts)[i]] && Takes(old(Views(ts))[i], op, more, Views(ts)[i])
    ensures forall x <- AllReach(ts) :: x in old(AllReach(ts)) || fresh(x)
  {
    hide Takes, Together, AllReach, Apart, Transport.Valid, Transport.View, Transport.Reach, Transport.Live;
    ghost var others := OthersLive(ts, i);
    ReachOfAll(ts, i);
    MemberValid(ts, i);
    more := PerformAmong(ts, i, op);
    Reassembled(ts, i);
    assert OthersLive(ts, i) == others;
    ReachOfAll(ts, i);
  }

  lemma Reassembled(ts: seq<Transport>, i: nat)
    requires i < |ts| && ts[i].Valid()
    requires forall j | 0 <= j < |ts| && j != i :: ts[j].Valid() && Apart(ts[i], ts[j])
    requires forall j, k | 0 <= j < k < |ts| && j != i && k != i :: Apart(ts[j], ts[k])
    ensures Together(ts)
  {
    hide Apart, Transport.Valid;
    forall j, k | 0 <= j < k < |ts|
      ensures Apart(ts[j], ts[k])
    {
      if k == i {
        ApartBothWays(ts[j], ts[i]);
      }
    }
  }

  ghost function OthersLive(ts: seq<Transport>, i: nat): set<array<byte>>
    reads *
  {
    set j, b | 0 <= j < |ts| && j != i && b in ts[j].Live() :: b
  }

  /** The pool is shared: what all can reach is what one can, and what the others hold. */
  lemma ReachOfAll(ts: seq<Transport>, i: nat)
    requires Together(ts) && i < |ts|
    ensures AllReach(ts) == ts[i].Reach() + OthersLive(ts, i)
  {
    forall x <- AllReach(ts)
      ensures x in ts[i].Reach() + OthersLive(ts, i)
    {
      var t :| t in ts && x in t.Reach();
      var j :| 0 <= j < |ts| && ts[j] == t;
      if j != i {
        OthersApart(ts, i, j);
      }
    }
    forall x <- ts[i].Reach() + OthersLive(ts, i)
      ensures x in AllReach(ts)
    {
      if x in ts[i].Reach() {
        assert ts[i] in ts;
      } else {
        var j :| 0 <= j < |ts| && j != i && x in ts[j].Live();
        assert ts[j] in ts && x in ts[j].Reach();
      }
    }
  }

  lemma MemberValid(ts: seq<Transport>, i: nat)
    requires Together(ts) && i < |ts|
    ensures ts[i].Valid()
  {
  }

  /** The operations on the `i`-th transport. */
  function Only(i: nat, ops: seq<(nat, Op)>): seq<Op> {
    if ops == [] then []
    else
      var last := |ops| - 1;
      Only(i, ops[..last]) + if ops[last].0 == i then [ops[last].1] else []
  }

  lemma OnlyNext(i: nat, ops: seq<(nat, Op)>, k: nat)
    requires k < |ops|
    ensures Only(i, ops[..k + 1]) == Only(i, ops[..k]) + if ops[k].0 == i then [ops[k].1] else []
  {
    assert ops[..k + 1][..k] == ops[..k];
  }

  /** Every transport has got from `starts` to `views` by its own operations, its users taking `logs`. */
  ghost predicate InStep(starts: seq<Outside>, views: seq<Outside>, logs: seq<Log>, ops: seq<(nat, Op)>) {
    && |starts| == |views| == |logs|
    && forall i | 0 <= i < |starts| ::
         RunOf(views[i], logs[i]) == Execute(RunOf(starts[i], EMPTY_LOG), Only(i, ops))
  }

  lemma NothingDone(views: seq<Outside>, logs: seq<Log>)
    requires |logs| == |views| && forall i | 0 <= i < |logs| :: logs[i] == EMPTY_LOG
    ensures InStep(views, views, logs, [])
  {
  }

  lemma OneDone(starts: seq<Outside>, views: seq<Outside>, logs: seq<Log>, ops: seq<(nat, Op)>, k: nat,
                more: Log, view: Outside)
    requires k < |ops| && ops[k].0 < |starts| && InStep(starts, views, logs, ops[..k])
    requires Takes(views[ops[k].0], ops[k].1, more, view)
    ensures var i := ops[k].0;
            InStep(starts, views[i := view], logs[i := Extended(logs[i], more)], ops[..k + 1])
  {
    hide Takes, Do, Execute;
    var (i, op) := ops[k];
    DoTakes(views[i], logs[i], op, more, view);
    ExecuteNext(RunOf(starts[i], EMPTY_LOG), Only(i, ops[..k]), op);
    forall j | 0 <= j < |starts|
      ensures Only(j, ops[..k + 1]) == if j == i then Only(j, ops[..k]) + [op] else Only(j, ops[..k])
    {
      OnlyNext(j, ops, k);
      assert Only(j, ops[..k]) + [] == Only(j, ops[..k]);
    }
    hide Only;
  }

  /** Any number of transports that share one pool of buffers, their loops, receivers, dispatchers and
      closings interleaved in any order: each does what queues of byte strings of its own would do, and
      what its users take depends on the operations on that transport alone. */
  method Drive(ts: seq<Transport>, ops: seq<(nat, Op)>) returns (logs: seq<Log>)
    requires Together(ts) && forall k | 0 <= k < |ops| :: ops[k].0 < |ts|
    modifies ts, (set t | t in ts :: t.reader), (set t | t in ts :: t.reader.buf), (set t | t in ts :: t.reader.conn),
             (set t | t in ts :: t.pool), (set t | t in ts :: t.sink), (set t, c | t in ts && c in t.Channels() :: c),
             AllReach(ts)
    ensures Together(ts)
    ensures InStep(old(Views(ts)), Views(ts), logs, ops)
  {
    hide Takes, Together, InStep, Transport.View, Transport.Valid, Transport.Reach, Channel.Valid, Channel.Contents;
    logs := seq(|ts|, _ => EMPTY_LOG);
    NothingDone(Views(ts), logs);
    assert ops[..0] == [];
    for k := 0 to |ops|
      invariant Together(ts) && |logs| == |ts|
      invariant forall x <- AllReach(ts) :: x in old(AllReach(ts)) || fresh(x)
      invariant InStep(old(Views(ts)), Views(ts), logs, ops[..k])
    {
      var (i, op) := ops[k];
      ghost var views := Views(ts);
      var more := PerformAt(ts, i, op);
      OneDone(old(Views(ts)), views, logs, ops, k, more, Views(ts)[i]);
      logs := logs[i := Extended(logs[i], more)];
    }
    assert ops[..|ops|] == ops;
  }
}
