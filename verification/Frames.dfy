/**
 The wire format of pkg/proto/packet.go: a frame is a big-endian 16-bit tag, a big-endian 16-bit
 length and the payload. The module fixes the format, the full-read decoder that inverts it, and
 the writing side: `PackInto` sends a frame through a buffered writer, and the writer's capacity
 decides whether the frame reaches the connection in one piece.
 */
module Frames {

  newtype byte = x: int | 0 <= x < 256
  type Bytes = seq<byte>
  type uint16 = x: int | 0 <= x < 0x1_0000

  const HEADER_SIZE := 4
  const MAX_PAYLOAD := 8180
  /** The size given to the buffered writer and to every pooled buffer. */
  const FRAME_CAPACITY := HEADER_SIZE + MAX_PAYLOAD

  const RAW: uint16 := 11
  const REQ: uint16 := 12
  const RESP: uint16 := 13
  const PING: uint16 := 14
  const PONG: uint16 := 15

  datatype Frame = Frame(tag: uint16, body: Bytes)

  predicate Sendable(f: Frame) {
    |f.body| <= MAX_PAYLOAD
  }

  function FromBE16(hi: byte, lo: byte): uint16 {
    hi as int * 256 + lo as int
  }

  function BE16(x: uint16): (b: Bytes)
    ensures |b| == 2 && FromBE16(b[0], b[1]) == x
    ensures 256 * b[0] as int + b[1] as int == x
  {
    [(x / 256) as byte, (x % 256) as byte]
  }

  function Encode(f: Frame): (b: Bytes)
    requires Sendable(f)
    ensures |b| == HEADER_SIZE + |f.body|
    ensures FromBE16(b[0], b[1]) == f.tag && FromBE16(b[2], b[3]) == |f.body|
    ensures b[HEADER_SIZE..] == f.body
  {
    BE16(f.tag) + BE16(|f.body|) + f.body
  }

  /** Two bytes are determined by the number they stand for. */
  lemma BytesOfNumber(hi: byte, lo: byte)
    ensures BE16(FromBE16(hi, lo)) == [hi, lo]
  {
    hide BE16;
    var b := BE16(FromBE16(hi, lo));
    assert b[0] as int * 256 + b[1] as int == hi as int * 256 + lo as int;
    assert b == [b[0], b[1]];
  }

  lemma BareFrame(tag: uint16)
    requires tag < 256
    ensures Encode(Frame(tag, [])) == [0, tag as byte, 0, 0]
  {
    hide BE16;
    BytesOfNumber(0, tag as byte);
    BytesOfNumber(0, 0);
    assert FromBE16(0, tag as byte) == tag && FromBE16(0, 0) == 0;
  }

  /** The bytes a connection carries when the given frames are sent one after the other. */
  function Wire(frames: seq<Frame>): Bytes
    requires forall f <- frames :: Sendable(f)
  {
    if frames == [] then [] else Encode(frames[0]) + Wire(frames[1..])
  }

  /** What a reader that never returns a short read makes of a byte stream. It stops at the first
      incomplete or oversized frame. */
  function FullReadDecode(b: Bytes): seq<Frame> {
    if |b| < HEADER_SIZE then []
    else
      var length := FromBE16(b[2], b[3]);
      if length > MAX_PAYLOAD || |b| < HEADER_SIZE + length then []
      else [Frame(FromBE16(b[0], b[1]), b[HEADER_SIZE..HEADER_SIZE + length])]
           + FullReadDecode(b[HEADER_SIZE + length..])
  }

  lemma {:induction false} FullReadInvertsWire(frames: seq<Frame>)
    requires forall f <- frames :: Sendable(f)
    ensures FullReadDecode(Wire(frames)) == frames
  {
    if frames != [] {
      var e, rest := Encode(frames[0]), Wire(frames[1..]);
      assert (e + rest)[HEADER_SIZE..|e|] == e[HEADER_SIZE..] == frames[0].body;
      assert (e + rest)[|e|..] == rest;
      FullReadInvertsWire(frames[1..]);
    }
  }

  /** Two frame sequences with the same bytes are the same sequence. */
  lemma WireInjective(a: seq<Frame>, b: seq<Frame>)
    requires forall f <- a :: Sendable(f)
    requires forall f <- b :: Sendable(f)
    requires Wire(a) == Wire(b)
    ensures a == b
  {
    FullReadInvertsWire(a);
    FullReadInvertsWire(b);
  }

  // ----- The buffered writer -----

  /** What writing `p` through a buffer of `cap` bytes that already holds `pending` passes on to the
      connection, and what stays in the buffer. */
  function WriteThrough(cap: nat, pending: Bytes, p: Bytes): (r: (seq<Bytes>, Bytes))
    requires 0 < cap && |pending| <= cap
    ensures |r.1| <= cap
    ensures Flatten(r.0) + r.1 == pending + p
    decreases |pending|
  {
    if |p| <= cap - |pending| then ([], pending + p)
    else if pending == [] then
      assert [p][1..] == [];
      ([p], [])
    else
      var k := cap - |pending|;
      var (writes, rest) := WriteThrough(cap, [], p[k..]);
      var all := [pending + p[..k]] + writes;
      assert all[1..] == writes;
      assert p == p[..k] + p[k..];
      assert pending + p == pending + p[..k] + p[k..];
      assert Flatten(all) + rest == pending + p[..k] + (Flatten(writes) + rest);
      (all, rest)
  }

  function Flatten(writes: seq<Bytes>): Bytes {
    if writes == [] then [] else writes[0] + Flatten(writes[1..])
  }

  /** Flushing passes a non-empty buffer on as one write and does nothing otherwise. */
  function FlushWrites(pending: Bytes): seq<Bytes> {
    if pending == [] then [] else [pending]
  }

  /** The writes a frame causes when its three fields go through a writer of capacity `cap`. */
  function FrameWrites(cap: nat, f: Frame): seq<Bytes>
    requires 0 < cap && Sendable(f)
  {
    var (w1, p1) := WriteThrough(cap, [], BE16(f.tag));
    var (w2, p2) := WriteThrough(cap, p1, BE16(|f.body|));
    var (w3, p3) := WriteThrough(cap, p2, f.body);
    w1 + w2 + w3 + FlushWrites(p3)
  }

  lemma FitStep(cap: nat, pending: Bytes, p: Bytes)
    requires 0 < cap && |pending| + |p| <= cap
    ensures WriteThrough(cap, pending, p) == ([], pending + p)
  {
  }

  lemma SpillStep(cap: nat, pending: Bytes, p: Bytes)
    requires 0 < cap && |pending| <= cap && |p| > cap - |pending|
    ensures var k := if pending == [] then |p| else cap - |pending|;
            var (writes, rest) := WriteThrough(cap, [], p[k..]);
            WriteThrough(cap, pending, p) == ([pending + p[..k]] + writes, rest)
  {
    if pending == [] {
      assert p[|p|..] == [] && pending + p[..|p|] == p;
      assert WriteThrough(cap, [], []) == ([], []);
      assert [p] + [] == [p];
    }
  }

  /** The writes done lead to `goal`: what is left to write gives the rest of it. */
  ghost predicate Leads(goal: (seq<Bytes>, Bytes), cap: nat, done: seq<Bytes>, pending: Bytes, p: Bytes)
    requires 0 < cap && |pending| <= cap
  {
    var (writes, rest) := WriteThrough(cap, pending, p);
    goal == (done + writes, rest)
  }

  lemma NothingLeads(cap: nat, pending: Bytes, p: Bytes)
    requires 0 < cap && |pending| <= cap
    ensures Leads(WriteThrough(cap, pending, p), cap, [], pending, p)
  {
    hide WriteThrough;
    assert [] + WriteThrough(cap, pending, p).0 == WriteThrough(cap, pending, p).0;
  }

  lemma SpillLeads(goal: (seq<Bytes>, Bytes), cap: nat, done: seq<Bytes>, pending: Bytes, p: Bytes)
    requires 0 < cap && |pending| <= cap && |p| > cap - |pending| && Leads(goal, cap, done, pending, p)
    ensures var k := if pending == [] then |p| else cap - |pending|;
            Leads(goal, cap, done + [pending + p[..k]], [], p[k..])
  {
    hide WriteThrough;
    var k := if pending == [] then |p| else cap - |pending|;
    SpillStep(cap, pending, p);
    var writes := WriteThrough(cap, [], p[k..]).0;
    assert done + ([pending + p[..k]] + writes) == (done + [pending + p[..k]]) + writes;
  }

  lemma FitLeads(goal: (seq<Bytes>, Bytes), cap: nat, done: seq<Bytes>, pending: Bytes, p: Bytes)
    requires 0 < cap && |pending| + |p| <= cap && Leads(goal, cap, done, pending, p)
    ensures goal == (done, pending + p)
  {
    hide WriteThrough;
    FitStep(cap, pending, p);
    assert done + [] == done;
  }

  /** A frame reaches the connection as one write exactly when it fits the writer's buffer: the
      capacity the code picks is the smallest that keeps every sendable frame whole. */
  lemma OneWriteIffFits(cap: nat, f: Frame)
    requires HEADER_SIZE <= cap && Sendable(f)
    ensures |FrameWrites(cap, f)| == 1 <==> |Encode(f)| <= cap
    ensures |Encode(f)| <= cap ==> FrameWrites(cap, f) == [Encode(f)]
  {
    var h := BE16(f.tag) + BE16(|f.body|);
    assert WriteThrough(cap, [], BE16(f.tag)) == ([], BE16(f.tag)) by {
      assert [] + BE16(f.tag) == BE16(f.tag);
    }
    assert WriteThrough(cap, BE16(f.tag), BE16(|f.body|)) == ([], h);
    var (w3, p3) := WriteThrough(cap, h, f.body);
    assert FrameWrites(cap, f) == w3 + FlushWrites(p3);
    if |f.body| > cap - |h| {
      var k := cap - |h|;
      var (writes, rest) := WriteThrough(cap, [], f.body[k..]);
      assert w3 == [h + f.body[..k]] + writes && p3 == rest;
      assert Flatten(writes) + rest == [] + f.body[k..];
      assert writes != [] || rest != [];
    }
  }

  /** The connection's sending half: the writes it accepted, in order. A broken one refuses all. */
  class Sink {
    var writes: seq<Bytes>
    var broken: bool

    constructor ()
      ensures writes == [] && !broken
    {
      writes, broken := [], false;
    }

    method Write(p: Bytes) returns (ok: bool)
      modifies this`writes
      ensures ok == !broken
      ensures writes == if ok then old(writes) + [p] else old(writes)
    {
      ok := !broken;
      if ok {
        writes := writes + [p];
      }
    }
  }

  /** The standard library's buffered writer, as far as `PackInto` uses it. */
  class BufferedWriter {
    const sink: Sink
    const buf: array<byte>
    var n: nat
    var failed: bool

    ghost predicate Valid()
      reads this
    {
      0 < buf.Length && n <= buf.Length
    }

    ghost function Pending(): Bytes
      requires Valid()
      reads this, buf
    {
      buf[..n]
    }

    constructor (sink: Sink, size: nat)
      requires 0 < size
      ensures Valid() && fresh(buf) && this.sink == sink && buf.Length == size
      ensures Pending() == [] && !failed
    {
      this.sink := sink;
      buf := new byte[size];
      n, failed := 0, false;
    }

    method Flush()
      requires Valid()
      modifies this, sink`writes
      ensures Valid()
      ensures failed == (old(failed) || (old(n) > 0 && sink.broken))
      ensures !failed ==> sink.writes == old(sink.writes) + FlushWrites(old(Pending())) && Pending() == []
      ensures failed ==> sink.writes == old(sink.writes)
    {
      if failed || n == 0 {
        return;
      }
      var ok := sink.Write(buf[..n]);
      if ok {
        n := 0;
      } else {
        failed := true;
      }
    }

    /** Copies `p` behind the pending bytes; the caller has made sure that it fits. */
    method Fill(p: Bytes)
      requires Valid() && n + |p| <= buf.Length
      modifies this`n, buf
      ensures Valid() && n == old(n) + |p| && Pending() == old(Pending()) + p
    {
      forall i | 0 <= i < |p| {
        buf[n + i] := p[i];
      }
      n := n + |p|;
      assert forall i | 0 <= i < |p| :: buf[old(n) + i] == p[i];
    }

    /** One turn of the loop in `Write`, for bytes that do not fit behind the pending ones. */
    method Spill(p: Bytes) returns (rest: Bytes)
      requires Valid() && !failed && |p| > buf.Length - n
      modifies this, buf, sink`writes
      ensures Valid() && failed == sink.broken && |rest| <= |p|
      ensures failed ==> sink.writes == old(sink.writes)
      ensures !failed ==>
                var k := if old(n) == 0 then |p| else buf.Length - old(n);
                && rest == p[k..] && n == 0
                && sink.writes == old(sink.writes) + [old(Pending()) + p[..k]]
    {
      rest := p;
      if n == 0 {
        var ok := sink.Write(p);
        if ok {
          rest := [];
          assert Pending() + p[..|p|] == p;
        } else {
          failed := true;
        }
      } else {
        var k := buf.Length - n;
        Fill(p[..k]);
        assert Pending() == old(Pending()) + p[..k] != [];
        Flush();
        rest := p[k..];
      }
    }

    method Write(p: Bytes)
      requires Valid()
      modifies this, buf, sink`writes
      ensures Valid() && (old(failed) ==> failed) && (failed ==> old(failed) || sink.broken)
      ensures !failed ==>
                var (writes, rest) := WriteThrough(buf.Length, old(Pending()), p);
                sink.writes == old(sink.writes) + writes && Pending() == rest
      ensures failed ==> sink.writes == old(sink.writes)
    {
      hide WriteThrough, Leads;
      var rest := p;
      ghost var done: seq<Bytes> := [];
      ghost var goal := WriteThrough(buf.Length, Pending(), p);
      NothingLeads(buf.Length, Pending(), p);
      while |rest| > buf.Length - n && !failed
        invariant Valid() && (old(failed) ==> failed) && (failed ==> old(failed) || sink.broken)
        invariant !failed ==> sink.writes == old(sink.writes) + done && Leads(goal, buf.Length, done, Pending(), rest)
        invariant failed || sink.broken ==> sink.writes == old(sink.writes)
        decreases !failed, n, |rest|
      {
        ghost var k := if n == 0 then |rest| else buf.Length - n;
        SpillLeads(goal, buf.Length, done, Pending(), rest);
        done := done + [Pending() + rest[..k]];
        rest := Spill(rest);
        assert !failed ==> Pending() == [];
      }
      if !failed {
        FitLeads(goal, buf.Length, done, Pending(), rest);
        Fill(rest);
      }
    }
  }

  /** `PackRaw` followed by the three buffered writes and the flush. A payload over the limit is an
      error before anything is written; otherwise the whole frame is one write on the connection. */
  method PackInto(tag: uint16, payload: Bytes, sink: Sink) returns (ok: bool)
    modifies sink`writes
    ensures ok == (|payload| <= MAX_PAYLOAD && !sink.broken)
    ensures sink.writes ==
            if ok then old(sink.writes) + [Encode(Frame(tag, payload))] else old(sink.writes)
  {
    if |payload| > MAX_PAYLOAD {
      return false;
    }
    var writer := new BufferedWriter(sink, FRAME_CAPACITY);
    ghost var f := Frame(tag, payload);
    OneWriteIffFits(FRAME_CAPACITY, f);
    writer.Write(BE16(tag));
    writer.Write(BE16(|payload|));
    writer.Write(payload);
    writer.Flush();
    ok := !writer.failed;
  }

  // ----- Concurrent writers -----

  /** Any number of writers share a connection. `todo[w]` is what writer `w` still has to hand to it, in
      order, and the schedule names the writer of each successive item. */
  ghost predicate Schedules<T>(todo: seq<seq<T>>, schedule: seq<nat>)
    decreases |schedule|
  {
    if schedule == [] then forall w | 0 <= w < |todo| :: todo[w] == []
    else
      var w := schedule[0];
      w < |todo| && todo[w] != [] && Schedules(todo[w := todo[w][1..]], schedule[1..])
  }

  ghost function Sent<T>(todo: seq<seq<T>>, schedule: seq<nat>): (sent: seq<T>)
    requires Schedules(todo, schedule)
    ensures |sent| == |schedule|
    decreases |schedule|
  {
    if schedule == [] then []
    else
      var w := schedule[0];
      [todo[w][0]] + Sent(todo[w := todo[w][1..]], schedule[1..])
  }

  /** The items among `items` that the schedule attributes to writer `w`. */
  ghost function PartOf<T>(w: nat, schedule: seq<nat>, items: seq<T>): seq<T>
    requires |schedule| == |items|
  {
    if schedule == [] then []
    else (if schedule[0] == w then [items[0]] else []) + PartOf(w, schedule[1..], items[1..])
  }

  /** The items on the connection are a merge that keeps each writer's order. */
  lemma {:induction false} SentIsMerge<T>(todo: seq<seq<T>>, schedule: seq<nat>)
    requires Schedules(todo, schedule)
    ensures forall w | 0 <= w < |todo| :: PartOf(w, schedule, Sent(todo, schedule)) == todo[w]
    decreases |schedule|
  {
    if schedule != [] {
      var v := schedule[0];
      var todo' := todo[v := todo[v][1..]];
      var sent, sent' := Sent(todo, schedule), Sent(todo', schedule[1..]);
      SentIsMerge(todo', schedule[1..]);
      assert sent[1..] == sent';
      forall w | 0 <= w < |todo|
        ensures PartOf(w, schedule, sent) == todo[w]
      {
        assert PartOf(w, schedule[1..], sent') == todo'[w];
      }
    }
  }

  ghost predicate AllSendable(todo: seq<seq<Frame>>) {
    forall w, i | 0 <= w < |todo| && 0 <= i < |todo[w]| :: Sendable(todo[w][i])
  }

  /** The writes on the connection that sending `frames` causes, one `PackInto` after the other, each
      through a buffer of `cap` bytes. */
  function WritesOf(cap: nat, frames: seq<Frame>): seq<Bytes>
    requires 0 < cap && forall f <- frames :: Sendable(f)
  {
    if frames == [] then [] else FrameWrites(cap, frames[0]) + WritesOf(cap, frames[1..])
  }

  ghost function AllWrites(cap: nat, todo: seq<seq<Frame>>): (writes: seq<seq<Bytes>>)
    requires 0 < cap && AllSendable(todo)
    ensures |writes| == |todo|
    ensures forall w | 0 <= w < |todo| :: (forall f <- todo[w] :: Sendable(f)) && writes[w] == WritesOf(cap, todo[w])
  {
    seq(|todo|, w requires 0 <= w < |todo| =>
      assert forall f <- todo[w] :: Sendable(f);
      WritesOf(cap, todo[w]))
  }

  /** What a connection carries if every write of every writer is scheduled on its own. */
  ghost function Stream(cap: nat, todo: seq<seq<Frame>>, schedule: seq<nat>): Bytes
    requires 0 < cap && AllSendable(todo) && Schedules(AllWrites(cap, todo), schedule)
  {
    Flatten(Sent(AllWrites(cap, todo), schedule))
  }

  /** Full-read decoding gives back every frame whole, and each writer's frames in its order, for some
      order of the writers. */
  ghost predicate ArrivesWhole(stream: Bytes, todo: seq<seq<Frame>>) {
    exists turns: seq<nat> ::
      |turns| == |FullReadDecode(stream)|
      && Schedules(todo, turns) && Sent(todo, turns) == FullReadDecode(stream)
  }

  lemma {:induction false} OneWriteEach(cap: nat, frames: seq<Frame>)
    requires 0 < cap && forall f <- frames :: Sendable(f) && |Encode(f)| <= cap
    ensures |WritesOf(cap, frames)| == |frames|
    ensures forall i | 0 <= i < |frames| :: WritesOf(cap, frames)[i] == Encode(frames[i])
  {
    hide FrameWrites;
    if frames != [] {
      var f := frames[0];
      assert f in frames && HEADER_SIZE <= |Encode(f)| <= cap;
      OneWriteIffFits(cap, f);
      OneWriteEach(cap, frames[1..]);
    }
  }

  /** If the writers' writes are the encodings of frames, one each, so is what is sent. */
  lemma {:induction false} SentEncodings(todo: seq<seq<Frame>>, writes: seq<seq<Bytes>>, schedule: seq<nat>)
    requires AllSendable(todo) && Schedules(writes, schedule) && |writes| == |todo|
    requires forall w | 0 <= w < |todo| :: |writes[w]| == |todo[w]|
    requires forall w, i | 0 <= w < |todo| && 0 <= i < |todo[w]| :: writes[w][i] == Encode(todo[w][i])
    ensures Schedules(todo, schedule) && forall f <- Sent(todo, schedule) :: Sendable(f)
    ensures Flatten(Sent(writes, schedule)) == Wire(Sent(todo, schedule))
    decreases |schedule|
  {
    hide Encode;
    if schedule == [] {
      assert Wire([]) == [] && Flatten([]) == [];
    } else {
      var w := schedule[0];
      var todo', writes' := todo[w := todo[w][1..]], writes[w := writes[w][1..]];
      SentEncodings(todo', writes', schedule[1..]);
      assert Sent(todo, schedule)[1..] == Sent(todo', schedule[1..]);
      assert Sent(writes, schedule)[1..] == Sent(writes', schedule[1..]);
    }
  }

  /** As long as every frame fits the buffer: however the writes interleave, full-read decoding of the
      connection's bytes gives back every frame whole, and each writer's frames in the order it sent
      them. */
  lemma WritersNeverTear(cap: nat, todo: seq<seq<Frame>>, schedule: seq<nat>)
    requires 0 < cap && AllSendable(todo)
    requires forall w, i | 0 <= w < |todo| && 0 <= i < |todo[w]| :: |Encode(todo[w][i])| <= cap
    requires Schedules(AllWrites(cap, todo), schedule)
    ensures var decoded := FullReadDecode(Stream(cap, todo, schedule));
            && |decoded| == |schedule| && Schedules(todo, schedule) && decoded == Sent(todo, schedule)
            && forall w | 0 <= w < |todo| :: PartOf(w, schedule, decoded) == todo[w]
    ensures ArrivesWhole(Stream(cap, todo, schedule), todo)
  {
    hide Encode, FullReadDecode, Wire, PartOf, WritesOf;
    var writes := AllWrites(cap, todo);
    forall w | 0 <= w < |todo|
      ensures |writes[w]| == |todo[w]|
      ensures forall i | 0 <= i < |todo[w]| :: writes[w][i] == Encode(todo[w][i])
    {
      OneWriteEach(cap, todo[w]);
    }
    SentEncodings(todo, writes, schedule);
    SentIsMerge(todo, schedule);
    FullReadInvertsWire(Sent(todo, schedule));
  }

  /** The capacity the code picks is enough for everything it accepts. */
  lemma CapacityIsEnough(todo: seq<seq<Frame>>, schedule: seq<nat>)
    requires AllSendable(todo) && Schedules(AllWrites(FRAME_CAPACITY, todo), schedule)
    ensures ArrivesWhole(Stream(FRAME_CAPACITY, todo, schedule), todo)
  {
    hide ArrivesWhole, Stream, Schedules, WritesOf;
    WritersNeverTear(FRAME_CAPACITY, todo, schedule);
  }

  // ----- A smaller buffer -----

  lemma {:induction false} FlattenAppend(a: seq<Bytes>, b: seq<Bytes>)
    ensures Flatten(a + b) == Flatten(a) + Flatten(b)
  {
    if a == [] {
      assert a + b == b;
    } else {
      assert (a + b)[1..] == a[1..] + b;
      FlattenAppend(a[1..], b);
    }
  }

  predicate NoneEmpty(writes: seq<Bytes>) {
    forall i | 0 <= i < |writes| :: writes[i] != []
  }

  lemma {:induction false} WritesAreNotEmpty(cap: nat, pending: Bytes, p: Bytes)
    requires 0 < cap && |pending| <= cap
    ensures NoneEmpty(WriteThrough(cap, pending, p).0)
    decreases |pending|
  {
    if |p| > cap - |pending| && pending != [] {
      WritesAreNotEmpty(cap, [], p[cap - |pending|..]);
    }
  }

  lemma Joined(a: Bytes, p: Bytes, b: Bytes, q: Bytes, c: Bytes, r: Bytes, x: Bytes, y: Bytes, z: Bytes)
    requires a + p == x && b + q == p + y && c + r == q + z
    ensures a + b + c + r == x + y + z
  {
    calc {
      a + b + c + r;
      a + b + (c + r);
      a + b + (q + z);
      a + (b + q) + z;
      a + (p + y) + z;
      a + p + y + z;
    }
  }

  /** Whatever the buffer, a frame's writes are not empty and make up the frame. */
  lemma FrameWritesAreTheFrame(cap: nat, f: Frame)
    requires 0 < cap && Sendable(f)
    ensures NoneEmpty(FrameWrites(cap, f)) && Flatten(FrameWrites(cap, f)) == Encode(f)
  {
    hide WriteThrough, BE16, Flatten;
    var tag, length := BE16(f.tag), BE16(|f.body|);
    var (w1, p1) := WriteThrough(cap, [], tag);
    var (w2, p2) := WriteThrough(cap, p1, length);
    var (w3, p3) := WriteThrough(cap, p2, f.body);
    WritesAreNotEmpty(cap, [], tag);
    WritesAreNotEmpty(cap, p1, length);
    WritesAreNotEmpty(cap, p2, f.body);
    FlattenAppend(w1 + w2 + w3, FlushWrites(p3));
    FlattenAppend(w1 + w2, w3);
    FlattenAppend(w1, w2);
    Flushed(p3);
    assert [] + tag == tag;
    Joined(Flatten(w1), p1, Flatten(w2), p2, Flatten(w3), p3, tag, length, f.body);
  }

  lemma Flushed(pending: Bytes)
    ensures Flatten(FlushWrites(pending)) == pending && NoneEmpty(FlushWrites(pending))
  {
    if pending != [] {
      assert [pending][1..] == [];
    }
  }

  /** A frame that does not fit is more than one write. */
  lemma SpilledIsSplit(cap: nat, f: Frame)
    requires Sendable(f) && 0 < cap < |Encode(f)|
    ensures |FrameWrites(cap, f)| > 1
  {
    hide FrameWrites;
    FrameWritesAreTheFrame(cap, f);
    assert Flatten([]) == [];
    if cap >= HEADER_SIZE {
      OneWriteIffFits(cap, f);
    } else {
      TinyBufferSplits(cap, f);
    }
  }

  lemma TinyBufferSplits(cap: nat, f: Frame)
    requires 0 < cap < HEADER_SIZE && Sendable(f)
    ensures |FrameWrites(cap, f)| > 1
  {
    hide WriteThrough;
    var tag, length := BE16(f.tag), BE16(|f.body|);
    var (w1, p1) := WriteThrough(cap, [], tag);
    var (w2, p2) := WriteThrough(cap, p1, length);
    var (w3, p3) := WriteThrough(cap, p2, f.body);
    var spill := if p1 == [] then 2 else cap - |p1|;
    if cap == 1 {
      SpillStep(cap, [], tag);
      assert tag[2..] == [];
    } else {
      FitStep(cap, [], tag);
      assert [] + tag == tag;
    }
    SpillStep(cap, p1, length);
    FitStep(cap, [], length[spill..]);
    FitStep(cap, [], []);
    assert Flatten(w3) + p3 == p2 + f.body;
    assert w3 == [] ==> Flatten(w3) == [];
  }

  /** `n` turns of writer `w`. */
  function Turns(w: nat, n: nat): seq<nat> {
    seq(n, _ => w)
  }

  lemma OneTurn<T>(todo: seq<seq<T>>, w: nat, rest: seq<nat>)
    requires w < |todo| && todo[w] != [] && Schedules(todo[w := todo[w][1..]], rest)
    ensures Schedules(todo, [w] + rest)
    ensures Sent(todo, [w] + rest) == [todo[w][0]] + Sent(todo[w := todo[w][1..]], rest)
  {
    assert ([w] + rest)[1..] == rest;
  }

  lemma NothingToSend<T>(x: seq<T>, y: seq<T>)
    requires x == [] && y == []
    ensures Schedules([x, y], []) && Sent([x, y], []) == []
  {
  }

  lemma {:induction false} SecondThenFirst<T>(x: seq<T>, y: seq<T>)
    ensures Schedules([x, y], Turns(1, |y|) + Turns(0, |x|))
    ensures Sent([x, y], Turns(1, |y|) + Turns(0, |x|)) == y + x
    decreases |x| + |y|
  {
    hide Schedules, Sent;
    var schedule := Turns(1, |y|) + Turns(0, |x|);
    if y != [] {
      var rest := Turns(1, |y| - 1) + Turns(0, |x|);
      SecondThenFirst(x, y[1..]);
      assert [x, y][1 := y[1..]] == [x, y[1..]];
      OneTurn([x, y], 1, rest);
      assert schedule == [1] + rest;
    } else if x != [] {
      var rest := Turns(1, 0) + Turns(0, |x| - 1);
      SecondThenFirst(x[1..], y);
      assert [x, y][0 := x[1..]] == [x[1..], y];
      OneTurn([x, y], 0, rest);
      assert schedule == [0] + rest;
      assert [x[0]] + ([] + x[1..]) == x;
    } else {
      NothingToSend(x, y);
      assert schedule == [];
    }
  }

  /** The second writer gets in between the first two writes of the first. */
  lemma CutIn<T>(x: seq<T>, y: seq<T>)
    requires x != []
    ensures var schedule := [0] + (Turns(1, |y|) + Turns(0, |x| - 1));
            Schedules([x, y], schedule) && Sent([x, y], schedule) == [x[0]] + (y + x[1..])
  {
    SecondThenFirst(x[1..], y);
    assert [x, y][0 := x[1..]] == [x[1..], y];
    OneTurn([x, y], 0, Turns(1, |y|) + Turns(0, |x| - 1));
  }

  lemma FirstFrame(b: Bytes)
    requires FullReadDecode(b) != []
    ensures var f := FullReadDecode(b)[0];
            && Sendable(f) && |Encode(f)| <= |b| && Encode(f) == b[..|Encode(f)|]
            && FullReadDecode(b) == [f] + FullReadDecode(b[|Encode(f)|..])
  {
    hide BE16, FromBE16;
    var tag, length := FromBE16(b[0], b[1]), FromBE16(b[2], b[3]);
    var body := b[HEADER_SIZE..HEADER_SIZE + length];
    BytesOfNumber(b[0], b[1]);
    BytesOfNumber(b[2], b[3]);
    assert Encode(Frame(tag, body)) == [b[0], b[1]] + [b[2], b[3]] + body;
    assert b[..HEADER_SIZE + length] == [b[0], b[1]] + [b[2], b[3]] + body;
  }

  lemma WireFirst(f: Frame, frames: seq<Frame>)
    requires Sendable(f) && forall g <- frames :: Sendable(g)
    ensures Wire([f] + frames) == Encode(f) + Wire(frames)
  {
    assert ([f] + frames)[1..] == frames;
  }

  /** What full reads decode is what the bytes begin with. */
  lemma {:induction false} DecodedIsPrefix(b: Bytes)
    ensures forall f <- FullReadDecode(b) :: Sendable(f)
    ensures Wire(FullReadDecode(b)) <= b
  {
    hide Encode, FullReadDecode, Wire;
    if FullReadDecode(b) == [] {
      assert Wire([]) == [] by { NoWire(); }
    } else {
      FirstFrame(b);
      var f := FullReadDecode(b)[0];
      var rest := b[|Encode(f)|..];
      DecodedIsPrefix(rest);
      WireFirst(f, FullReadDecode(rest));
      assert b == Encode(f) + rest;
    }
  }

  lemma NoWire()
    ensures Wire([]) == []
  {
  }

  lemma SomeTurn<T>(todo: seq<seq<T>>, schedule: seq<nat>, w: nat)
    requires Schedules(todo, schedule) && w < |todo| && todo[w] != []
    ensures schedule != [] && schedule[0] < |todo| && todo[schedule[0]] != []
    ensures Schedules(todo[schedule[0] := todo[schedule[0]][1..]], schedule[1..])
  {
  }

  /** Two writers of one frame each have two orders. */
  lemma WholePair(stream: Bytes, f: Frame, g: Frame)
    requires ArrivesWhole(stream, [[f], [g]])
    ensures FullReadDecode(stream) in {[f, g], [g, f]}
  {
    hide FullReadDecode;
    var turns: seq<nat> :| |turns| == |FullReadDecode(stream)|
                           && Schedules([[f], [g]], turns) && Sent([[f], [g]], turns) == FullReadDecode(stream);
    var todo := [[f], [g]];
    SomeTurn(todo, turns, 0);
    var w := turns[0];
    var todo' := todo[w := todo[w][1..]];
    var turns' := turns[1..];
    assert todo'[1 - w] != [] && todo'[w] == [];
    SomeTurn(todo', turns', 1 - w);
    var v := turns'[0];
    assert todo'[v] != [] && v == 1 - w;
    var todo'' := todo'[v := todo'[v][1..]];
    assert todo''[0] == [] && todo''[1] == [];
    assert Schedules(todo'', turns'[1..]) && forall i | 0 <= i < |todo''| :: todo''[i] == [];
    assert turns'[1..] == [];
    assert Sent(todo', turns') == [todo'[v][0]] + Sent(todo'', []) == [todo[v][0]];
    assert Sent(todo, turns) == [todo[w][0]] + Sent(todo', turns') == [todo[w][0], todo[v][0]];
  }

  /** A bare frame of the given tag does not commute with other bytes, unless they have the tag in the
      same place. */
  lemma BareFrameStandsOut(tag: uint16, x: Bytes)
    requires 0 < tag < 256 && x != [] && (|x| > 1 ==> x[1] != tag as byte)
    ensures Encode(Frame(tag, [])) + x != x + Encode(Frame(tag, []))
  {
    hide Encode;
    var y := Encode(Frame(tag, []));
    BareFrame(tag);
    assert (y + x)[1] == tag as byte;
    assert (x + y)[1] == if |x| > 1 then x[1] else y[0];
  }

  /** For every smaller buffer the guarantee fails: if some frame does not fit, there is a second writer
      with a bare ping, pong or response, and a schedule of the writes, such that the frames do not
      arrive whole. */
  lemma SmallerBufferTears(cap: nat, f: Frame) returns (g: Frame, schedule: seq<nat>)
    requires Sendable(f) && 0 < cap < |Encode(f)|
    ensures g.tag in {RESP, PING, PONG} && g.body == [] && AllSendable([[f], [g]])
    ensures Schedules(AllWrites(cap, [[f], [g]]), schedule)
    ensures !ArrivesWhole(Stream(cap, [[f], [g]], schedule), [[f], [g]])
  {
    hide FrameWrites, ArrivesWhole, Encode, FullReadDecode;
    var x := FrameWrites(cap, f);
    FrameWritesAreTheFrame(cap, f);
    SpilledIsSplit(cap, f);
    var a, c := x[0], Flatten(x[1..]);
    assert c != [] by {
      assert x[1..][0] == x[1] != [];
    }
    var taken := {if |a| > 1 then a[1] else 0, if |c| > 1 then c[1] else 0};
    g := Frame(if RESP as byte !in taken then RESP else if PING as byte !in taken then PING else PONG, []);
    var todo := [[f], [g]];
    assert AllSendable(todo);
    assert todo[0] == [f] && todo[1] == [g];
    var y := FrameWrites(cap, g);
    FrameWritesAreTheFrame(cap, g);
    SingleFrame(cap, f);
    SingleFrame(cap, g);
    assert AllWrites(cap, todo) == [x, y];
    schedule := [0] + (Turns(1, |y|) + Turns(0, |x| - 1));
    CutIn(x, y);
    assert ([x[0]] + (y + x[1..]))[1..] == y + x[1..];
    FlattenAppend(y, x[1..]);
    var stream := Stream(cap, todo, schedule);
    assert stream == a + (Encode(g) + c);
    BareFrameStandsOut(g.tag, a);
    BareFrameStandsOut(g.tag, c);
    if ArrivesWhole(stream, todo) {
      TornIsNotWhole(f, g, a, c);
    }
  }

  lemma SingleFrame(cap: nat, f: Frame)
    requires 0 < cap && Sendable(f)
    ensures WritesOf(cap, [f]) == FrameWrites(cap, f)
  {
    assert WritesOf(cap, [f][1..]) == [];
  }

  lemma TornIsNotWhole(f: Frame, g: Frame, a: Bytes, c: Bytes)
    requires Sendable(f) && Sendable(g) && Encode(f) == a + c
    requires Encode(g) + a != a + Encode(g) && Encode(g) + c != c + Encode(g)
    ensures !ArrivesWhole(a + (Encode(g) + c), [[f], [g]])
  {
    hide Encode, FullReadDecode;
    var stream := a + (Encode(g) + c);
    DecodedIsPrefix(stream);
    WireOfTwo(f, g);
    WireOfTwo(g, f);
    NoOtherOrder(a, c, Encode(g));
    if ArrivesWhole(stream, [[f], [g]]) {
      WholePair(stream, f, g);
    }
  }

  lemma NoOtherOrder(a: Bytes, c: Bytes, y: Bytes)
    requires y + a != a + y && y + c != c + y
    ensures a + c + y != a + (y + c) && y + (a + c) != a + (y + c)
  {
    assert (a + c + y)[|a|..] == c + y && (a + (y + c))[|a|..] == y + c;
    assert (y + (a + c))[..|y| + |a|] == y + a && (a + (y + c))[..|y| + |a|] == a + y;
  }

  lemma WireOfTwo(f: Frame, g: Frame)
    requires Sendable(f) && Sendable(g)
    ensures Wire([f, g]) == Encode(f) + Encode(g)
  {
    assert [f, g][1..] == [g] && [g][1..] == [];
    assert Wire([g]) == Encode(g) + [] == Encode(g);
  }
}
