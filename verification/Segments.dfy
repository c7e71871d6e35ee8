/**
 `UnpackFrom` over a byte stream, such as the hub's TCP sessions. Because a short read is not
 repeated, whether the frames sent are the frames decoded depends on where the stream is cut into
 socket reads. Every byte is accounted for, and the harmless cuts are characterised exactly.
 */
module Segments {
  import opened Basics
  import opened Frames
  import opened Reader

  function Streaming(segs: seq<Bytes>): Input {
    Input([], Net(Stream, segs))
  }

  /** The bytes a stream reader has not yet consumed. */
  function Remaining(v: Input): Bytes {
    v.buf + Flatten(v.net.segs)
  }

  lemma NetReadKeepsBytes(net: Net, n: nat)
    requires 0 < n && net.kind.Stream? && net.segs != []
    ensures var (data, net') := NetRead(net, n);
            data + Flatten(net'.segs) == Flatten(net.segs)
  {
    var head, tail, k := net.segs[0], net.segs[1..], Min(n, |net.segs[0]|);
    assert head == head[..k] + head[k..];
    assert ([head[k..]] + tail)[1..] == tail;
  }

  lemma BufReadKeepsBytes(v: Input, n: nat)
    requires 0 < n && v.net.kind.Stream?
    ensures var (r, v') := BufRead(v, n);
            r.Data? ==> r.data + Remaining(v') == Remaining(v)
  {
    hide NetRead;
    if v.buf != [] {
      assert v.buf == v.buf[..Min(n, |v.buf|)] + v.buf[Min(n, |v.buf|)..];
    } else if v.net.segs != [] {
      var m := if n >= READER_SIZE then n else READER_SIZE;
      NetReadKeepsBytes(v.net, m);
      var chunk := NetRead(v.net, m).0;
      assert chunk == chunk[..Min(n, |chunk|)] + chunk[Min(n, |chunk|)..];
    }
  }

  lemma HeaderSplits(h: Bytes)
    requires |h| == HEADER_SIZE
    ensures h == BE16(FromBE16(h[0], h[1])) + BE16(FromBE16(h[2], h[3]))
  {
    hide BE16, FromBE16;
    BytesOfNumber(h[0], h[1]);
    BytesOfNumber(h[2], h[3]);
  }

  lemma HeaderThenBody(h: Bytes, f: Frame, rest: Bytes)
    requires Sendable(f) && h == BE16(f.tag) + BE16(|f.body|)
    ensures Encode(f) + rest == h + (f.body + rest)
  {
  }

  /** A decoded frame accounts for exactly the bytes that were read for it; a failed attempt only
      loses bytes. */
  lemma UnpackKeepsBytes(v: Input)
    requires v.net.kind.Stream?
    ensures var (o, v') := Unpack(v);
            && (o.Got? ==> Encode(o.frame) + Remaining(v') == Remaining(v))
            && |Remaining(v')| <= |Remaining(v)|
  {
    hide BufRead, Remaining, Encode, BE16;
    BufReadKeepsBytes(v, HEADER_SIZE);
    var (h, v1) := BufRead(v, HEADER_SIZE);
    if h.Data? && |h.data| == HEADER_SIZE {
      var tag, length := FromBE16(h.data[0], h.data[1]), FromBE16(h.data[2], h.data[3]);
      HeaderSplits(h.data);
      if length == 0 {
        HeaderThenBody(h.data, Frame(tag, []), Remaining(v1));
        assert [] + Remaining(v1) == Remaining(v1);
      } else if length <= MAX_PAYLOAD {
        BufReadKeepsBytes(v1, length);
        var (b, v2) := BufRead(v1, length);
        if b.Data? && |b.data| == length {
          HeaderThenBody(h.data, Frame(tag, b.data), Remaining(v2));
        }
      }
    }
  }

  /** The bytes of a stream that end up in no frame. */
  function Discarded(v: Input): nat
    requires v.net.kind.Stream?
    decreases Measure(v)
  {
    var (o, v') := Unpack(v);
    UnpackKeepsBytes(v);
    match o
    case Closed => |Remaining(v)|
    case Malformed => |Remaining(v)| - |Remaining(v')| + Discarded(v')
    case Got(_) => Discarded(v')
  }

  lemma {:induction false} DecodedSendable(v: Input)
    ensures forall f <- Decoded(v) :: Sendable(f)
    decreases Measure(v)
  {
    var (o, v') := Unpack(v);
    if !o.Closed? {
      DecodedSendable(v');
    }
  }

  /** Whatever arrives, every byte is either in a decoded frame or counted as discarded; and if
      none is discarded, the decoded frames spell out the stream. */
  lemma {:induction false} EveryByteAccounted(v: Input)
    requires v.net.kind.Stream?
    ensures forall f <- Decoded(v) :: Sendable(f)
    ensures |Wire(Decoded(v))| + Discarded(v) == |Remaining(v)|
    ensures Discarded(v) == 0 ==> Wire(Decoded(v)) == Remaining(v)
    decreases Measure(v)
  {
    var (o, v') := Unpack(v);
    UnpackKeepsBytes(v);
    DecodedSendable(v);
    if o.Got? {
      EveryByteAccounted(v');
      assert Decoded(v)[1..] == Decoded(v');
      assert |Wire(Decoded(v))| == |Encode(o.frame)| + |Wire(Decoded(v'))|;
    } else if o.Malformed? {
      EveryByteAccounted(v');
      if Discarded(v) == 0 {
        MalformedLosesNothing(v);
      }
    }
  }

  /** An attempt that fails without consuming a byte leaves the stream as it was. */
  lemma MalformedLosesNothing(v: Input)
    requires v.net.kind.Stream? && Unpack(v).0.Malformed?
    requires |Remaining(Unpack(v).1)| == |Remaining(v)|
    ensures Remaining(Unpack(v).1) == Remaining(v)
  {
    BufReadKeepsBytes(v, HEADER_SIZE);
    var (h, v1) := BufRead(v, HEADER_SIZE);
    if |h.data| == HEADER_SIZE {
      var length := FromBE16(h.data[2], h.data[3]);
      if 0 < length <= MAX_PAYLOAD {
        BufReadKeepsBytes(v1, length);
      }
    }
  }

  // ----- Which cuts are harmless -----

  /** What one buffered read fetches from the socket: one socket read, or none. */
  function FetchedBy(v: Input, n: nat): seq<Bytes>
    requires 0 < n
  {
    if v.buf != [] || v.net.segs == [] then [] else [NetRead(v.net, Max(n, READER_SIZE)).0]
  }

  /** What one `UnpackFrom` fetches. */
  function UnpackFetches(v: Input): seq<Bytes> {
    var (h, v1) := BufRead(v, HEADER_SIZE);
    FetchedBy(v, HEADER_SIZE)
    + if h.Eof? || |h.data| != HEADER_SIZE then []
      else
        var length := FromBE16(h.data[2], h.data[3]);
        if length == 0 || length > MAX_PAYLOAD then [] else FetchedBy(v1, length)
  }

  /** What the socket reads return, one after the other, until the connection ends. */
  function Fetches(v: Input): seq<Bytes>
    decreases Measure(v)
  {
    var (o, v') := Unpack(v);
    UnpackFetches(v) + if o.Closed? then [] else Fetches(v')
  }

  predicate NoneBlank(segs: seq<Bytes>) {
    forall i | 0 <= i < |segs| :: segs[i] != []
  }

  /** Byte offset `x` of the stream lies at the start of a frame or between a header and its body. */
  predicate Joint(x: int, frames: seq<Frame>)
    requires forall f <- frames :: Sendable(f)
    decreases |frames|
  {
    x == 0 || (frames != [] && (x == HEADER_SIZE || Joint(x - |Encode(frames[0])|, frames[1..])))
  }

  /** Offset `x`, and the end of every chunk behind it, is a joint. */
  predicate CutsAtJoints(x: int, chunks: seq<Bytes>, frames: seq<Frame>)
    requires forall f <- frames :: Sendable(f)
    decreases |chunks|
  {
    Joint(x, frames) && (chunks != [] ==> CutsAtJoints(x + |chunks[0]|, chunks[1..], frames))
  }

  predicate Aligned(v: Input, frames: seq<Frame>)
    requires forall f <- frames :: Sendable(f)
  {
    CutsAtJoints(|v.buf|, Fetches(v), frames)
  }

  /** The state of the reader once its buffer holds something to serve a read of `n` bytes from. A read
      that goes past the buffer gets no more than it asked for, as if it had passed through one. */
  function Fetched(v: Input, n: nat): Input
    requires 0 < n
  {
    if v.buf != [] || v.net.segs == [] then v
    else
      var (chunk, net) := NetRead(v.net, Max(n, READER_SIZE));
      Input(chunk, net)
  }

  lemma NetReadNotBlank(net: Net, n: nat)
    requires 0 < n && net.kind.Stream? && net.segs != [] && NoneBlank(net.segs)
    ensures NetRead(net, n).0 != [] && NoneBlank(NetRead(net, n).1.segs)
  {
  }

  lemma ReadFetches(v: Input, n: nat)
    requires 0 < n && v.net.kind.Stream? && NoneBlank(v.net.segs)
    ensures var w := Fetched(v, n);
            && BufRead(v, n) == BufRead(w, n) && w.net.kind == v.net.kind && NoneBlank(w.net.segs)
            && Remaining(w) == Remaining(v) && (Remaining(v) != [] ==> w.buf != [])
            && (w.buf != [] ==>
                  BufRead(w, n) == (Data(w.buf[..Min(n, |w.buf|)]), Input(w.buf[Min(n, |w.buf|)..], w.net)))
  {
    if v.buf == [] && v.net.segs != [] {
      NetReadNotBlank(v.net, Max(n, READER_SIZE));
      NetReadKeepsBytes(v.net, Max(n, READER_SIZE));
      var chunk := NetRead(v.net, Max(n, READER_SIZE)).0;
      assert chunk[..|chunk|] == chunk && chunk[|chunk|..] == [];
    }
  }

  lemma {:induction false} JointsShift(x: int, chunks: seq<Bytes>, frames: seq<Frame>)
    requires forall f <- frames :: Sendable(f)
    requires frames != [] && |Encode(frames[0])| <= x
    ensures CutsAtJoints(x, chunks, frames)
            == CutsAtJoints(x - |Encode(frames[0])|, chunks, frames[1..])
    decreases |chunks|
  {
    hide Encode;
    if chunks != [] {
      JointsShift(x + |chunks[0]|, chunks[1..], frames);
    }
  }

  lemma {:induction false} NoNegativeJoint(x: int, frames: seq<Frame>)
    requires forall f <- frames :: Sendable(f)
    requires x < 0
    ensures !Joint(x, frames)
    decreases |frames|
  {
    hide Encode;
    if frames != [] {
      NoNegativeJoint(x - |Encode(frames[0])|, frames[1..]);
    }
  }

  /** Only a frame's start and its header's end are joints up to its own end. */
  lemma NoJointWithin(x: int, frames: seq<Frame>)
    requires forall f <- frames :: Sendable(f)
    requires frames != [] && 0 < x < |Encode(frames[0])| && x != HEADER_SIZE
    ensures !Joint(x, frames)
  {
    NoNegativeJoint(x - |Encode(frames[0])|, frames[1..]);
  }

  /** Fetching for the header does not change what is decoded, fetched or aligned. */
  lemma FetchedSame(v: Input, frames: seq<Frame>)
    requires forall f <- frames :: Sendable(f)
    requires v.net.kind.Stream? && NoneBlank(v.net.segs) && Remaining(v) != []
    ensures var w := Fetched(v, HEADER_SIZE);
            && w.net.kind.Stream? && NoneBlank(w.net.segs) && w.buf != [] && Remaining(w) == Remaining(v)
            && Unpack(w) == Unpack(v) && Aligned(w, frames) == Aligned(v, frames)
  {
    hide BufRead, NetRead, Joint, Unpack, UnpackFetches;
    ReadFetches(v, HEADER_SIZE);
    var w := Fetched(v, HEADER_SIZE);
    SameHeaderRead(v, w);
    if v.buf == [] {
      assert FetchedBy(v, HEADER_SIZE) == [w.buf] && FetchedBy(w, HEADER_SIZE) == [];
      assert [] + UnpackFetches(w) == UnpackFetches(w);
      assert Fetches(v) == [w.buf] + Fetches(w);
      assert ([w.buf] + Fetches(w))[1..] == Fetches(w);
      assert Joint(0, frames) by { ZeroIsJoint(frames); }
    }
  }

  /** Readers whose header reads agree differ only in what that read fetches. */
  lemma SameHeaderRead(v: Input, w: Input)
    requires BufRead(v, HEADER_SIZE) == BufRead(w, HEADER_SIZE)
    requires FetchedBy(w, HEADER_SIZE) == []
    ensures Unpack(w) == Unpack(v) && UnpackFetches(v) == FetchedBy(v, HEADER_SIZE) + UnpackFetches(w)
  {
    hide BufRead, FetchedBy;
  }

  lemma ZeroIsJoint(frames: seq<Frame>)
    requires forall f <- frames :: Sendable(f)
    ensures Joint(0, frames) && (frames != [] ==> Joint(HEADER_SIZE, frames))
  {
  }

  lemma UnpackTornHeader(w: Input)
    requires 0 < |w.buf| < HEADER_SIZE
    ensures Unpack(w).0.Malformed?
  {
  }

  /** The reader holds a whole header: it is the next frame's. */
  lemma HeaderRead(w: Input, f: Frame, rest: Bytes)
    requires Sendable(f) && HEADER_SIZE <= |w.buf| && Remaining(w) == Encode(f) + rest
    ensures var v1 := Input(w.buf[HEADER_SIZE..], w.net);
            && BufRead(w, HEADER_SIZE) == (Data(Encode(f)[..HEADER_SIZE]), v1)
            && Remaining(v1) == f.body + rest
  {
    var e := Encode(f);
    assert w.buf[..HEADER_SIZE] == Remaining(w)[..HEADER_SIZE] == e[..HEADER_SIZE];
    assert Remaining(Input(w.buf[HEADER_SIZE..], w.net)) == Remaining(w)[HEADER_SIZE..] == e[HEADER_SIZE..] + rest;
  }

  /** What `UnpackFrom` does, and fetches, once it has read a frame's header. */
  lemma UnpackAfterHeader(w: Input, v1: Input, f: Frame)
    requires Sendable(f) && w.buf != [] && BufRead(w, HEADER_SIZE) == (Data(Encode(f)[..HEADER_SIZE]), v1)
    ensures f.body == [] ==> Unpack(w) == (Got(f), v1) && UnpackFetches(w) == []
    ensures f.body != [] ==>
              var (b, v2) := BufRead(v1, |f.body|);
              && UnpackFetches(w) == FetchedBy(v1, |f.body|)
              && (b.Data? ==>
                    Unpack(w) == (if |b.data| == |f.body| then Got(Frame(f.tag, b.data)) else Malformed, v2))
  {
  }

  lemma AlignedEmptyBody(w: Input, frames: seq<Frame>)
    requires forall f <- frames :: Sendable(f)
    requires frames != [] && frames[0].body == []
    requires HEADER_SIZE <= |w.buf| && Remaining(w) == Encode(frames[0]) + Wire(frames[1..])
    requires NoneBlank(w.net.segs)
    ensures var (o, v') := Unpack(w);
            o == Got(frames[0]) && NoneBlank(v'.net.segs) && Aligned(w, frames) == Aligned(v', frames[1..])
  {
    hide Unpack, BufRead, Encode, UnpackFetches, CutsAtJoints;
    var v1 := Input(w.buf[HEADER_SIZE..], w.net);
    HeaderRead(w, frames[0], Wire(frames[1..]));
    UnpackAfterHeader(w, v1, frames[0]);
    assert Fetches(w) == [] + Fetches(v1) == Fetches(v1);
    JointsShift(|w.buf|, Fetches(v1), frames);
  }

  /** The body read: whole, exactly if no cut runs through the body. */
  lemma AlignedBody(w: Input, frames: seq<Frame>)
    requires forall f <- frames :: Sendable(f)
    requires frames != [] && frames[0].body != []
    requires HEADER_SIZE <= |w.buf| && Remaining(w) == Encode(frames[0]) + Wire(frames[1..])
    requires w.net.kind.Stream? && NoneBlank(w.net.segs)
    ensures var (o, v') := Unpack(w);
            && NoneBlank(v'.net.segs)
            && (Aligned(w, frames) <==> o == Got(frames[0]) && Aligned(v', frames[1..]))
  {
    hide Unpack, BufRead, Encode, Wire, Fetched, UnpackFetches, FetchedBy, CutsAtJoints, Joint;
    var f, n := frames[0], |frames[0].body|;
    var v1 := Input(w.buf[HEADER_SIZE..], w.net);
    HeaderRead(w, f, Wire(frames[1..]));
    UnpackAfterHeader(w, v1, f);
    ReadFetches(v1, n);
    var x := Fetched(v1, n);
    var v2 := Unpack(w).1;
    assert Fetches(w) == FetchedBy(v1, n) + Fetches(v2);
    BodyFetch(v1, n, Fetches(v2), frames);
    assert Aligned(w, frames) == CutsAtJoints(HEADER_SIZE + |x.buf|, Fetches(v2), frames);
    if |x.buf| < n {
      NoCutWithin(HEADER_SIZE + |x.buf|, Fetches(v2), frames);
    } else {
      assert x.buf[..n] == Remaining(x)[..n] == f.body;
      JointsShift(HEADER_SIZE + |x.buf|, Fetches(v2), frames);
    }
  }

  lemma NoCutWithin(x: int, chunks: seq<Bytes>, frames: seq<Frame>)
    requires forall f <- frames :: Sendable(f)
    requires frames != [] && 0 < x < |Encode(frames[0])| && x != HEADER_SIZE
    ensures !CutsAtJoints(x, chunks, frames)
  {
    NoJointWithin(x, frames);
  }

  /** Fetching for the body starts behind the header, which is a joint. */
  lemma BodyFetch(v1: Input, n: nat, later: seq<Bytes>, frames: seq<Frame>)
    requires forall f <- frames :: Sendable(f)
    requires 0 < n && frames != [] && Remaining(v1) != [] && Fetched(v1, n).buf != []
    ensures CutsAtJoints(HEADER_SIZE + |v1.buf|, FetchedBy(v1, n) + later, frames)
            == CutsAtJoints(HEADER_SIZE + |Fetched(v1, n).buf|, later, frames)
  {
    hide NetRead, Joint;
    if v1.buf == [] {
      var chunk := Fetched(v1, n).buf;
      ZeroIsJoint(frames);
      assert FetchedBy(v1, n) == [chunk];
      assert ([chunk] + later)[1..] == later;
    } else {
      assert [] + later == later;
    }
  }

  /** The reader is about to read the next frame of the stream: it gets it whole, and the rest
      stays aligned, exactly when the cuts are at joints. */
  lemma AlignedStep(v: Input, frames: seq<Frame>)
    requires forall f <- frames :: Sendable(f)
    requires v.net.kind.Stream? && NoneBlank(v.net.segs)
    requires frames != [] && Remaining(v) == Encode(frames[0]) + Wire(frames[1..])
    ensures var (o, v') := Unpack(v);
            && NoneBlank(v'.net.segs)
            && (Aligned(v, frames) <==> o == Got(frames[0]) && Aligned(v', frames[1..]))
  {
    hide Unpack, Encode, Wire, Fetched, Aligned;
    FetchedSame(v, frames);
    var w := Fetched(v, HEADER_SIZE);
    if |w.buf| < HEADER_SIZE {
      UnpackTornHeader(w);
      TornIsNotAligned(w, frames);
      UnpackNotBlank(w);
    } else if frames[0].body == [] {
      AlignedEmptyBody(w, frames);
    } else {
      AlignedBody(w, frames);
    }
  }

  lemma TornIsNotAligned(w: Input, frames: seq<Frame>)
    requires forall f <- frames :: Sendable(f)
    requires frames != [] && 0 < |w.buf| < HEADER_SIZE
    ensures !Aligned(w, frames)
  {
    hide Fetches;
    NoJointWithin(|w.buf|, frames);
  }

  lemma UnpackNotBlank(v: Input)
    requires v.net.kind.Stream? && NoneBlank(v.net.segs)
    ensures NoneBlank(Unpack(v).1.net.segs)
  {
    hide BufRead, Fetched;
    ReadFetches(v, HEADER_SIZE);
    var (h, v1) := BufRead(v, HEADER_SIZE);
    BufReadNotBlank(v, HEADER_SIZE);
    if h.Data? && |h.data| == HEADER_SIZE && 0 < FromBE16(h.data[2], h.data[3]) {
      BufReadNotBlank(v1, FromBE16(h.data[2], h.data[3]));
    }
  }

  lemma BufReadNotBlank(v: Input, n: nat)
    requires 0 < n && v.net.kind.Stream? && NoneBlank(v.net.segs)
    ensures NoneBlank(BufRead(v, n).1.net.segs)
    ensures BufRead(v, n).0.Data? ==> BufRead(v, n).0.data != []
  {
    if v.buf == [] && v.net.segs != [] {
      NetReadNotBlank(v.net, Max(n, READER_SIZE));
    }
  }

  /** On a stream of non-empty segments a failed attempt has consumed something. */
  lemma MalformedLosesBytes(v: Input)
    requires v.net.kind.Stream? && NoneBlank(v.net.segs) && Unpack(v).0.Malformed?
    ensures |Remaining(Unpack(v).1)| < |Remaining(v)|
  {
    hide BufRead;
    var (h, v1) := BufRead(v, HEADER_SIZE);
    BufReadKeepsBytes(v, HEADER_SIZE);
    BufReadNotBlank(v, HEADER_SIZE);
    if |h.data| == HEADER_SIZE && 0 < FromBE16(h.data[2], h.data[3]) <= MAX_PAYLOAD {
      BufReadKeepsBytes(v1, FromBE16(h.data[2], h.data[3]));
    }
  }

  /** If the decoded frames are the frames sent, no attempt failed on the way. */
  lemma NothingMalformed(v: Input, frames: seq<Frame>)
    requires forall f <- frames :: Sendable(f)
    requires v.net.kind.Stream? && NoneBlank(v.net.segs)
    requires frames != [] && Remaining(v) == Wire(frames) && Decoded(v) == frames
    ensures Unpack(v).0 == Got(frames[0])
  {
    hide Unpack, Wire, Encode;
    EveryByteAccounted(v);
    DecodedHead(v);
    if Unpack(v).0.Malformed? {
      MalformedLosesBytes(v);
      EveryByteAccounted(Unpack(v).1);
    }
  }

  lemma DecodedHead(v: Input)
    ensures var (o, v') := Unpack(v);
            Decoded(v) == match o
                          case Closed => []
                          case Malformed => Decoded(v')
                          case Got(f) => [f] + Decoded(v')
  {
  }

  lemma FlattenOfNoneBlank(segs: seq<Bytes>)
    requires NoneBlank(segs)
    ensures Flatten(segs) == [] <==> segs == []
  {
  }

  lemma NothingLeft(v: Input)
    requires v.net.kind.Stream? && NoneBlank(v.net.segs) && Remaining(v) == []
    ensures Decoded(v) == [] && Fetches(v) == [] && v.buf == []
  {
    assert v.buf == [] && Flatten(v.net.segs) == [];
    FlattenOfNoneBlank(v.net.segs);
  }

  lemma {:induction false} AlignedIffDecoded(v: Input, frames: seq<Frame>)
    requires forall f <- frames :: Sendable(f)
    requires v.net.kind.Stream? && NoneBlank(v.net.segs)
    requires Remaining(v) == Wire(frames)
    ensures Decoded(v) == frames <==> Aligned(v, frames)
    decreases |frames|
  {
    hide Unpack, Decoded, Encode, Fetches, Remaining;
    if frames == [] {
      NothingLeft(v);
    } else {
      var (o, v') := Unpack(v);
      DecodedHead(v);
      AlignedStep(v, frames);
      if o == Got(frames[0]) {
        UnpackKeepsBytes(v);
        var e := Encode(frames[0]);
        assert Remaining(v') == (e + Remaining(v'))[|e|..] == (e + Wire(frames[1..]))[|e|..] == Wire(frames[1..]);
        AlignedIffDecoded(v', frames[1..]);
        assert ([frames[0]] + Decoded(v'))[1..] == Decoded(v');
        assert frames == [frames[0]] + frames[1..];
      } else if Decoded(v) == frames {
        NothingMalformed(v, frames);
      }
    }
  }

  /** The frames sent over a stream, of any size and in segments of any size, are the frames decoded if
      and only if every socket read ends at the start of a frame or right behind a header. */
  lemma StreamExactlyAtJoints(segs: seq<Bytes>, frames: seq<Frame>)
    requires forall f <- frames :: Sendable(f)
    requires NoneBlank(segs) && Flatten(segs) == Wire(frames)
    ensures Decoded(Streaming(segs)) == frames <==> CutsAtJoints(0, Fetches(Streaming(segs)), frames)
  {
    hide Decoded, Fetches;
    assert [] + Flatten(segs) == Flatten(segs);
    AlignedIffDecoded(Streaming(segs), frames);
  }

  /** Segments no longer than the reader's buffer are what the socket reads return. */
  lemma {:induction false} ShortSegmentsAreFetched(v: Input)
    requires v.net.kind.Stream? && forall i | 0 <= i < |v.net.segs| :: |v.net.segs[i]| <= READER_SIZE
    ensures Fetches(v) == v.net.segs
    decreases Measure(v)
  {
    hide Unpack, UnpackFetches;
    var (o, v') := Unpack(v);
    UnpackFetchesShort(v);
    if !o.Closed? {
      ShortSegmentsAreFetched(v');
    }
  }

  /** As long as no segment exceeds the reader's buffer, the sender can tell: the frames are decoded if
      and only if every segment ends at the start of a frame or right behind a header. */
  lemma ShortSegmentsExactlyAtJoints(segs: seq<Bytes>, frames: seq<Frame>)
    requires forall f <- frames :: Sendable(f)
    requires forall i | 0 <= i < |segs| :: 0 < |segs[i]| <= READER_SIZE
    requires Flatten(segs) == Wire(frames)
    ensures Decoded(Streaming(segs)) == frames <==> CutsAtJoints(0, segs, frames)
  {
    hide Decoded, Fetches, CutsAtJoints;
    ShortSegmentsAreFetched(Streaming(segs));
    StreamExactlyAtJoints(segs, frames);
  }

  lemma UnpackFetchesShort(v: Input)
    requires v.net.kind.Stream? && forall i | 0 <= i < |v.net.segs| :: |v.net.segs[i]| <= READER_SIZE
    ensures UnpackFetches(v) + Unpack(v).1.net.segs == v.net.segs
    ensures forall i | 0 <= i < |Unpack(v).1.net.segs| :: |Unpack(v).1.net.segs[i]| <= READER_SIZE
  {
    hide NetRead, BufRead, FetchedBy;
    BufFetchesShort(v, HEADER_SIZE);
    var (h, v1) := BufRead(v, HEADER_SIZE);
    var first := FetchedBy(v, HEADER_SIZE);
    if h.Data? && |h.data| == HEADER_SIZE && 0 < FromBE16(h.data[2], h.data[3]) <= MAX_PAYLOAD {
      var length := FromBE16(h.data[2], h.data[3]);
      BufFetchesShort(v1, length);
      var v2 := BufRead(v1, length).1;
      assert UnpackFetches(v) == first + FetchedBy(v1, length) && Unpack(v).1 == v2;
      assert first + FetchedBy(v1, length) + v2.net.segs == first + v1.net.segs;
    } else {
      assert first + [] == first;
      assert UnpackFetches(v) == first && Unpack(v).1 == v1;
    }
  }

  lemma BufFetchesShort(v: Input, n: nat)
    requires 0 < n && v.net.kind.Stream? && forall i | 0 <= i < |v.net.segs| :: |v.net.segs[i]| <= READER_SIZE
    ensures FetchedBy(v, n) + BufRead(v, n).1.net.segs == v.net.segs
    ensures forall i | 0 <= i < |BufRead(v, n).1.net.segs| :: |BufRead(v, n).1.net.segs[i]| <= READER_SIZE
  {
    if v.buf == [] && v.net.segs != [] {
      var head := v.net.segs[0];
      assert head[..|head|] == head;
      assert v.net.segs == [head] + v.net.segs[1..];
    }
  }

  /** One segment boundary inside a header is enough to lose the frame. */
  lemma TornHeaderLosesFrame()
    ensures var f := Frame(PING, []);
            Flatten([[0, 14], [0, 0]]) == Wire([f]) && Decoded(Streaming([[0, 14], [0, 0]])) != [f]
  {
    hide Decoded, Fetches, Encode, Wire;
    var f, a, b: Bytes := Frame(PING, []), [0, 14], [0, 0];
    BarePing(f);
    assert Flatten([b]) == b + Flatten([]) == b by { assert [b][1..] == []; }
    assert [a, b][1..] == [b];
    assert Flatten([a, b]) == a + b == Encode(f);
    NoCutWithin(2, [b], [f]);
    ShortSegmentsExactlyAtJoints([a, b], [f]);
  }

  lemma BarePing(f: Frame)
    requires f == Frame(PING, [])
    ensures Encode(f) == [0, 14, 0, 0] && Wire([f]) == Encode(f)
  {
    hide Wire, Encode;
    BareFrame(PING);
    WireFirst(f, []);
    NoWire();
    assert [f] + [] == [f] && Encode(f) + [] == Encode(f);
  }
}
