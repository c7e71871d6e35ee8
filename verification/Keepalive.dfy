/**
 The keepalive of a transport (pkg/proto/transport.go): ping loops that count a counter down, watchers
 that close the transport when it is negative, and the read loop, which resets it with every decoded
 frame. The loops interleave; an interrupted loop may go round once more before it notices.
 */
module Keepalive {
  import opened Frames
  import Reader
  import Transports

  const MAX_ALIVE_COUNT := Transports.MAX_ALIVE

  /** `current` numbers the interrupter in use, 0 for none; `alarmed` are the watchers that have read a
      negative counter and not closed yet; `written` are the control frames written. */
  datatype State = State(aliveCount: int, current: nat, started: nat, pingers: set<nat>, watchers: set<nat>,
                         alarmed: set<nat>, reading: bool, done: bool, written: seq<uint16>)

  const START := State(MAX_ALIVE_COUNT, 0, 0, {}, {}, {}, true, false, [])

  datatype Event =
    | Set(interval: nat)
    | Round(pinger: nat)
    | PingerStops(pinger: nat)
    | Watch(watcher: nat)
    | WatcherCloses(watcher: nat)
    | WatcherStops(watcher: nat)
    | Decoded(tag: uint16)
    | Ended

  predicate Enabled(s: State, e: Event) {
    match e
    case Set(_) => true
    case Round(g) => g in s.pingers
    case PingerStops(g) => g in s.pingers && (s.done || g != s.current)
    case Watch(g) => g in s.watchers && g !in s.alarmed
    case WatcherCloses(g) => g in s.alarmed
    case WatcherStops(g) => g in s.watchers && g !in s.alarmed && (s.done || g != s.current)
    case Decoded(_) => s.reading
    case Ended => s.reading
  }

  function Next(s: State, e: Event): State {
    match e
    case Set(interval) =>
      // Compared with an interval that is never assigned.
      if interval == 0 then s
      else s.(current := s.started + 1, started := s.started + 1, aliveCount := MAX_ALIVE_COUNT,
              pingers := s.pingers + {s.started + 1}, watchers := s.watchers + {s.started + 1})
    case Round(_) => s.(aliveCount := s.aliveCount - 1, written := s.written + [PING])
    case PingerStops(g) => s.(pingers := s.pingers - {g})
    case Watch(g) => if s.aliveCount < 0 then s.(alarmed := s.alarmed + {g}) else s
    case WatcherCloses(g) => s.(alarmed := s.alarmed - {g}, done := true)
    case WatcherStops(g) => s.(watchers := s.watchers - {g})
    case Decoded(tag) =>
      if s.done then s.(aliveCount := MAX_ALIVE_COUNT, reading := false)
      else s.(aliveCount := MAX_ALIVE_COUNT, written := if tag == PING then s.written + [PONG] else s.written)
    case Ended => s.(reading := false, done := true)
  }

  /** The fields of a transport that its keepalive loops work on. */
  class KeepaliveFields {
    const aliveInterval: nat := 0
    var aliveCount: int
    var aliveInterupt: nat
    var started: nat
    var done: bool
    var reading: bool
    var written: seq<uint16>
    /** The goroutines that have not returned. */
    ghost var pingers: set<nat>
    ghost var watchers: set<nat>
    ghost var alarmed: set<nat>

    ghost function View(): State
      reads this
    {
      State(aliveCount, aliveInterupt, started, pingers, watchers, alarmed, reading, done, written)
    }

    constructor ()
      ensures View() == START
    {
      aliveCount, aliveInterupt, started := MAX_ALIVE_COUNT, 0, 0;
      done, reading, written := false, true, [];
      pingers, watchers, alarmed := {}, {}, {};
    }

    method SetKeepalive(v: nat)
      modifies this
      ensures View() == Next(old(View()), Set(v))
    {
      if v == aliveInterval {
        return;
      }
      if aliveInterupt != 0 {
        aliveInterupt := 0;
      }
      if v == 0 {
        return;
      }
      started := started + 1;
      aliveInterupt := started;
      aliveCount := MAX_ALIVE_COUNT;
      pingers, watchers := pingers + {started}, watchers + {started};
    }

    method PingRound(ghost g: nat)
      modifies this
      ensures View() == Next(old(View()), Round(g))
    {
      aliveCount := aliveCount - 1;
      written := written + [PING];
    }

    /** The watcher's read and its call of `Close` are two steps. */
    method WatcherReads(ghost g: nat) returns (negative: bool)
      modifies this`alarmed
      ensures View() == Next(old(View()), Watch(g)) && negative == (old(View()).aliveCount < 0)
    {
      negative := aliveCount < 0;
      alarmed := if negative then alarmed + {g} else alarmed;
    }

    /** It calls the transport's own `Close`. */
    method WatcherClose(ghost g: nat, t: Transports.Transport)
      requires t.Valid()
      modifies this`alarmed, this`done, t`done, t.sink`broken
      ensures View() == Next(old(View()), WatcherCloses(g)) && done
      ensures t.Valid() && t.View() == old(t.View()).(done := true, broken := true)
      ensures old(Agree(t.View(), View())) ==> Agree(t.View(), View())
    {
      hide Transports.Channel.Contents, Transports.Channel.Valid;
      t.Close();
      alarmed := alarmed - {g};
      done := true;
    }

    /** The part of the read loop that concerns the keepalive. */
    method FrameDecoded(tag: uint16)
      modifies this
      ensures View() == Next(old(View()), Decoded(tag))
    {
      aliveCount := MAX_ALIVE_COUNT;
      if done {
        reading := false;
        return;
      }
      if tag == PING {
        written := written + [PONG];
      }
    }
  }

  /** A transport and its keepalive have the same counter and the same closing flag. */
  predicate Agree(v: Transports.Outside, s: State) {
    v.alive == s.aliveCount && v.done == v.broken == s.done
  }

  /** A turn of the read loop is what the keepalive sees of it: a decoded frame, the end of the
      connection, or nothing. */
  lemma TurnIsDecoded(v: Transports.Outside, s: State)
    requires Agree(v, s)
    ensures var v' := Transports.Turn(v);
            match Reader.Unpack(v.input).0
            case Got(f) =>
              && Agree(v', Next(s, Decoded(f.tag)))
              && v'.out == v.out + if Next(s, Decoded(f.tag)).written == s.written then []
                                   else [Encode(Frame(PONG, []))]
            case Closed => Agree(v', Next(s, Ended)) && v'.out == v.out
            case Malformed => Agree(v', s) && v'.out == v.out
  {
    hide Reader.Unpack, Encode;
  }

  // ----- All runs -----

  function After(events: seq<Event>): State {
    if events == [] then START else Next(After(events[..|events| - 1]), events[|events| - 1])
  }

  predicate IsRun(events: seq<Event>) {
    events == [] || (IsRun(events[..|events| - 1]) && Enabled(After(events[..|events| - 1]), events[|events| - 1]))
  }

  /** Ping rounds begun since the last decoded frame or reset. */
  function SilentRounds(events: seq<Event>): nat {
    if events == [] then 0
    else
      var before := events[..|events| - 1];
      match events[|events| - 1]
      case Round(_) => SilentRounds(before) + 1
      case Decoded(_) => 0
      case Set(interval) => if interval == 0 then SilentRounds(before) else 0
      case _ => SilentRounds(before)
  }

  /** The counter is what is left of five after the silent rounds. */
  lemma {:induction false} AliveCounts(events: seq<Event>)
    ensures After(events).aliveCount == MAX_ALIVE_COUNT - SilentRounds(events)
  {
    if events != [] {
      AliveCounts(events[..|events| - 1]);
    }
  }

  /** `g` has read the counter after six or more silent rounds. */
  ghost predicate SawSilence(events: seq<Event>, g: nat) {
    exists i | 0 <= i < |events| :: events[i] == Watch(g) && SilentRounds(events[..i]) >= 6
  }

  lemma SawSilenceStays(events: seq<Event>, e: Event, g: nat)
    requires SawSilence(events, g)
    ensures SawSilence(events + [e], g)
  {
    var i :| 0 <= i < |events| && events[i] == Watch(g) && SilentRounds(events[..i]) >= 6;
    assert (events + [e])[i] == Watch(g) && (events + [e])[..i] == events[..i];
  }

  lemma {:induction false} AlarmMeansSilence(events: seq<Event>, g: nat)
    requires IsRun(events) && g in After(events).alarmed
    ensures SawSilence(events, g)
  {
    var before, e := events[..|events| - 1], events[|events| - 1];
    assert events == before + [e];
    if g in After(before).alarmed {
      AlarmMeansSilence(before, g);
      SawSilenceStays(before, e, g);
    } else {
      AliveCounts(before);
      assert events[..|before|] == before;
    }
  }

  /** In every run a watcher is about to close the transport only if it read the counter after at least six
      ping rounds that began with nothing decoded; having read so, it can close it, and then it is closed. */
  lemma NeverClosesEarly(events: seq<Event>, g: nat)
    requires IsRun(events)
    ensures Enabled(After(events), WatcherCloses(g)) ==>
              SawSilence(events, g) && After(events + [WatcherCloses(g)]).done
    ensures Enabled(After(events), Watch(g)) && SilentRounds(events) >= 6 ==>
              && IsRun(events + [Watch(g)] + [WatcherCloses(g)])
              && After(events + [Watch(g)] + [WatcherCloses(g)]).done
  {
    OneEvent(events, WatcherCloses(g));
    if g in After(events).alarmed {
      AlarmMeansSilence(events, g);
    }
    if Enabled(After(events), Watch(g)) && SilentRounds(events) >= 6 {
      SilenceIsNoticed(events, g);
    }
  }

  // ----- A silent peer is disconnected -----

  lemma OneEvent(events: seq<Event>, e: Event)
    ensures After(events + [e]) == Next(After(events), e)
    ensures IsRun(events + [e]) <==> IsRun(events) && Enabled(After(events), e)
    ensures SilentRounds(events + [e])
            == if e.Round? then SilentRounds(events) + 1
               else if e.Decoded? || (e.Set? && e.interval != 0) then 0 else SilentRounds(events)
  {
    assert (events + [e])[..|events|] == events;
  }

  /** In every run the transport is closed if and only if the connection has ended or a watcher that had
      seen a negative counter has closed it. */
  lemma {:induction false} DoneIffEnded(events: seq<Event>)
    ensures After(events).done <==> exists e <- events :: e.Ended? || e.WatcherCloses?
  {
    if events != [] {
      var before, e := events[..|events| - 1], events[|events| - 1];
      DoneIffEnded(before);
      assert events == before + [e];
      OneEvent(before, e);
      assert e in events;
      assert forall b <- before :: b in events;
    }
  }

  /** A watcher that finds six silent rounds closes the transport. */
  lemma SilenceIsNoticed(events: seq<Event>, g: nat)
    requires IsRun(events) && g in After(events).watchers && g !in After(events).alarmed && SilentRounds(events) >= 6
    ensures IsRun(events + [Watch(g)] + [WatcherCloses(g)])
    ensures After(events + [Watch(g)] + [WatcherCloses(g)]).done
  {
    AliveCounts(events);
    OneEvent(events, Watch(g));
    OneEvent(events + [Watch(g)], WatcherCloses(g));
  }

  /** Rounds of a ping loop in which nothing is decoded. */
  lemma {:induction false} RoundsGoOn(events: seq<Event>, g: nat, n: nat) returns (more: seq<Event>)
    requires IsRun(events) && g in After(events).pingers
    ensures IsRun(events + more) && |more| == n && forall e <- more :: e == Round(g)
    ensures After(events + more).pingers == After(events).pingers
    ensures After(events + more).watchers == After(events).watchers
    ensures After(events + more).alarmed == After(events).alarmed
    ensures SilentRounds(events + more) == SilentRounds(events) + n
    decreases n
  {
    if n == 0 {
      more := [];
      assert events + more == events;
    } else {
      OneEvent(events, Round(g));
      var rest := RoundsGoOn(events + [Round(g)], g, n - 1);
      more := [Round(g)] + rest;
      assert events + more == events + [Round(g)] + rest;
    }
  }

  /** The keepalive does its job: once it is on, and however the loops stand, a peer from which nothing more
      is decoded is disconnected, after at most six rounds of the newest ping loop. */
  lemma SilentPeerIsDisconnected(events: seq<Event>) returns (more: seq<Event>)
    requires IsRun(events) && !After(events).done
    requires exists i | 0 <= i < |events| :: events[i].Set? && events[i].interval != 0
    ensures IsRun(events + more) && |more| <= 8 && forall e <- more :: e.Round? || e.Watch? || e.WatcherCloses?
    ensures After(events + more).done
  {
    var g := After(events).current;
    CannotBeTurnedOff(events);
    if g in After(events).alarmed {
      more := [WatcherCloses(g)];
      OneEvent(events, WatcherCloses(g));
    } else {
      var rounds := RoundsGoOn(events, g, 6);
      SilenceIsNoticed(events + rounds, g);
      more := rounds + [Watch(g)] + [WatcherCloses(g)];
      assert events + more == events + rounds + [Watch(g)] + [WatcherCloses(g)];
    }
  }

  /** The loops of an earlier setting can stop as well, once their watcher has nothing left to close. */
  lemma SupersededCanStop(events: seq<Event>, g: nat)
    requires IsRun(events) && g != After(events).current
    ensures g in After(events).pingers ==>
              IsRun(events + [PingerStops(g)]) && g !in After(events + [PingerStops(g)]).pingers
    ensures g in After(events).watchers && g !in After(events).alarmed ==>
              IsRun(events + [WatcherStops(g)]) && g !in After(events + [WatcherStops(g)]).watchers
  {
    OneEvent(events, PingerStops(g));
    OneEvent(events, WatcherStops(g));
  }

  lemma {:induction false} AlarmedAreRunning(events: seq<Event>)
    requires IsRun(events)
    ensures After(events).alarmed <= After(events).watchers
  {
    if events != [] {
      AlarmedAreRunning(events[..|events| - 1]);
    }
  }

  /** Once the transport is closed, every goroutine of the keepalive and the read loop can stop. */
  lemma AllCanStop(events: seq<Event>) returns (more: seq<Event>)
    requires IsRun(events) && After(events).done
    ensures IsRun(events + more) && forall e <- more :: !e.Set? && !e.Round? && !e.Decoded?
    ensures var end := After(events + more);
            end.done && end.pingers == {} && end.watchers == {} && end.alarmed == {} && !end.reading
  {
    hide Next, Enabled, IsRun, After;
    more := [];
    assert events + more == events;
    while true
      invariant IsRun(events + more) && After(events + more).done
      invariant forall e <- more :: !e.Set? && !e.Round? && !e.Decoded?
      decreases After(events + more).alarmed, After(events + more).watchers, After(events + more).pingers,
                After(events + more).reading
    {
      var s := After(events + more);
      AlarmedAreRunning(events + more);
      var e :=
        if s.alarmed != {} then WatcherCloses(var g :| g in s.alarmed; g)
        else if s.watchers != {} then WatcherStops(var g :| g in s.watchers; g)
        else if s.pingers != {} then PingerStops(var g :| g in s.pingers; g)
        else Ended;
      if e.Ended? && !s.reading {
        return;
      }
      OneEvent(events + more, e);
      StopStep(s, e);
      assert events + (more + [e]) == events + more + [e];
      more := more + [e];
    }
  }

  lemma StopStep(s: State, e: Event)
    requires s.done
    requires match e
             case WatcherCloses(g) => g in s.alarmed
             case WatcherStops(g) => g in s.watchers && s.alarmed == {}
             case PingerStops(g) => g in s.pingers
             case Ended => s.reading
             case _ => false
    ensures Enabled(s, e)
    ensures var s' := Next(s, e);
            && s'.done
            && match e
               case WatcherCloses(g) => s'.alarmed < s.alarmed
               case WatcherStops(g) => s'.alarmed == s.alarmed && s'.watchers < s.watchers
               case PingerStops(g) => s'.alarmed == s.alarmed && s'.watchers == s.watchers && s'.pingers < s.pingers
               case _ => s' == s.(reading := false)
  {
  }

  function Count(tags: seq<uint16>, tag: uint16): nat {
    if tags == [] then 0 else Count(tags[..|tags| - 1], tag) + if tags[|tags| - 1] == tag then 1 else 0
  }

  lemma CountNone(tag: uint16)
    ensures Count([], tag) == 0
  {
  }

  lemma CountNext(tags: seq<uint16>, last: uint16, tag: uint16)
    ensures Count(tags + [last], tag) == Count(tags, tag) + if last == tag then 1 else 0
  {
    assert (tags + [last])[..|tags|] == tags;
  }

  /** Rounds, and pings the read loop sorted before the transport was closed. */
  function Rounds(events: seq<Event>): nat {
    if events == [] then 0
    else Rounds(events[..|events| - 1]) + if events[|events| - 1].Round? then 1 else 0
  }

  function PingsProcessed(events: seq<Event>): nat {
    if events == [] then 0
    else
      var before := events[..|events| - 1];
      PingsProcessed(before) + if events[|events| - 1] == Decoded(PING) && !After(before).done then 1 else 0
  }

  lemma AddsOne(s: State, e: Event)
    ensures Next(s, e).written == s.written + if e.Round? then [PING]
                                              else if e == Decoded(PING) && !s.done then [PONG] else []
  {
  }

  /** One ping per round, one pong per ping processed, none per pong, and nothing else. */
  lemma {:induction false} OnePongPerPing(events: seq<Event>)
    ensures var written := After(events).written;
            && Count(written, PING) == Rounds(events)
            && Count(written, PONG) == PingsProcessed(events)
            && |written| == Rounds(events) + PingsProcessed(events)
  {
    hide Next, Count;
    if events == [] {
      CountNone(PING);
      CountNone(PONG);
    } else {
      var before := events[..|events| - 1];
      OnePongPerPing(before);
      var was, e := After(before).written, events[|events| - 1];
      AddsOne(After(before), e);
      assert was + [] == was;
      CountNext(was, PING, PING);
      CountNext(was, PING, PONG);
      CountNext(was, PONG, PING);
      CountNext(was, PONG, PONG);
    }
  }

  /** `SetKeepalive(0)` never turns the keepalive off: it changes nothing, and once switched on the
      newest ping loop and watcher run until the transport is closed. */
  lemma {:induction false} CannotBeTurnedOff(events: seq<Event>)
    requires IsRun(events)
    ensures After(events + [Set(0)]) == After(events)
    ensures After(events).current == After(events).started
    ensures (exists i | 0 <= i < |events| :: events[i].Set? && events[i].interval != 0) && !After(events).done
            ==> After(events).current in After(events).pingers * After(events).watchers
  {
    assert (events + [Set(0)])[..|events|] == events;
    if events != [] {
      var before, e := events[..|events| - 1], events[|events| - 1];
      CannotBeTurnedOff(before);
      if exists i | 0 <= i < |events| :: events[i].Set? && events[i].interval != 0 {
        var i :| 0 <= i < |events| && events[i].Set? && events[i].interval != 0;
        assert i < |before| ==> before[i] == events[i];
      }
    }
  }
}
