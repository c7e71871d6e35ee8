/**
 What the two nodes of a hole punching run do is what `MakeHole` does: each node's part of the run is
 compared, event by event, with `MakeHole` on a socket that reads what the node's waits yield.
 */
module NodeRuns {
  import opened Basics
  import opened NatPlan
  import opened MakeHole
  import opened HolePunch

  /** What `MakeHole` at `n`, on its one socket, adds to its trace when it goes on or times out. */
  function Adds(n: Node, socket: Socket, remotes: seq<Address>, timeout: bool): seq<Event> {
    if timeout then [TimedOut]
    else if n.phase.Echoing? then [Echoed(Arrival(socket, n.phase.to))]
    else if n.pc >= |n.prog| then []
    else
      match n.prog[n.pc]
      case Sleep(seconds) => [Slept(seconds)]
      case SendAll => [Sent(AllPairs([socket], remotes))]
      case Wait(_) => if n.inbox == [] then [] else [Received(Arrival(socket, n.inbox[0]))]
  }

  /** The trace of one node over a run. */
  ghost function TraceOf(s: System, steps: seq<Step>, who: Role, socket: Socket, remotes: seq<Address>): seq<Event>
    requires IsRun(s, steps)
    decreases |steps|
  {
    if steps == [] then []
    else AddsIn(s, steps[0], who, socket, remotes) + TraceOf(Next(s, steps[0]), steps[1..], who, socket, remotes)
  }

  /** What one step of the run adds to it. */
  function AddsIn(s: System, step: Step, who: Role, socket: Socket, remotes: seq<Address>): seq<Event> {
    if step == Exec(who) || step == Timeout(who) then Adds(At(s, who), socket, remotes, step.Timeout?) else []
  }

  /** A wait takes a datagram out of the inbox. */
  predicate TakesOne(n: Node) {
    n.phase.Running? && n.pc < |n.prog| && n.prog[n.pc].Wait? && n.inbox != []
  }

  /** How many waits of the node time out in the run, and what the one after them yields, if any. */
  ghost function Outcome(s: System, steps: seq<Step>, who: Role): (nat, Option<Address>)
    requires IsRun(s, steps)
    decreases |steps|
  {
    if steps == [] then (0, None)
    else if steps[0] == Exec(who) && TakesOne(At(s, who)) then (0, Some(At(s, who).inbox[0]))
    else
      var (timeouts, reply) := Outcome(Next(s, steps[0]), steps[1..], who);
      (if steps[0] == Timeout(who) then timeouts + 1 else timeouts, reply)
  }

  /** The one socket reads nothing while waits time out, and then `reply`. */
  function WorldOf(outcome: (nat, Option<Address>)): World {
    World((k: nat) => (i: nat) => if k < outcome.0 then None else outcome.1, (k: nat) => [0])
  }

  /** What is left of the run yields, from the `t`-th wait on, what `waits` says. */
  ghost predicate Foretells(waits: nat -> Option<Arrival>, t: nat, socket: Socket, outcome: (nat, Option<Address>)) {
    && (forall k | t <= k < t + outcome.0 :: waits(k).None?)
    && (outcome.1.Some? ==> waits(t + outcome.0) == Some(Arrival(socket, outcome.1.value)))
  }

  /** The node has made the trace so far of a run of `MakeHole` towards `goal`, after `t` timeouts. */
  ghost predicate OnTrack(n: Node, goal: (seq<Event>, Option<Arrival>), trace: seq<Event>, socket: Socket,
                          pairs: seq<(Socket, Address)>, waits: nat -> Option<Arrival>, t: nat) {
    match n.phase
    case Running => n.pc <= |n.prog| && OnCourse(goal, trace, n.prog[n.pc..], pairs, waits, t)
    case Echoing(to) => goal.0 == trace + [Echoed(Arrival(socket, to))] && goal.1 == Some(Arrival(socket, to))
    case Done(raddr) => goal.0 == trace && goal.1 == Some(Arrival(socket, raddr))
    case Failed => goal.0 == trace && goal.1 == None
  }

  /** The event says that `socket` sent a datagram to `a`. */
  predicate Tells(e: Event, socket: Socket, a: Address) {
    (e.Sent? && (socket, a) in e.datagrams) || e == Echoed(Arrival(socket, a))
  }

  predicate AnyTells(events: seq<Event>, socket: Socket, a: Address) {
    exists e <- events :: Tells(e, socket, a)
  }

  /** The datagrams in the trace, echoes included, are those that set out in the run, and the NAT knows
      where they went. */
  lemma SentAreLaunched(n: Node, socket: Socket, remotes: seq<Address>)
    requires CanExec(n) && ToSet(remotes) == n.targets
    ensures ExecAt(n).0.sentTo == n.sentTo + ExecAt(n).1
    ensures forall a: Address :: a in ExecAt(n).1 <==> AnyTells(Adds(n, socket, remotes, false), socket, a)
  {
    hide AllPairs;
    var added := Adds(n, socket, remotes, false);
    assert |added| <= 1;
    forall a: Address
      ensures a in ExecAt(n).1 <==> AnyTells(added, socket, a)
    {
      OneRow(socket, remotes, a);
      if added != [] {
        assert added == [added[0]];
        assert AnyTells(added, socket, a) <==> Tells(added[0], socket, a);
      }
    }
  }

  lemma OneRow(socket: Socket, remotes: seq<Address>, a: Address)
    ensures (socket, a) in AllPairs([socket], remotes) <==> a in ToSet(remotes)
  {
    var row := Row(socket, remotes);
    assert [socket][1..] == [] && AllPairs([], remotes) == [] && row + [] == row;
    assert AllPairs([socket], remotes) == row;
    if a in remotes {
      var i :| 0 <= i < |remotes| && remotes[i] == a;
      assert row[i] == (socket, a);
    }
  }

  /** The next thing a node does is the next thing `MakeHole` does. */
  lemma ExecOnTrack(n: Node, goal: (seq<Event>, Option<Arrival>), trace: seq<Event>, socket: Socket,
                    remotes: seq<Address>, waits: nat -> Option<Arrival>, t: nat)
    requires OnTrack(n, goal, trace, socket, AllPairs([socket], remotes), waits, t) && CanExec(n)
    requires TakesOne(n) ==> waits(t) == Some(Arrival(socket, n.inbox[0]))
    ensures OnTrack(ExecAt(n).0, goal, trace + Adds(n, socket, remotes, false), socket,
                    AllPairs([socket], remotes), waits, t)
  {
    hide OnCourse, AllPairs;
    var pairs := AllPairs([socket], remotes);
    if n.phase.Running? {
      if n.pc == |n.prog| {
        assert n.prog[n.pc..] == [] && trace + [] == trace;
        CourseEnds(goal, trace, pairs, waits, t);
      } else {
        var instr, rest := n.prog[n.pc], n.prog[n.pc + 1..];
        assert n.prog[n.pc..] == [instr] + rest;
        CourseStep(goal, trace, instr, rest, pairs, waits, t);
        if instr == Wait(false) {
          assert trace + [Received(waits(t).value)] + [] == trace + [Received(waits(t).value)];
        }
      }
    }
  }

  lemma CourseEnds(goal: (seq<Event>, Option<Arrival>), trace: seq<Event>, pairs: seq<(Socket, Address)>,
                   waits: nat -> Option<Arrival>, t: nat)
    requires OnCourse(goal, trace, [], pairs, waits, t)
    ensures goal.0 == trace && goal.1 == None
  {
  }

  lemma TimeoutOnTrack(n: Node, goal: (seq<Event>, Option<Arrival>), trace: seq<Event>, socket: Socket,
                       remotes: seq<Address>, waits: nat -> Option<Arrival>, t: nat)
    requires OnTrack(n, goal, trace, socket, AllPairs([socket], remotes), waits, t)
    requires n.phase.Running? && n.pc < |n.prog| && n.prog[n.pc].Wait? && waits(t).None?
    ensures OnTrack(n.(pc := n.pc + 1), goal, trace + Adds(n, socket, remotes, true), socket,
                    AllPairs([socket], remotes), waits, t + 1)
  {
    hide OnCourse, AllPairs;
    var instr, rest := n.prog[n.pc], n.prog[n.pc + 1..];
    assert n.prog[n.pc..] == [instr] + rest;
    CourseStep(goal, trace, instr, rest, AllPairs([socket], remotes), waits, t);
  }

  lemma ArriveKeepsPlace(n: Node, from: Address)
    ensures var n' := Arrive(n, from);
            n'.phase == n.phase && n'.prog == n.prog && n'.pc == n.pc
  {
  }

  /** Other steps change a node's inbox at most. */
  lemma OthersKeepTrack(s: System, step: Step, who: Role)
    requires Enabled(s, step) && step != Exec(who) && step != Timeout(who)
    ensures var (n, n') := (At(s, who), At(Next(s, step), who));
            n'.phase == n.phase && n'.prog == n.prog && n'.pc == n.pc
  {
    hide ExecAt, Arrive, CanExec, Launched;
    if step.Arrives? || step.Stranger? {
      ArriveKeepsPlace(At(s, step.who), step.from);
    }
  }

  lemma ExecAtPlace(s: System, who: Role)
    requires CanExec(At(s, who))
    ensures At(Next(s, Exec(who)), who) == ExecAt(At(s, who)).0
  {
    hide ExecAt, CanExec, Launched, Sends;
  }

  lemma TimeoutAtPlace(s: System, who: Role)
    requires Enabled(s, Timeout(who))
    ensures At(Next(s, Timeout(who)), who) == At(s, who).(pc := At(s, who).pc + 1)
  {
  }

  /** One step of the run, seen from one node. */
  lemma StepOnTrack(s: System, steps: seq<Step>, who: Role, goal: (seq<Event>, Option<Arrival>),
                    trace: seq<Event>, socket: Socket, remotes: seq<Address>,
                    waits: nat -> Option<Arrival>, t: nat) returns (t': nat)
    requires steps != [] && IsRun(s, steps) && Foretells(waits, t, socket, Outcome(s, steps, who))
    requires OnTrack(At(s, who), goal, trace, socket, AllPairs([socket], remotes), waits, t)
    ensures var s' := Next(s, steps[0]);
            && Foretells(waits, t', socket, Outcome(s', steps[1..], who))
            && OnTrack(At(s', who), goal, trace + AddsIn(s, steps[0], who, socket, remotes), socket,
                       AllPairs([socket], remotes), waits, t')
  {
    hide OnTrack, AllPairs, Adds, Next;
    var step, n := steps[0], At(s, who);
    if step == Exec(who) {
      hide ExecAt;
      ExecAtPlace(s, who);
      TakingEndsWaiting(s, steps[1..], who);
      ExecOnTrack(n, goal, trace, socket, remotes, waits, t);
      t' := t;
    } else if step == Timeout(who) {
      TimeoutAtPlace(s, who);
      TimeoutOnTrack(n, goal, trace, socket, remotes, waits, t);
      t' := t + 1;
    } else {
      OthersKeepTrack(s, step, who);
      SameTrack(n, At(Next(s, step), who), goal, trace, socket, remotes, waits, t);
      assert trace + [] == trace;
      t' := t;
    }
  }

  lemma {:induction false} RunOnTrack(s: System, steps: seq<Step>, who: Role, goal: (seq<Event>, Option<Arrival>),
                                      trace: seq<Event>, socket: Socket, remotes: seq<Address>,
                                      waits: nat -> Option<Arrival>, t: nat) returns (t': nat)
    requires IsRun(s, steps) && Foretells(waits, t, socket, Outcome(s, steps, who))
    requires OnTrack(At(s, who), goal, trace, socket, AllPairs([socket], remotes), waits, t)
    ensures OnTrack(At(After(s, steps), who), goal, trace + TraceOf(s, steps, who, socket, remotes), socket,
                    AllPairs([socket], remotes), waits, t')
    decreases |steps|
  {
    hide OnTrack, AllPairs, AddsIn, Next, Enabled, Foretells, Outcome, At;
    if steps == [] {
      t' := t;
      assert trace + [] == trace;
    } else {
      var s', rest, added := Next(s, steps[0]), steps[1..], AddsIn(s, steps[0], who, socket, remotes);
      var later := TraceOf(s', rest, who, socket, remotes);
      assert trace + added + later == trace + (added + later);
      var t1 := StepOnTrack(s, steps, who, goal, trace, socket, remotes, waits, t);
      t' := RunOnTrack(s', rest, who, goal, trace + added, socket, remotes, waits, t1);
    }
  }

  lemma SameTrack(n: Node, n': Node, goal: (seq<Event>, Option<Arrival>), trace: seq<Event>, socket: Socket,
                  remotes: seq<Address>, waits: nat -> Option<Arrival>, t: nat)
    requires OnTrack(n, goal, trace, socket, AllPairs([socket], remotes), waits, t)
    requires n'.phase == n.phase && n'.prog == n.prog && n'.pc == n.pc
    ensures OnTrack(n', goal, trace, socket, AllPairs([socket], remotes), waits, t)
  {
  }

  /** Once a wait has yielded something, the node waits no more. */
  lemma TakingEndsWaiting(s: System, rest: seq<Step>, who: Role)
    requires CanExec(At(s, who)) && IsRun(Next(s, Exec(who)), rest)
    ensures TakesOne(At(s, who)) ==> Outcome(Next(s, Exec(who)), rest, who) == (0, None)
  {
    if TakesOne(At(s, who)) {
      NoMoreWaits(Next(s, Exec(who)), rest, who);
    }
  }

  lemma {:induction false} NoMoreWaits(s: System, steps: seq<Step>, who: Role)
    requires IsRun(s, steps) && !At(s, who).phase.Running?
    ensures Outcome(s, steps, who) == (0, None)
    decreases |steps|
  {
    if steps != [] {
      assert steps[0] != Timeout(who);
      if steps[0] != Exec(who) {
        OthersKeepTrack(s, steps[0], who);
      }
      NoMoreWaits(Next(s, steps[0]), steps[1..], who);
    }
  }

  /** Each node of a run does what `MakeHole` does on one socket that reads what the node's waits yield:
      the node's trace is the trace of `MakeHole`, as far as the run goes, and a node that is done or has
      failed has its result. */
  lemma NodesRunMakeHole(s: System, steps: seq<Step>, who: Role, socket: Socket, remotes: seq<Address>)
    requires IsRun(s, steps) && At(s, who).phase.Running? && At(s, who).pc == 0
    ensures var w := WorldOf(Outcome(s, steps, who));
            var (trace, result) := Interpret(At(s, who).prog, AllPairs([socket], remotes), Waits([socket], w), 0);
            var (made, n) := (TraceOf(s, steps, who, socket, remotes), At(After(s, steps), who));
            && Possible([socket], w) && made <= trace
            && (n.phase.Done? ==> made == trace && result == Some(Arrival(socket, n.phase.raddr)))
            && (n.phase.Failed? ==> made == trace && result == None)
  {
    hide OnTrack, Interpret, Foretells, Waits, AllPairs, Possible, WorldOf;
    var n, w := At(s, who), WorldOf(Outcome(s, steps, who));
    var waits, pairs := Waits([socket], w), AllPairs([socket], remotes);
    var goal := Interpret(n.prog, pairs, waits, 0);
    WorldForetells(Outcome(s, steps, who), socket);
    StartsOnTrack(n, socket, pairs, waits);
    var t := RunOnTrack(s, steps, who, goal, [], socket, remotes, waits, 0);
    var made := TraceOf(s, steps, who, socket, remotes);
    assert [] + made == made;
    TrackResult(At(After(s, steps), who), goal, made, socket, pairs, waits, t);
  }

  lemma WorldForetells(outcome: (nat, Option<Address>), socket: Socket)
    ensures var w := WorldOf(outcome);
            Possible([socket], w) && Foretells(Waits([socket], w), 0, socket, outcome)
  {
    var w := WorldOf(outcome);
    forall k: nat
      ensures Waits([socket], w)(k) == if k < outcome.0 || outcome.1.None? then None
                                       else Some(Arrival(socket, outcome.1.value))
    {
      assert w.finishing(k) == [0] && [0][1..] == [];
      assert FirstReply([socket], w.arrives(k), []) == None;
    }
  }

  lemma StartsOnTrack(n: Node, socket: Socket, pairs: seq<(Socket, Address)>, waits: nat -> Option<Arrival>)
    requires n.phase.Running? && n.pc == 0
    ensures OnTrack(n, Interpret(n.prog, pairs, waits, 0), [], socket, pairs, waits, 0)
  {
    hide Interpret;
    var goal := Interpret(n.prog, pairs, waits, 0);
    assert n.prog[0..] == n.prog && [] + goal.0 == goal.0;
  }

  lemma TrackResult(n: Node, goal: (seq<Event>, Option<Arrival>), made: seq<Event>, socket: Socket,
                    pairs: seq<(Socket, Address)>, waits: nat -> Option<Arrival>, t: nat)
    requires OnTrack(n, goal, made, socket, pairs, waits, t)
    ensures made <= goal.0
    ensures n.phase.Done? ==> made == goal.0 && goal.1 == Some(Arrival(socket, n.phase.raddr))
    ensures n.phase.Failed? ==> made == goal.0 && goal.1 == None
  {
    hide Interpret;
  }

  /** `MakeHole`'s result at a node of a run between two easy nodes. */
  ghost function ResultAt(local: DetectResult, remote: DetectResult, steps: seq<Step>, who: Role, socket: Socket,
                          remotes: seq<Address>): Option<Arrival>
    requires IsRun(Start(local, remote), steps)
  {
    var s := Start(local, remote);
    Interpret(At(s, who).prog, AllPairs([socket], remotes), Waits([socket], WorldOf(Outcome(s, steps, who))), 0).1
  }

  /** The calls of `MakeHole` themselves: in a finished run without timeouts both return the other's mapped
      address if the server's first datagram left before the client's arrived at the server's NAT; and
      otherwise only the client's call does, while the server's has not returned. */
  lemma MakeHoleSucceedsIffOpenedInTime(local: DetectResult, remote: DetectResult, steps: seq<Step>,
                                        socket: Socket, remotes: seq<Address>)
    requires !Hard(local) && !Hard(remote) && local.primary != remote.primary
    requires IsRun(Start(local, remote), steps) && NoTimeouts(steps)
    requires Finished(After(Start(local, remote), steps))
    ensures ResultAt(local, remote, steps, ClientSide, socket, remotes) == Some(Arrival(socket, remote.primary))
    ensures var s := After(Start(local, remote), steps);
            if SendsBeforeHearing(steps, local.primary)
            then ResultAt(local, remote, steps, ServerSide, socket, remotes) == Some(Arrival(socket, local.primary))
                 && s.server.phase == Done(local.primary)
            else s.server.phase.Running?
  {
    hide IsRun, After, Program, Interpret, TraceOf, Outcome, WorldOf, Waits, AllPairs, Possible, PlanFor;
    BothSucceedIffOpenedInTime(local, remote, steps);
    NodesRunMakeHole(Start(local, remote), steps, ClientSide, socket, remotes);
    NodesRunMakeHole(Start(local, remote), steps, ServerSide, socket, remotes);
    if !SendsBeforeHearing(steps, local.primary) {
      LateMeansWaiting(local, remote, steps);
    }
  }

  lemma LateMeansWaiting(local: DetectResult, remote: DetectResult, steps: seq<Step>)
    requires !Hard(local) && !Hard(remote) && local.primary != remote.primary
    requires IsRun(Start(local, remote), steps) && NoTimeouts(steps)
    requires Finished(After(Start(local, remote), steps)) && !SendsBeforeHearing(steps, local.primary)
    ensures After(Start(local, remote), steps).server.phase.Running?
  {
    hide Next, Enabled, Undecided;
    var s := Start(local, remote);
    StartIsUndecided(local, remote);
    RunDecides(s, steps);
    if Undecided(After(s, steps)) {
      UndecidedCanGoOn(After(s, steps));
    }
  }
}
