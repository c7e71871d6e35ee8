/**
 The session registry of the hub (pkg/hub/hub.go). Every connection has a goroutine of its own that
 saves its session on the way in and removes whatever is registered under its name on the way out,
 while a session may also be closed from elsewhere. Saving and removing consist of two steps, closing
 the registered session and changing the table; the registry is sound at every moment of exactly the
 runs in which nothing is stored over, or deleted from under, a session that is still open.
 */
module Registry {

  /** A session, reduced to its transport's closing: `close` on a Go channel may run only once. */
  class Session {
    const name: string
    var once: bool
    var closings: nat

    predicate Valid()
      reads this
    {
      closings == if once then 1 else 0
    }

    constructor (name: string)
      ensures Valid() && this.name == name && !once
    {
      this.name := name;
      once := false;
      closings := 0;
    }

    /** Guarded by a `sync.Once`: however often it is called, the channels are closed one time. */
    method Close()
      requires Valid()
      modifies this
      ensures Valid() && once && closings == 1
    {
      if !once {
        once := true;
        closings := closings + 1;
      }
    }
  }

  // ----- The table as a value -----

  /** The table by name, every session that was ever saved, and those that are closed. */
  datatype Table = Table(sessions: map<string, Session>, saved: set<Session>, closed: set<Session>)

  datatype Op =
    | Evict(name: string)
    | Store(s: Session)
    | Erase(name: string)
    | Shut(s: Session)

  function Apply(t: Table, op: Op): Table {
    match op
    case Evict(name) => if name in t.sessions then t.(closed := t.closed + {t.sessions[name]}) else t
    case Store(s) => t.(sessions := t.sessions[s.name := s], saved := t.saved + {s})
    case Erase(name) => t.(sessions := t.sessions - {name})
    case Shut(s) => t.(closed := t.closed + {s})
  }

  function ApplyAll(t: Table, ops: seq<Op>): Table
    decreases |ops|
  {
    if ops == [] then t else ApplyAll(Apply(t, ops[0]), ops[1..])
  }

  predicate Registered(t: Table, s: Session) {
    s.name in t.sessions && t.sessions[s.name] == s
  }

  /** Every session ever saved is the one registered under its own name, or closed. */
  ghost predicate Sound(t: Table) {
    && (forall name <- t.sessions :: t.sessions[name].name == name && t.sessions[name] in t.saved)
    && (forall s <- t.saved :: Registered(t, s) || s in t.closed)
  }

  const EMPTY := Table(map[], {}, {})

  /** What a caller could check before the step: nothing open is about to be lost. */
  predicate Harmless(t: Table, op: Op) {
    match op
    case Evict(_) => true
    case Shut(_) => true
    case Store(s) => s.name in t.sessions ==> t.sessions[s.name] == s || t.sessions[s.name] in t.closed
    case Erase(name) => name in t.sessions ==> t.sessions[name] in t.closed
  }

  /** Exactly the harmless steps keep the registry sound. */
  lemma SoundIffHarmless(t: Table, op: Op)
    requires Sound(t)
    ensures Sound(Apply(t, op)) <==> Harmless(t, op)
  {
    var t' := Apply(t, op);
    if !Harmless(t, op) {
      var lost := t.sessions[if op.Store? then op.s.name else op.name];
      assert lost in t'.saved && !Registered(t', lost) && lost !in t'.closed;
    }
  }

  /** Sound before, between and after the steps. */
  ghost predicate SoundThroughout(t: Table, ops: seq<Op>)
    decreases |ops|
  {
    Sound(t) && (ops == [] || SoundThroughout(Apply(t, ops[0]), ops[1..]))
  }

  /** Every step is harmless where it is taken. */
  predicate HarmlessThroughout(t: Table, ops: seq<Op>)
    decreases |ops|
  {
    ops == [] || (Harmless(t, ops[0]) && HarmlessThroughout(Apply(t, ops[0]), ops[1..]))
  }

  /** However saves, removes and closings interleave, the registry is sound at every moment of a run if
      and only if no step of it stores over, or deletes from under, an open session. */
  lemma {:induction false} SoundThroughoutIffHarmless(t: Table, ops: seq<Op>)
    requires Sound(t)
    ensures SoundThroughout(t, ops) <==> HarmlessThroughout(t, ops)
    decreases |ops|
  {
    hide Sound, Harmless, Apply;
    if ops != [] {
      SoundIffHarmless(t, ops[0]);
      if Harmless(t, ops[0]) {
        SoundThroughoutIffHarmless(Apply(t, ops[0]), ops[1..]);
      }
    }
  }

  /** In particular from the empty registry. */
  lemma RunsAreSoundIffHarmless(ops: seq<Op>)
    ensures SoundThroughout(EMPTY, ops) <==> HarmlessThroughout(EMPTY, ops)
  {
    SoundThroughoutIffHarmless(EMPTY, ops);
  }

  /** What the hub's goroutines do, each save and each remove in one go. */
  datatype Action = Save(s: Session) | Remove(name: string) | CloseOne(s: Session)

  function Steps(a: Action): seq<Op> {
    match a
    case Save(s) => [Evict(s.name), Store(s)]
    case Remove(name) => [Evict(name), Erase(name)]
    case CloseOne(s) => [Shut(s)]
  }

  function Do(t: Table, a: Action): Table {
    ApplyAll(t, Steps(a))
  }

  function Run(t: Table, actions: seq<Action>): Table
    decreases |actions|
  {
    if actions == [] then t else Run(Do(t, actions[0]), actions[1..])
  }

  /** The steps of one action leave the table it says. */
  lemma DoResult(t: Table, a: Action)
    ensures var t' := Do(t, a);
            match a
            case Save(s) =>
              && t'.sessions == t.sessions[s.name := s] && t'.saved == t.saved + {s}
              && t'.closed == t.closed + if s.name in t.sessions then {t.sessions[s.name]} else {}
            case Remove(name) =>
              && t'.sessions == t.sessions - {name} && t'.saved == t.saved
              && t'.closed == t.closed + if name in t.sessions then {t.sessions[name]} else {}
            case CloseOne(s) => t' == t.(closed := t.closed + {s})
  {
    var steps := Steps(a);
    assert ApplyAll(t, steps) == ApplyAll(Apply(t, steps[0]), steps[1..]);
    if !a.CloseOne? {
      assert steps[1..] == [steps[1]];
      assert ApplyAll(Apply(t, steps[0]), [steps[1]]) == Apply(Apply(t, steps[0]), steps[1]);
    }
  }

  /** With save and remove atomic the registry stays sound in every run, and a closed session stays
      closed. */
  lemma {:induction false} AtomicRunsAreSound(t: Table, actions: seq<Action>)
    requires Sound(t)
    ensures Sound(Run(t, actions)) && t.closed <= Run(t, actions).closed && t.saved <= Run(t, actions).saved
    decreases |actions|
  {
    hide Do, Steps;
    if actions != [] {
      DoResult(t, actions[0]);
      AtomicRunsAreSound(Do(t, actions[0]), actions[1..]);
    }
  }

  lemma RunTwo(t: Table, a: Action, b: Action)
    ensures Run(t, [a, b]) == Do(Do(t, a), b)
  {
    hide Do;
    assert [a, b][1..] == [b] && [b][1..] == [];
    assert Run(Do(t, a), [b]) == Do(Do(t, a), b);
  }

  /** A handler's exit: whatever is registered under its name is closed and gone, and so is its own
      session; no other name is touched. */
  lemma ExitClearsTheName(t: Table, s: Session)
    requires Sound(t)
    ensures var t' := Run(t, [Remove(s.name), CloseOne(s)]);
            && s.name !in t'.sessions && s in t'.closed
            && (forall u <- t.saved :: u.name == s.name ==> u in t'.closed)
            && t'.sessions == t.sessions - {s.name}
            && (forall u | u in t'.closed && u.name != s.name :: u in t.closed)
  {
    hide Do, Steps;
    DoResult(t, Remove(s.name));
    DoResult(Do(t, Remove(s.name)), CloseOne(s));
    RunTwo(t, Remove(s.name), CloseOne(s));
    if s.name in t.sessions {
      assert t.sessions[s.name].name == s.name;
    }
  }

  /** Removal is by name: the exit of a session that was replaced takes its successor down with it. */
  lemma StaleExitTakesSuccessor(t: Table, a: Session, b: Session)
    requires a != b && a.name == b.name
    ensures var t' := Do(Do(Do(t, Save(a)), Save(b)), Remove(a.name));
            a in t'.closed && b in t'.closed && !Registered(t', b)
  {
    hide Do, Steps;
    DoResult(t, Save(a));
    DoResult(Do(t, Save(a)), Save(b));
    DoResult(Do(Do(t, Save(a)), Save(b)), Remove(a.name));
  }

  /** Two saves under one name whose steps interleave lose a session: saved, open, unregistered. */
  lemma InterleavedSavesLoseASession(a: Session, b: Session)
    requires a != b && a.name == b.name
    ensures var t := Apply(Apply(Apply(Apply(EMPTY, Evict(a.name)), Evict(b.name)), Store(a)), Store(b));
            a in t.saved && !Registered(t, a) && a !in t.closed && !Sound(t)
  {
    var t := Apply(Apply(Apply(Apply(EMPTY, Evict(a.name)), Evict(b.name)), Store(a)), Store(b));
    assert a in t.saved && t.sessions[a.name] == b;
  }

  // ----- The hub -----

  class Hub {
    var sessions: map<string, Session>
    ghost var saved: set<Session>

    ghost predicate Valid()
      reads this, saved
    {
      && Sound(View())
      && forall s <- saved :: s.Valid()
    }

    ghost function View(): Table
      reads this, saved
    {
      Table(sessions, saved, set s | s in saved && s.once)
    }

    constructor ()
      ensures Valid() && View() == EMPTY
    {
      sessions := map[];
      saved := {};
    }

    method LoadSession(name: string) returns (s: Session?)
      ensures if name in sessions then s == sessions[name] else s == null
    {
      s := if name in sessions then sessions[name] else null;
    }

    /** Loads and closes whatever is registered under `name`. */
    method CloseRegistered(name: string)
      requires Valid()
      modifies saved
      ensures Valid() && View() == Apply(old(View()), Evict(name))
      ensures forall u <- saved :: u.Valid() && (u.once == (old(u.once) || (name in sessions && u == sessions[name])))
    {
      var was := LoadSession(name);
      if was != null {
        was.Close();
      }
    }

    /** The session's connection may have ended since its login. */
    method SaveSession(s: Session)
      requires Valid() && s.Valid() && s !in saved
      modifies this, saved
      ensures Valid()
      ensures View() == Do(if s.once then Do(old(View()), CloseOne(s)) else old(View()), Save(s))
      ensures Registered(View(), s) && s.once == old(s.once)
      ensures forall u <- saved :: u == s || u in old(saved)
    {
      hide Do;
      ghost var was := View();
      ghost var before := if s.once then Do(was, CloseOne(s)) else was;
      DoResult(was, CloseOne(s));
      DoResult(before, Save(s));
      CloseRegistered(s.name);
      sessions := sessions[s.name := s];
      saved := saved + {s};
    }

    method RemoveSession(name: string)
      requires Valid()
      modifies this`sessions, saved
      ensures Valid() && View() == Do(old(View()), Remove(name))
      ensures name !in sessions
    {
      hide Do;
      DoResult(View(), Remove(name));
      CloseRegistered(name);
      sessions := sessions - {name};
    }

    /** What a handler does once its session's dispatcher has stopped. */
    method Leave(s: Session)
      requires Valid() && s in saved
      modifies this`sessions, saved
      ensures Valid() && View() == Run(old(View()), [Remove(s.name), CloseOne(s)])
      ensures s.name !in sessions && s.once && s.closings == 1
    {
      hide Do;
      ghost var was := View();
      RemoveSession(s.name);
      ghost var between := View();
      s.Close();
      DoResult(between, CloseOne(s));
      RunTwo(was, Remove(s.name), CloseOne(s));
    }
  }
}
