/**
 The life of a finite state machine behavior (FSMBehavior.java).  What the callbacks of the states
 ask for is not known; it is a parameter of each step.
 */
module FsmBehaviors {
  import opened Common

  /** Init, Final and Reenter are the special states, whose callbacks do nothing. */
  datatype State = Init | Final | Reenter | User(name: string)

  datatype Event = Enter(name: string) | Act(name: string) | Exit(name: string) | Discard

  /** The fields of the behavior (prev is `old`, the state last run), and the callbacks made so far. */
  datatype Fsm = Fsm(names: set<string>, initial: State, prev: State, state: State, next: State, blocked: bool,
                     trace: seq<Event>)

  const START := Fsm({}, Final, Init, Init, Init, false, [])

  /** The calls that callbacks, or other code between steps, can make. */
  datatype Call = Add(name: string) | SetInitialState(name: string) | SetNextState(name: string) | ReenterState |
                  Terminate | Reset | Clear | Block | Restart

  /** A name that is not known raises an exception, and nothing changes. */
  function Apply(f: Fsm, c: Call): Fsm {
    match c
    case Add(n) =>
      if n in f.names then f
      else f.(names := f.names + {n}, initial := if f.initial.Final? then User(n) else f.initial)
    case SetInitialState(n) => if n in f.names then f.(initial := User(n)) else f
    case SetNextState(n) => if n in f.names then f.(next := User(n), blocked := false) else f
    case ReenterState => f.(next := Reenter, blocked := false)
    case Terminate => f.(next := Final, blocked := false)
    case Reset => f.(state := Init, next := Init, trace := f.trace + [Discard])
    case Clear => f.(state := Init, next := Init, trace := f.trace + [Discard], names := {}, initial := Final)
    case Block => f.(blocked := true)
    case Restart => f.(blocked := false)
  }

  function Calls(f: Fsm, calls: seq<Call>): Fsm {
    if calls == [] then f else Apply(Calls(f, calls[..|calls| - 1]), calls[|calls| - 1])
  }

  function OnEnter(f: Fsm, s: State, calls: seq<Call>): Fsm {
    if s.User? then Calls(f.(trace := f.trace + [Enter(s.name)]), calls) else f
  }

  function OnExit(f: Fsm, s: State, calls: seq<Call>): Fsm {
    if s.User? then Calls(f.(trace := f.trace + [Exit(s.name)]), calls) else f
  }

  function OnAction(f: Fsm, s: State, calls: seq<Call>): Fsm {
    if s.User? then Calls(f.(trace := f.trace + [Act(s.name)]), calls) else f
  }

  /** What each callback of a step calls, if that callback is made. */
  datatype Choices = Choices(exit: seq<Call>, enter: seq<Call>, act: seq<Call>)

  const QUIET := Choices([], [], [])

  function Begun(f: Fsm): Fsm {
    if f.state.Init? then f.(state := f.initial, next := f.initial) else f
  }

  function Reentering(f: Fsm): Fsm {
    if f.state.Reenter? then f.(state := f.prev, next := f.prev) else f
  }

  function Changed(f: Fsm, ch: Choices): Fsm {
    var g := Reentering(f);
    var h := OnExit(g, g.prev, ch.exit);
    OnEnter(h, h.state, ch.enter)
  }

  function Settled(f: Fsm): Fsm {
    f.(prev := f.state, state := f.next, blocked := f.blocked && f.state == f.next)
  }

  /** action() */
  function Step(f: Fsm, ch: Choices): Fsm {
    var g := Begun(f);
    Settled(if g.prev == g.state then OnAction(g, g.state, ch.act) else Changed(g, ch))
  }

  predicate Done(f: Fsm) { f.state.Final? }

  // ---------------------------------------------------------------------------
  // Visits
  // ---------------------------------------------------------------------------

  /** The state whose visit is open at the end of a trace. */
  function Open(trace: seq<Event>): Option<string> {
    if trace == [] then None
    else
      match trace[|trace| - 1]
      case Enter(n) => Some(n)
      case Act(_) => Open(trace[..|trace| - 1])
      case Exit(_) => None
      case Discard => None
  }

  /** A state is entered only when no visit is open; its action and exit come only in its own visit. */
  predicate Bracketed(trace: seq<Event>) {
    trace == [] ||
    (Bracketed(trace[..|trace| - 1]) &&
     match trace[|trace| - 1]
     case Enter(_) => Open(trace[..|trace| - 1]) == None
     case Act(n) => Open(trace[..|trace| - 1]) == Some(n)
     case Exit(n) => Open(trace[..|trace| - 1]) == Some(n)
     case Discard => true)
  }

  lemma Append(trace: seq<Event>, e: Event)
    ensures var t := trace + [e];
            Open(t) == (match e
                        case Enter(n) => Some(n)
                        case Act(_) => Open(trace)
                        case Exit(_) => None
                        case Discard => None) &&
            Bracketed(t) == (Bracketed(trace) &&
                             match e
                             case Enter(_) => Open(trace) == None
                             case Act(n) => Open(trace) == Some(n)
                             case Exit(n) => Open(trace) == Some(n)
                             case Discard => true)
  {
    assert (trace + [e])[..|trace|] == trace;
  }

  function Visiting(s: State): Option<string> { if s.User? then Some(s.name) else None }

  /** Between steps, the open visit is that of the old state. */
  predicate Orderly(f: Fsm) {
    Bracketed(f.trace) && Open(f.trace) == Visiting(f.prev) && !f.prev.Reenter? && (f.initial.User? || f.initial.Final?)
  }

  /** While callbacks run: the visit of s is open, or a callback has reset the machine. */
  predicate InCallback(f: Fsm, s: State, visit: Option<string>, prev: State) {
    Bracketed(f.trace) && f.prev == prev && (f.initial.User? || f.initial.Final?) &&
    if f.state == s && !s.Init? then Open(f.trace) == visit else f.state.Init? && Open(f.trace) == None
  }

  lemma ApplyInCallback(f: Fsm, c: Call, s: State, visit: Option<string>, prev: State)
    requires InCallback(f, s, visit, prev)
    ensures InCallback(Apply(f, c), s, visit, prev)
  {
    Append(f.trace, Discard);
  }

  lemma {:induction false} CallsInCallback(f: Fsm, calls: seq<Call>, s: State, visit: Option<string>, prev: State)
    requires InCallback(f, s, visit, prev)
    ensures InCallback(Calls(f, calls), s, visit, prev)
    decreases |calls|
  {
    if calls != [] {
      CallsInCallback(f, calls[..|calls| - 1], s, visit, prev);
      ApplyInCallback(Calls(f, calls[..|calls| - 1]), calls[|calls| - 1], s, visit, prev);
    }
  }

  lemma ChangedInOrder(f: Fsm, ch: Choices)
    requires Orderly(f) && f.prev != f.state && !f.state.Init?
    ensures Orderly(Settled(Changed(f, ch)))
  {
    hide Bracketed, Open;
    var g := Reentering(f);
    var h := OnExit(g, g.prev, ch.exit);
    if g.prev.User? {
      Append(g.trace, Exit(g.prev.name));
      CallsInCallback(g.(trace := g.trace + [Exit(g.prev.name)]), ch.exit, g.state, None, g.prev);
    }
    assert InCallback(h, g.state, None, g.prev);
    if h.state.User? {
      Append(h.trace, Enter(h.state.name));
      CallsInCallback(h.(trace := h.trace + [Enter(h.state.name)]), ch.enter, h.state, Some(h.state.name), h.prev);
    }
  }

  lemma StepInOrder(f: Fsm, ch: Choices)
    requires Orderly(f)
    ensures Orderly(Step(f, ch))
  {
    hide Bracketed, Open;
    var g := Begun(f);
    if g.prev != g.state {
      ChangedInOrder(g, ch);
    } else if g.state.User? {
      Append(g.trace, Act(g.state.name));
      CallsInCallback(g.(trace := g.trace + [Act(g.state.name)]), ch.act, g.state, Some(g.state.name), g.prev);
    }
  }

  // ---------------------------------------------------------------------------
  // Runs
  // ---------------------------------------------------------------------------

  /** A step, or a call from outside the callbacks. */
  datatype Move = Stepped(ch: Choices) | Called(c: Call)

  function Moved(f: Fsm, m: Move): Fsm {
    match m
    case Stepped(ch) => if Done(f) then f else Step(f, ch)
    case Called(c) => Apply(f, c)
  }

  function Run(moves: seq<Move>): Fsm {
    if moves == [] then START else Moved(Run(moves[..|moves| - 1]), moves[|moves| - 1])
  }

  predicate ResetsOutside(m: Move) { m.Called? && (m.c.Reset? || m.c.Clear?) }

  /** As long as reset() and clear() are called from callbacks only, the callbacks come in visits:
      entry, actions, exit; and the visit that is open is that of the state last run. */
  lemma {:induction false} LifecycleIsBracketed(moves: seq<Move>)
    requires forall i :: 0 <= i < |moves| ==> !ResetsOutside(moves[i])
    ensures Orderly(Run(moves))
    decreases |moves|
  {
    if moves != [] {
      var f := Run(moves[..|moves| - 1]);
      LifecycleIsBracketed(moves[..|moves| - 1]);
      match moves[|moves| - 1]
      case Stepped(ch) => StepInOrder(f, ch);
      case Called(c) => assert !ResetsOutside(moves[|moves| - 1]);
    }
  }

  // ---------------------------------------------------------------------------
  // The first state, and calls between steps
  // ---------------------------------------------------------------------------

  /** A machine that has made no step yet, or none since nothing was entered, begins by entering its initial
      state. */
  lemma InitialIsEntered(f: Fsm, ch: Choices)
    requires f.state.Init? && f.prev.Init? && f.initial.User?
    ensures f.trace + [Enter(f.initial.name)] <= Step(f, ch).trace
  {
    hide Calls;
    CallsTrace(f.(state := f.initial, next := f.initial, trace := f.trace + [Enter(f.initial.name)]), ch.enter);
  }

  lemma {:induction false} CallsBeforeSteps(before: seq<Move>)
    requires forall i :: 0 <= i < |before| ==> before[i].Called?
    ensures Run(before).state.Init? && Run(before).prev.Init?
    decreases |before|
  {
    if before != [] { CallsBeforeSteps(before[..|before| - 1]); }
  }

  lemma OneMore(before: seq<Move>, m: Move)
    ensures Run(before + [m]) == Moved(Run(before), m)
  {
    assert (before + [m])[..|before|] == before;
  }

  lemma TwoMore(before: seq<Move>, c: Call, ch: Choices)
    ensures Run(before + [Called(c)] + [Stepped(ch)]) == Moved(Apply(Run(before), c), Stepped(ch))
    ensures Run(before + [Called(c)]) == Apply(Run(before), c)
  {
    hide Run, Step, Apply;
    OneMore(before, Called(c));
    OneMore(before + [Called(c)], Stepped(ch));
  }

  /** Before the first step, whatever has been called: adding a state makes it known, and setting a known state
      as the initial one makes it the first to be entered. */
  lemma FirstStateEntered(before: seq<Move>, n: string, ch: Choices)
    requires forall i :: 0 <= i < |before| ==> before[i].Called?
    ensures n in Run(before + [Called(Add(n))]).names
    ensures n in Run(before).names ==>
              Run(before).trace + [Enter(n)] <= Run(before + [Called(SetInitialState(n))] + [Stepped(ch)]).trace
  {
    hide Run, Step;
    OneMore(before, Called(Add(n)));
    CallsBeforeSteps(before);
    TwoMore(before, SetInitialState(n), ch);
    if n in Run(before).names { InitialIsEntered(Apply(Run(before), SetInitialState(n)), ch); }
  }

  lemma OnlyState(f: Fsm, n: string)
    requires f.state.Init? && f.prev.Init?
    ensures var g := Apply(Apply(f, Clear), Add(n));
            g.state.Init? && g.prev.Init? && g.initial == User(n) && g.names == {n} && g.trace == Apply(f, Clear).trace
    ensures Apply(START, Add(n)) == START.(names := {n}, initial := User(n))
  {
  }

  /** The only state there is, at first or after clear(), is the first to be entered. */
  lemma OnlyStateEntered(before: seq<Move>, n: string, ch: Choices)
    requires forall i :: 0 <= i < |before| ==> before[i].Called?
    ensures var f := Run(before + [Called(Clear)]);
            f.trace + [Enter(n)] <= Run(before + [Called(Clear)] + [Called(Add(n))] + [Stepped(ch)]).trace
    ensures [Enter(n)] <= Run([] + [Called(Add(n))] + [Stepped(ch)]).trace
  {
    hide Run, Step, Apply;
    CallsBeforeSteps(before);
    OneMore(before, Called(Clear));
    OnlyState(Run(before), n);
    TwoMore(before + [Called(Clear)], Add(n), ch);
    InitialIsEntered(Apply(Run(before + [Called(Clear)]), Add(n)), ch);
    NothingRun();
    TwoMore([], Add(n), ch);
    InitialIsEntered(Apply(START, Add(n)), ch);
  }

  lemma NothingRun()
    ensures Run([]) == START
  {
  }

  /** A machine that is blocked between steps stays so exactly while no change of state is pending, and one
      that is restarted does not. */
  lemma BlockIsKept(f: Fsm)
    requires f.state.User? && f.prev == f.state
    ensures Step(Apply(f, Block), QUIET).blocked <==> f.next == f.state
    ensures Apply(f, Block).blocked && !Apply(f, Restart).blocked && !Step(Apply(f, Restart), QUIET).blocked
  {
    assert QUIET.act == [];
  }

  /** reset() between steps promises that the current state is dropped without its exit, and that
      the machine begins again.  It does so exactly when no state has been run yet, or the last one
      was reset from its own callback; otherwise the next step calls the dropped state's exit, or
      its action without an entry.  And a blocked machine stays blocked. */
  lemma ResetBetweenSteps(f: Fsm, ch: Choices)
    requires Orderly(f)
    ensures Bracketed(Step(Apply(f, Reset), ch).trace) <==> !f.prev.User?
    ensures Apply(f, Reset).blocked == f.blocked
  {
    hide Bracketed, Open;
    Append(f.trace, Discard);
    var r := Apply(f, Reset);
    var g := Begun(r);
    if !f.prev.User? {
      assert Orderly(r);
      StepInOrder(r, ch);
    } else if g.prev == g.state {
      Append(g.trace, Act(g.state.name));
      CallsStayBroken(g.(trace := g.trace + [Act(g.state.name)]), ch.act);
    } else {
      Append(g.trace, Exit(g.prev.name));
      var h := g.(trace := g.trace + [Exit(g.prev.name)]);
      CallsStayBroken(h, ch.exit);
      var k := Calls(h, ch.exit);
      if k.state.User? {
        Append(k.trace, Enter(k.state.name));
        CallsStayBroken(k.(trace := k.trace + [Enter(k.state.name)]), ch.enter);
      }
    }
  }

  lemma {:induction false} CallsStayBroken(f: Fsm, calls: seq<Call>)
    requires !Bracketed(f.trace)
    ensures !Bracketed(Calls(f, calls).trace)
    decreases |calls|
  {
    if calls != [] {
      CallsStayBroken(f, calls[..|calls| - 1]);
      Append(Calls(f, calls[..|calls| - 1]).trace, Discard);
    }
  }

  /** A machine that terminates from a user state never exits that state, whatever calls are made on it
      then, short of a reset: the trace has come to its end with that visit open. */
  lemma {:induction false} LastVisitStaysOpen(before: seq<Move>, after: seq<Move>)
    requires forall i :: 0 <= i < |before| ==> !ResetsOutside(before[i])
    requires forall i :: 0 <= i < |after| ==> !ResetsOutside(after[i])
    requires Done(Run(before)) && Run(before).prev.User?
    ensures var f, f' := Run(before), Run(before + after);
            Done(f') && f'.trace == f.trace && Open(f'.trace) == Some(f.prev.name)
    decreases |after|
  {
    LifecycleIsBracketed(before);
    if after == [] {
      assert before + after == before;
    } else {
      var front := after[..|after| - 1];
      LastVisitStaysOpen(before, front);
      assert (before + after)[..|before + after| - 1] == before + front;
      assert !ResetsOutside(after[|after| - 1]);
    }
  }

  // ---------------------------------------------------------------------------
  // Reentry
  // ---------------------------------------------------------------------------

  predicate Resets(calls: seq<Call>) { exists i :: 0 <= i < |calls| && (calls[i].Reset? || calls[i].Clear?) }

  /** Calls only lengthen the trace, and change neither it nor the current state without a reset. */
  lemma {:induction false} CallsTrace(f: Fsm, calls: seq<Call>)
    ensures f.trace <= Calls(f, calls).trace && Calls(f, calls).prev == f.prev
    ensures !Resets(calls) ==> Calls(f, calls).trace == f.trace && Calls(f, calls).state == f.state
    decreases |calls|
  {
    if calls != [] {
      var front, last := calls[..|calls| - 1], calls[|calls| - 1];
      CallsTrace(f, front);
      if !Resets(calls) {
        assert !(last.Reset? || last.Clear?);
        assert !Resets(front) by {
          if i :| 0 <= i < |front| && (front[i].Reset? || front[i].Clear?) { assert calls[i] == front[i]; }
        }
      }
    }
  }

  /**
   Reentry: the next step exits the state and then, unless its exit callback resets the machine, enters
   it again; and these are all the callbacks of that step.
   */
  lemma ReentryExitsThenEnters(f: Fsm, ch: Choices)
    requires Orderly(f) && f.state.Reenter? && f.prev.User?
    ensures var n, t := f.prev.name, Step(f, ch).trace;
            f.trace + [Exit(n)] <= t &&
            (!Resets(ch.exit) ==> f.trace + [Exit(n), Enter(n)] <= t) &&
            (!Resets(ch.exit) && !Resets(ch.enter) ==> t == f.trace + [Exit(n), Enter(n)] && Step(f, ch).prev == f.prev)
  {
    hide Bracketed, Open, Calls, Resets;
    var n := f.prev.name;
    var g := Reentering(f);
    var g1 := g.(trace := g.trace + [Exit(n)]);
    var h := Calls(g1, ch.exit);
    CallsTrace(g1, ch.exit);
    CallsInCallback(g1, ch.exit, g.state, None, g.prev) by { Append(g.trace, Exit(n)); }
    if h.state.User? {
      var h1 := h.(trace := h.trace + [Enter(h.state.name)]);
      CallsTrace(h1, ch.enter);
      assert f.trace + [Exit(n)] + [Enter(n)] == f.trace + [Exit(n), Enter(n)];
    }
  }

  lemma RunNext(moves: seq<Move>, m: Move)
    ensures Run(moves + [m]) == Moved(Run(moves), m)
  {
    hide Moved;
    assert (moves + [m])[..|moves|] == moves;
  }

  lemma RunTwo(moves: seq<Move>, m1: Move, m2: Move)
    ensures Run(moves + [m1, m2]) == Moved(Moved(Run(moves), m1), m2)
  {
    hide Moved, Run;
    RunNext(moves, m1);
    RunNext(moves + [m1], m2);
    assert moves + [m1] + [m2] == moves + [m1, m2];
  }

  /** When the action of the current state ends by asking for reentry, the next step is the reentry,
      on any run. */
  lemma ReentryIsMade(moves: seq<Move>, n: string, calls: seq<Call>, ch: Choices)
    requires forall i :: 0 <= i < |moves| ==> !ResetsOutside(moves[i])
    requires var f := Run(moves); f.prev == f.state == User(n)
    requires !Resets(calls) && !Resets(ch.exit) && !Resets(ch.enter)
    ensures Run(moves + [Stepped(Choices([], [], calls + [ReenterState])), Stepped(ch)]).trace ==
            Run(moves).trace + [Act(n), Exit(n), Enter(n)]
  {
    hide Calls, Resets, Run, Orderly, Step;
    LifecycleIsBracketed(moves);
    var asked := Choices([], [], calls + [ReenterState]);
    RunTwo(moves, Stepped(asked), Stepped(ch));
    ActThenReenter(Run(moves), n, calls);
    TwoSteps(Run(moves), asked, n, ch);
  }

  /** When others ask for it between steps, it is made after one more action. */
  lemma RequestedReentryIsMade(moves: seq<Move>, n: string, ch: Choices)
    requires forall i :: 0 <= i < |moves| ==> !ResetsOutside(moves[i])
    requires var f := Run(moves); f.prev == f.state == User(n)
    requires !Resets(ch.exit) && !Resets(ch.enter)
    ensures Run(moves + [Called(ReenterState)] + [Stepped(QUIET), Stepped(ch)]).trace ==
            Run(moves).trace + [Act(n), Exit(n), Enter(n)]
  {
    hide Calls, Resets, Run, Orderly, Step, Moved;
    LifecycleIsBracketed(moves);
    RunNext(moves, Called(ReenterState));
    RunTwo(moves + [Called(ReenterState)], Stepped(QUIET), Stepped(ch));
    AskedSteps(Run(moves), n, ch);
  }

  lemma AskedSteps(f: Fsm, n: string, ch: Choices)
    requires Orderly(f) && f.prev == f.state == User(n) && !Resets(ch.exit) && !Resets(ch.enter)
    ensures Moved(Moved(Moved(f, Called(ReenterState)), Stepped(QUIET)), Stepped(ch)).trace ==
            f.trace + [Act(n), Exit(n), Enter(n)]
  {
    hide Calls, Resets, Orderly, Step;
    AskedThenAct(f, n);
    TwoSteps(Apply(f, ReenterState), QUIET, n, ch);
  }

  lemma ActThenReenter(f: Fsm, n: string, calls: seq<Call>)
    requires f.prev == f.state == User(n) && !Resets(calls)
    ensures var g := Step(f, Choices([], [], calls + [ReenterState]));
            g.state == Reenter && g.prev == User(n) && g.trace == f.trace + [Act(n)]
  {
    hide Resets;
    CallsTrace(f.(trace := f.trace + [Act(n)]), calls);
    assert (calls + [ReenterState])[..|calls|] == calls;
  }

  lemma AskedThenAct(f: Fsm, n: string)
    requires Orderly(f) && f.prev == f.state == User(n)
    ensures var a := Apply(f, ReenterState);
            var g := Step(a, QUIET);
            Orderly(a) && g.state == Reenter && g.prev == User(n) && g.trace == a.trace + [Act(n)] && a.trace == f.trace
  {
  }

  lemma TwoSteps(f: Fsm, ch: Choices, n: string, next: Choices)
    requires Orderly(f) && !Done(f) && !Resets(next.exit) && !Resets(next.enter)
    requires var g := Step(f, ch); g.state == Reenter && g.prev == User(n) && g.trace == f.trace + [Act(n)]
    ensures Moved(Moved(f, Stepped(ch)), Stepped(next)).trace == f.trace + [Act(n), Exit(n), Enter(n)]
  {
    hide Orderly, Resets, Step;
    StepInOrder(f, ch);
    ReentryExitsThenEnters(Step(f, ch), next);
    assert f.trace + [Act(n)] + [Exit(n), Enter(n)] == f.trace + [Act(n), Exit(n), Enter(n)];
  }

  // ---------------------------------------------------------------------------
  // Requests
  // ---------------------------------------------------------------------------

  /** A change of state asked for between steps is made, after one more step, exactly when the machine
      was neither about to begin nor about to reenter its state; in those two cases the request is
      lost, unless what it asks for is what comes anyway. */
  lemma RequestIsHonoured(f: Fsm, n: string)
    requires Orderly(f) && n in f.names && !Done(f)
    ensures var f' := Step(Apply(f, SetNextState(n)), QUIET);
            f'.state == User(n) <==>
            !(f.state.Init? && f.initial != User(n)) && !(f.state.Reenter? && f.prev != User(n))
  {
    var g := Apply(f, SetNextState(n));
    assert Calls(g, []) == g;
  }

  /** When a change of state is pending, the machine is not blocked. */
  predicate Moving(f: Fsm) {
    f.prev != f.state || f.state != f.next ==> !f.blocked
  }

  /** No call but block() or a reset from outside leaves a requested change stuck. */
  lemma {:induction false} PendingChangeIsNotBlocked(moves: seq<Move>)
    requires forall i :: 0 <= i < |moves| ==> !ResetsOutside(moves[i]) && moves[i] != Called(Block)
    ensures Moving(Run(moves))
    decreases |moves|
  {
    if moves != [] {
      var f := Run(moves[..|moves| - 1]);
      PendingChangeIsNotBlocked(moves[..|moves| - 1]);
      assert !ResetsOutside(moves[|moves| - 1]) && moves[|moves| - 1] != Called(Block);
      if moves[|moves| - 1].Stepped? && !Done(f) {
        assert Run(moves) == Step(f, moves[|moves| - 1].ch);
      }
    }
  }

  // ---------------------------------------------------------------------------
  // Runs of a machine with two states
  // ---------------------------------------------------------------------------

  /** States a and b are added, and a is entered. */
  function Entering(a: string, b: string): seq<Move> { [Called(Add(a)), Called(Add(b)), Stepped(QUIET)] }

  function InState(names: set<string>, initial: string, current: string, trace: seq<Event>): Fsm {
    Fsm(names, User(initial), User(current), User(current), User(current), false, trace)
  }

  lemma Then(moves: seq<Move>, m: Move, f: Fsm) returns (more: seq<Move>)
    requires Moved(Run(moves), m) == f
    ensures more == moves + [m] && Run(more) == f
  {
    hide Moved;
    RunNext(moves, m);
    more := moves + [m];
  }

  lemma EnteringEnters(a: string, b: string)
    requires a != b
    ensures Run(Entering(a, b)) == InState({a, b}, a, a, [Enter(a)])
  {
    hide Run;
    var moves: seq<Move> := [];
    assert Run([]) == START by { RunNothing(); }
    moves := Then(moves, Called(Add(a)), START.(names := {a}, initial := User(a)));
    moves := Then(moves, Called(Add(b)), START.(names := {a, b}, initial := User(a)));
    moves := Then(moves, Stepped(QUIET), InState({a, b}, a, a, [Enter(a)]));
    assert moves == Entering(a, b);
  }

  lemma RunNothing()
    ensures Run([]) == START
  {
  }

  /** After reset() between steps, an action without an entry; and in another state, an exit of the
      dropped state. */
  lemma ResetRuns(a: string, b: string)
    requires a != b
    ensures Run(Entering(a, b) + [Called(Reset)] + [Stepped(QUIET)]).trace == [Enter(a), Discard, Act(a)]
    ensures Run(Entering(a, b) + [Called(SetNextState(b))] + [Stepped(QUIET)] + [Stepped(QUIET)] +
                [Called(Reset)] + [Stepped(QUIET)]).trace ==
            [Enter(a), Act(a), Exit(a), Enter(b), Discard, Exit(b), Enter(a)]
  {
    hide Run;
    EnteringEnters(a, b);
    var f := InState({a, b}, a, a, [Enter(a)]);
    var m := Then(Entering(a, b), Called(Reset), f.(state := Init, next := Init, trace := [Enter(a), Discard]));
    m := Then(m, Stepped(QUIET), InState({a, b}, a, a, [Enter(a), Discard, Act(a)]));
    m := Then(Entering(a, b), Called(SetNextState(b)), f.(next := User(b)));
    m := Then(m, Stepped(QUIET), f.(state := User(b), next := User(b), trace := [Enter(a), Act(a)]));
    m := Then(m, Stepped(QUIET), InState({a, b}, a, b, [Enter(a), Act(a), Exit(a), Enter(b)]));
    var g := InState({a, b}, a, b, [Enter(a), Act(a), Exit(a), Enter(b), Discard]);
    m := Then(m, Called(Reset), g.(state := Init, next := Init));
    m := Then(m, Stepped(QUIET),
              InState({a, b}, a, a, [Enter(a), Act(a), Exit(a), Enter(b), Discard, Exit(b), Enter(a)]));
  }

  /** A change of state asked for while a reentry is pending, or before the first step, is lost. */
  lemma LostRequests(a: string, b: string)
    requires a != b
    ensures var f := Run(Entering(a, b) + [Stepped(Choices([], [], [ReenterState]))] + [Called(SetNextState(b))] +
                         [Stepped(QUIET)]);
            f.state == f.next == User(a) && f.trace == [Enter(a), Act(a), Exit(a), Enter(a)]
    ensures var f := Run([Called(Add(a))] + [Called(Add(b))] + [Called(SetNextState(b))] + [Stepped(QUIET)]);
            f.state == f.next == User(a) && f.trace == [Enter(a)]
  {
    hide Run;
    EnteringEnters(a, b);
    RunNothing();
    var f := InState({a, b}, a, a, [Enter(a), Act(a)]);
    ActThenReenterQuietly(a, b);
    var m := Then(Entering(a, b), Stepped(Choices([], [], [ReenterState])), f.(state := Reenter, next := Reenter));
    m := Then(m, Called(SetNextState(b)), f.(state := Reenter, next := User(b)));
    m := Then(m, Stepped(QUIET), InState({a, b}, a, a, [Enter(a), Act(a), Exit(a), Enter(a)]));
    m := Then([], Called(Add(a)), START.(names := {a}, initial := User(a)));
    assert [] + [Called(Add(a))] == [Called(Add(a))];
    m := Then(m, Called(Add(b)), START.(names := {a, b}, initial := User(a)));
    m := Then(m, Called(SetNextState(b)), START.(names := {a, b}, initial := User(a), next := User(b)));
    m := Then(m, Stepped(QUIET), InState({a, b}, a, a, [Enter(a)]));
  }

  lemma ActThenReenterQuietly(a: string, b: string)
    ensures Step(InState({a, b}, a, a, [Enter(a)]), Choices([], [], [ReenterState])) ==
            InState({a, b}, a, a, [Enter(a), Act(a)]).(state := Reenter, next := Reenter)
  {
    assert [Enter(a)] + [Act(a)] == [Enter(a), Act(a)];
    OneCall(InState({a, b}, a, a, [Enter(a), Act(a)]), ReenterState);
  }

  lemma OneCall(f: Fsm, c: Call)
    ensures Calls(f, [c]) == Apply(f, c)
  {
    assert [c][..0] == [];
  }

  /** A terminated machine whose only visit is open. */
  lemma TerminatedInside(a: string, b: string)
    requires a != b
    ensures var f := Run(Entering(a, b) + [Stepped(Choices([], [], [Terminate]))]);
            Done(f) && f.trace == [Enter(a), Act(a)] && Open(f.trace) == Some(a)
  {
    hide Run;
    EnteringEnters(a, b);
    var f := InState({a, b}, a, a, [Enter(a), Act(a)]);
    assert [Enter(a)] + [Act(a)] == [Enter(a), Act(a)];
    OneCall(f, Terminate);
    var m := Then(Entering(a, b), Stepped(Choices([], [], [Terminate])), f.(state := Final, next := Final));
    assert [Enter(a), Act(a)][..1] == [Enter(a)];
  }

  // ---------------------------------------------------------------------------
  // The behavior itself
  // ---------------------------------------------------------------------------

  class FSMBehavior {
    var states: set<string>
    var initial: State
    var prev: State
    var state: State
    var next: State
    var blocked: bool
    ghost var trace: seq<Event>

    ghost function View(): Fsm
      reads this
    {
      Fsm(states, initial, prev, state, next, blocked, trace)
    }

    constructor ()
      ensures View() == START
    {
      states, initial, prev, state, next, blocked, trace := {}, Final, Init, Init, Init, false, [];
    }

    method Restart()
      modifies this
      ensures View() == Apply(old(View()), Call.Restart)
    {
      blocked := false;
    }

    /** One call; false stands for the exception that an unknown or duplicate name raises. */
    method Invoke(c: Call) returns (ok: bool)
      modifies this
      ensures View() == Apply(old(View()), c)
      ensures ok == match c
                    case Add(n) => n !in old(states)
                    case SetInitialState(n) => n in old(states)
                    case SetNextState(n) => n in old(states)
                    case _ => true
    {
      ok := true;
      match c
      case Add(n) => ok := AddState(n);
      case SetInitialState(n) => if n in states { initial := User(n); } else { ok := false; }
      case SetNextState(n) =>
        if n in states {
          next := User(n);
          Restart();
        } else {
          ok := false;
        }
      case ReenterState =>
        next := Reenter;
        Restart();
      case Terminate =>
        next := Final;
        Restart();
      case Reset => ResetStates();
      case Clear =>
        ResetStates();
        states := {};
        initial := Final;
      case Block => blocked := true;
      case Restart => Restart();
    }

    method AddState(n: string) returns (ok: bool)
      modifies this
      ensures View() == Apply(old(View()), Add(n)) && ok == (n !in old(states))
    {
      if n in states { return false; }
      states := states + {n};
      if initial == Final { initial := User(n); }
      return true;
    }

    method ResetStates()
      modifies this
      ensures View() == Apply(old(View()), Reset)
    {
      state, next := Init, Init;
      trace := trace + [Discard];
    }

    /** What a callback does: the calls it makes, in order. */
    method Run(calls: seq<Call>)
      modifies this
      ensures View() == Calls(old(View()), calls)
    {
      for i := 0 to |calls|
        invariant View() == Calls(old(View()), calls[..i])
      {
        var _ := Invoke(calls[i]);
        assert calls[..i + 1][..i] == calls[..i];
      }
      assert calls[..|calls|] == calls;
    }

    method Exited(s: State, calls: seq<Call>)
      modifies this
      ensures View() == OnExit(old(View()), s, calls)
    {
      if s.User? {
        trace := trace + [Exit(s.name)];
        Run(calls);
      }
    }

    method Entered(s: State, calls: seq<Call>)
      modifies this
      ensures View() == OnEnter(old(View()), s, calls)
    {
      if s.User? {
        trace := trace + [Enter(s.name)];
        Run(calls);
      }
    }

    method Acted(s: State, calls: seq<Call>)
      modifies this
      ensures View() == OnAction(old(View()), s, calls)
    {
      if s.User? {
        trace := trace + [Act(s.name)];
        Run(calls);
      }
    }

    method Action(ch: Choices)
      modifies this
      ensures View() == Step(old(View()), ch)
      ensures Orderly(old(View())) ==> Orderly(View())
    {
      hide OnExit, OnEnter, OnAction, Orderly;
      ghost var f := View();
      if state == Init { state, next := initial, initial; }
      if prev == state {
        Acted(state, ch.act);
      } else {
        if state == Reenter { state, next := prev, prev; }
        Exited(prev, ch.exit);
        Entered(state, ch.enter);
      }
      prev := state;
      state := next;
      if prev != state { Restart(); }
      if Orderly(f) { StepInOrder(f, ch); }
    }

    /** done(): no step follows, and the visit of the state last run, if any, is left open. */
    method IsDone() returns (r: bool)
      requires Orderly(View())
      ensures r ==> forall ch :: Moved(View(), Stepped(ch)) == View()
      ensures r && prev.User? ==> Open(trace) == Some(prev.name)
      ensures !r ==> !Done(View())
    {
      r := state == Final;
    }
  }
}
