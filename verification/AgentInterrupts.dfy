/**
 What an interrupted receive leaves behind.  It takes its filter from the exclusion stack and returns
 without a commit, so messages its filter held back stay in quarantine, and the agent may go on to sleep
 in its main loop with a delivered message that nobody will look at.
 */
module AgentInterrupts {
  import opened Common
  import opened MessageQueues
  import opened Agents

  /** A message whose delivery is complete, still in quarantine. */
  ghost predicate Left(a: Agent, m: Msg) {
    m in a.mq.quarantine && m !in a.inflight
  }

  /** The steps that commit, and those with which a receive returns or looks again. */
  predicate Looks(a: Agent, e: Event) {
    (e.Execute? && a.pc == Check && a.restart) || (e.Receive? && a.pc == User) ||
    (e.Resume? && a.pc == Back && a.stack != [])
  }

  /** How many events of a run there are up to the last such step, that step included. */
  function LastLook(max: int, events: seq<Event>): (k: nat)
    ensures k <= |events|
  {
    if events == [] then 0
    else if Looks(Steps(Init(max), events[..|events| - 1]), events[|events| - 1]) then |events|
    else LastLook(max, events[..|events| - 1])
  }

  /** Nobody has looked since a: what is in quarantine was left there, or has been deposited since. */
  ghost predicate Since(a: Agent, s: Agent) {
    s.exclusions == a.exclusions && (a.finishing ==> s.finishing) &&
    forall m :: m in s.mq.quarantine ==> m in s.inflight || m in s.uncommitted || Left(a, m)
  }

  /** The queue, the deliveries and the exclusions are as they were. */
  ghost predicate SameQueues(s: Agent, s': Agent) {
    s'.mq == s.mq && s'.exclusions == s.exclusions && s'.inflight == s.inflight && s'.uncommitted == s.uncommitted &&
    s'.finishing == s.finishing
  }

  lemma PickSame(s: Agent, b: Behavior)
    requires s.pc == Picking
    ensures SameQueues(s, DoPick(s, b))
  {
    hide DoPick;
    var _ := PickShape(s, b);
    PickKeeps(s, b);
  }

  lemma BlockSame(s: Agent)
    ensures SameQueues(s, DoBlock(s))
  {
  }

  lemma ExecuteSame(s: Agent)
    requires !s.restart
    ensures SameQueues(s, DoExecute(s))
  {
    hide Flagged, Unflagged;
  }

  lemma ReturnSame(s: Agent, done: bool)
    requires s.stack != [] && Top(s).Running?
    ensures SameQueues(s, DoReturn(s, done))
  {
    match Top(s).stage
    case Starting =>
    case Acting =>
    case Ending =>
  }

  /** Steps that leave the queues alone, among those with which nobody looks. */
  lemma OtherSame(s: Agent, e: Event)
    requires !Looks(s, e) && !e.Deposit? && !e.Notify? && !e.ReceiveNow? && !e.Stop?
    ensures SameQueues(s, Step(s, e))
  {
    hide SameQueues, DoPick, DoBlock, DoExecute, DoReturn, DoResume, TryReceive;
    SameAsItself(s);
    match e
    case Execute => if s.pc == Check { ExecuteSame(s); }
    case Pick(b) => if s.pc == Picking { PickSame(s, b); }
    case Block => BlockSame(s);
    case Return(done) => if s.pc == User && s.stack != [] && Top(s).Running? { ReturnSame(s, done); }
    case _ => QuietSame(s, e);
  }

  lemma SameAsItself(s: Agent)
    ensures SameQueues(s, s)
  {
  }

  lemma QuietSame(s: Agent, e: Event)
    requires e.Wake? || e.AddBehavior? || e.SetFlag? || e.Restart? || (e.Resume? && (s.pc != Back || s.stack == [])) ||
             (e.Receive? && s.pc != User)
    ensures SameQueues(s, Step(s, e))
  {
  }

  lemma NobodyLooks(a: Agent, s: Agent, e: Event)
    requires Since(a, s) && !Looks(s, e)
    ensures Since(a, Step(s, e))
  {
    hide Taken, Added, Looks, DoPick, DoBlock, DoExecute, DoReturn, DoResume, TryReceive;
    match e
    case Deposit(m) => AddedMembers(s.mq, m);
    case ReceiveNow(filter) => TakenKeeps(s.mq, filter);
    case Notify(m) =>
    case Stop =>
    case _ => OtherSame(s, e);
  }

  /** A queue without a limit, meanwhile, loses nothing. */
  lemma NothingLost(s: Agent, e: Event, m: Msg)
    requires s.mq.max <= 0 && Left(s, m) && !Looks(s, e) && e != Deposit(m)
    ensures Left(Step(s, e), m) && Step(s, e).mq.max <= 0
  {
    hide Looks, DoPick, DoBlock, DoExecute, DoReturn, DoResume, TryReceive;
    match e
    case Deposit(x) => assert Added(s.mq, x).quarantine == s.mq.quarantine + [x];
    case ReceiveNow(filter) => TakenKeeps(s.mq, filter);
    case Notify(_) =>
    case Stop =>
    case _ => OtherSame(s, e);
  }

  lemma {:induction false} RunLosesNothing(max: int, events: seq<Event>, m: Msg)
    requires var a := Steps(Init(max), events[..LastLook(max, events)]); a.mq.max <= 0 && Left(a, m)
    requires forall j :: LastLook(max, events) <= j < |events| ==> events[j] != Deposit(m)
    ensures var s := Steps(Init(max), events); Left(s, m) && s.mq.max <= 0
    decreases |events|
  {
    hide Left, Step, Looks;
    var k := LastLook(max, events);
    if k == |events| {
      assert events[..k] == events;
    } else {
      var front := events[..|events| - 1];
      assert front[..k] == events[..k];
      RunLosesNothing(max, front, m);
      NothingLost(Steps(Init(max), front), events[|events| - 1], m);
    }
  }

  lemma {:induction false} RunSince(max: int, events: seq<Event>)
    ensures Since(Steps(Init(max), events[..LastLook(max, events)]), Steps(Init(max), events))
    decreases |events|
  {
    hide Since, Step, Looks;
    var k := LastLook(max, events);
    if k == |events| {
      assert events[..k] == events;
      NothingSince(Steps(Init(max), events));
    } else {
      var front := events[..|events| - 1];
      RunSince(max, front);
      assert front[..k] == events[..k];
      NobodyLooks(Steps(Init(max), events[..k]), Steps(Init(max), front), events[|events| - 1]);
    }
  }

  lemma NothingSince(a: Agent)
    ensures Since(a, a)
  {
  }

  /** If it leaves no filter on the stack, a look leaves something delivered in quarantine only if it is
      an interrupted receive, and then what was there. */
  lemma AfterLook(a: Agent, e: Event, m: Msg)
    requires Reserving(a) && Looks(a, e)
    ensures var s := Step(a, e);
            s.exclusions == [] && !s.finishing ==> (Left(s, m) <==> Interrupts(e) && Left(a, m))
  {
    hide Taken, Committed, Flagged, Unflagged, Alternating, NoneReserved, Awaited;
    NothingReserved(m);
    match e
    case Execute => CommitSorts(a.mq, a.exclusions);
    case Receive(filter, yielding) => TryLeaves(a, filter, yielding, false, m);
    case Resume(interrupted, timedOut) =>
      ResumeReserves(a, interrupted, timedOut);
      TryLeaves(Pop(a).(exclusions := a.exclusions[..|a.exclusions| - 1]), Top(a).filter, Top(a).yielding, timedOut, m);
  }

  lemma TryLeaves(a: Agent, filter: Filter, yielding: bool, giveUp: bool, m: Msg)
    ensures var s := TryReceive(a, filter, yielding, giveUp); s.exclusions == [] ==> !Left(s, m)
  {
    hide Taken, Committed;
    NothingReserved(m);
    CommitSorts(a.mq, a.exclusions);
    TakenKeeps(CommitAll(a).mq, filter);
  }

  lemma {:induction false} LastLookIsLook(max: int, events: seq<Event>)
    ensures var k := LastLook(max, events); k > 0 ==> Looks(Steps(Init(max), events[..k - 1]), events[k - 1])
    decreases |events|
  {
    hide Looks, Steps;
    var k := LastLook(max, events);
    if k != 0 && k != |events| {
      var front := events[..|events| - 1];
      LastLookIsLook(max, front);
      assert front[..k - 1] == events[..k - 1];
    }
  }

  /** What the last look left in quarantine, on a run that ends with no filter awaited. */
  lemma LeftByLook(max: int, events: seq<Event>, m: Msg)
    requires var a := Steps(Init(max), events); a.exclusions == [] && !a.finishing
    ensures var k := LastLook(max, events);
            Left(Steps(Init(max), events[..k]), m) <==>
            k > 0 && Interrupts(events[k - 1]) && Left(Steps(Init(max), events[..k - 1]), m)
  {
    hide Step, Looks, Left, Reserving;
    var k := LastLook(max, events);
    RunSince(max, events);
    if k == 0 {
      StartLeavesNothing(max, m);
    } else {
      LastLookIsLook(max, events);
      RunReserves(max, events[..k - 1]);
      assert events[..k][..k - 1] == events[..k - 1];
      AfterLook(Steps(Init(max), events[..k - 1]), events[k - 1], m);
    }
  }

  lemma StartLeavesNothing(max: int, m: Msg)
    ensures !Left(Init(max), m)
  {
  }

  /**
   Exactly when the agent sleeps in its main loop over a delivered message: the last time it looked at its
   quarantine it did not, because the receive that should have was interrupted while the message was there
   (and the limit has not dropped the message since, nor is it being delivered once more).
   */
  lemma LeftInMainLoop(max: int, events: seq<Event>, m: Msg)
    ensures var a := Steps(Init(max), events);
            var k := LastLook(max, events);
            a.pc == Asleep && a.stack == [] ==>
              (Left(a, m) <==>
               k > 0 && Interrupts(events[k - 1]) && Left(Steps(Init(max), events[..k - 1]), m) &&
               m in a.mq.quarantine && m !in a.inflight)
    ensures var a := Steps(Init(max), events);
            var k := LastLook(max, events);
            a.pc == Asleep && a.stack == [] && max <= 0 &&
            (forall j :: k <= j < |events| ==> events[j] != Deposit(m)) ==>
              (Left(a, m) <==> k > 0 && Interrupts(events[k - 1]) && Left(Steps(Init(max), events[..k - 1]), m))
  {
    hide Steps, Interrupts;
    var a := Steps(Init(max), events);
    RunAlert(max, events);
    RunReserves(max, events);
    if a.pc == Asleep && a.stack == [] {
      RunSince(max, events);
      LeftByLook(max, events, m);
      var k := LastLook(max, events);
      if max <= 0 && (forall j :: k <= j < |events| ==> events[j] != Deposit(m)) &&
         Left(Steps(Init(max), events[..k]), m)
      {
        SameLimit(max, events[..k]);
        RunLosesNothing(max, events, m);
      }
    }
  }

  lemma {:induction false} SameLimit(max: int, events: seq<Event>)
    ensures Steps(Init(max), events).mq.max == max
    decreases |events|
  {
    hide Step;
    if events != [] {
      SameLimit(max, events[..|events| - 1]);
      StepKeepsLimit(Steps(Init(max), events[..|events| - 1]), events[|events| - 1]);
    }
  }

  lemma StepKeepsLimit(a: Agent, e: Event)
    ensures Step(a, e).mq.max == a.mq.max
  {
    hide Taken, Looks, DoPick, DoBlock, DoExecute, DoReturn, DoResume, TryReceive;
    if Looks(a, e) {
      LookKeepsLimit(a, e);
    } else {
      match e
      case ReceiveNow(filter) => TakenLimit(a.mq, filter);
      case Deposit(_) =>
      case Notify(_) =>
      case Stop =>
      case _ => OtherSame(a, e);
    }
  }

  lemma TakenLimit(s: Queues, f: Filter)
    ensures Taken(s, f).0.max == s.max
  {
  }

  lemma TryKeepsLimit(a: Agent, filter: Filter, yielding: bool, giveUp: bool)
    ensures TryReceive(a, filter, yielding, giveUp).mq.max == a.mq.max
  {
    hide Taken, Kept, Free;
    TakenLimit(CommitAll(a).mq, filter);
  }

  lemma LookKeepsLimit(a: Agent, e: Event)
    requires Looks(a, e)
    ensures Step(a, e).mq.max == a.mq.max
  {
    hide TryReceive, Kept, Free, Flagged, Unflagged;
    match e
    case Execute =>
    case Receive(filter, yielding) => TryKeepsLimit(a, filter, yielding, false);
    case Resume(_, timedOut) =>
      if Top(a).Receiving? && a.exclusions != [] {
        var a1 := Pop(a).(exclusions := a.exclusions[..|a.exclusions| - 1]);
        TryKeepsLimit(a1, Top(a).filter, Top(a).yielding, timedOut);
      }
  }

  /** The agent once b has ended, with m in quarantine and nothing awaited. */
  function EndedWith(b: Behavior, m: Msg, pc: Pc): Agent {
    Init(256).(pc := pc, mq := Queues([], [m], 256), known := {b}, ended := [b],
               calls := [OnStart(b), Action(b), OnEnd(b)])
  }

  /** b's action, and its end, after the receive has been interrupted. */
  function Leaving(b: Behavior, m: Msg, stage: Stage): Agent {
    var a := InAction(b).(mq := Queues([], [m], 256), stack := [Running(b, stage)]);
    if stage.Ending? then a.(calls := [OnStart(b), Action(b), OnEnd(b)]) else a
  }

  lemma InterruptStep(b: Behavior, m: Msg)
    ensures Step(WaitingWith(b, m, Asleep), Wake) == WaitingWith(b, m, Back)
    ensures Step(WaitingWith(b, m, Back), Resume(true, false)) == Leaving(b, m, Acting)
  {
    var none: seq<Filter> := [];
    assert [Null][..0] == none;
    assert [Running(b, Acting), Receiving(Null, true)][..1] == [Running(b, Acting)];
  }

  lemma LeavingSteps(b: Behavior, m: Msg)
    ensures Step(Leaving(b, m, Acting), Return(true)) == Leaving(b, m, Ending)
    ensures Step(Leaving(b, m, Ending), Return(true)) == EndedWith(b, m, Back)
  {
    assert [OnStart(b), Action(b)] + [OnEnd(b)] == [OnStart(b), Action(b), OnEnd(b)];
  }

  lemma EndSteps(b: Behavior, m: Msg)
    ensures Step(EndedWith(b, m, Back), Resume(false, false)) == EndedWith(b, m, Check)
    ensures Step(EndedWith(b, m, Check), Execute) == EndedWith(b, m, Picking)
    ensures Step(EndedWith(b, m, Picking), Pick(b)) == EndedWith(b, m, Blocking)
    ensures Step(EndedWith(b, m, Blocking), Block) == EndedWith(b, m, Asleep)
  {
  }

  /** It does happen: the thread is interrupted while a receive sleeps with m held back, the behavior ends,
      and the agent sleeps in its main loop over m. */
  lemma InterruptedReceiveLeaves() returns (events: seq<Event>, m: Msg)
    ensures var a := Steps(Init(256), events); a.pc == Asleep && a.stack == [] && Left(a, m)
  {
    hide Step, Steps;
    m := Msg(0, "hello");
    var b := Behavior(0, 0);
    events := StrandedRun(b, m);
    InterruptStep(b, m);
    LeavingSteps(b, m);
    events := Go(events, WaitingWith(b, m, Asleep), Wake, WaitingWith(b, m, Back));
    events := Go(events, WaitingWith(b, m, Back), Resume(true, false), Leaving(b, m, Acting));
    events := Go(events, Leaving(b, m, Acting), Return(true), Leaving(b, m, Ending));
    events := Go(events, Leaving(b, m, Ending), Return(true), EndedWith(b, m, Back));
    EndSteps(b, m);
    events := Go(events, EndedWith(b, m, Back), Resume(false, false), EndedWith(b, m, Check));
    events := Go(events, EndedWith(b, m, Check), Execute, EndedWith(b, m, Picking));
    events := Go(events, EndedWith(b, m, Picking), Pick(b), EndedWith(b, m, Blocking));
    events := Go(events, EndedWith(b, m, Blocking), Block, EndedWith(b, m, Asleep));
    assert m in [m];
  }
}
