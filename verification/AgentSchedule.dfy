/**
 The behaviors of an agent over its whole run: none is lost, duplicated or re-entered, and each is
 called in the order onStart, action any number of times, onEnd.
 */
module AgentSchedule {
  import opened Agents
  import opened MessageQueues

  /** Frames in which b's action or onEnd is in progress.  (While its onStart runs, a behavior is
      already among the active ones.) */
  function OnStack(stack: seq<Frame>, b: Behavior): nat {
    if stack == [] then 0
    else
      var f := stack[|stack| - 1];
      OnStack(stack[..|stack| - 1], b) + if f.Running? && f.b == b && f.stage != Starting then 1 else 0
  }

  lemma OnStackPush(stack: seq<Frame>, f: Frame, b: Behavior)
    ensures OnStack(stack + [f], b) ==
            OnStack(stack, b) + if f.Running? && f.b == b && f.stage != Starting then 1 else 0
  {
    assert (stack + [f])[..|stack|] == stack;
  }

  lemma CountPush(s: seq<Behavior>, x: Behavior, b: Behavior)
    ensures multiset(s + [x])[b] == multiset(s)[b] + if x == b then 1 else 0
  {
  }

  lemma {:induction false} FlaggedAreFewer(s: seq<Behavior>, flagged: set<Behavior>, b: Behavior)
    ensures multiset(Flagged(s, flagged))[b] <= multiset(s)[b]
    decreases |s|
  {
    if s != [] {
      var front, x := s[..|s| - 1], s[|s| - 1];
      FlaggedAreFewer(front, flagged, b);
      assert s == front + [x];
      CountPush(front, x, b);
      CountPush(Flagged(front, flagged), x, b);
    }
  }

  lemma FlaggedIsPart(s: seq<Behavior>, flagged: set<Behavior>, b: Behavior)
    ensures Unflagged(s, flagged)[b] + multiset(Flagged(s, flagged))[b] == multiset(s)[b]
  {
    hide Flagged;
    FlaggedAreFewer(s, flagged, b);
  }

  /** The calls made on one behavior, in order. */
  function CallsOf(calls: seq<Call>, b: Behavior): seq<Call> {
    if calls == [] then []
    else
      var c := calls[|calls| - 1];
      CallsOf(calls[..|calls| - 1], b) + if c.b == b then [c] else []
  }

  lemma CallsPush(calls: seq<Call>, c: Call, b: Behavior)
    ensures CallsOf(calls + [c], b) == CallsOf(calls, b) + if c.b == b then [c] else []
  {
    assert (calls + [c])[..|calls|] == calls;
  }

  /** onStart once, then actions. */
  predicate Live(cs: seq<Call>, b: Behavior) {
    |cs| > 0 && cs[0] == OnStart(b) && forall i :: 1 <= i < |cs| ==> cs[i] == Action(b)
  }

  /** onStart once, at least one action, then onEnd once and nothing more. */
  predicate Over(cs: seq<Call>, b: Behavior) {
    |cs| > 2 && Live(cs[..|cs| - 1], b) && cs[|cs| - 1] == OnEnd(b)
  }

  function Ends(stack: seq<Frame>, b: Behavior): nat {
    if stack == [] then 0
    else Ends(stack[..|stack| - 1], b) + if stack[|stack| - 1] == Running(b, Ending) then 1 else 0
  }

  lemma EndsPush(stack: seq<Frame>, f: Frame, b: Behavior)
    ensures Ends(stack + [f], b) == Ends(stack, b) + if f == Running(b, Ending) then 1 else 0
    ensures Ends(stack, b) <= OnStack(stack, b)
  {
    assert (stack + [f])[..|stack|] == stack;
    EndsBound(stack, b);
  }

  lemma {:induction false} EndsBound(stack: seq<Frame>, b: Behavior)
    ensures Ends(stack, b) <= OnStack(stack, b)
  {
    if stack != [] { EndsBound(stack[..|stack| - 1], b); }
  }

  /** How often b is in each place, and the calls it has had. */
  datatype Spot = Spot(waiting: nat, active: nat, blocked: nat, onStack: nat, ending: nat, ended: nat,
                       known: bool, calls: seq<Call>)

  function SpotOf(a: Agent, b: Behavior): Spot {
    Spot(multiset(a.newB)[b], a.active[b], multiset(a.blocked)[b], OnStack(a.stack, b), Ends(a.stack, b),
         multiset(a.ended)[b], b in a.known, CallsOf(a.calls, b))
  }

  function Places(s: Spot): nat { s.waiting + s.active + s.blocked + s.onStack + s.ended }

  /** In one place if it was added, in none otherwise; and where it is tells which calls it has had. */
  predicate Orderly(s: Spot, b: Behavior) {
    Places(s) == (if s.known then 1 else 0) && s.ending <= s.onStack &&
    if !s.known || s.waiting > 0 then s.calls == []
    else if s.ended + s.ending > 0 then Over(s.calls, b)
    else Live(s.calls, b) && (s.onStack > 0 ==> |s.calls| > 1)
  }

  lemma ExecuteOrderly(a: Agent, b: Behavior)
    requires Orderly(SpotOf(a, b), b)
    ensures Orderly(SpotOf(DoExecute(a), b), b)
  {
    hide CallsOf, OnStack, Ends, Over, Live, Unflagged, Flagged;
    FlaggedIsPart(a.blocked, a.flagged, b);
  }

  lemma StartSpot(a: Agent, b: Behavior)
    requires a.newB != []
    ensures var x := a.newB[0];
            var s := SpotOf(a, b);
            SpotOf(DoPick(a, x), b) ==
            if x == b then s.(waiting := s.waiting - 1, active := s.active + 1, calls := s.calls + [OnStart(b)]) else s
  {
    hide CallsOf, OnStack, Ends, IsFirst;
    var x := a.newB[0];
    assert a.newB == [x] + a.newB[1..];
    OnStackPush(a.stack, Running(x, Starting), b);
    EndsPush(a.stack, Running(x, Starting), b);
    CallsPush(a.calls, OnStart(x), b);
  }

  lemma ActSpot(a: Agent, c: Behavior, b: Behavior)
    requires a.newB == [] && IsFirst(c, a.active)
    ensures var s := SpotOf(a, b);
            SpotOf(DoPick(a, c), b) ==
            if c == b then s.(active := s.active - 1, onStack := s.onStack + 1, calls := s.calls + [Action(b)]) else s
  {
    hide CallsOf, OnStack, Ends;
    OnStackPush(a.stack, Running(c, Acting), b);
    EndsPush(a.stack, Running(c, Acting), b);
    CallsPush(a.calls, Action(c), b);
  }

  lemma StartKeepsOrder(s: Spot, b: Behavior)
    requires Orderly(s, b) && s.waiting > 0
    ensures Orderly(s.(waiting := s.waiting - 1, active := s.active + 1, calls := s.calls + [OnStart(b)]), b)
  {
  }

  lemma ActKeepsOrder(s: Spot, b: Behavior)
    requires Orderly(s, b) && s.active > 0
    ensures Orderly(s.(active := s.active - 1, onStack := s.onStack + 1, calls := s.calls + [Action(b)]), b)
  {
  }

  lemma EndKeepsOrder(s: Spot, b: Behavior, blocked: nat, active: nat)
    requires Orderly(s, b) && s.onStack > 0
    ensures s.ending == 0 ==> Orderly(s.(ending := s.ending + 1, calls := s.calls + [OnEnd(b)]), b)
    ensures s.ending > 0 ==> Orderly(s.(onStack := s.onStack - 1, ending := s.ending - 1, ended := s.ended + 1), b)
    ensures s.ending == 0 && blocked + active == s.blocked + s.active + 1 ==>
              Orderly(s.(onStack := s.onStack - 1, blocked := blocked, active := active), b)
  {
    assert (s.calls + [OnEnd(b)])[..|s.calls|] == s.calls;
  }

  lemma PickOrderly(a: Agent, c: Behavior, b: Behavior)
    requires Orderly(SpotOf(a, b), b)
    ensures Orderly(SpotOf(DoPick(a, c), b), b)
  {
    if a.newB != [] {
      FreshPickOrderly(a, c, b);
    } else if IsFirst(c, a.active) {
      ActivePickOrderly(a, c, b);
    } else {
      IdlePick(a, c, b);
    }
  }

  lemma IdlePick(a: Agent, c: Behavior, b: Behavior)
    requires a.newB == [] && !IsFirst(c, a.active)
    ensures SpotOf(DoPick(a, c), b) == SpotOf(a, b)
  {
    hide IsFirst, CallsOf, OnStack, Ends;
  }

  lemma FreshPickOrderly(a: Agent, c: Behavior, b: Behavior)
    requires Orderly(SpotOf(a, b), b) && a.newB != []
    ensures Orderly(SpotOf(DoPick(a, c), b), b)
  {
    hide SpotOf, DoPick, Orderly;
    StartSpot(a, b);
    SamePick(a, c);
    if a.newB[0] == b {
      InNew(a, b);
      StartKeepsOrder(SpotOf(a, b), b);
    }
  }

  lemma InNew(a: Agent, b: Behavior)
    requires a.newB != [] && a.newB[0] == b
    ensures SpotOf(a, b).waiting > 0
  {
    assert b in a.newB;
  }

  lemma SamePick(a: Agent, c: Behavior)
    requires a.newB != []
    ensures DoPick(a, c) == DoPick(a, a.newB[0])
  {
  }

  lemma ActivePickOrderly(a: Agent, c: Behavior, b: Behavior)
    requires Orderly(SpotOf(a, b), b) && a.newB == [] && IsFirst(c, a.active)
    ensures Orderly(SpotOf(DoPick(a, c), b), b)
  {
    hide DoPick, Orderly, CallsOf, OnStack, Ends;
    ActSpot(a, c, b);
    if c == b { ActKeepsOrder(SpotOf(a, b), b); }
  }

  /** The stack counts of the behavior on top. */
  lemma TopCounts(a: Agent, b: Behavior)
    requires a.stack != [] && Top(a).Running?
    ensures var below, x := a.stack[..|a.stack| - 1], Top(a).b;
            OnStack(a.stack, b) == OnStack(below, b) + (if x == b && Top(a).stage != Starting then 1 else 0) &&
            Ends(a.stack, b) == Ends(below, b) + (if x == b && Top(a).stage == Ending then 1 else 0) &&
            OnStack(below + [Running(x, Ending)], b) == OnStack(below, b) + (if x == b then 1 else 0) &&
            Ends(below + [Running(x, Ending)], b) == Ends(below, b) + (if x == b then 1 else 0) &&
            Ends(below, b) <= OnStack(below, b)
  {
    hide OnStack, Ends;
    var below, x := a.stack[..|a.stack| - 1], Top(a).b;
    assert a.stack == below + [Top(a)];
    OnStackPush(below, Top(a), b);
    OnStackPush(below, Running(x, Ending), b);
    EndsPush(below, Top(a), b);
    EndsPush(below, Running(x, Ending), b);
  }

  /** When an action or an onEnd returns: the behavior ends, begins to end, or is set aside. */
  lemma EndedSpot(a: Agent, done: bool, b: Behavior)
    requires a.stack != [] && Top(a).Running? && Top(a).stage == Ending
    ensures var s, s' := SpotOf(a, b), SpotOf(DoReturn(a, done), b);
            if Top(a).b != b then s' == s
            else s.onStack > 0 && s.ending > 0 &&
                 s' == s.(onStack := s.onStack - 1, ending := s.ending - 1, ended := s.ended + 1)
  {
    hide CallsOf, OnStack, Ends;
    TopCounts(a, b);
  }

  lemma DoneSpot(a: Agent, b: Behavior)
    requires a.stack != [] && Top(a).Running? && Top(a).stage == Acting
    ensures var s, s' := SpotOf(a, b), SpotOf(DoReturn(a, true), b);
            if Top(a).b != b then s' == s
            else s.onStack > 0 && s.ending < s.onStack &&
                 s' == s.(ending := s.ending + 1, calls := s.calls + [OnEnd(b)])
  {
    hide CallsOf, OnStack, Ends;
    TopCounts(a, b);
    CallsPush(a.calls, OnEnd(Top(a).b), b);
  }

  /** A behavior that is not done goes back to the blocked or the active ones. */
  function Parked(a: Agent): Agent
    requires a.stack != [] && Top(a).Running?
  {
    var b := Top(a).b;
    if b in a.flagged then Pop(a).(pc := Back, blocked := a.blocked + [b])
    else Pop(a).(pc := Back, active := a.active + multiset{b})
  }

  lemma ParkedCounts(a: Agent, b: Behavior)
    requires a.stack != [] && Top(a).Running?
    ensures var a', x := Parked(a), Top(a).b;
            multiset(a'.blocked)[b] == multiset(a.blocked)[b] + (if x == b && x in a.flagged then 1 else 0) &&
            a'.active[b] == a.active[b] + (if x == b && x !in a.flagged then 1 else 0)
  {
    CountPush(a.blocked, Top(a).b, b);
  }

  lemma ParkedRest(a: Agent)
    requires a.stack != [] && Top(a).Running?
    ensures var a' := Parked(a);
            a'.newB == a.newB && a'.stack == a.stack[..|a.stack| - 1] && a'.ended == a.ended && a'.known == a.known &&
            a'.calls == a.calls
  {
  }

  lemma ReturnParks(a: Agent)
    requires a.stack != [] && Top(a).Running? && Top(a).stage == Acting
    ensures DoReturn(a, false) == Parked(a)
  {
  }

  lemma ParkedSpot(a: Agent, b: Behavior)
    requires a.stack != [] && Top(a).Running? && Top(a).stage == Acting
    ensures var s, s' := SpotOf(a, b), SpotOf(DoReturn(a, false), b);
            if Top(a).b != b then s' == s
            else s.onStack > 0 && s.ending < s.onStack &&
                 s' == s.(onStack := s.onStack - 1, blocked := s'.blocked, active := s'.active) &&
                 s'.blocked + s'.active == s.blocked + s.active + 1
  {
    hide CallsOf, OnStack, Ends, Parked, DoReturn;
    ReturnParks(a);
    ParkedRest(a);
    ParkedCounts(a, b);
    TopCounts(a, b);
  }

  lemma StartedSpot(a: Agent, done: bool, b: Behavior)
    requires a.stack != [] && Top(a).Running? && Top(a).stage == Starting
    ensures SpotOf(DoReturn(a, done), b) == SpotOf(a, b)
  {
    hide CallsOf, OnStack, Ends;
    TopCounts(a, b);
  }

  lemma ReturnOrderly(a: Agent, done: bool, b: Behavior)
    requires Orderly(SpotOf(a, b), b) && a.stack != [] && Top(a).Running?
    ensures Orderly(SpotOf(DoReturn(a, done), b), b)
  {
    hide SpotOf, DoReturn, Orderly;
    var s, s' := SpotOf(a, b), SpotOf(DoReturn(a, done), b);
    match Top(a).stage
    case Starting => StartedSpot(a, done, b);
    case Ending =>
      EndedSpot(a, done, b);
      if Top(a).b == b { EndKeepsOrder(s, b, 0, 0); }
    case Acting =>
      if done { DoneSpot(a, b); } else { ParkedSpot(a, b); }
      if Top(a).b == b {
        OnceOnStack(s, b);
        EndKeepsOrder(s, b, s'.blocked, s'.active);
      }
  }

  lemma OnceOnStack(s: Spot, b: Behavior)
    requires Orderly(s, b)
    ensures s.onStack <= 1
  {
  }

  lemma ReceivingSpot(stack: seq<Frame>, f: Frame, b: Behavior)
    requires f.Receiving?
    ensures OnStack(stack + [f], b) == OnStack(stack, b) && Ends(stack + [f], b) == Ends(stack, b)
  {
    OnStackPush(stack, f, b);
    EndsPush(stack, f, b);
  }

  lemma TrySpot(a: Agent, filter: Filter, yielding: bool, giveUp: bool, b: Behavior)
    ensures SpotOf(TryReceive(a, filter, yielding, giveUp), b) == SpotOf(a, b)
  {
    hide CallsOf, OnStack, Ends, Taken, Committed;
    ReceivingSpot(a.stack, Receiving(filter, yielding), b);
  }

  lemma ResumeSpot(a: Agent, interrupted: bool, timedOut: bool, b: Behavior)
    requires a.stack != [] && Top(a).Receiving? && a.exclusions != []
    ensures SpotOf(DoResume(a, interrupted, timedOut), b) == SpotOf(a, b)
  {
    hide CallsOf, OnStack, Ends, TryReceive;
    var a1 := Pop(a).(exclusions := a.exclusions[..|a.exclusions| - 1]);
    assert a.stack == a1.stack + [Top(a)];
    ReceivingSpot(a1.stack, Top(a), b);
    TrySpot(a1, Top(a).filter, Top(a).yielding, timedOut, b);
  }

  lemma AddSpot(a: Agent, c: Behavior, b: Behavior)
    requires c !in a.known
    ensures var s := SpotOf(a, b);
            SpotOf(Step(a, AddBehavior(c)), b) == if c == b then s.(waiting := s.waiting + 1, known := true) else s
  {
    hide CallsOf, OnStack, Ends;
    CountPush(a.newB, c, b);
  }

  lemma AddOrderly(a: Agent, c: Behavior, b: Behavior)
    requires Orderly(SpotOf(a, b), b) && c !in a.known
    ensures Orderly(SpotOf(Step(a, AddBehavior(c)), b), b)
  {
    hide CallsOf, OnStack, Ends, Step, Live, Over;
    AddSpot(a, c, b);
  }

  lemma StepOrderly(a: Agent, e: Event, b: Behavior)
    requires Orderly(SpotOf(a, b), b)
    ensures Orderly(SpotOf(Step(a, e), b), b)
  {
    hide Orderly, SpotOf, DoExecute, DoPick, DoReturn, DoResume, TryReceive;
    match e
    case Execute => ExecuteOrderly(a, b);
    case Pick(c) => PickOrderly(a, c, b);
    case Return(done) => if a.stack != [] && Top(a).Running? { ReturnOrderly(a, done, b); }
    case Receive(filter, yielding) => TrySpot(a, filter, yielding, false, b);
    case Resume(interrupted, timedOut) =>
      if a.stack != [] && Top(a).Receiving? && a.exclusions != [] { ResumeSpot(a, interrupted, timedOut, b); }
      SpotAt(a, if a.finishing then Finished else Check, b);
    case AddBehavior(c) => if c !in a.known { AddOrderly(a, c, b); }
    case _ => SpotStays(a, e, b);
  }

  lemma SpotAt(a: Agent, pc: Pc, b: Behavior)
    ensures SpotOf(a.(pc := pc), b) == SpotOf(a, b)
  {
    hide CallsOf, OnStack, Ends;
  }

  lemma SpotStays(a: Agent, e: Event, b: Behavior)
    requires e.Deposit? || e.Notify? || e.Wake? || e.Stop? || e.SetFlag? || e.Restart? || e.Block? || e.ReceiveNow?
    ensures SpotOf(Step(a, e), b) == SpotOf(a, b)
  {
    hide CallsOf, OnStack, Ends, Added, Taken;
  }

  lemma {:induction false} RunOrderly(max: int, events: seq<Event>, b: Behavior)
    ensures Orderly(SpotOf(Steps(Init(max), events), b), b)
    decreases |events|
  {
    hide Step;
    if events != [] {
      RunOrderly(max, events[..|events| - 1], b);
      StepOrderly(Steps(Init(max), events[..|events| - 1]), events[|events| - 1], b);
    }
  }

  /**
   Conservation, on every run: a behavior that was added is in exactly one of the new, the active,
   the blocked, the call stack and the ended, and one never added is in none; so no action is
   re-entered while it is suspended in a receive.  Its calls so far are: none while it is new;
   onStart and then actions while it lives; and those with a final onEnd once it is ending or has
   ended.
   */
  lemma BehaviorsAreConserved(max: int, events: seq<Event>, b: Behavior)
    ensures var a := Steps(Init(max), events);
            var cs := CallsOf(a.calls, b);
            Places(SpotOf(a, b)) == (if b in a.known then 1 else 0) && OnStack(a.stack, b) <= 1 &&
            (cs == [] || Live(cs, b) || Over(cs, b)) &&
            (cs == [] <==> b !in a.known || b in a.newB) &&
            (b in a.active || b in a.blocked ==> Live(cs, b)) &&
            (b in a.ended ==> Over(cs, b))
  {
    hide Steps, Live, Over, CallsOf;
    RunOrderly(max, events, b);
    var a := Steps(Init(max), events);
    LiveOrOver(CallsOf(a.calls, b), b);
    EndsBound(a.stack, b);
  }

  lemma LiveOrOver(cs: seq<Call>, b: Behavior)
    ensures Live(cs, b) || Over(cs, b) ==> cs != []
  {
  }

  lemma SameNew(a: Agent, e: Event)
    requires !e.Pick? && !e.AddBehavior? && !e.Return?
    ensures Step(a, e).newB == a.newB && Step(a, e).calls == a.calls
  {
    hide Taken, Added, Committed, Flagged, Unflagged;
  }

  lemma PickCalls(a: Agent, b: Behavior)
    ensures var calls := DoPick(a, b).calls;
            calls == a.calls ||
            (|calls| == |a.calls| + 1 && calls[..|a.calls|] == a.calls &&
             (calls[|a.calls|].Action? ==> a.newB == [] && IsFirst(calls[|a.calls|].b, a.active)))
  {
    hide IsFirst;
  }

  lemma ReturnCalls(a: Agent, done: bool)
    requires a.stack != [] && Top(a).Running?
    ensures var calls := DoReturn(a, done).calls;
            calls == a.calls ||
            (|calls| == |a.calls| + 1 && calls[..|a.calls|] == a.calls && calls[|a.calls|].OnEnd?)
  {
    match Top(a).stage
    case Starting =>
    case Acting =>
    case Ending =>
  }

  /** Calls are added one at a time, an action only for a least active behavior when none is new. */
  lemma StepCalls(a: Agent, e: Event)
    ensures var calls := Step(a, e).calls;
            calls == a.calls ||
            (|calls| == |a.calls| + 1 && calls[..|a.calls|] == a.calls &&
             (calls[|a.calls|].Action? ==> a.newB == [] && IsFirst(calls[|a.calls|].b, a.active)))
  {
    hide IsFirst, DoPick, DoReturn;
    match e
    case Pick(b) => PickCalls(a, b);
    case Return(done) => if a.pc == User && a.stack != [] && Top(a).Running? { ReturnCalls(a, done); }
    case AddBehavior(_) =>
    case _ => SameNew(a, e);
  }

  /** On any run, whenever an action was called, there was no new behavior and its behavior had the least
      priority value among all that were active at that moment. */
  lemma {:induction false} LeastPriorityRuns(max: int, events: seq<Event>, i: nat) returns (k: nat)
    requires var calls := Steps(Init(max), events).calls; i < |calls| && calls[i].Action?
    ensures k < |events|
    ensures var a, b := Steps(Init(max), events[..k]), Steps(Init(max), events).calls[i].b;
            a.calls == Steps(Init(max), events).calls[..i] && a.newB == [] &&
            b in a.active && forall c :: c in a.active ==> b.priority <= c.priority
    decreases |events|
  {
    hide Step;
    if events != [] {
      var front := events[..|events| - 1];
      var a := Steps(Init(max), front);
      StepCalls(a, events[|events| - 1]);
      if i < |a.calls| {
        k := LeastPriorityRuns(max, front, i);
        assert front[..k] == events[..k];
      } else {
        k := |front|;
      }
    }
  }

  /** The behaviors started, in order, and those added for the first time on a run, in order. */
  function Starts(calls: seq<Call>): seq<Behavior> {
    if calls == [] then []
    else Starts(calls[..|calls| - 1]) + if calls[|calls| - 1].OnStart? then [calls[|calls| - 1].b] else []
  }

  function Additions(max: int, events: seq<Event>): seq<Behavior> {
    if events == [] then []
    else
      var e := events[|events| - 1];
      Additions(max, events[..|events| - 1]) +
      if e.AddBehavior? && e.b !in Steps(Init(max), events[..|events| - 1]).known then [e.b] else []
  }

  lemma StartsMore(calls: seq<Call>, c: Call)
    ensures Starts(calls + [c]) == Starts(calls) + if c.OnStart? then [c.b] else []
  {
    assert (calls + [c])[..|calls|] == calls;
  }

  lemma ReturnStarts(a: Agent, done: bool)
    requires a.stack != [] && Top(a).Running?
    ensures DoReturn(a, done).newB == a.newB && Starts(DoReturn(a, done).calls) == Starts(a.calls)
  {
    StartsMore(a.calls, OnEnd(Top(a).b));
    match Top(a).stage
    case Starting =>
    case Acting =>
    case Ending =>
  }

  lemma PickStarts(a: Agent, b: Behavior)
    ensures Starts(DoPick(a, b).calls) + DoPick(a, b).newB == Starts(a.calls) + a.newB
  {
    hide IsFirst, Starts;
    if a.newB != [] {
      StartsMore(a.calls, OnStart(a.newB[0]));
      MoveFirst(Starts(a.calls), a.newB);
    } else {
      StartsMore(a.calls, Action(b));
    }
  }

  lemma MoveFirst(s: seq<Behavior>, t: seq<Behavior>)
    requires t != []
    ensures (s + [t[0]]) + t[1..] == s + t
  {
  }

  lemma StepStarts(a: Agent, e: Event)
    ensures var a' := Step(a, e);
            Starts(a'.calls) + a'.newB ==
            Starts(a.calls) + a.newB + if e.AddBehavior? && e.b !in a.known then [e.b] else []
  {
    hide DoPick, DoReturn, Starts;
    match e
    case Pick(b) => if a.pc == Picking { PickStarts(a, b); }
    case Return(done) => if a.pc == User && a.stack != [] && Top(a).Running? { ReturnStarts(a, done); }
    case AddBehavior(b) => assert Starts(a.calls) + (a.newB + [b]) == Starts(a.calls) + a.newB + [b];
    case _ => SameNew(a, e);
  }

  /** Behaviors are started in the order in which they were added: on any run those started, and then those
      still new, are all that have been added. */
  lemma {:induction false} StartsInOrder(max: int, events: seq<Event>)
    ensures var a := Steps(Init(max), events); Starts(a.calls) + a.newB == Additions(max, events)
    decreases |events|
  {
    hide Step;
    if events != [] {
      StartsInOrder(max, events[..|events| - 1]);
      StepStarts(Steps(Init(max), events[..|events| - 1]), events[|events| - 1]);
    }
  }

  lemma TryFlags(a: Agent, filter: Filter, yielding: bool, giveUp: bool)
    ensures TryReceive(a, filter, yielding, giveUp).flagged == a.flagged
  {
    hide Committed, Taken;
  }

  lemma ExecuteFlags(a: Agent)
    ensures DoExecute(a).flagged == a.flagged && DoBlock(a).flagged == a.flagged
  {
    hide Committed, Flagged, Unflagged;
  }

  lemma PickFlags(a: Agent, c: Behavior, done: bool)
    ensures DoPick(a, c).flagged <= a.flagged
    ensures a.stack != [] && Top(a).Running? ==> DoReturn(a, done).flagged == a.flagged
  {
    hide IsFirst;
  }

  lemma StepFlags(a: Agent, e: Event, b: Behavior)
    requires e != SetFlag(b) && b !in a.flagged
    ensures b !in Step(a, e).flagged
  {
    hide Taken, Added, TryReceive, DoExecute, DoBlock, DoPick, DoReturn;
    match e
    case Execute => ExecuteFlags(a);
    case Block => ExecuteFlags(a);
    case Pick(c) => PickFlags(a, c, false);
    case Return(done) => PickFlags(a, b, done);
    case Receive(filter, yielding) => TryFlags(a, filter, yielding, false);
    case Resume(_, timedOut) =>
      if a.pc == Back && a.stack != [] && Top(a).Receiving? && a.exclusions != [] {
        var a1 := Pop(a).(exclusions := a.exclusions[..|a.exclusions| - 1]);
        TryFlags(a1, Top(a).filter, Top(a).yielding, timedOut);
      }
    case _ =>
  }

  lemma {:induction false} StaysUnflagged(a: Agent, mid: seq<Event>, b: Behavior)
    requires b !in a.flagged && forall k :: 0 <= k < |mid| ==> mid[k] != SetFlag(b)
    ensures b !in Steps(a, mid).flagged
    decreases |mid|
  {
    hide Step;
    if mid != [] {
      StaysUnflagged(a, mid[..|mid| - 1], b);
      StepFlags(Steps(a, mid[..|mid| - 1]), mid[|mid| - 1], b);
    }
  }

  lemma PickUnflags(a: Agent, b: Behavior)
    requires Step(a, Pick(b)).calls == a.calls + [Action(b)]
    ensures b !in Step(a, Pick(b)).flagged
  {
    hide IsFirst;
    assert (a.calls + [Action(b)])[|a.calls|] == Action(b);
  }

  /** A behavior is parked after its action only if it was blocked during the action, however it came to run:
      if not, and it is not done, it is active again. */
  lemma ParkedOnlyIfBlocked(a: Agent, b: Behavior, mid: seq<Event>)
    requires Step(a, Pick(b)).calls == a.calls + [Action(b)]
    requires forall k :: 0 <= k < |mid| ==> mid[k] != SetFlag(b)
    ensures var s := Steps(Step(a, Pick(b)), mid);
            b !in s.flagged &&
            (s.pc == User && s.stack != [] && Top(s) == Running(b, Acting) ==>
               Step(s, Return(false)).active == s.active + multiset{b} && Step(s, Return(false)).blocked == s.blocked)
  {
    hide Steps;
    PickUnflags(a, b);
    StaysUnflagged(Step(a, Pick(b)), mid, b);
  }

  /** A behavior whose action has returned and which is done is ended, blocked or not, and stays out of the way
      of the others. */
  lemma DoneIsEnded(a: Agent, b: Behavior, done: bool)
    requires a.pc == User && a.stack != [] && Top(a) == Running(b, Acting)
    ensures var s := Step(a, Return(true));
            var s' := Step(s, Return(done));
            s.pc == User && s.calls == a.calls + [OnEnd(b)] &&
            s'.calls == s.calls && s'.pc == Back && s'.ended == a.ended + [b] &&
            s'.active == a.active && s'.blocked == a.blocked && s'.stack == a.stack[..|a.stack| - 1]
  {
    var below := a.stack[..|a.stack| - 1];
    assert (below + [Running(b, Ending)])[..|below|] == below;
  }
}
