/**
 What an agent may sleep over besides messages: behaviors restarted, or added, by other threads just before
 it blocks.  block() looks at the blocked behaviors only if its last call waited or a message has been
 delivered since, and it never looks at the new ones.
 */
module AgentWakeups {
  import opened Common
  import opened MessageQueues
  import opened Agents

  /** One call of block(): it waits if and only if the agent is not to finish and either its last call did not
      wait, or no restart is owed and every blocked behavior is to stay so. */
  lemma BlockWaitsExactly(a: Agent)
    requires a.pc == Blocking
    ensures Step(a, Block).pc == Asleep <==>
            !a.finishing && (a.unblocked || (!a.restart && forall b :: b in a.blocked ==> b in a.flagged))
    ensures Step(a, Block).pc != Asleep ==> Step(a, Block).pc == Back && (a.finishing || Step(a, Block).unblocked)
    ensures Step(a, Block).pc == Asleep ==> !Step(a, Block).unblocked
  {
    if !a.finishing && !a.unblocked && !a.restart {
      if forall b :: b in a.blocked ==> b in a.flagged {
        assert forall i :: 0 <= i < |a.blocked| ==> a.blocked[i] in a.flagged;
      } else {
        var b :| b in a.blocked && b !in a.flagged;
        var i :| 0 <= i < |a.blocked| && a.blocked[i] == b;
      }
    }
  }

  /** How many events of a run come before the call of block() in which the agent is now asleep. */
  function LastBlock(max: int, events: seq<Event>): (k: nat)
    ensures k <= |events|
  {
    if events == [] then 0
    else if events[|events| - 1] == Block && Steps(Init(max), events[..|events| - 1]).pc == Blocking then |events| - 1
    else if Steps(Init(max), events[..|events| - 1]).pc != Asleep then |events|
    else LastBlock(max, events[..|events| - 1])
  }

  /** Asleep since block() was called in state s: no behavior has moved, and flags have only been set. */
  ghost predicate AsleepSince(s: Agent, a: Agent) {
    s.pc == Blocking && !s.finishing && a.blocked == s.blocked && a.newB == s.newB && s.flagged <= a.flagged &&
    (s.unblocked || (!s.restart && forall b :: b in s.blocked ==> b in s.flagged))
  }

  lemma SleepGoesOn(s: Agent, a: Agent, e: Event)
    requires AsleepSince(s, a) && a.pc == Asleep && Step(a, e).pc == Asleep
    ensures AsleepSince(s, Step(a, e))
  {
    hide Taken, Added, Committed;
  }

  lemma OnlyBlockSleeps(a: Agent, e: Event)
    requires a.pc != Asleep && Step(a, e).pc == Asleep
    ensures e == Block && a.pc == Blocking
  {
    hide Taken, Added, Committed, IsFirst, Flagged, Unflagged;
  }

  lemma {:induction false} RunSleeps(max: int, events: seq<Event>)
    requires Steps(Init(max), events).pc == Asleep
    ensures var k := LastBlock(max, events);
            k < |events| && AsleepSince(Steps(Init(max), events[..k]), Steps(Init(max), events))
    decreases |events|
  {
    hide Step, AsleepSince;
    NotAsleepAtFirst(max);
    var front, e := events[..|events| - 1], events[|events| - 1];
    var a := Steps(Init(max), front);
    if e == Block && a.pc == Blocking {
      FallsAsleep(a);
    } else if a.pc != Asleep {
      OnlyBlockSleeps(a, e);
    } else {
      RunSleeps(max, front);
      assert front[..LastBlock(max, front)] == events[..LastBlock(max, front)];
      SleepGoesOn(Steps(Init(max), front[..LastBlock(max, front)]), a, e);
    }
  }

  lemma NotAsleepAtFirst(max: int)
    ensures Steps(Init(max), []).pc != Asleep
  {
  }

  lemma FallsAsleep(a: Agent)
    requires a.pc == Blocking && Step(a, Block).pc == Asleep
    ensures AsleepSince(a, Step(a, Block))
  {
    BlockWaitsExactly(a);
  }

  /**
   What the agent sleeps over, on any run.  A blocked behavior that may run (it has been restarted, and has not
   been blocked again) is slept over exactly if it was so when block() was called, with the previous call not
   having waited; and a new behavior exactly if it had been added by then.
   */
  lemma SleptOver(max: int, events: seq<Event>, b: Behavior)
    requires Steps(Init(max), events).pc == Asleep
    ensures var a := Steps(Init(max), events);
            var k := LastBlock(max, events);
            var s := Steps(Init(max), events[..k]);
            k < |events| && s.pc == Blocking &&
            (b in a.blocked && b !in a.flagged <==> s.unblocked && b in s.blocked && b !in a.flagged) &&
            (b in a.newB <==> b in s.newB)
  {
    hide Steps, Step;
    RunSleeps(max, events);
  }

  // ---------------------------------------------------------------------------
  // Stopping
  // ---------------------------------------------------------------------------

  lemma {:induction false} FinishingRuns(a: Agent, events: seq<Event>)
    requires a.finishing
    ensures Steps(a, events).finishing
    decreases |events|
  {
    hide Step;
    if events != [] {
      FinishingRuns(a, events[..|events| - 1]);
      FinishingStays(Steps(a, events[..|events| - 1]), events[|events| - 1]);
    }
  }

  /**
   Stopping, on any run and at any time: from then on the agent never sleeps; a receive that waits returns
   without a message; and once control is back in the main loop the thread finishes.
   */
  lemma StopEnds(max: int, before: seq<Event>, after: seq<Event>, interrupted: bool, timedOut: bool)
    ensures var a := Steps(Init(max), before + [Stop] + after);
            var a' := Step(a, Resume(interrupted, timedOut));
            a.pc != Asleep &&
            (a.pc == Back && a.stack == [] ==> a'.pc == Finished) &&
            (a.pc == Back && a.stack != [] ==>
               a'.pc == User && a'.mq == a.mq && Handed(a, Resume(interrupted, timedOut)).None?)
  {
    hide Steps, TryReceive;
    var events := before + [Stop] + after;
    StepsAppend(Init(max), before + [Stop], after);
    StepsAppend(Init(max), before, [Stop]);
    OneStep(Steps(Init(max), before), Stop);
    FinishingRuns(Steps(Init(max), before + [Stop]), after);
    RunAlert(max, events);
    RunReserves(max, events);
    var a := Steps(Init(max), events);
    if a.pc == Back && a.stack != [] { ResumeReserves(a, interrupted, timedOut); }
  }

  /** A filter accepts some message of a queue; a null filter accepts any. */
  predicate SomeAccepted(filter: Filter, q: seq<Msg>) {
    if filter.Null? then q != [] else exists k :: 0 <= k < |q| && filter.accepts(q[k])
  }

  /**
   When a waiting receive returns, having been woken: exactly if it is interrupted, or the agent is to finish,
   or its time is up, or its filter accepts a message that a commit (with the filters of the receives that
   enclose it) leaves in the queue.  Otherwise it waits again as before.
   */
  lemma ReceiveReturnsExactly(a: Agent, interrupted: bool, timedOut: bool)
    requires Reserving(a) && a.pc == Back && a.stack != []
    ensures Top(a).Receiving? && a.exclusions != []
    ensures var s := Step(a, Resume(interrupted, timedOut));
            var q := Committed(a.mq, a.exclusions[..|a.exclusions| - 1]).queue;
            (s.pc == User <==>
               interrupted || a.finishing || timedOut || SomeAccepted(Top(a).filter, q))
    ensures var s := Step(a, Resume(interrupted, timedOut));
            if s.pc == User then s.stack == a.stack[..|a.stack| - 1]
            else s.stack == a.stack && s.exclusions == a.exclusions &&
                 s.pc == if Top(a).yielding then Check else Blocking
  {
    hide Committed, Taken, Alternating, NoneReserved, Awaited, TryReceive;
    ResumeReserves(a, interrupted, timedOut);
    var ex := a.exclusions[..|a.exclusions| - 1];
    assert a.stack[..|a.stack| - 1] + [Top(a)] == a.stack && Top(a) == Receiving(Top(a).filter, Top(a).yielding);
    OwnFilter(a);
    var a1, f := Pop(a).(exclusions := ex), Top(a).filter;
    TriesAgain(a1, f, Top(a).yielding, timedOut);
    var s := Step(a, Resume(interrupted, timedOut));
    assert s == if interrupted || a.finishing then a1.(pc := User) else TryReceive(a1, f, Top(a).yielding, timedOut);
  }

  lemma TriesAgain(a: Agent, filter: Filter, yielding: bool, giveUp: bool)
    ensures var s := TryReceive(a, filter, yielding, giveUp);
            var q := Committed(a.mq, a.exclusions).queue;
            (s.pc == User <==> giveUp || SomeAccepted(filter, q)) &&
            if s.pc == User then s.stack == a.stack
            else s.stack == a.stack + [Receiving(filter, yielding)] && s.exclusions == a.exclusions + [filter] &&
                 s.pc == if yielding then Check else Blocking
  {
    hide Committed, Taken;
    var q := Committed(a.mq, a.exclusions).queue;
    TakenIsFirst(Committed(a.mq, a.exclusions), filter);
    var r := Taken(Committed(a.mq, a.exclusions), filter).1;
    if r.Some? {
      var k :| 0 <= k < |q| && q[k] == r.value && if filter.Null? then k == 0 else filter.accepts(q[k]);
      assert SomeAccepted(filter, q);
    }
  }

  lemma OwnFilter(a: Agent)
    requires Reserving(a) && a.stack != [] && Top(a).Receiving?
    ensures a.exclusions != [] && a.exclusions[..|a.exclusions| - 1] + [Top(a).filter] == a.exclusions
  {
    hide NoneReserved, Alternating;
  }

  // ---------------------------------------------------------------------------
  // Both happen
  // ---------------------------------------------------------------------------

  /** A new behavior is slept over: another thread adds it after executeBehavior has found nothing to run and
      before block(). */
  lemma NewBehaviorSleptOver(b: Behavior) returns (events: seq<Event>)
    ensures var a := Steps(Init(256), events); a.pc == Asleep && a.newB == [b]
  {
    hide Reaches;
    var a0 := Init(256);
    ReachesStart();
    assert a0.active + Unflagged(a0.blocked, a0.flagged) == multiset{} && Flagged(a0.blocked, a0.flagged) == [];
    events := Go([], a0, Execute, a0.(pc := Picking));
    events := Go(events, a0.(pc := Picking), Pick(b), a0.(pc := Blocking));
    events := Go(events, a0.(pc := Blocking), AddBehavior(b), a0.(pc := Blocking, newB := [b], known := {b}));
    events := Go(events, a0.(pc := Blocking, newB := [b], known := {b}), Block,
                 a0.(pc := Asleep, newB := [b], known := {b}));
    MeansReaches(events, a0.(pc := Asleep, newB := [b], known := {b}));
  }

  lemma MeansReaches(events: seq<Event>, a: Agent)
    requires Reaches(events, a)
    ensures Steps(Init(256), events) == a
  {
  }

  /** The agent with b, its only behavior, blocked or in its action. */
  function Parked(b: Behavior, pc: Pc, flagged: set<Behavior>, unblocked: bool, calls: seq<Call>): Agent {
    Init(256).(pc := pc, blocked := [b], flagged := flagged, unblocked := unblocked, known := {b}, calls := calls)
  }

  function Acts(b: Behavior, flagged: set<Behavior>, unblocked: bool, calls: seq<Call>): Agent {
    Init(256).(pc := User, stack := [Running(b, Acting)], flagged := flagged, unblocked := unblocked, known := {b},
               calls := calls)
  }

  lemma FlagSteps(b: Behavior, u: bool, calls: seq<Call>)
    ensures Step(Acts(b, {}, u, calls), SetFlag(b)) == Acts(b, {b}, u, calls)
  {
    assert {} + {b} == {b};
  }

  lemma ReturnSteps(b: Behavior, u: bool, calls: seq<Call>)
    ensures Step(Acts(b, {b}, u, calls), Return(false)) == Parked(b, Back, {b}, u, calls)
    ensures Step(Parked(b, Back, {b}, u, calls), Resume(false, false)) == Parked(b, Check, {b}, u, calls)
  {
  }

  lemma IdleSteps(b: Behavior, u: bool, calls: seq<Call>)
    ensures Step(Parked(b, Check, {b}, u, calls), Execute) == Parked(b, Picking, {b}, u, calls)
    ensures Step(Parked(b, Picking, {b}, u, calls), Pick(b)) == Parked(b, Blocking, {b}, u, calls)
    ensures Step(Parked(b, Blocking, {b}, u, calls), Restart(b)) == Parked(b, Blocking, {}, u, calls)
  {
    FlaggedOne(b);
    assert {b} - {b} == {};
    assert multiset([b]) - multiset([b]) == multiset{};
  }

  lemma FlaggedOne(b: Behavior)
    ensures Flagged([b], {b}) == [b] && Flagged([b], {}) == [] && Unflagged([b], {}) == multiset{b}
  {
    assert [b][..0] == [];
    assert multiset([b]) == multiset{b};
  }

  /** b blocks itself in its action, nothing else is to run, and another thread restarts it before block(). */
  lemma ParkAndRestart(events: seq<Event>, b: Behavior, u: bool, calls: seq<Call>) returns (r: seq<Event>)
    requires Reaches(events, Acts(b, {}, u, calls))
    ensures Reaches(r, Parked(b, Blocking, {}, u, calls))
  {
    hide Reaches, Step, Uninterrupted;
    FlagSteps(b, u, calls);
    ReturnSteps(b, u, calls);
    r := Go(events, Acts(b, {}, u, calls), SetFlag(b), Acts(b, {b}, u, calls));
    r := Go(r, Acts(b, {b}, u, calls), Return(false), Parked(b, Back, {b}, u, calls));
    r := Go(r, Parked(b, Back, {b}, u, calls), Resume(false, false), Parked(b, Check, {b}, u, calls));
    IdleSteps(b, u, calls);
    r := Go(r, Parked(b, Check, {b}, u, calls), Execute, Parked(b, Picking, {b}, u, calls));
    r := Go(r, Parked(b, Picking, {b}, u, calls), Pick(b), Parked(b, Blocking, {b}, u, calls));
    r := Go(r, Parked(b, Blocking, {b}, u, calls), Restart(b), Parked(b, Blocking, {}, u, calls));
  }

  /** The first such restart is noticed: b acts again. */
  lemma NoticedSteps(b: Behavior, calls: seq<Call>)
    ensures Step(Parked(b, Blocking, {}, false, calls), Block) == Parked(b, Back, {}, true, calls)
    ensures Step(Parked(b, Back, {}, true, calls), Resume(false, false)) == Parked(b, Check, {}, true, calls)
  {
    var a := Parked(b, Blocking, {}, false, calls);
    assert a.blocked == [b] && a.blocked[0] !in a.flagged;
  }

  lemma ActsAgain(b: Behavior, calls: seq<Call>)
    ensures Step(Parked(b, Check, {}, true, calls), Execute) ==
            Parked(b, Picking, {}, true, calls).(blocked := [], active := multiset{b})
    ensures Step(Parked(b, Picking, {}, true, calls).(blocked := [], active := multiset{b}), Pick(b)) ==
            Acts(b, {}, true, calls + [Action(b)])
  {
    FlaggedOne(b);
    assert multiset{} + multiset{b} == multiset{b} && multiset{b} - multiset{b} == multiset{};
    assert {} - {b} == {};
  }

  /** A restarted behavior is slept over: the second time in a row that another thread restarts it just
      before block(), block() does not look. */
  lemma RestartSleptOver(b: Behavior) returns (events: seq<Event>)
    ensures var a := Steps(Init(256), events); a.pc == Asleep && a.blocked == [b] && a.flagged == {}
  {
    hide Reaches, Step, Uninterrupted;
    var calls := [OnStart(b), Action(b)];
    events := ActingRun(b);
    events := ParkAndRestart(events, b, false, calls);
    NoticedSteps(b, calls);
    ActsAgain(b, calls);
    events := Go(events, Parked(b, Blocking, {}, false, calls), Block, Parked(b, Back, {}, true, calls));
    events := Go(events, Parked(b, Back, {}, true, calls), Resume(false, false), Parked(b, Check, {}, true, calls));
    var a := Parked(b, Picking, {}, true, calls).(blocked := [], active := multiset{b});
    events := Go(events, Parked(b, Check, {}, true, calls), Execute, a);
    events := Go(events, a, Pick(b), Acts(b, {}, true, calls + [Action(b)]));
    events := ParkAndRestart(events, b, true, calls + [Action(b)]);
    LastStep(b, calls + [Action(b)]);
    events := Go(events, Parked(b, Blocking, {}, true, calls + [Action(b)]), Block,
                 Parked(b, Asleep, {}, false, calls + [Action(b)]));
    MeansReaches(events, Parked(b, Asleep, {}, false, calls + [Action(b)]));
  }

  lemma LastStep(b: Behavior, calls: seq<Call>)
    ensures Step(Parked(b, Blocking, {}, true, calls), Block) == Parked(b, Asleep, {}, false, calls)
  {
  }
}
