/**
 The fields of an agent and the code that changes them in place (Agent.java): block, wake, the
 synchronized part of deliver, the restart part of executeBehavior and the choice of the next
 behavior, each proved against its step.
 */
module AgentMonitor {
  import opened MessageQueues
  import opened Agents

  /** The states of a running agent; NONE stands for no old state. */
  datatype AgentState = NONE | RUNNING | IDLE | FINISHING

  class Monitor {
    const queue: MessageQueue
    var exclusions: seq<Filter>
    var newBehaviors: seq<Behavior>
    var activeBehaviors: multiset<Behavior>
    var blockedBehaviors: seq<Behavior>
    /** The behaviors whose own `blocked` field is set. */
    var isBlocked: set<Behavior>
    var restartBehaviors: bool
    var unblocked: bool
    var state: AgentState
    var oldState: AgentState
    /** The agent's thread is in wait(). */
    var waiting: bool
    /** The last report to the container was that the agent is idle. */
    var reportedIdle: bool

    constructor ()
      ensures Shows(Init(256)) && fresh(queue)
    {
      queue := new MessageQueue(256);
      exclusions, newBehaviors, activeBehaviors, blockedBehaviors := [], [], multiset{}, [];
      isBlocked, restartBehaviors, unblocked, waiting, reportedIdle := {}, false, false, false, false;
      state, oldState := RUNNING, NONE;
    }

    /** The fields, as the fields of the state `a` of the step system. */
    ghost predicate Shows(a: Agent)
      reads this, queue
    {
      a.mq == queue.State() && a.exclusions == exclusions && a.newB == newBehaviors &&
      a.active == activeBehaviors && a.blocked == blockedBehaviors && a.flagged == isBlocked &&
      a.restart == restartBehaviors && a.unblocked == unblocked && a.finishing == (state == FINISHING) &&
      (a.pc == Asleep <==> waiting) && reportedIdle == waiting &&
      if waiting then state == IDLE && oldState == RUNNING
      else (state == RUNNING || state == FINISHING) && oldState == NONE
    }

    method Wake(ghost a: Agent)
      requires Shows(a)
      modifies this`waiting, this`state, this`oldState, this`reportedIdle
      ensures Shows(Step(a, Event.Wake))
    {
      WakeUp();
    }

    /** stop() */
    method Stop(ghost a: Agent)
      requires Shows(a)
      modifies this`waiting, this`state, this`oldState, this`reportedIdle
      ensures Shows(Step(a, Event.Stop))
    {
      if state == FINISHING { return; }
      state, oldState := FINISHING, FINISHING;
      reportedIdle := false;
      WakeUp();
    }

    /** wake(): the state before the wait is restored, and the container told. */
    method WakeUp()
      modifies this`waiting, this`state, this`oldState, this`reportedIdle
      ensures !waiting && oldState == NONE
      ensures if old(oldState) == NONE then state == old(state) && reportedIdle == old(reportedIdle)
              else state == old(oldState) && !reportedIdle
    {
      if oldState != NONE {
        state := oldState;
        reportedIdle := false;
        oldState := NONE;
      }
      waiting := false;
    }

    /** deliver(), after the message has been put in the queue. */
    method Notify(ghost a: Agent, ghost m: Msg)
      requires Shows(a) && m in a.inflight
      modifies this`restartBehaviors, this`unblocked, this`waiting, this`state, this`oldState, this`reportedIdle
      ensures Shows(Step(a, Event.Notify(m)))
    {
      restartBehaviors := true;
      unblocked := false;
      Wake(a.(restart := true, unblocked := false));
    }

    /** The loop over the blocked behaviors in block(). */
    method AnyUnblocked() returns (r: bool)
      ensures r <==> exists i :: 0 <= i < |blockedBehaviors| && blockedBehaviors[i] !in isBlocked
    {
      for i := 0 to |blockedBehaviors|
        invariant forall j :: 0 <= j < i ==> blockedBehaviors[j] in isBlocked
      {
        if blockedBehaviors[i] !in isBlocked { return true; }
      }
      return false;
    }

    /** block(), up to the wait. */
    method Block(ghost a: Agent)
      requires Shows(a) && a.pc == Blocking
      modifies this`unblocked, this`waiting, this`state, this`oldState, this`reportedIdle
      ensures Shows(Step(a, Event.Block))
    {
      if state == FINISHING { return; }
      if !unblocked {
        unblocked := true;
        if restartBehaviors { return; }
        var any := AnyUnblocked();
        if any { return; }
      }
      unblocked := false;
      oldState := state;
      state := IDLE;
      reportedIdle := true;
      waiting := true;
    }

    /** The first part of executeBehavior: restart the behaviors that should not stay blocked. */
    method RestartBlocked(ghost a: Agent)
      requires Shows(a) && a.pc == Check
      modifies this`restartBehaviors, this`activeBehaviors, this`blockedBehaviors, queue
      ensures Shows(Step(a, Execute))
    {
      hide Committed, Flagged, Unflagged;
      if restartBehaviors {
        restartBehaviors := false;
        activeBehaviors := activeBehaviors + multiset(blockedBehaviors);
        blockedBehaviors := [];
        queue.Commit(exclusions);
      } else {
        MoveUnblocked();
      }
    }

    /** The iterator loop over the blocked behaviors. */
    method MoveUnblocked()
      modifies this`activeBehaviors, this`blockedBehaviors
      ensures blockedBehaviors == Flagged(old(blockedBehaviors), isBlocked)
      ensures activeBehaviors == old(activeBehaviors) + Unflagged(old(blockedBehaviors), isBlocked)
    {
      hide Flagged, Unflagged;
      ghost var was := blockedBehaviors;
      ghost var done := 0;
      var at := 0;     // the iterator: behaviors before it stay
      UnflaggedNone(isBlocked);
      while at < |blockedBehaviors|
        invariant 0 <= done <= |was| && 0 <= at <= |blockedBehaviors|
        invariant blockedBehaviors[..at] == Flagged(was[..done], isBlocked) && blockedBehaviors[at..] == was[done..]
        invariant activeBehaviors == old(activeBehaviors) + Unflagged(was[..done], isBlocked)
        decreases |blockedBehaviors| - at
      {
        var b := blockedBehaviors[at];
        assert was[done] == b && was[..done + 1] == was[..done] + [b];
        UnflaggedPush(was[..done], b, isBlocked);
        if b !in isBlocked {
          blockedBehaviors := blockedBehaviors[..at] + blockedBehaviors[at + 1..];
          activeBehaviors := activeBehaviors + multiset{b};
        } else {
          at := at + 1;
        }
        done := done + 1;
      }
      assert was[..done] == was;
    }

    /** The priority queue's choice: a behavior that no other active one comes before. */
    method First() returns (b: Behavior)
      requires activeBehaviors != multiset{}
      ensures IsFirst(b, activeBehaviors)
    {
      b :| b in activeBehaviors;
      var rest := activeBehaviors;
      while rest != multiset{}
        invariant b in activeBehaviors && rest <= activeBehaviors
        invariant forall c :: c in activeBehaviors ==> b.priority <= c.priority || c in rest
        decreases |rest|
      {
        var c :| c in rest;
        if c.priority < b.priority { b := c; }
        rest := rest[c := 0];
      }
    }

    method PollActive(ghost a: Agent) returns (b: Behavior)
      requires Shows(a) && a.pc == Picking && newBehaviors == [] && activeBehaviors != multiset{}
      modifies this`activeBehaviors, this`isBlocked
      ensures Shows(Step(a, Pick(b)))
    {
      hide IsFirst;
      b := First();
      activeBehaviors := activeBehaviors - multiset{b};
      isBlocked := isBlocked - {b};
    }
  }

  lemma UnflaggedNone(flagged: set<Behavior>)
    ensures Flagged([], flagged) == [] && Unflagged([], flagged) == multiset{}
  {
  }

  lemma {:induction false} FlaggedSize(s: seq<Behavior>, flagged: set<Behavior>)
    ensures multiset(Flagged(s, flagged)) <= multiset(s)
    decreases |s|
  {
    if s != [] {
      FlaggedSize(s[..|s| - 1], flagged);
      assert s == s[..|s| - 1] + [s[|s| - 1]];
    }
  }

  lemma UnflaggedPush(s: seq<Behavior>, b: Behavior, flagged: set<Behavior>)
    ensures Flagged(s + [b], flagged) == Flagged(s, flagged) + if b in flagged then [b] else []
    ensures Unflagged(s + [b], flagged) == Unflagged(s, flagged) + if b in flagged then multiset{} else multiset{b}
  {
    assert (s + [b])[..|s|] == s;
    FlaggedSize(s, flagged);
  }
}
