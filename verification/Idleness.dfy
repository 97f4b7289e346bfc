/**
 When a container is idle (Container.java: reportIdle, reportBusy, isIdle, kill; Agent.java: block,
 wake, stop, run).  The simulator moves its clock only when `isIdle` says so, and `isIdle` compares
 two counts.
 */
module Idleness {
  import opened Common

  /** An agent's thread: running, in block(), past its last report that it is idle, or ended. */
  datatype Phase = Busy | Asleep | Finished | Ended

  /** The container's agents and idle set; the thread of the last agent added under each id; and the ids
      whose last agent was killed by others. */
  datatype Site = Site(agents: set<AgentID>, idle: set<AgentID>, phase: map<AgentID, Phase>, killed: set<AgentID>)

  const EMPTY := Site({}, {}, map[], {})

  datatype Event =
    | Add(a: AgentID)       // a new agent, whose thread starts and reports that it is busy
    | Sleep(a: AgentID)     // block()
    | Wake(a: AgentID)      // wake(), or stop() by the agent's own code
    | Finish(a: AgentID)    // the end of run(): state FINISHED, reportIdle
    | OwnKill(a: AgentID)   // ... and then container.kill(aid)
    | Kill(a: AgentID)      // container.kill(aid) by others

  function PhaseOf(s: Site, a: AgentID): Phase { if a in s.phase then s.phase[a] else Ended }

  /** Stopping an agent wakes it. */
  function Awake(p: Phase): Phase { if p.Asleep? then Busy else p }

  function Step(s: Site, e: Event): Site {
    match e
    case Add(a) =>
      // an id can be used again once the thread of its last agent has ended
      if !PhaseOf(s, a).Ended? then s
      else Site(s.agents + {a}, s.idle - {a}, s.phase[a := Busy], s.killed - {a})
    case Sleep(a) => if PhaseOf(s, a).Busy? then s.(idle := s.idle + {a}, phase := s.phase[a := Asleep]) else s
    case Wake(a) => if PhaseOf(s, a).Asleep? then s.(idle := s.idle - {a}, phase := s.phase[a := Busy]) else s
    case Finish(a) => if PhaseOf(s, a).Busy? then s.(idle := s.idle + {a}, phase := s.phase[a := Finished]) else s
    case OwnKill(a) =>
      if !PhaseOf(s, a).Finished? then s
      else
        var s' := s.(phase := s.phase[a := Ended]);
        if a in s.agents then s'.(agents := s.agents - {a}, idle := s.idle - {a}) else s'
    case Kill(a) =>
      if a !in s.agents || a !in s.phase then s
      else Site(s.agents - {a}, s.idle - {a}, s.phase[a := Awake(s.phase[a])], s.killed + {a})
  }

  function Run(events: seq<Event>): Site {
    if events == [] then EMPTY else Step(Run(events[..|events| - 1]), events[|events| - 1])
  }

  function IsIdle(s: Site): bool { |s.agents| == |s.idle| }

  /** The agents whose threads are running. */
  function BusyAgents(s: Site): set<AgentID> { set a | a in s.agents && PhaseOf(s, a).Busy? }

  /** What is in the idle set, but is no agent any more. */
  function Ghosts(s: Site): set<AgentID> { s.idle - s.agents }

  /** An agent is in the idle set while it sleeps or has finished.  One that is no agent any more is
      there only if others killed it and its thread then slept or finished. */
  ghost predicate Kept(s: Site) {
    s.agents <= s.phase.Keys && s.idle <= s.phase.Keys && s.killed <= s.phase.Keys && s.agents !! s.killed &&
    (forall a :: a in s.agents ==> !s.phase[a].Ended? && (a in s.idle <==> !s.phase[a].Busy?)) &&
    (forall a :: a in Ghosts(s) ==> a in s.killed && !s.phase[a].Busy?) &&
    (forall a :: a in s.phase && a !in s.agents && !s.phase[a].Ended? ==> a in s.killed)
  }

  lemma StepKeeps(s: Site, e: Event)
    requires Kept(s)
    ensures Kept(Step(s, e))
  {
  }

  lemma {:induction false} RunKeeps(events: seq<Event>)
    ensures Kept(Run(events))
    decreases |events|
  {
    hide Step;
    if events != [] {
      RunKeeps(events[..|events| - 1]);
      StepKeeps(Run(events[..|events| - 1]), events[|events| - 1]);
    }
  }

  /** On every run, `isIdle` says that there are as many running agents as there are ghosts. */
  lemma IdleCounts(events: seq<Event>)
    ensures var s := Run(events); IsIdle(s) <==> |BusyAgents(s)| == |Ghosts(s)|
  {
    hide Run;
    RunKeeps(events);
    KeptCounts(Run(events));
  }

  lemma KeptCounts(s: Site)
    requires Kept(s)
    ensures IsIdle(s) <==> |BusyAgents(s)| == |Ghosts(s)|
  {
    assert s.agents == (s.agents * s.idle) + BusyAgents(s) && (s.agents * s.idle) !! BusyAgents(s);
    assert s.idle == (s.agents * s.idle) + Ghosts(s) && (s.agents * s.idle) !! Ghosts(s);
  }

  /** So it tells whether all agents are idle exactly when there are no ghosts, or when there are
      running agents but not as many as ghosts. */
  lemma IdleIsRight(events: seq<Event>)
    ensures var s := Run(events);
            (IsIdle(s) <==> BusyAgents(s) == {}) <==>
            Ghosts(s) == {} || (BusyAgents(s) != {} && |BusyAgents(s)| != |Ghosts(s)|)
  {
    hide Run;
    IdleCounts(events);
  }

  /** With agents that end only by their own stop(), `isIdle` is always right. */
  lemma {:induction false} StoppingIsSafe(events: seq<Event>)
    requires forall i :: 0 <= i < |events| ==> !events[i].Kill?
    ensures var s := Run(events); IsIdle(s) <==> BusyAgents(s) == {}
  {
    NobodyKilled(events);
    RunKeeps(events);
    IdleIsRight(events);
  }

  lemma {:induction false} NobodyKilled(events: seq<Event>)
    requires forall i :: 0 <= i < |events| ==> !events[i].Kill?
    ensures Run(events).killed == {}
    decreases |events|
  {
    if events != [] { NobodyKilled(events[..|events| - 1]); }
  }

  /** A killed agent whose thread has ended. */
  predicate Haunted(s: Site, a: AgentID) { a in Ghosts(s) && PhaseOf(s, a).Ended? && a in s.phase }

  /** A killed agent, whether or not its thread has ended, and whether it had finished when killed. */
  ghost predicate KilledThen(s: Site, a: AgentID, finished: bool) {
    a !in s.agents && a in s.phase &&
    if finished then a !in s.idle && (s.phase[a].Finished? || s.phase[a].Ended?)
    else a in s.idle <==> !s.phase[a].Busy?
  }

  lemma StepKilled(s: Site, a: AgentID, e: Event, finished: bool)
    requires KilledThen(s, a, finished) && e != Add(a)
    ensures KilledThen(Step(s, e), a, finished)
  {
  }

  lemma {:induction false} KilledThenStays(before: seq<Event>, a: AgentID, after: seq<Event>, finished: bool)
    requires KilledThen(Run(before), a, finished) && forall k :: 0 <= k < |after| ==> after[k] != Add(a)
    ensures KilledThen(Run(before + after), a, finished)
    decreases |after|
  {
    hide Step;
    if after == [] {
      assert before + after == before;
    } else {
      var front := after[..|after| - 1];
      KilledThenStays(before, a, front, finished);
      StepKilled(Run(before + front), a, after[|after| - 1], finished);
      assert (before + after)[..|before + after| - 1] == before + front;
    }
  }

  /**
   Killing an agent, awake or asleep, and whatever happens then short of adding another of the same id:
   once its thread has ended, the agent is left in the idle set if and only if it had not yet finished when
   it was killed.
   */
  lemma KillHaunts(before: seq<Event>, a: AgentID, after: seq<Event>)
    requires a in Run(before).agents && forall k :: 0 <= k < |after| ==> after[k] != Add(a)
    ensures var s := Run(before + [Kill(a)] + after);
            PhaseOf(s, a).Ended? ==> (Haunted(s, a) <==> !PhaseOf(Run(before), a).Finished?)
  {
    RunKeeps(before);
    OneStep(before, Kill(a));
    KilledThenStays(before + [Kill(a)], a, after, PhaseOf(Run(before), a).Finished?);
  }

  /** Such a ghost stays until an agent of that id is added, and no longer.  Meanwhile the container is
      never found idle when all its agents are. */
  lemma NotIdleUntilAdded(before: seq<Event>, a: AgentID, after: seq<Event>)
    requires Haunted(Run(before), a) && forall k :: 0 <= k < |after| ==> after[k] != Add(a)
    ensures var s := Run(before + after);
            Haunted(s, a) && (BusyAgents(s) == {} ==> !IsIdle(s)) &&
            forall e :: Haunted(Run(before + after + [e]), a) <==> e != Add(a)
  {
    hide Step, Run;
    HauntedStays(before, a, after);
    IdleCounts(before + after);
    forall e ensures Haunted(Run(before + after + [e]), a) <==> e != Add(a) {
      OneStep(before + after, e);
      StepHaunted(Run(before + after), a, e);
    }
  }

  lemma StepHaunted(s: Site, a: AgentID, e: Event)
    requires Haunted(s, a)
    ensures Haunted(Step(s, e), a) <==> e != Add(a)
  {
  }

  lemma ThreeSteps(before: seq<Event>, e1: Event, e2: Event, e3: Event)
    ensures Run(before + [e1, e2, e3]) == Step(Step(Step(Run(before), e1), e2), e3)
  {
    hide Step;
    OneStep(before, e1);
    OneStep(before + [e1], e2);
    OneStep(before + [e1] + [e2], e3);
    assert before + [e1] + [e2] + [e3] == before + [e1, e2, e3];
  }

  lemma OneStep(before: seq<Event>, e: Event)
    ensures Run(before + [e]) == Step(Run(before), e)
  {
    assert (before + [e])[..|before|] == before;
  }

  lemma {:induction false} HauntedStays(before: seq<Event>, a: AgentID, after: seq<Event>)
    requires Haunted(Run(before), a) && forall k :: 0 <= k < |after| ==> after[k] != Add(a)
    ensures Haunted(Run(before + after), a)
    decreases |after|
  {
    hide Step, Haunted;
    if after == [] {
      assert before + after == before;
    } else {
      var front := after[..|after| - 1];
      HauntedStays(before, a, front);
      StepHaunted(Run(before + front), a, after[|after| - 1]);
      assert (before + after)[..|before + after| - 1] == before + front;
    }
  }

  /** `isIdle` can also hold while an agent is running. */
  lemma IdleWhileBusy(a: AgentID, b: AgentID) returns (events: seq<Event>)
    requires a != b
    ensures IsIdle(Run(events)) && BusyAgents(Run(events)) == {b}
  {
    hide Run;
    events := [Add(a), Add(b)] + [Kill(a), Finish(a), OwnKill(a)];
    StartsEmpty();
    OneStep([], Add(a));
    OneStep([Add(a)], Add(b));
    assert [] + [Add(a)] == [Add(a)] && [Add(a)] + [Add(b)] == [Add(a), Add(b)];
    ThreeSteps([Add(a), Add(b)], Kill(a), Finish(a), OwnKill(a));
    var s2 := Site({a, b}, {}, map[a := Busy, b := Busy], {});
    assert Run([Add(a), Add(b)]) == s2;
    assert {a, b} - {a} == {b} && s2.phase[a := Busy] == s2.phase;
    assert Step(s2, Kill(a)) == Site({b}, {}, s2.phase, {a});
    assert Run(events) == Site({b}, {a}, s2.phase[a := Finished][a := Ended], {a});
  }

  lemma StartsEmpty()
    ensures Run([]) == EMPTY
  {
  }

  // ---------------------------------------------------------------------------
  // The container's side
  // ---------------------------------------------------------------------------

  /** The part of a container that keeps track of its idle agents. */
  class IdleTracker {
    var agents: set<AgentID>
    var idle: set<AgentID>
    ghost var phase: map<AgentID, Phase>
    ghost var killed: set<AgentID>

    ghost function View(): Site
      reads this
    {
      Site(agents, idle, phase, killed)
    }

    constructor ()
      ensures View() == EMPTY && Kept(View())
    {
      agents, idle, phase, killed := {}, {}, map[], {};
    }

    /** add, and the new agent's first report. */
    method Add(a: AgentID) returns (ok: bool)
      requires Kept(View())
      requires a in agents || PhaseOf(View(), a).Ended?
      modifies this
      ensures View() == Step(old(View()), Event.Add(a)) && ok == (a !in old(agents)) && Kept(View())
    {
      StepKeeps(View(), Event.Add(a));
      if a in agents { return false; }
      agents := agents + {a};
      idle := idle - {a};
      phase := phase[a := Busy];
      killed := killed - {a};
      return true;
    }

    /** Called by an agent that goes to sleep, or that has finished. */
    method ReportIdle(a: AgentID, ghost finished: bool)
      requires Kept(View()) && PhaseOf(View(), a).Busy?
      modifies this
      ensures View() == Step(old(View()), if finished then Finish(a) else Sleep(a)) && Kept(View())
    {
      StepKeeps(View(), if finished then Finish(a) else Sleep(a));
      idle := idle + {a};
      phase := phase[a := if finished then Finished else Asleep];
    }

    /** Called by an agent that wakes. */
    method ReportBusy(a: AgentID)
      requires Kept(View()) && PhaseOf(View(), a).Asleep?
      modifies this
      ensures View() == Step(old(View()), Wake(a)) && Kept(View())
    {
      StepKeeps(View(), Wake(a));
      idle := idle - {a};
      phase := phase[a := Busy];
    }

    /** kill, with the agent's own thread as the caller or another; stop() reports it busy. */
    method KillAgent(a: AgentID, ghost own: bool) returns (ok: bool)
      requires Kept(View()) && (own ==> a in phase && phase[a].Finished?)
      modifies this
      ensures View() == Step(old(View()), if own then OwnKill(a) else Kill(a)) && ok == (a in old(agents))
      ensures Kept(View())
    {
      StepKeeps(View(), if own then OwnKill(a) else Kill(a));
      if own { phase := phase[a := Ended]; }
      if a !in agents { return false; }
      if !own {
        phase := phase[a := Awake(phase[a])];
        killed := killed + {a};
      }
      agents := agents - {a};
      idle := idle - {a};
      return true;
    }

    /** isIdle(): the answer counts running agents against leftovers, so it is right without kills. */
    method CheckIdle() returns (r: bool)
      requires Kept(View())
      ensures r <==> |BusyAgents(View())| == |Ghosts(View())|
      ensures killed == {} ==> (r <==> BusyAgents(View()) == {})
    {
      KeptCounts(View());
      r := |agents| == |idle|;
    }
  }
}
