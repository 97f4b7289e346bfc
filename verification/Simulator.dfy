/**
 The discrete event simulator (DiscreteEventSimulator.java, DiscreteEvent.java): a clock, a
 priority queue of events, and the loop that fires what is due, waits for the agents to be idle,
 and advances the clock.  Scheduling is an atomic step; tasks and agents may schedule at any time.
 */
module Simulator {

  datatype DiscreteEvent = DiscreteEvent(time: int, created: int, tid: int, id: nat)

  /** DiscreteEvent.compareTo */
  function Compare(a: DiscreteEvent, b: DiscreteEvent): int {
    if a.time < b.time then -1
    else if a.time > b.time then 1
    else if a.created < b.created then -1
    else if a.created > b.created then 1
    else if a.tid < b.tid then -1
    else if a.tid > b.tid then 1
    else if a.id < b.id then -1 else if a.id > b.id then 1 else 0
  }

  predicate Before(a: DiscreteEvent, b: DiscreteEvent) { Compare(a, b) < 0 }

  /** A strict total order on events, which the running number makes total. */
  lemma BeforeIsStrictTotalOrder(a: DiscreteEvent, b: DiscreteEvent, c: DiscreteEvent)
    ensures !Before(a, a) && (Before(a, b) && Before(b, c) ==> Before(a, c))
    ensures a.id != b.id ==> Before(a, b) != Before(b, a)
    ensures Compare(a, b) == -Compare(b, a) && (Compare(a, b) == 0 <==> a == b)
    ensures Before(a, b) <==>
            a.time < b.time || (a.time == b.time && (a.created < b.created || (a.created == b.created &&
            (a.tid < b.tid || (a.tid == b.tid && a.id < b.id)))))
  {
  }

  /** An event taken from the queue, and what the clock read then. */
  datatype Firing = Firing(event: DiscreteEvent, clock: int)

  datatype Peeked = Nothing | Next(event: DiscreteEvent)

  /**
   time and events are the simulator's; count is the static event counter.  In the loop of `run`,
   looked says that `e` holds the result of a peek, and peeked is that result.
   */
  datatype Sim = Sim(time: int, events: set<DiscreteEvent>, count: nat, running: bool,
                     looked: bool, peeked: Peeked, fired: seq<Firing>)

  const START := Sim(0, {}, 0, true, false, Nothing, [])

  predicate IsLeast(e: DiscreteEvent, events: set<DiscreteEvent>) {
    e in events && forall f :: f in events && f != e ==> Before(e, f)
  }

  datatype Action =
    | Schedule(tid: int, millis: int)
    | Peek(e: DiscreteEvent)        // e := events.peek(), with e its least element, if any
    | Fire(e: DiscreteEvent)        // events.poll().task.run(), with e the least element
    | Advance(e: DiscreteEvent)     // all agents idle: peek again and move the clock, or shut down

  function NewEvent(s: Sim, tid: int, millis: int): DiscreteEvent {
    DiscreteEvent(s.time + millis, s.time, tid, s.count)
  }

  function PeekOf(s: Sim, e: DiscreteEvent): Peeked { if s.events == {} then Nothing else Next(e) }

  predicate Enabled(s: Sim, a: Action) {
    match a
    case Schedule(_, _) => true
    case Peek(e) => s.running && !s.looked && (s.events == {} || IsLeast(e, s.events))
    case Fire(e) => s.running && s.looked && s.peeked.Next? && s.peeked.event.time <= s.time && IsLeast(e, s.events)
    case Advance(e) =>
      s.running && s.looked && (s.peeked.Nothing? || s.peeked.event.time > s.time) &&
      (s.events == {} || IsLeast(e, s.events))
  }

  function Step(s: Sim, a: Action): Sim
    requires Enabled(s, a)
  {
    match a
    case Schedule(tid, millis) =>
      // a task with no delay is run at once, and leaves no event
      if millis <= 0 then s else s.(events := s.events + {NewEvent(s, tid, millis)}, count := s.count + 1)
    case Peek(e) => s.(looked := true, peeked := PeekOf(s, e))
    case Fire(e) => s.(events := s.events - {e}, looked := false, fired := s.fired + [Firing(e, s.time)])
    case Advance(e) =>
      if s.events == {} then s.(running := false)
      else s.(time := e.time, peeked := Next(e))
  }

  predicate Possible(s: Sim, actions: seq<Action>)
    decreases |actions|
  {
    actions == [] || (Enabled(s, actions[0]) && Possible(Step(s, actions[0]), actions[1..]))
  }

  function Run(s: Sim, actions: seq<Action>): Sim
    requires Possible(s, actions)
    decreases |actions|
  {
    if actions == [] then s else Run(Step(s, actions[0]), actions[1..])
  }

  // ---------------------------------------------------------------------------
  // Every run
  // ---------------------------------------------------------------------------

  ghost predicate Causal(s: Sim) {
    (forall e :: e in s.events ==> e.created <= s.time <= e.time && e.id < s.count) &&
    (forall e, f :: e in s.events && f in s.events && e != f ==> e.id != f.id) &&
    (s.peeked.Next? && s.looked ==> s.peeked.event in s.events) &&
    (forall i :: 0 <= i < |s.fired| ==> s.fired[i].clock == s.fired[i].event.time <= s.time) &&
    (forall i, j :: 0 <= i < j < |s.fired| ==> Before(s.fired[i].event, s.fired[j].event)) &&
    (forall i, e :: 0 <= i < |s.fired| && e in s.events ==> Before(s.fired[i].event, e))
  }

  lemma ScheduleIsCausal(s: Sim, tid: int, millis: int)
    requires Causal(s)
    ensures Causal(Step(s, Schedule(tid, millis)))
  {
  }

  lemma FireIsCausal(s: Sim, e: DiscreteEvent)
    requires Causal(s) && Enabled(s, Fire(e))
    ensures Causal(Step(s, Fire(e)))
  {
    var s' := Step(s, Fire(e));
    hide Before;
    forall i, j | 0 <= i < j < |s'.fired| ensures Before(s'.fired[i].event, s'.fired[j].event) {
      if j == |s.fired| { assert s'.fired[i] == s.fired[i]; }
    }
  }

  lemma AdvanceIsCausal(s: Sim, e: DiscreteEvent)
    requires Causal(s) && Enabled(s, Advance(e))
    ensures Causal(Step(s, Advance(e))) && s.time <= Step(s, Advance(e)).time
  {
    if s.events != {} {
      forall f | f in s.events ensures e.time <= f.time { assert f == e || Before(e, f); }
    }
  }

  lemma PeekIsCausal(s: Sim, e: DiscreteEvent)
    requires Causal(s) && Enabled(s, Peek(e))
    ensures Causal(Step(s, Peek(e)))
  {
    hide Before;
  }

  lemma StepIsCausal(s: Sim, a: Action)
    requires Causal(s) && Enabled(s, a)
    ensures Causal(Step(s, a)) && s.time <= Step(s, a).time
    ensures |s.fired| <= |Step(s, a).fired| && Step(s, a).fired[..|s.fired|] == s.fired
  {
    hide Causal, Before;
    match a
    case Schedule(tid, millis) => ScheduleIsCausal(s, tid, millis);
    case Peek(e) => PeekIsCausal(s, e);
    case Fire(e) => FireIsCausal(s, e);
    case Advance(e) => AdvanceIsCausal(s, e);
  }

  /**
   On every run: the clock never goes back; no pending event is earlier than the clock; every
   event fires when the clock reads exactly its own time; and the whole firing sequence is strictly
   increasing in the order of the queue, although tasks schedule new events as they fire.
   */
  lemma {:induction false} RunIsCausal(s: Sim, actions: seq<Action>)
    requires Causal(s) && Possible(s, actions)
    ensures var end := Run(s, actions);
            s.time <= end.time && Causal(end) &&
            (forall e :: e in end.events ==> end.time <= e.time) &&
            (forall i :: 0 <= i < |end.fired| ==> end.fired[i].clock == end.fired[i].event.time) &&
            (forall i, j :: 0 <= i < j < |end.fired| ==> Before(end.fired[i].event, end.fired[j].event))
    decreases |actions|
  {
    if actions != [] {
      StepIsCausal(s, actions[0]);
      RunIsCausal(Step(s, actions[0]), actions[1..]);
    }
  }

  /**
   The firing order, on every run: events fire by their times; of two with the same time the one created
   earlier fires first; of two created at the same clock reading, that of the smaller thread id; and of two
   of one thread, that with the smaller number.
   */
  lemma FiringOrder(s: Sim, actions: seq<Action>, i: nat, j: nat)
    requires Causal(s) && Possible(s, actions) && i < j < |Run(s, actions).fired|
    ensures var e, f := Run(s, actions).fired[i].event, Run(s, actions).fired[j].event;
            e.time <= f.time && (e.time == f.time ==>
              e.created <= f.created && (e.created == f.created ==>
                e.tid <= f.tid && (e.tid == f.tid ==> e.id < f.id)))
  {
    hide Run, Possible, Causal;
    RunIsCausal(s, actions);
    var e, f := Run(s, actions).fired[i].event, Run(s, actions).fired[j].event;
    BeforeIsStrictTotalOrder(e, f, e);
  }

  /** An event, pending or fired. */
  ghost predicate Known(s: Sim, e: DiscreteEvent) {
    e in s.events || exists i :: 0 <= i < |s.fired| && s.fired[i].event == e
  }

  lemma StepKnows(s: Sim, a: Action, e: DiscreteEvent)
    requires Enabled(s, a) && Known(s, e)
    ensures Known(Step(s, a), e) && s.count <= Step(s, a).count
  {
    hide IsLeast;
    var s' := Step(s, a);
    if e !in s.events {
      var i :| 0 <= i < |s.fired| && s.fired[i].event == e;
      assert s'.fired[i].event == e;
    } else if e !in s'.events {
      assert s'.fired[|s.fired|].event == e;
    }
  }

  lemma {:induction false} RunKnows(s: Sim, actions: seq<Action>, e: DiscreteEvent)
    requires Possible(s, actions) && Known(s, e)
    ensures Known(Run(s, actions), e) && s.count <= Run(s, actions).count
    decreases |actions|
  {
    hide Known;
    if actions != [] {
      StepKnows(s, actions[0], e);
      RunKnows(Step(s, actions[0]), actions[1..], e);
    }
  }

  /**
   Timers due at the same moment fire in the order in which they were scheduled.  On any run, let thread t
   schedule a timer, and later some thread u schedule another that is due at the same time, at a later clock
   reading, or at the same one if u's id is not smaller.  If the second has fired in the end, the first has
   fired before it.
   */
  lemma TimersFireInOrder(s: Sim, t: int, d: int, mid: seq<Action>, u: int, d': int, after: seq<Action>, j: nat)
    requires Causal(s) && d > 0 && d' > 0 && Possible(Step(s, Schedule(t, d)), mid)
    requires var s2 := Run(Step(s, Schedule(t, d)), mid);
             s.time + d == s2.time + d' && (s.time == s2.time ==> t <= u) && Possible(Step(s2, Schedule(u, d')), after)
    requires var s2 := Run(Step(s, Schedule(t, d)), mid);
             var end := Run(Step(s2, Schedule(u, d')), after);
             j < |end.fired| && end.fired[j].event == DiscreteEvent(s2.time + d', s2.time, u, s2.count)
    ensures var end := Run(Step(Run(Step(s, Schedule(t, d)), mid), Schedule(u, d')), after);
            exists i :: 0 <= i < j && end.fired[i].event == DiscreteEvent(s.time + d, s.time, t, s.count)
  {
    hide Run, Possible, Causal;
    var e := DiscreteEvent(s.time + d, s.time, t, s.count);
    var s1 := Step(s, Schedule(t, d));
    StepIsCausal(s, Schedule(t, d));
    RunIsCausal(s1, mid);
    RunKnows(s1, mid, e);
    var s2 := Run(s1, mid);
    var f := DiscreteEvent(s2.time + d', s2.time, u, s2.count);
    StepIsCausal(s2, Schedule(u, d'));
    StepKnows(s2, Schedule(u, d'), e);
    var s3 := Step(s2, Schedule(u, d'));
    RunIsCausal(s3, after);
    RunKnows(s3, after, e);
    FirstOfTwo(Run(s3, after), e, f, j);
  }

  lemma FirstOfTwo(s: Sim, e: DiscreteEvent, f: DiscreteEvent, j: nat)
    requires Causal(s) && Known(s, e) && j < |s.fired| && s.fired[j].event == f
    requires e.time == f.time && e.id < f.id && (e.created < f.created || (e.created == f.created && e.tid <= f.tid))
    ensures exists i :: 0 <= i < j && s.fired[i].event == e
  {
    hide Before, Causal;
    BeforeIsStrictTotalOrder(e, f, e);
    BeforeIsStrictTotalOrder(f, e, f);
    FiredInOrder(s, j, j, e);
    var i :| 0 <= i < |s.fired| && s.fired[i].event == e;
    FiredInOrder(s, i, j, e);
  }

  /** What has fired comes before what is pending, and before what fires later. */
  lemma FiredInOrder(s: Sim, i: nat, j: nat, e: DiscreteEvent)
    requires Causal(s) && i < |s.fired| && j < |s.fired|
    ensures e in s.events ==> Before(s.fired[j].event, e)
    ensures j < i ==> Before(s.fired[j].event, s.fired[i].event)
  {
    hide Before;
  }

  lemma StartIsCausal()
    ensures Causal(START)
  {
  }

  /** Every nonempty finite set of events with distinct numbers has a least one, so the loop is
      never stuck: as long as it runs, it can peek, fire, advance or shut down. */
  lemma {:induction false} LeastExists(events: set<DiscreteEvent>) returns (e: DiscreteEvent)
    requires events != {} && forall a, b :: a in events && b in events && a != b ==> a.id != b.id
    ensures IsLeast(e, events)
    decreases events
  {
    var x :| x in events;
    var rest := events - {x};
    if rest == {} {
      e := x;
      assert events == {x};
    } else {
      var y := LeastExists(rest);
      e := if Before(x, y) then x else y;
      forall f | f in events && f != e ensures Before(e, f) {
        BeforeIsStrictTotalOrder(x, y, f);
        if f != x && f != y { assert f in rest; }
      }
    }
  }

  lemma NeverStuck(s: Sim)
    requires Causal(s) && s.running
    ensures exists a: Action :: !a.Schedule? && Enabled(s, a)
  {
    var e := DiscreteEvent(0, 0, 0, 0);
    if s.events != {} { e := LeastExists(s.events); }
    if !s.looked { assert Enabled(s, Peek(e)); }
    else if s.peeked.Next? && s.peeked.event.time <= s.time { assert Enabled(s, Fire(e)); }
    else { assert Enabled(s, Advance(e)); }
  }
}
