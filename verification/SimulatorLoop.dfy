/**
 The loop of DiscreteEventSimulator.run as code: firing what is due, then advancing the clock.
 Each round is shown to be a sequence of the steps that `Simulator` reasons about.
 */
module SimulatorLoop {
  import opened Simulator

  lemma {:induction false} PossibleAppend(s: Sim, actions: seq<Action>, a: Action)
    requires Possible(s, actions) && Enabled(Run(s, actions), a)
    ensures Possible(s, actions + [a]) && Run(s, actions + [a]) == Step(Run(s, actions), a)
    decreases |actions|
  {
    if actions == [] {
      assert (actions + [a])[1..] == [];
    } else {
      assert (actions + [a])[1..] == actions[1..] + [a] && (actions + [a])[0] == actions[0];
      PossibleAppend(Step(s, actions[0]), actions[1..], a);
    }
  }

  /** How many schedulings are left in the tasks of the first n events, other than those fired. */
  function Left(tasks: seq<seq<int>>, spent: set<nat>, n: nat): nat
    requires n <= |tasks|
  {
    if n == 0 then 0 else Left(tasks, spent, n - 1) + if n - 1 in spent then 0 else |tasks[n - 1]|
  }

  lemma {:induction false} LeftWithout(tasks: seq<seq<int>>, spent: set<nat>, id: nat, n: nat)
    requires n <= |tasks| && id !in spent
    ensures Left(tasks, spent, n) == Left(tasks, spent + {id}, n) + if id < n then |tasks[id]| else 0
    decreases n
  {
    if n > 0 { LeftWithout(tasks, spent, id, n - 1); }
  }

  /** What others ask for: the thread and the delay. */
  datatype Request = Request(tid: int, millis: int)

  class EventLoop {
    var time: int
    var events: set<DiscreteEvent>
    var count: nat
    var running: bool
    /** Whether the local variable e holds the result of a peek, and that result. */
    var looked: bool
    var peeked: Peeked
    ghost var fired: seq<Firing>
    ghost var spent: set<nat>
    /** The delays that the task of each event asks for when it is run, by event number. */
    const tasks: seq<seq<int>>
    /** The thread that runs the loop, and so the tasks. */
    const thread: int

    constructor (tasks: seq<seq<int>>, thread: int)
      ensures View() == START && Causal(View()) && Valid() && this.tasks == tasks && this.thread == thread
    {
      StartIsCausal();
      time, events, count, running, looked, peeked, fired, spent := 0, {}, 0, true, false, Nothing, [], {};
      this.tasks, this.thread := tasks, thread;
    }

    ghost function View(): Sim
      reads this
    {
      Sim(time, events, count, running, looked, peeked, fired)
    }

    ghost predicate Valid()
      reads this
    {
      (forall e :: e in events ==> e.id !in spent && e.id < count) && forall i :: i in spent ==> i < count
    }

    /** What may still be fired. */
    ghost function Budget(): nat
      reads this
    {
      Left(tasks, spent, |tasks|) + |events|
    }

    /** The event peeked is the one that is next. */
    ghost predicate UpToDate()
      reads this
    {
      looked && if events == {} then peeked == Nothing else peeked.Next? && IsLeast(peeked.event, events)
    }

    ghost predicate Due()
      reads this
    {
      peeked.Next? && peeked.event.time <= time
    }

    method Schedule(tid: int, millis: int)
      requires Valid()
      modifies this`events, this`count
      ensures Valid() && View() == Step(old(View()), Action.Schedule(tid, millis))
      ensures old(events) <= events && |events| <= |old(events)| + 1
      ensures millis <= 0 ==> events == old(events)
    {
      if millis <= 0 { return; }
      var e := DiscreteEvent(time + millis, time, tid, count);
      events := events + {e};
      count := count + 1;
    }

    method ScheduleAll(requests: seq<Request>, ghost start: Sim, ghost before: seq<Action>)
      returns (ghost actions: seq<Action>)
      requires Valid() && Possible(start, before) && View() == Run(start, before)
      modifies this`events, this`count
      ensures Valid() && Possible(start, actions) && View() == Run(start, actions)
      ensures old(events) <= events && |events| <= |old(events)| + |requests|
      ensures forall f :: f in events && f !in old(events) ==> f.time > time
    {
      hide Run, Possible;
      actions := before;
      for k := 0 to |requests|
        invariant Valid() && Possible(start, actions) && View() == Run(start, actions)
        invariant old(events) <= events && |events| <= |old(events)| + k
        invariant forall f :: f in events && f !in old(events) ==> f.time > time
      {
        PossibleAppend(start, actions, Action.Schedule(requests[k].tid, requests[k].millis));
        Schedule(requests[k].tid, requests[k].millis);
        actions := actions + [Action.Schedule(requests[k].tid, requests[k].millis)];
      }
    }

    /** The least event of the priority queue. */
    method Least() returns (e: DiscreteEvent)
      requires Causal(View()) && events != {}
      ensures IsLeast(e, events)
      ensures e in events && forall f :: f in events && f != e ==>
                e.time < f.time || (e.time == f.time && (e.created < f.created || (e.created == f.created &&
                (e.tid < f.tid || (e.tid == f.tid && e.id < f.id)))))
    {
      hide Causal;
      e :| e in events;
      var rest := events - {e};
      while rest != {}
        invariant e in events && rest <= events && e !in rest
        invariant forall f :: f in events && f !in rest && f != e ==> Before(e, f)
        decreases rest
      {
        var f :| f in rest;
        DistinctIds(View(), e, f);
        rest := rest - {f};
        if Before(f, e) {
          forall g | g in events && g !in rest && g != f ensures Before(f, g) { BeforeIsStrictTotalOrder(f, e, g); }
          e := f;
        }
      }
      forall f | f in events && f != e
        ensures e.time < f.time || (e.time == f.time && (e.created < f.created || (e.created == f.created &&
                (e.tid < f.tid || (e.tid == f.tid && e.id < f.id)))))
      {
        BeforeIsStrictTotalOrder(e, f, e);
      }
    }

    /** e = events.peek() */
    method Look(ghost start: Sim, ghost before: seq<Action>) returns (ghost actions: seq<Action>)
      requires Valid() && Causal(start) && Possible(start, before) && View() == Run(start, before) && running && !looked
      modifies this`looked, this`peeked
      ensures Valid() && Possible(start, actions) && View() == Run(start, actions) && UpToDate()
    {
      hide Run, Possible, Causal, IsLeast;
      RunIsCausal(start, before);
      var e := DiscreteEvent(0, 0, 0, 0);
      if events != {} { e := Least(); }
      PossibleAppend(start, before, Peek(e));
      peeked := if events == {} then Nothing else Next(e);
      looked := true;
      actions := before + [Peek(e)];
    }

    /** events.poll().task.run(): the task asks for what it asks for. */
    method FireNext(ghost start: Sim, ghost before: seq<Action>) returns (ghost actions: seq<Action>)
      requires Valid() && Causal(start) && Possible(start, before) && View() == Run(start, before)
      requires running && UpToDate() && Due()
      modifies this
      ensures Valid() && Possible(start, actions) && View() == Run(start, actions)
      ensures running && !looked && time == old(time) && Budget() < old(Budget())
    {
      hide Run, Possible, Causal;
      RunIsCausal(start, before);
      var e := Least();
      OneLeast(events, e, peeked.event);
      PossibleAppend(start, before, Fire(e));
      LeftWithout(tasks, spent, e.id, |tasks|);
      var delays := if e.id < |tasks| then tasks[e.id] else [];
      var requests := seq(|delays|, i requires 0 <= i < |delays| => Request(thread, delays[i]));
      assert |events - {e}| == |events| - 1;
      events := events - {e};
      looked := false;
      fired := fired + [Firing(e, time)];
      spent := spent + {e.id};
      assert Valid() by { forall f | f in events ensures f.id != e.id { UniqueIds(old(View()), e, f); } }
      actions := ScheduleAll(requests, start, before + [Fire(e)]);
    }

    /** The inner loop: fire as long as the event peeked is due. */
    method FireDue(ghost start: Sim, ghost before: seq<Action>) returns (ghost actions: seq<Action>)
      requires Valid() && Causal(start) && Possible(start, before) && View() == Run(start, before)
      requires running && UpToDate()
      modifies this
      ensures Valid() && Possible(start, actions) && View() == Run(start, actions)
      ensures running && UpToDate() && !Due() && time == old(time)
      ensures forall e :: e in events ==> e.time > time
      ensures Budget() <= old(Budget()) && (old(Due()) ==> Budget() < old(Budget()))
    {
      hide Run, Possible, Causal, IsLeast;
      actions := before;
      while peeked.Next? && peeked.event.time <= time
        invariant Valid() && Possible(start, actions) && View() == Run(start, actions)
        invariant running && UpToDate() && time == old(time)
        invariant Budget() <= old(Budget()) && (old(Due()) && !Due() ==> Budget() < old(Budget()))
        decreases Budget()
      {
        actions := FireNext(start, actions);
        actions := Look(start, actions);
      }
      if events != {} { LaterThanLeast(peeked.event, events, time); }
    }

    /** One round of the outer loop: fire what is due; wait until all agents are idle, during which they
        ask for what they ask for; then move the clock to the next event, or shut down. */
    method Round(asked: seq<Request>, ghost start: Sim, ghost before: seq<Action>) returns (ghost actions: seq<Action>)
      requires Valid() && Causal(start) && Possible(start, before) && View() == Run(start, before)
      requires running && UpToDate()
      modifies this
      ensures Valid() && Possible(start, actions) && View() == Run(start, actions)
      ensures if running then UpToDate() && Due() && peeked.event.time == time > old(time)
              else events == {} && time == old(time)
      ensures asked == [] ==> Budget() <= old(Budget()) && (old(Due()) ==> Budget() < old(Budget()))
    {
      hide Run, Possible, Causal, IsLeast;
      actions := FireDue(start, before);
      actions := ScheduleAll(asked, start, actions);
      RunIsCausal(start, actions);
      var e := DiscreteEvent(0, 0, 0, 0);
      if events != {} {
        e := Least();
        LeastIsIn(e, events);
      }
      PossibleAppend(start, actions, Advance(e));
      if events != {} {
        time := e.time;
        peeked := Next(e);
      } else {
        running := false;
      }
      actions := actions + [Advance(e)];
    }

    /** run(): rounds until there is nothing left to fire, whatever was scheduled before it started.
        asked are the requests of agents during each wait; once they ask for nothing more, the loop ends,
        and every event ever scheduled has been fired, in order and at its own time. */
    method RunLoop(asked: seq<seq<Request>>) returns (ghost actions: seq<Action>)
      requires Valid() && Causal(View()) && |events| + |fired| == count && running && !looked
      modifies this
      ensures Possible(old(View()), actions) && View() == Run(old(View()), actions)
      ensures !running && events == {} && Causal(View()) && |fired| == count
    {
      hide Run, Possible, Causal, IsLeast;
      ghost var start := View();
      NothingDone(start);
      actions := Look(start, []);
      var k := 0;
      while running
        invariant Valid() && Possible(start, actions) && View() == Run(start, actions)
        invariant if running then UpToDate() else events == {}
        invariant k <= |asked|
        decreases running, |asked| - k, Budget(), if Due() then 0 else 1
      {
        var requests := if k < |asked| then asked[k] else [];
        actions := Round(requests, start, actions);
        if k < |asked| { k := k + 1; }
      }
      RunIsCausal(start, actions);
      EventsAreConserved(start, actions);
    }
  }

  lemma NothingDone(s: Sim)
    ensures Possible(s, []) && Run(s, []) == s
  {
  }

  /** Every event scheduled is pending or has been fired. */
  lemma {:induction false} EventsAreConserved(s: Sim, actions: seq<Action>)
    requires Causal(s) && Possible(s, actions) && |s.events| + |s.fired| == s.count
    ensures var end := Run(s, actions); |end.events| + |end.fired| == end.count
    decreases |actions|
  {
    hide Causal;
    if actions != [] {
      StepIsCausal(s, actions[0]);
      StepConserves(s, actions[0]);
      EventsAreConserved(Step(s, actions[0]), actions[1..]);
    }
  }

  lemma StepConserves(s: Sim, a: Action)
    requires Causal(s) && Enabled(s, a) && |s.events| + |s.fired| == s.count
    ensures var s' := Step(s, a); |s'.events| + |s'.fired| == s'.count
  {
    match a
    case Schedule(tid, millis) => if millis > 0 { assert NewEvent(s, tid, millis) !in s.events; }
    case Fire(e) => assert e in s.events;
    case _ =>
  }

  lemma UniqueIds(s: Sim, e: DiscreteEvent, f: DiscreteEvent)
    requires Causal(s) && e in s.events && f in s.events && e != f
    ensures e.id != f.id
  {
  }

  lemma OneLeast(events: set<DiscreteEvent>, e: DiscreteEvent, f: DiscreteEvent)
    requires IsLeast(e, events) && IsLeast(f, events)
    ensures e == f
  {
    if e != f { BeforeIsStrictTotalOrder(e, f, e); }
  }

  lemma DistinctIds(s: Sim, e: DiscreteEvent, f: DiscreteEvent)
    requires Causal(s) && e in s.events && f in s.events && e != f
    ensures Before(e, f) != Before(f, e)
  {
    BeforeIsStrictTotalOrder(e, f, e);
  }

  lemma LeastIsIn(e: DiscreteEvent, events: set<DiscreteEvent>)
    requires IsLeast(e, events)
    ensures e in events
  {
  }

  lemma LaterThanLeast(e: DiscreteEvent, events: set<DiscreteEvent>, time: int)
    requires events == {} || (IsLeast(e, events) && e.time > time)
    ensures forall f :: f in events ==> f.time > time
  {
  }
}
