/**
 TickerBehavior.java: ticks at intervals of a period.  First under any clock that does not go
 back and any wakeups whatever, then on the discrete event simulator.
 */
module Ticker {
  import opened Simulator

  /** The fields of the behavior; `at` lists the clock readings of the ticks so far. */
  datatype State = State(ticks: nat, wakeup: int, quit: bool, at: seq<int>)

  /** onStart at time t */
  function Started(t: int, period: int): State { State(0, t + period, false, []) }

  /** One call of action() when the clock reads t. */
  function Act(s: State, t: int, period: int): State {
    if s.quit || s.wakeup > t then s
    else
      var next := s.wakeup + period;
      State(s.ticks + 1, if next < t then t + period else next, s.quit, s.at + [t])
  }

  class TickerBehavior {
    const period: int
    var ticks: nat
    var wakeupTime: int
    var quit: bool
    ghost var at: seq<int>

    constructor (millis: int)
      ensures period == millis && ticks == 0 && !quit && at == []
    {
      period := millis;
      ticks, wakeupTime, quit, at := 0, 0, false, [];
    }

    ghost function View(): State
      reads this
    {
      State(ticks, wakeupTime, quit, at)
    }

    /** Returns how long to block for. */
    method OnStart(now: int) returns (block: int)
      requires ticks == 0 && !quit && at == []
      modifies this`wakeupTime
      ensures View() == Started(now, period) && block == period
    {
      wakeupTime := now + period;
      block := period;
    }

    /** Returns how long to block for, or 0 for not blocking. */
    method DoAction(now: int) returns (block: int)
      modifies this
      ensures View() == Act(old(View()), now, period)
      ensures block == if !old(quit) && old(wakeupTime) > now then old(wakeupTime) - now else 0
      ensures !old(quit) && old(wakeupTime) <= now && period >= 0 ==>
                ticks == old(ticks) + 1 && now <= wakeupTime <= now + period &&
                (old(wakeupTime) + period >= now ==> wakeupTime == old(wakeupTime) + period) &&
                (old(wakeupTime) + period < now ==> wakeupTime == now + period)
    {
      block := 0;
      if quit { return; }
      var dt := wakeupTime - now;
      if dt > 0 {
        block := dt;
      } else {
        ticks := ticks + 1;
        at := at + [now];
        wakeupTime := wakeupTime + period;
        if wakeupTime < now { wakeupTime := now + period; }
      }
    }

    /** Whatever calls of action() follow, there are no more ticks. */
    method Stop()
      modifies this`quit
      ensures View() == old(View()).(quit := true)
      ensures forall times: seq<int> :: Calls(View(), times, period) == View()
    {
      quit := true;
      forall times: seq<int> ensures Calls(View(), times, period) == View() { StoppedForGood(View(), times, period); }
    }
  }

  // ---------------------------------------------------------------------------
  // Any clock, any wakeups
  // ---------------------------------------------------------------------------

  predicate Nondecreasing(times: seq<int>) { forall i, j :: 0 <= i <= j < |times| ==> times[i] <= times[j] }

  /** The state after calls of action() at the given times. */
  function Calls(s: State, times: seq<int>, period: int): State
    decreases |times|
  {
    if times == [] then s else Act(Calls(s, times[..|times| - 1], period), times[|times| - 1], period)
  }

  /** Once stopped, a ticker never ticks again; so stop() only cuts off the list of its ticks. */
  lemma {:induction false} StoppedForGood(s: State, times: seq<int>, period: int)
    requires s.quit
    ensures Calls(s, times, period) == s
    decreases |times|
  {
    if times != [] { StoppedForGood(s, times[..|times| - 1], period); }
  }

  /** After at least one tick the next wakeup is no earlier than the last tick, and two ticks after
      tick i it is no earlier than that tick plus a period, and so on. */
  ghost predicate Spaced(s: State, start: int, period: int) {
    |s.at| == s.ticks && Nondecreasing(s.at) &&
    s.wakeup >= start + (s.ticks + 1) * period &&
    (forall i :: 0 <= i < |s.at| ==> s.at[i] >= start + (i + 1) * period) &&
    (forall i :: 0 <= i < |s.at| ==> s.wakeup >= s.at[i] + (|s.at| - 1 - i) * period) &&
    (forall i, j :: 0 <= i < j < |s.at| ==> s.at[j] >= s.at[i] + (j - 1 - i) * period)
  }

  lemma ActSpaces(s: State, start: int, t: int, period: int)
    requires period > 0 && Spaced(s, start, period)
    requires forall i :: 0 <= i < |s.at| ==> s.at[i] <= t
    ensures Spaced(Act(s, t, period), start, period)
  {
    var s' := Act(s, t, period);
    if s' != s {
      var n := |s.at|;
      forall i | 0 <= i < |s'.at| ensures s'.wakeup >= s'.at[i] + (|s'.at| - 1 - i) * period {
        if i < n { assert (n - i) * period == (n - 1 - i) * period + period; }
      }
      forall i, j | 0 <= i < j < |s'.at| ensures s'.at[j] >= s'.at[i] + (j - 1 - i) * period {
        if j == n { assert s.wakeup >= s.at[i] + (n - 1 - i) * period; }
      }
      assert (s'.ticks + 1) * period == (s.ticks + 1) * period + period;
    }
  }

  lemma {:induction false} CallsSpace(start: int, times: seq<int>, period: int)
    requires period > 0 && Nondecreasing(times)
    ensures var s := Calls(Started(start, period), times, period);
            Spaced(s, start, period) && forall i :: 0 <= i < |s.at| ==> |times| > 0 && s.at[i] <= times[|times| - 1]
    decreases |times|
  {
    if times != [] {
      var front := times[..|times| - 1];
      CallsSpace(start, front, period);
      ActSpaces(Calls(Started(start, period), front, period), start, times[|times| - 1], period);
    }
  }

  /** Number of readings in a window. */
  function Within(at: seq<int>, a: int, b: int): nat {
    if at == [] then 0
    else Within(at[..|at| - 1], a, b) + if a <= at[|at| - 1] <= b then 1 else 0
  }

  /** In an ascending list, the readings in a window stand together. */
  lemma {:induction false} WindowBlock(at: seq<int>, a: int, b: int) returns (lo: nat, hi: nat)
    requires Nondecreasing(at)
    ensures lo <= hi <= |at| && Within(at, a, b) == hi - lo
    ensures forall i :: lo <= i < hi ==> a <= at[i] <= b
    ensures hi < |at| ==> at[|at| - 1] > b
    ensures lo == hi ==> lo == |at| || at[|at| - 1] > b
    decreases |at|
  {
    if at == [] {
      lo, hi := 0, 0;
    } else {
      var front, x := at[..|at| - 1], at[|at| - 1];
      lo, hi := WindowBlock(front, a, b);
      if x > b {
      } else if x < a {
        lo, hi := |at|, |at|;
      } else {
        hi := |at|;
      }
    }
  }

  /**
   With a positive period, under any clock that does not go back and whatever else wakes the
   behavior: so many ticks take at least so many periods, and no window of time holds more ticks
   than it has periods, plus two.
   */
  lemma TicksAreBounded(start: int, times: seq<int>, period: int, a: int, b: int)
    requires period > 0 && Nondecreasing(times) && a <= b
    ensures var s := Calls(Started(start, period), times, period);
            (s.ticks > 0 ==> s.ticks * period <= times[|times| - 1] - start) &&
            |s.at| == s.ticks && (Within(s.at, a, b) - 2) * period <= b - a
  {
    hide Spaced, Calls, Within, Nondecreasing;
    CallsSpace(start, times, period);
    var s := Calls(Started(start, period), times, period);
    LastTick(s, start, period);
    WindowBound(s, start, period, a, b);
  }

  /** The next wakeup is no more than a period after the last tick, or the start. */
  lemma {:induction false} WakeupIsNear(start: int, times: seq<int>, period: int)
    requires period > 0
    ensures var s := Calls(Started(start, period), times, period);
            |s.at| == s.ticks && !s.quit && s.wakeup <= (if s.ticks == 0 then start else s.at[s.ticks - 1]) + period
    decreases |times|
  {
    if times != [] { WakeupIsNear(start, times[..|times| - 1], period); }
  }

  /** So a call that comes a period or more after the last tick, or the start, makes a tick, and no call
      before the wakeup does; and a tick is made at the moment of the call. */
  lemma NoTickIsMissed(start: int, times: seq<int>, t: int, period: int)
    requires period > 0
    ensures var s := Calls(Started(start, period), times, period); |s.at| == s.ticks
    ensures var s := Calls(Started(start, period), times, period);
            var s' := Calls(Started(start, period), times + [t], period);
            var last := if s.ticks == 0 then start else s.at[s.ticks - 1];
            (s' == s || (s'.ticks == s.ticks + 1 && s'.at == s.at + [t])) &&
            (t >= last + period ==> s'.ticks == s.ticks + 1)
  {
    WakeupIsNear(start, times, period);
    assert (times + [t])[..|times|] == times;
  }

  /** When the tick after next is due: a tick that is late by no more than a period is made up for, and one that
      is later is not. */
  lemma LateTicks(s: State, t: int, t': int, period: int)
    requires period > 0 && !s.quit && s.wakeup <= t <= t'
    ensures Calls(s, [t, t'], period).ticks == s.ticks + 2 <==>
            t' >= if t - s.wakeup <= period then s.wakeup + period else t + period
    ensures Calls(s, [t, t'], period).ticks >= s.ticks + 1
  {
    assert [t, t'][..1] == [t] && [t][..0] == [];
    assert Calls(s, [t], period) == Act(s, t, period);
  }

  /** Calls are no further apart than g, nor is the first from the start. */
  predicate Often(start: int, times: seq<int>, g: int) {
    (times != [] ==> start <= times[0] <= start + g) &&
    forall i :: 0 <= i < |times| - 1 ==> times[i] <= times[i + 1] <= times[i] + g
  }

  /**
   The lower half, under any clock that does not go back: if calls of action() are never more than g apart,
   so many ticks are made that a period and g for each of them, and one period more, cover the time elapsed.
   */
  lemma {:induction false} TicksAreMade(start: int, times: seq<int>, period: int, g: int)
    requires period > 0 && g >= 0 && Often(start, times, g)
    ensures var s := Calls(Started(start, period), times, period);
            s.wakeup <= start + s.ticks * (period + g) + period &&
            (times != [] ==> times[|times| - 1] <= s.wakeup &&
                             times[|times| - 1] - start <= s.ticks * (period + g) + period)
    decreases |times|
  {
    WakeupIsNear(start, times, period);
    if times != [] {
      var front, t := times[..|times| - 1], times[|times| - 1];
      TicksAreMade(start, front, period, g);
      WakeupIsNear(start, front, period);
      var s := Calls(Started(start, period), front, period);
      MoreTicks(s.ticks, period + g);
      if front != [] { assert t <= front[|front| - 1] + g; }
    }
  }

  lemma MoreTicks(n: nat, p: int)
    ensures (n + 1) * p == n * p + p
  {
  }

  lemma LastTick(s: State, start: int, period: int)
    requires Spaced(s, start, period)
    ensures |s.at| == s.ticks && (s.ticks > 0 ==> s.ticks * period <= s.at[s.ticks - 1] - start)
  {
    if s.ticks > 0 { assert s.at[s.ticks - 1] >= start + (s.ticks - 1 + 1) * period; }
  }

  lemma WindowBound(s: State, start: int, period: int, a: int, b: int)
    requires period > 0 && a <= b && Spaced(s, start, period)
    ensures (Within(s.at, a, b) - 2) * period <= b - a
  {
    hide Within;
    var lo, hi := WindowBlock(s.at, a, b);
    var n := hi - lo;
    if n >= 2 {
      assert s.at[hi - 1] >= s.at[lo] + (hi - 1 - 1 - lo) * period;
      assert hi - 1 - 1 - lo == n - 2;
    } else {
      assert (n - 2) * period <= 0;
    }
  }

  // ---------------------------------------------------------------------------
  // On the discrete event simulator
  // ---------------------------------------------------------------------------

  /** A ticker among whatever else the simulator runs; mine are the events that restart it. */
  datatype World = World(sim: Sim, ticker: State, mine: set<DiscreteEvent>)

  datatype Move =
    | Other(a: Action)      // anything the simulator or others do, except firing an event
    | Fired(e: DiscreteEvent)
    | Woken                 // the ticker's agent wakes for some other reason

  /** The agent calls action() until the behavior blocks. */
  function ActUntilBlocked(s: State, t: int, period: int): (r: State)
    requires period > 0
    ensures r.wakeup > t || r.quit
    decreases t - s.wakeup
  {
    if s.quit || s.wakeup > t then s else ActUntilBlocked(Act(s, t, period), t, period)
  }

  /** One run of the ticker from waking to blocking, which schedules the next restart. */
  function WakeRun(w: World, period: int): World
    requires period > 0
  {
    var s := ActUntilBlocked(w.ticker, w.sim.time, period);
    if s.quit then w.(ticker := s)
    else
      var e := NewEvent(w.sim, 0, s.wakeup - w.sim.time);
      World(Step(w.sim, Schedule(0, s.wakeup - w.sim.time)), s, w.mine + {e})
  }

  predicate CanMove(w: World, m: Move) {
    match m
    case Other(a) => !a.Fire? && Enabled(w.sim, a)
    case Fired(e) => Enabled(w.sim, Fire(e))
    case Woken => true
  }

  function MoveTo(w: World, m: Move, period: int): World
    requires period > 0 && CanMove(w, m)
  {
    match m
    case Other(a) => w.(sim := Step(w.sim, a))
    case Fired(e) =>
      var w' := w.(sim := Step(w.sim, Fire(e)));
      if e in w.mine then WakeRun(w', period) else w'
    case Woken => WakeRun(w, period)
  }

  predicate CanRun(w: World, moves: seq<Move>, period: int)
    requires period > 0
    decreases |moves|
  {
    moves == [] || (CanMove(w, moves[0]) && CanRun(MoveTo(w, moves[0], period), moves[1..], period))
  }

  function RunAll(w: World, moves: seq<Move>, period: int): World
    requires period > 0 && CanRun(w, moves, period)
    decreases |moves|
  {
    if moves == [] then w else RunAll(MoveTo(w, moves[0], period), moves[1..], period)
  }

  /** onStart, while the simulator is in any state it can be in. */
  function Begin(sim: Sim, period: int): World
    requires period > 0
  {
    World(Step(sim, Schedule(0, period)), Started(sim.time, period), {NewEvent(sim, 0, period)})
  }

  ghost predicate Exact(s: State, start: int, period: int) {
    |s.at| == s.ticks && !s.quit && s.wakeup == start + (s.ticks + 1) * period &&
    forall k :: 0 <= k < |s.at| ==> s.at[k] == start + (k + 1) * period
  }

  ghost predicate OnTime(w: World, start: int, period: int) {
    Causal(w.sim) && Exact(w.ticker, start, period) &&
    exists e :: e in w.mine && e in w.sim.events && e.time == w.ticker.wakeup
  }

  lemma ActIsExact(s: State, start: int, t: int, period: int)
    requires period > 0 && Exact(s, start, period) && t <= s.wakeup
    ensures var r := ActUntilBlocked(s, t, period); Exact(r, start, period) && r.wakeup > t
  {
    var s1 := Act(s, t, period);
    if t == s.wakeup {
      assert s1.wakeup == s.wakeup + period && s1.ticks == s.ticks + 1;
      assert (s1.ticks + 1) * period == (s.ticks + 1) * period + period;
      assert Exact(s1, start, period) && s1.wakeup > t;
      assert ActUntilBlocked(s1, t, period) == s1;
    }
  }

  lemma WakeIsOnTime(w: World, start: int, period: int)
    requires period > 0 && Causal(w.sim) && Exact(w.ticker, start, period) && w.sim.time <= w.ticker.wakeup
    ensures OnTime(WakeRun(w, period), start, period)
  {
    hide Exact;
    var t := w.sim.time;
    ActIsExact(w.ticker, start, t, period);
    var s := ActUntilBlocked(w.ticker, t, period);
    NotQuit(s, start, period);
    StepIsCausal(w.sim, Schedule(0, s.wakeup - t));
    var e := NewEvent(w.sim, 0, s.wakeup - t);
    assert e in WakeRun(w, period).mine && e in WakeRun(w, period).sim.events && e.time == s.wakeup;
  }

  lemma NotQuit(s: State, start: int, period: int)
    requires Exact(s, start, period)
    ensures !s.quit
  {
  }

  lemma MoveIsOnTime(w: World, m: Move, start: int, period: int)
    requires period > 0 && OnTime(w, start, period) && CanMove(w, m)
    ensures OnTime(MoveTo(w, m, period), start, period)
  {
    hide Exact, WakeRun, Causal;
    var e0 :| e0 in w.mine && e0 in w.sim.events && e0.time == w.ticker.wakeup;
    PendingIsLater(w.sim, e0);
    match m
    case Other(a) =>
      StepIsCausal(w.sim, a);
      assert e0 in MoveTo(w, m, period).mine && e0 in MoveTo(w, m, period).sim.events;
    case Fired(e) =>
      StepIsCausal(w.sim, Fire(e));
      var w' := w.(sim := Step(w.sim, Fire(e)));
      if e in w.mine {
        WakeIsOnTime(w', start, period);
      } else {
        assert e0 in w'.mine && e0 in w'.sim.events;
      }
    case Woken => WakeIsOnTime(w, start, period);
  }

  lemma PendingIsLater(s: Sim, e: DiscreteEvent)
    requires Causal(s) && e in s.events
    ensures s.time <= e.time
  {
  }

  /**
   On the simulator, when each run of the ticker's agent from waking to blocking takes no simulated
   time, tick number k happens at exactly k periods after the start, whatever else is scheduled and
   however often the agent is woken in between; and none is missing: the clock never passes the
   time of a tick that has not been made.
   */
  lemma {:induction false} TicksAreExact(sim: Sim, moves: seq<Move>, period: int)
    requires period > 0 && Causal(sim) && CanRun(Begin(sim, period), moves, period)
    ensures var w := RunAll(Begin(sim, period), moves, period);
            |w.ticker.at| == w.ticker.ticks &&
            (forall k :: 1 <= k <= w.ticker.ticks ==> w.ticker.at[k - 1] == sim.time + k * period) &&
            w.sim.time <= sim.time + (w.ticker.ticks + 1) * period
  {
    hide RunAll, CanRun, MoveTo, Causal;
    StepIsCausal(sim, Schedule(0, period));
    var w := Begin(sim, period);
    assert NewEvent(sim, 0, period) in w.sim.events;
    assert OnTime(w, sim.time, period);
    RunIsOnTime(w, moves, sim.time, period);
    var end := RunAll(w, moves, period);
    var e :| e in end.mine && e in end.sim.events && e.time == end.ticker.wakeup;
    PendingIsLater(end.sim, e);
  }

  lemma {:induction false} RunIsOnTime(w: World, moves: seq<Move>, start: int, period: int)
    requires period > 0 && OnTime(w, start, period) && CanRun(w, moves, period)
    ensures OnTime(RunAll(w, moves, period), start, period)
    decreases |moves|
  {
    hide OnTime, MoveTo;
    if moves != [] {
      MoveIsOnTime(w, moves[0], start, period);
      RunIsOnTime(MoveTo(w, moves[0], period), moves[1..], start, period);
    }
  }
}
