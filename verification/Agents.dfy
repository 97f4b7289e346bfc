/**
 An agent's thread (Agent.java): the main loop, executeBehavior, blocking receives that may run
 other behaviors while they wait, and the monitor shared with the threads that deliver messages.
 It is a system of atomic steps at the granularity of the locks; the code of behaviors is
 arbitrary, as are the moments at which other threads act.  Behaviors return normally.
 */
module Agents {
  import opened Common
  import opened MessageQueues

  datatype Behavior = Behavior(id: nat, priority: int)

  /** A call made on a behavior. */
  datatype Call = OnStart(b: Behavior) | Action(b: Behavior) | OnEnd(b: Behavior)

  datatype Stage = Starting | Acting | Ending

  /** The call stack above the main loop: user code of a behavior, or a blocking receive. */
  datatype Frame = Running(b: Behavior, stage: Stage) | Receiving(filter: Filter, yielding: bool)

  datatype Pc =
    | User       // in the code of the behavior on top of the stack
    | Check      // about to call executeBehavior
    | Picking    // inside it, past the restart of blocked behaviors
    | Blocking   // about to call block()
    | Asleep     // waiting in block()
    | Back       // executeBehavior or block() has returned to the main loop or the receive
    | Finished

  /**
   The fields of the agent.  flagged are the behaviors whose own `blocked` flag is set.  The last
   five are bookkeeping: messages whose delivery is past the queue but not the monitor
   (inflight), those delivered since the last commit (uncommitted), the behaviors ever added and
   ended, and the calls made.
   */
  datatype Agent = Agent(pc: Pc, stack: seq<Frame>, exclusions: seq<Filter>, mq: Queues,
                         newB: seq<Behavior>, active: multiset<Behavior>, blocked: seq<Behavior>,
                         flagged: set<Behavior>, restart: bool, unblocked: bool, finishing: bool,
                         inflight: set<Msg>, uncommitted: set<Msg>,
                         known: set<Behavior>, ended: seq<Behavior>, calls: seq<Call>)

  datatype Event =
    // other threads
    | Deposit(m: Msg)                    // deliver(): into the message queue
    | Notify(m: Msg)                     // deliver(): the synchronized part
    | Wake                               // any other call of wake()
    | Stop
    // other threads, or the code of a behavior
    | AddBehavior(b: Behavior)
    | SetFlag(b: Behavior)               // Behavior.block()
    | Restart(b: Behavior)               // Behavior.restart()
    // the agent's thread
    | Execute                            // executeBehavior, restart part
    | Pick(b: Behavior)                  // executeBehavior, the rest, up to the call
    | Block                              // block()
    | Resume(interrupted: bool, timedOut: bool)
    | ReceiveNow(filter: Filter)         // receive with no timeout, from user code
    | Receive(filter: Filter, yielding: bool)
    | Return(done: bool)                 // the behavior's code returns

  function Init(max: int): Agent {
    Agent(Check, [], [], Queues([], [], max), [], multiset{}, [], {}, false, false, false, {}, {}, {}, [], [])
  }

  function Awaken(a: Agent): Agent { if a.pc == Asleep then a.(pc := Back) else a }

  function CommitAll(a: Agent): Agent { a.(mq := Committed(a.mq, a.exclusions), uncommitted := {}) }

  /** The behaviors of a list whose flag is set, in order, and the others. */
  function Flagged(s: seq<Behavior>, flagged: set<Behavior>): seq<Behavior> {
    if s == [] then []
    else Flagged(s[..|s| - 1], flagged) + if s[|s| - 1] in flagged then [s[|s| - 1]] else []
  }

  function Unflagged(s: seq<Behavior>, flagged: set<Behavior>): multiset<Behavior> {
    multiset(s) - multiset(Flagged(s, flagged))
  }

  function DoExecute(a: Agent): Agent {
    if a.restart then
      CommitAll(a.(pc := Picking, restart := false, active := a.active + multiset(a.blocked), blocked := []))
    else
      a.(pc := Picking, active := a.active + Unflagged(a.blocked, a.flagged), blocked := Flagged(a.blocked, a.flagged))
  }

  predicate IsFirst(b: Behavior, active: multiset<Behavior>) {
    b in active && forall c :: c in active ==> b.priority <= c.priority
  }

  function StartNew(a: Agent, c: Behavior): Agent
    requires a.newB != []
  {
    a.(pc := User, newB := a.newB[1..], active := a.active + multiset{c},
       stack := a.stack + [Running(c, Starting)], calls := a.calls + [OnStart(c)])
  }

  function RunAction(a: Agent, b: Behavior): Agent {
    a.(pc := User, active := a.active - multiset{b}, flagged := a.flagged - {b},
       stack := a.stack + [Running(b, Acting)], calls := a.calls + [Action(b)])
  }

  function DoPick(a: Agent, b: Behavior): Agent {
    if a.newB != [] then StartNew(a, a.newB[0])
    else if a.active != multiset{} then if IsFirst(b, a.active) then RunAction(a, b) else a
    else a.(pc := Blocking)
  }

  function DoBlock(a: Agent): Agent {
    if a.finishing then a.(pc := Back)
    else if !a.unblocked && (a.restart || exists i :: 0 <= i < |a.blocked| && a.blocked[i] !in a.flagged)
    then a.(pc := Back, unblocked := true)
    else a.(pc := Asleep, unblocked := false)
  }

  function Top(a: Agent): Frame
    requires a.stack != []
  {
    a.stack[|a.stack| - 1]
  }

  function Pop(a: Agent): Agent
    requires a.stack != []
  {
    a.(stack := a.stack[..|a.stack| - 1])
  }

  /** Commit, take the first match, and either hand it to the caller or start to wait. */
  function TryReceive(a: Agent, filter: Filter, yielding: bool, giveUp: bool): Agent {
    var a1 := CommitAll(a);
    var (mq, r) := Taken(a1.mq, filter);
    if r.Some? || giveUp then a1.(pc := User, mq := mq)
    else a1.(pc := if yielding then Check else Blocking,
             stack := a1.stack + [Receiving(filter, yielding)], exclusions := a1.exclusions + [filter])
  }

  /** The rest of a waiting receive, once executeBehavior or block() has come back. */
  function DoResume(a: Agent, interrupted: bool, timedOut: bool): Agent
    requires a.stack != [] && Top(a).Receiving? && a.exclusions != []
  {
    var a1 := Pop(a).(exclusions := a.exclusions[..|a.exclusions| - 1]);
    if interrupted || a.finishing then a1.(pc := User)
    else TryReceive(a1, Top(a).filter, Top(a).yielding, timedOut)
  }

  function DoReturn(a: Agent, done: bool): Agent
    requires a.stack != [] && Top(a).Running?
  {
    var b := Top(a).b;
    match Top(a).stage
    case Starting => Pop(a).(pc := Back)
    case Ending => Pop(a).(pc := Back, ended := a.ended + [b])
    case Acting =>
      if done then Pop(a).(stack := a.stack[..|a.stack| - 1] + [Running(b, Ending)], calls := a.calls + [OnEnd(b)])
      else if b in a.flagged then Pop(a).(pc := Back, blocked := a.blocked + [b])
      else Pop(a).(pc := Back, active := a.active + multiset{b})
  }

  /** One step; an event that cannot happen now changes nothing. */
  function Step(a: Agent, e: Event): Agent {
    match e
    case Deposit(m) => a.(mq := Added(a.mq, m), inflight := a.inflight + {m})
    case Notify(m) =>
      if m in a.inflight then
        Awaken(a.(inflight := a.inflight - {m}, uncommitted := a.uncommitted + {m},
                  restart := true, unblocked := false))
      else a
    case Wake => Awaken(a)
    case Stop => Awaken(a.(finishing := true))
    case AddBehavior(b) =>
      if b in a.known then a else Awaken(a.(newB := a.newB + [b], known := a.known + {b}))
    case SetFlag(b) => a.(flagged := a.flagged + {b})
    case Restart(b) => Awaken(a.(flagged := a.flagged - {b}))
    case Execute => if a.pc == Check then DoExecute(a) else a
    case Pick(b) => if a.pc == Picking then DoPick(a, b) else a
    case Block => if a.pc == Blocking then DoBlock(a) else a
    case Resume(interrupted, timedOut) =>
      if a.pc != Back then a
      else if a.stack == [] then a.(pc := if a.finishing then Finished else Check)
      else if Top(a).Receiving? && a.exclusions != [] then DoResume(a, interrupted, timedOut)
      else a
    case ReceiveNow(filter) =>
      if a.pc == User then a.(mq := Taken(a.mq, filter).0) else a
    case Receive(filter, yielding) =>
      if a.pc == User then TryReceive(a, filter, yielding, false) else a
    case Return(done) =>
      if a.pc == User && a.stack != [] && Top(a).Running? then DoReturn(a, done) else a
  }

  function Steps(a: Agent, events: seq<Event>): Agent
    decreases |events|
  {
    if events == [] then a else Step(Steps(a, events[..|events| - 1]), events[|events| - 1])
  }

  // ---------------------------------------------------------------------------
  // Reservation: what an outer receive waits for is not taken by what runs meanwhile
  // ---------------------------------------------------------------------------

  /** The filters of the receives in progress, outermost first. */
  function Awaited(stack: seq<Frame>): seq<Filter> {
    if stack == [] then []
    else
      var f := stack[|stack| - 1];
      Awaited(stack[..|stack| - 1]) + if f.Receiving? then [f.filter] else []
  }

  /** User code and receives alternate on the stack, user code at the bottom. */
  predicate Alternating(stack: seq<Frame>) {
    forall i :: 0 <= i < |stack| ==> stack[i].Running? == (i % 2 == 0)
  }

  predicate WellPlaced(pc: Pc, stack: seq<Frame>) {
    Alternating(stack) && (pc == User <==> |stack| % 2 == 1) && (pc == Finished ==> stack == [])
  }

  lemma AlternatingPush(stack: seq<Frame>, f: Frame)
    requires Alternating(stack) && f.Running? == (|stack| % 2 == 0)
    ensures Alternating(stack + [f])
  {
  }

  lemma AlternatingPop(stack: seq<Frame>)
    requires Alternating(stack) && stack != []
    ensures Alternating(stack[..|stack| - 1]) && stack[|stack| - 1].Running? == (|stack| % 2 == 1)
  {
  }

  ghost predicate NoneReserved(s: Queues, exclusions: seq<Filter>) {
    forall i :: 0 <= i < |s.queue| ==> !Reserved(exclusions, s.queue[i])
  }

  /** The exclusion stack holds the filters of the receives in progress, and no message in the
      queue matches any of them. */
  ghost predicate Reserving(a: Agent) {
    WellPlaced(a.pc, a.stack) && a.exclusions == Awaited(a.stack) && NoneReserved(a.mq, a.exclusions)
  }

  lemma AwaitedPush(stack: seq<Frame>, f: Frame)
    ensures Awaited(stack + [f]) == Awaited(stack) + if f.Receiving? then [f.filter] else []
  {
    assert (stack + [f])[..|stack|] == stack;
  }

  lemma CommitReserves(s: Queues, exclusions: seq<Filter>)
    requires NoneReserved(s, exclusions)
    ensures NoneReserved(Committed(s, exclusions), exclusions)
  {
    CommitSorts(s, exclusions);
    var q := Committed(s, exclusions).queue;
    forall i | 0 <= i < |q| ensures !Reserved(exclusions, q[i]) {
      assert q[i] in q;
      if q[i] in s.queue { var j :| 0 <= j < |s.queue| && s.queue[j] == q[i]; }
    }
  }

  /** What a receive takes: the first match among what its enclosing receives have not reserved;
      and if there is none, nothing left in the queue matches. */
  lemma TakenFirst(s: Queues, filter: Filter, exclusions: seq<Filter>)
    requires NoneReserved(s, exclusions)
    ensures var (s', r) := Taken(s, filter);
            NoneReserved(s', exclusions) && (r.None? ==> s' == s && NoneReserved(s, exclusions + [filter])) &&
            (r.Some? ==> Matches(filter, r.value) && !Reserved(exclusions, r.value) &&
                         exists k :: 0 <= k < |s.queue| && s.queue[k] == r.value &&
                                     forall j :: 0 <= j < k ==> !Matches(filter, s.queue[j]))
  {
    var k := FirstMatch(s.queue, filter, 0);
    if k == |s.queue| {
      forall i | 0 <= i < |s.queue| ensures !Reserved(exclusions + [filter], s.queue[i]) {
        forall j | 0 <= j < |exclusions| + 1 ensures !Matches((exclusions + [filter])[j], s.queue[i]) {
          if j < |exclusions| { assert !Reserved(exclusions, s.queue[i]); }
        }
      }
    }
  }

  lemma FewerExclusions(s: Queues, exclusions: seq<Filter>, f: Filter)
    requires NoneReserved(s, exclusions + [f])
    ensures NoneReserved(s, exclusions)
  {
    forall i | 0 <= i < |s.queue| ensures !Reserved(exclusions, s.queue[i]) {
      forall j | 0 <= j < |exclusions| ensures !Matches(exclusions[j], s.queue[i]) {
        assert (exclusions + [f])[j] == exclusions[j];
        assert !Reserved(exclusions + [f], s.queue[i]);
      }
    }
  }

  lemma TryReceiveReserves(a: Agent, filter: Filter, yielding: bool, giveUp: bool)
    requires a.exclusions == Awaited(a.stack) && NoneReserved(a.mq, a.exclusions)
    requires Alternating(a.stack) && |a.stack| % 2 == 1
    ensures Reserving(TryReceive(a, filter, yielding, giveUp))
  {
    hide NoneReserved, Alternating, Committed, Taken;
    AlternatingPush(a.stack, Receiving(filter, yielding));
    CommitReserves(a.mq, a.exclusions);
    TakenFirst(CommitAll(a).mq, filter, a.exclusions);
    AwaitedPush(a.stack, Receiving(filter, yielding));
    var (mq, r) := Taken(CommitAll(a).mq, filter);
    if r.None? { assert NoneReserved(mq, a.exclusions + [filter]); }
  }

  lemma StepReserves(a: Agent, e: Event)
    requires Reserving(a)
    ensures Reserving(Step(a, e))
  {
    hide NoneReserved, Alternating, Awaited, Added, Committed, Taken, TryReceive;
    hide DoPick, DoExecute, DoResume, DoReturn;
    match e
    case Execute => if a.pc == Check { ExecuteReserves(a); }
    case Pick(b) => if a.pc == Picking { PickReserves(a, b); }
    case Resume(interrupted, timedOut) =>
      if a.pc == Back && a.stack != [] { ResumeReserves(a, interrupted, timedOut); }
    case ReceiveNow(filter) => TakenFirst(a.mq, filter, a.exclusions);
    case Receive(filter, yielding) => if a.pc == User { TryReceiveReserves(a, filter, yielding, false); }
    case Return(done) => if a.pc == User { ReturnReserves(a, done); }
    case Deposit(m) => AddedQueue(a.mq, m, a.exclusions);
    case _ =>
  }

  lemma ExecuteReserves(a: Agent)
    requires Reserving(a) && a.pc == Check
    ensures Reserving(DoExecute(a))
  {
    hide NoneReserved, Alternating, Awaited, Committed, Flagged, Unflagged;
    CommitReserves(a.mq, a.exclusions);
  }

  ghost predicate SameProtocol(a: Agent, a': Agent) {
    a'.mq == a.mq && a'.exclusions == a.exclusions && a'.restart == a.restart && a'.unblocked == a.unblocked &&
    a'.finishing == a.finishing && a'.uncommitted == a.uncommitted
  }

  lemma StartFields(a: Agent, b: Behavior)
    requires a.newB != []
    ensures var a' := StartNew(a, b);
            SameProtocol(a, a') && a'.pc == User && a'.stack == a.stack + [Running(b, Starting)]
  {
  }

  lemma ActionFields(a: Agent, b: Behavior)
    ensures var a' := RunAction(a, b);
            SameProtocol(a, a') && a'.pc == User && a'.stack == a.stack + [Running(b, Acting)]
  {
  }

  /** Picking either pushes user code, or goes on to block, or does nothing. */
  lemma PickShape(a: Agent, b: Behavior) returns (f: Frame)
    requires a.pc == Picking
    ensures f.Running?
    ensures var a' := DoPick(a, b);
            SameProtocol(a, a') &&
            if a'.pc == User then a'.stack == a.stack + [f]
            else a'.stack == a.stack && (a'.pc == Blocking || a'.pc == Picking)
  {
    hide IsFirst, StartNew, RunAction;
    if a.newB != [] {
      f := Running(a.newB[0], Starting);
      StartFields(a, a.newB[0]);
    } else {
      f := Running(b, Acting);
      ActionFields(a, b);
    }
  }

  lemma PickReserves(a: Agent, b: Behavior)
    requires Reserving(a) && a.pc == Picking
    ensures Reserving(DoPick(a, b))
  {
    hide NoneReserved, Alternating, Awaited, DoPick;
    var f := PickShape(a, b);
    AwaitedPush(a.stack, f);
    AlternatingPush(a.stack, f);
  }

  lemma AddedQueue(s: Queues, m: Msg, ex: seq<Filter>)
    requires NoneReserved(s, ex)
    ensures NoneReserved(Added(s, m), ex)
  {
  }

  lemma ResumeReserves(a: Agent, interrupted: bool, timedOut: bool)
    requires Reserving(a) && a.pc == Back && a.stack != []
    ensures Top(a).Receiving? && a.exclusions != []
    ensures Reserving(DoResume(a, interrupted, timedOut))
  {
    hide NoneReserved, Alternating, TryReceive;
    AlternatingPop(a.stack);
    var ex := Awaited(a.stack[..|a.stack| - 1]);
    assert a.exclusions == ex + [Top(a).filter] && a.exclusions[..|a.exclusions| - 1] == ex;
    FewerExclusions(a.mq, ex, Top(a).filter);
    var a1 := Pop(a).(exclusions := ex);
    if !(interrupted || a.finishing) { TryReceiveReserves(a1, Top(a).filter, Top(a).yielding, timedOut); }
  }

  /** A return pops the behavior's frame, or goes on with its onEnd. */
  lemma ReturnShape(a: Agent, done: bool)
    requires a.stack != [] && Top(a).Running?
    ensures var a' := DoReturn(a, done);
            var below := a.stack[..|a.stack| - 1];
            a'.mq == a.mq && a'.exclusions == a.exclusions &&
            ((a'.stack == below && a'.pc == Back) || (a'.stack == below + [Running(Top(a).b, Ending)] && a'.pc == a.pc))
  {
    match Top(a).stage
    case Starting =>
    case Acting =>
    case Ending =>
  }

  lemma ReturnReserves(a: Agent, done: bool)
    requires Reserving(a) && a.pc == User
    ensures a.stack != [] && Top(a).Running?
    ensures Reserving(DoReturn(a, done))
  {
    hide NoneReserved, Alternating, Awaited, DoReturn;
    AlternatingPop(a.stack);
    ReturnShape(a, done);
    var below, b := a.stack[..|a.stack| - 1], Top(a).b;
    assert a.stack == below + [Top(a)];
    AwaitedPush(below, Top(a));
    AwaitedPush(below, Running(b, Ending));
    AlternatingPush(below, Running(b, Ending));
  }

  lemma {:induction false} RunReserves(max: int, events: seq<Event>)
    ensures Reserving(Steps(Init(max), events))
    decreases |events|
  {
    hide Step, Reserving;
    if events == [] {
      InitReserves(max);
    } else {
      RunReserves(max, events[..|events| - 1]);
      StepReserves(Steps(Init(max), events[..|events| - 1]), events[|events| - 1]);
    }
  }

  lemma InitReserves(max: int)
    ensures Reserving(Init(max))
  {
  }

  /** The message an event hands to the code of a behavior, if any. */
  function Handed(a: Agent, e: Event): Option<Msg> {
    match e
    case ReceiveNow(filter) => if a.pc == User then Taken(a.mq, filter).1 else None
    case Receive(filter, _) => if a.pc == User then Taken(CommitAll(a).mq, filter).1 else None
    case Resume(interrupted, _) =>
      if a.pc == Back && a.stack != [] && Top(a).Receiving? && a.exclusions != [] && !interrupted && !a.finishing
      then Taken(Committed(a.mq, a.exclusions[..|a.exclusions| - 1]), Top(a).filter).1 else None
    case _ => None
  }

  /** The filters of the receives enclosing the one an event completes. */
  function Enclosing(a: Agent, e: Event): seq<Filter> {
    if e.Resume? && a.exclusions != [] then a.exclusions[..|a.exclusions| - 1] else a.exclusions
  }

  /** The first message of a queue that a filter accepts, or the front if there is no filter, and what is left. */
  ghost predicate IsFirstFor(filter: Filter, q: seq<Msg>, m: Msg, rest: seq<Msg>) {
    exists k :: 0 <= k < |q| && q[k] == m && rest == q[..k] + q[k + 1..] &&
                if filter.Null? then k == 0
                else filter.accepts(m) && forall j :: 0 <= j < k ==> !filter.accepts(q[j])
  }

  /** No filter of a list accepts the message, and each of them is a filter. */
  ghost predicate NoneAccepts(filters: seq<Filter>, m: Msg) {
    forall i :: 0 <= i < |filters| ==> filters[i].Matching? && !filters[i].accepts(m)
  }

  lemma NoneAcceptsMeans(filters: seq<Filter>, m: Msg)
    ensures NoneAccepts(filters, m) <==> !Reserved(filters, m)
  {
    ReservedMeans(filters, m);
  }

  lemma TakenIsFirstFor(s: Queues, filter: Filter)
    ensures var (s', r) := Taken(s, filter); r.Some? ==> IsFirstFor(filter, s.queue, r.value, s'.queue)
  {
    TakenIsFirst(s, filter);
  }

  lemma QueueIsUntouched(s: Queues, exclusions: seq<Filter>)
    requires NoneReserved(s, exclusions)
    ensures forall i :: 0 <= i < |s.queue| ==> NoneAccepts(exclusions, s.queue[i])
  {
    forall i | 0 <= i < |s.queue| ensures NoneAccepts(exclusions, s.queue[i]) {
      NoneAcceptsMeans(exclusions, s.queue[i]);
    }
  }

  /** The message handed over is taken from the queue. */
  lemma TakesWhatIsHanded(a: Agent, e: Event)
    requires Handed(a, e).Some?
    ensures e.ReceiveNow? ==> Step(a, e).mq == Taken(a.mq, e.filter).0
    ensures e.Receive? ==> Step(a, e).mq == Taken(CommitAll(a).mq, e.filter).0
    ensures e.Resume? ==> a.exclusions != [] && a.stack != [] && Top(a).Receiving? &&
                          Step(a, e).mq == Taken(Committed(a.mq, a.exclusions[..|a.exclusions| - 1]), Top(a).filter).0
  {
    hide Taken, Committed;
  }

  /**
   Reservation, at every point of any nesting of receives and behaviors.  The exclusion stack is
   the list of filters being waited for and none of them accepts any message in the queue; whatever
   a receive hands over, whether it has waited, returns at once or does not wait at all, is accepted by its
   own filter and by none of those that enclose it, and is the first such message in the queue (after a
   commit, except for a receive that does not wait), from which it alone is removed.
   */
  lemma NothingAwaitedIsTaken(max: int, events: seq<Event>, e: Event)
    ensures var a := Steps(Init(max), events);
            a.exclusions == Awaited(a.stack) &&
            (forall i :: 0 <= i < |a.mq.queue| ==> NoneAccepts(a.exclusions, a.mq.queue[i])) &&
            (Handed(a, e).Some? ==> NoneAccepts(Enclosing(a, e), Handed(a, e).value))
    ensures var a := Steps(Init(max), events);
            e.Resume? && Handed(a, e).Some? ==>
              IsFirstFor(Top(a).filter, Committed(a.mq, Enclosing(a, e)).queue, Handed(a, e).value, Step(a, e).mq.queue)
    ensures var a := Steps(Init(max), events);
            (e.Receive? || e.ReceiveNow?) && Handed(a, e).Some? ==>
              var q := if e.Receive? then Committed(a.mq, a.exclusions).queue else a.mq.queue;
              IsFirstFor(e.filter, q, Handed(a, e).value, Step(a, e).mq.queue)
  {
    hide Reserved, Taken, Committed, Steps, Awaited, Alternating, NoneReserved, NoneAccepts, IsFirstFor;
    var a := Steps(Init(max), events);
    RunReserves(max, events);
    QueueIsUntouched(a.mq, a.exclusions);
    if Handed(a, e).Some? { TakesWhatIsHanded(a, e); NoneAcceptsMeans(Enclosing(a, e), Handed(a, e).value); }
    match e
    case ReceiveNow(filter) =>
      TakenFirst(a.mq, filter, a.exclusions);
      TakenIsFirstFor(a.mq, filter);
    case Receive(filter, _) =>
      CommitReserves(a.mq, a.exclusions);
      TakenFirst(CommitAll(a).mq, filter, a.exclusions);
      TakenIsFirstFor(CommitAll(a).mq, filter);
    case Resume(_, _) =>
      if Handed(a, e).Some? {
        var ex := Enclosing(a, e);
        assert a.exclusions == ex + [a.exclusions[|ex|]];
        FewerExclusions(a.mq, ex, a.exclusions[|ex|]);
        CommitReserves(a.mq, ex);
        TakenFirst(Committed(a.mq, ex), Top(a).filter, ex);
        TakenIsFirstFor(Committed(a.mq, ex), Top(a).filter);
      }
    case _ =>
  }

  // ---------------------------------------------------------------------------
  // No stranded delivery
  // ---------------------------------------------------------------------------

  /** executeBehavior is called by the main loop or by a receive that lets others run. */
  predicate RunsBehaviors(a: Agent) { a.stack == [] || (Top(a).Receiving? && Top(a).yielding) }

  /** The block / wake / deliver protocol. */
  predicate Alert(a: Agent) {
    (a.uncommitted != {} ==> a.restart) &&
    (a.pc == Picking || a.pc == Blocking ==> a.uncommitted != {} ==> !a.unblocked) &&
    (a.pc == Picking || (a.pc == Blocking && RunsBehaviors(a)) ==> a.restart ==> !a.unblocked) &&
    (a.pc == Asleep ==> a.uncommitted == {} && !a.finishing && (RunsBehaviors(a) ==> !a.restart)) &&
    (a.pc == Picking || a.pc == Check ==> RunsBehaviors(a))
  }

  lemma StepAlert(a: Agent, e: Event)
    requires Alert(a) && WellPlaced(a.pc, a.stack)
    ensures Alert(Step(a, e))
  {
    hide DoExecute, DoPick, DoBlock, DoResume, DoReturn, TryReceive, Taken, Added, Alternating;
    match e
    case Execute => if a.pc == Check { ExecuteAlert(a); }
    case Pick(b) => if a.pc == Picking { PickAlert(a, b); }
    case Block => if a.pc == Blocking { BlockAlert(a); }
    case Return(done) => if a.pc == User && a.stack != [] && Top(a).Running? { ReturnAlert(a, done); }
    case Resume(interrupted, timedOut) => if a.pc == Back { ResumeAlert(a, interrupted, timedOut); }
    case Receive(filter, yielding) => if a.pc == User { TryAlert(a, filter, yielding, false); }
    case _ =>
  }

  lemma ExecuteAlert(a: Agent)
    requires Alert(a) && a.pc == Check
    ensures Alert(DoExecute(a))
  {
    hide Committed, Flagged, Unflagged;
  }

  lemma PickAlert(a: Agent, b: Behavior)
    requires Alert(a) && a.pc == Picking
    ensures Alert(DoPick(a, b))
  {
    hide DoPick;
    var _ := PickShape(a, b);
  }

  lemma BlockAlert(a: Agent)
    requires Alert(a) && a.pc == Blocking
    ensures Alert(DoBlock(a))
  {
  }

  lemma ReturnAlert(a: Agent, done: bool)
    requires Alert(a) && a.pc == User && a.stack != [] && Top(a).Running?
    ensures Alert(DoReturn(a, done))
  {
    hide RunsBehaviors;
  }

  lemma ResumeAlert(a: Agent, interrupted: bool, timedOut: bool)
    requires Alert(a) && WellPlaced(a.pc, a.stack) && a.pc == Back
    ensures Alert(Step(a, Resume(interrupted, timedOut)))
  {
    hide TryReceive, Alternating;
    if a.stack != [] && Top(a).Receiving? && a.exclusions != [] && !interrupted && !a.finishing {
      TryAlert(Pop(a).(exclusions := a.exclusions[..|a.exclusions| - 1]), Top(a).filter, Top(a).yielding, timedOut);
    }
  }

  lemma TryAlert(a: Agent, filter: Filter, yielding: bool, giveUp: bool)
    ensures Alert(TryReceive(a, filter, yielding, giveUp))
  {
    hide Committed, Taken;
  }

  lemma {:induction false} RunAlert(max: int, events: seq<Event>)
    ensures Alert(Steps(Init(max), events))
    decreases |events|
  {
    hide Step;
    if events != [] {
      RunAlert(max, events[..|events| - 1]);
      RunReserves(max, events[..|events| - 1]);
      StepAlert(Steps(Init(max), events[..|events| - 1]), events[|events| - 1]);
    }
  }

  /** The exclusions that the last commit used: a receive commits before it pushes its own filter,
      and one that lets others run commits again in executeBehavior. */
  function Held(a: Agent): seq<Filter> {
    if (a.pc == Check || ((a.pc == Blocking || a.pc == Asleep) && !RunsBehaviors(a))) && a.exclusions != []
    then a.exclusions[..|a.exclusions| - 1] else a.exclusions
  }

  /** Every quarantined message is still being delivered, or delivered since the last commit, or
      reserved. */
  ghost predicate Explained(s: Queues, inflight: set<Msg>, uncommitted: set<Msg>, exclusions: seq<Filter>) {
    forall i :: 0 <= i < |s.quarantine| ==>
      s.quarantine[i] in inflight || s.quarantine[i] in uncommitted || Reserved(exclusions, s.quarantine[i])
  }

  /** In a blocking receive, between its last look at the queue and its return from executeBehavior or
      block(). */
  predicate InWait(a: Agent) {
    a.stack != [] && (a.pc == Check || a.pc == Picking || a.pc == Blocking || a.pc == Asleep)
  }

  ghost predicate Accounted(a: Agent) {
    a.finishing || !InWait(a) || Explained(a.mq, a.inflight, a.uncommitted, Held(a))
  }

  lemma CommitExplains(s: Queues, exclusions: seq<Filter>, inflight: set<Msg>)
    ensures Explained(Committed(s, exclusions), inflight, {}, exclusions)
  {
    CommitSorts(s, exclusions);
    var q := Committed(s, exclusions).quarantine;
    forall i | 0 <= i < |q| ensures Reserved(exclusions, q[i]) { assert q[i] in q; }
  }

  lemma MoreExclusions(s: Queues, inflight: set<Msg>, uncommitted: set<Msg>, exclusions: seq<Filter>, f: Filter)
    requires Explained(s, inflight, uncommitted, exclusions)
    ensures Explained(s, inflight, uncommitted, exclusions + [f])
  {
    forall i | 0 <= i < |s.quarantine| && Reserved(exclusions, s.quarantine[i])
      ensures Reserved(exclusions + [f], s.quarantine[i])
    {
      var j :| 0 <= j < |exclusions| && Matches(exclusions[j], s.quarantine[i]);
      assert (exclusions + [f])[j] == exclusions[j];
    }
  }

  /** Held is the whole stack or all but its top. */
  lemma HeldExplains(a: Agent)
    requires Explained(a.mq, a.inflight, a.uncommitted, Held(a))
    ensures Explained(a.mq, a.inflight, a.uncommitted, a.exclusions)
  {
    if Held(a) != a.exclusions {
      var n := |a.exclusions|;
      MoreExclusions(a.mq, a.inflight, a.uncommitted, Held(a), a.exclusions[n - 1]);
      assert Held(a) + [a.exclusions[n - 1]] == a.exclusions;
    }
  }

  lemma DepositExplains(s: Queues, m: Msg, inflight: set<Msg>, uncommitted: set<Msg>, ex: seq<Filter>)
    requires Explained(s, inflight, uncommitted, ex)
    ensures Explained(Added(s, m), inflight + {m}, uncommitted, ex)
  {
    hide Reserved;
    var q := Added(s, m).quarantine;
    forall i | 0 <= i < |q| ensures q[i] in inflight + {m} || q[i] in uncommitted || Reserved(ex, q[i]) {
      var k := i + (|s.quarantine| + 1 - |q|);
      assert q[i] == (s.quarantine + [m])[k];
      if k < |s.quarantine| { assert s.quarantine[k] == q[i]; }
    }
  }

  lemma TryAccounted(a: Agent, filter: Filter, yielding: bool, giveUp: bool)
    ensures Accounted(TryReceive(a, filter, yielding, giveUp))
  {
    hide Explained, Committed, Taken;
    CommitExplains(a.mq, a.exclusions, a.inflight);
    TakenKeeps(CommitAll(a).mq, filter);
    var a' := TryReceive(a, filter, yielding, giveUp);
    SameQuarantine(CommitAll(a).mq, a'.mq, a.inflight, {}, a.exclusions);
    if a'.exclusions != a.exclusions {
      MoreExclusions(a'.mq, a.inflight, {}, a.exclusions, filter);
      assert a'.exclusions[..|a'.exclusions| - 1] == a.exclusions;
    }
  }

  lemma SameQuarantine(s: Queues, s': Queues, inflight: set<Msg>, uncommitted: set<Msg>, ex: seq<Filter>)
    requires Explained(s, inflight, uncommitted, ex) && s'.quarantine == s.quarantine
    ensures Explained(s', inflight, uncommitted, ex)
  {
  }

  lemma OthersAccounted(a: Agent, e: Event)
    requires Accounted(a) && (e.Wake? || e.Stop? || e.AddBehavior? || e.SetFlag? || e.Restart?)
    ensures Accounted(Step(a, e))
  {
    hide Explained;
  }

  lemma StepAccounted(a: Agent, e: Event)
    requires Accounted(a) && WellPlaced(a.pc, a.stack) && (a.pc == Picking ==> RunsBehaviors(a))
    ensures Accounted(Step(a, e))
  {
    hide DoExecute, DoPick, DoBlock, DoResume, DoReturn, TryReceive, Taken, Added, Alternating, Explained, InWait;
    if a.finishing {
      FinishingStays(a, e);
    } else {
      match e
      case Deposit(m) => if InWait(a) { DepositExplains(a.mq, m, a.inflight, a.uncommitted, Held(a)); } NoWait(a, e);
      case Notify(m) => NotifyAccounted(a, m);
      case Execute => if a.pc == Check { ExecuteAccounted(a); }
      case Pick(b) => if a.pc == Picking { PickAccounted(a, b); }
      case Block => if a.pc == Blocking { BlockAccounted(a); }
      case Resume(interrupted, timedOut) => if a.pc == Back { ResumeAccounted(a, interrupted, timedOut); }
      case Receive(filter, yielding) => if a.pc == User { TryAccounted(a, filter, yielding, false); }
      case ReceiveNow(filter) => NoWait(a, e);
      case Return(done) => if a.pc == User && a.stack != [] && Top(a).Running? { ReturnAccounted(a, done); }
      case _ => OthersAccounted(a, e);
    }
  }

  lemma NoWait(a: Agent, e: Event)
    requires e.Deposit? || e.ReceiveNow?
    ensures InWait(Step(a, e)) ==> InWait(a) && (e.Deposit? || Step(a, e) == a)
  {
    hide Taken, Added;
  }

  lemma TakenKeeps(s: Queues, f: Filter)
    ensures Taken(s, f).0.quarantine == s.quarantine
  {
  }

  lemma FinishingStays(a: Agent, e: Event)
    requires a.finishing
    ensures Step(a, e).finishing
  {
    hide Taken, Committed, Added, IsFirst, Flagged, Unflagged;
  }

  lemma NotifyAccounted(a: Agent, m: Msg)
    requires Accounted(a)
    ensures Accounted(Step(a, Notify(m)))
  {
    hide Reserved;
  }

  lemma ExecuteAccounted(a: Agent)
    requires Accounted(a) && !a.finishing && a.pc == Check
    ensures Accounted(DoExecute(a))
  {
    hide Explained, Committed, Flagged, Unflagged;
    CommitExplains(a.mq, a.exclusions, a.inflight);
    if a.stack != [] { HeldExplains(a); }
  }

  lemma PickAccounted(a: Agent, b: Behavior)
    requires Accounted(a) && !a.finishing && a.pc == Picking && RunsBehaviors(a)
    ensures Accounted(DoPick(a, b))
  {
    hide Explained, IsFirst;
  }

  lemma BlockAccounted(a: Agent)
    requires Accounted(a) && !a.finishing && a.pc == Blocking
    ensures Accounted(DoBlock(a))
  {
    hide Explained;
  }

  lemma ReturnAccounted(a: Agent, done: bool)
    requires a.pc == User && a.stack != [] && Top(a).Running?
    ensures Accounted(DoReturn(a, done))
  {
    hide Explained;
  }

  lemma ResumeAccounted(a: Agent, interrupted: bool, timedOut: bool)
    requires a.pc == Back
    ensures Accounted(Step(a, Resume(interrupted, timedOut)))
  {
    hide Explained, TryReceive;
    if a.stack != [] && Top(a).Receiving? && a.exclusions != [] && !interrupted && !a.finishing {
      TryAccounted(Pop(a).(exclusions := a.exclusions[..|a.exclusions| - 1]), Top(a).filter, Top(a).yielding, timedOut);
    }
  }

  lemma {:induction false} RunAccounted(max: int, events: seq<Event>)
    ensures Accounted(Steps(Init(max), events))
    decreases |events|
  {
    hide Step;
    if events != [] {
      var front := events[..|events| - 1];
      RunAccounted(max, front);
      RunReserves(max, front);
      RunAlert(max, front);
      StepAccounted(Steps(Init(max), front), events[|events| - 1]);
    }
  }

  /**
   No stranded delivery, in every interleaving of deliveries with the agent's thread.  While the agent
   sleeps, every completed delivery has been followed by a commit, and if it sleeps where behaviors are
   run, no restart is owed.  While it sleeps in a receive, every message still in quarantine is one whose
   delivery is not complete, or one reserved by this receive or one that encloses it; if the receive runs
   nothing else, by one that encloses it.
   */
  lemma NoStrandedDelivery(max: int, events: seq<Event>)
    ensures var a := Steps(Init(max), events);
            a.pc == Asleep ==> a.uncommitted == {} && (RunsBehaviors(a) ==> !a.restart)
    ensures var a := Steps(Init(max), events);
            a.pc == Asleep && a.stack != [] ==>
              forall i :: 0 <= i < |a.mq.quarantine| ==>
                a.mq.quarantine[i] in a.inflight || Reserved(Held(a), a.mq.quarantine[i])
  {
    hide Steps, Reserved;
    RunAlert(max, events);
    RunAccounted(max, events);
  }

  lemma NothingReserved(m: Msg)
    ensures !Reserved([], m)
  {
  }

  // ---------------------------------------------------------------------------
  // The race in a receive that lets other behaviors run
  // ---------------------------------------------------------------------------

  /** A message the top receive is waiting for, fully delivered, but left in quarantine. */
  ghost predicate Stranded(a: Agent, m: Msg) {
    a.stack != [] && Top(a).Receiving? && a.exclusions != [] &&
    m in a.mq.quarantine && m !in a.inflight && Matches(Top(a).filter, m) &&
    !Reserved(a.exclusions[..|a.exclusions| - 1], m)
  }

  /** Still in the wait that `a` began by calling executeBehavior: everything quarantined is being
      delivered, or was delivered since the last commit, or was already there and delivered.
      Otherwise the wait is over, or user code runs on top of the receive. */
  ghost predicate Waiting(a: Agent, s: Agent) {
    if s.stack == a.stack then
      s.pc == Back ||
      ((s.pc == Picking || s.pc == Blocking || s.pc == Asleep) && s.exclusions == a.exclusions &&
       forall q :: q in s.mq.quarantine ==>
         q in s.inflight || q in s.uncommitted || (q in a.mq.quarantine && q !in a.inflight))
    else |s.stack| > |a.stack| && s.stack[..|a.stack|] == a.stack
  }

  lemma WaitBegins(a: Agent)
    requires a.pc == Check
    ensures Waiting(a, Step(a, Execute))
  {
    hide Flagged, Unflagged, Committed;
    CommitSorts(a.mq, a.exclusions);
  }

  lemma WaitGoesOn(a: Agent, s: Agent, e: Event)
    requires Waiting(a, s) && !e.Resume? && a.stack != [] && Top(a).Receiving?
    ensures Waiting(a, Step(s, e))
  {
    hide DoPick, DoExecute, DoReturn, TryReceive, Added, Taken;
    match e
    case Deposit(m) => if s.stack == a.stack { AddedMembers(s.mq, m); }
    case Pick(b) =>
      if s.pc == Picking {
        var _ := PickShape(s, b);
        PickKeeps(s, b);
      }
    case Execute => if s.pc == Check { ExecuteStack(s); }
    case Receive(filter, yielding) => if s.pc == User { TryStack(s, filter, yielding); }
    case Return(done) => if s.pc == User && s.stack != [] && Top(s).Running? { ReturnShape(s, done); }
    case _ =>
  }

  lemma AddedMembers(s: Queues, m: Msg)
    ensures forall q :: q in Added(s, m).quarantine ==> q in s.quarantine || q == m
  {
    hide Trim;
    var all := s.quarantine + [m];
    assert forall q :: q in Trim(all, s.max) ==> q in all;
  }

  lemma PickKeeps(a: Agent, b: Behavior)
    ensures DoPick(a, b).inflight == a.inflight
  {
    hide IsFirst;
  }

  lemma ExecuteStack(a: Agent)
    ensures DoExecute(a).stack == a.stack
  {
    hide Committed, Flagged, Unflagged;
  }

  lemma TryStack(a: Agent, filter: Filter, yielding: bool)
    ensures a.stack <= TryReceive(a, filter, yielding, false).stack
  {
    hide Committed, Taken;
  }

  lemma {:induction false} WaitRuns(a: Agent, s: Agent, mid: seq<Event>)
    requires Waiting(a, s) && a.stack != [] && Top(a).Receiving? && forall k :: 0 <= k < |mid| ==> !mid[k].Resume?
    ensures Waiting(a, Steps(s, mid))
    decreases |mid|
  {
    hide Waiting, Step;
    if mid != [] {
      WaitRuns(a, s, mid[..|mid| - 1]);
      WaitGoesOn(a, Steps(s, mid[..|mid| - 1]), mid[|mid| - 1]);
    }
  }

  lemma {:induction false} StepsAppend(a: Agent, events: seq<Event>, more: seq<Event>)
    ensures Steps(a, events + more) == Steps(Steps(a, events), more)
    decreases |more|
  {
    hide Step;
    if more == [] {
      assert events + more == events;
    } else {
      StepsAppend(a, events, more[..|more| - 1]);
      assert (events + more)[..|events + more| - 1] == events + more[..|more| - 1];
    }
  }

  lemma AsleepOver(a: Agent, end: Agent, m: Msg)
    requires Waiting(a, end) && Alert(end) && end.pc == Asleep && end.stack == a.stack
    requires a.stack != [] && Top(a).Receiving?
    ensures Stranded(end, m) <==> Stranded(a, m) && m in end.mq.quarantine && m !in end.inflight
  {
    hide Reserved;
  }

  lemma OneStep(a: Agent, e: Event)
    ensures Steps(a, [e]) == Step(a, e)
  {
    hide Step;
    assert [e][..0] == [];
  }

  /**
   Exactly when a receive that lets others run is caught asleep over a message it waits for: on any
   run on which it calls executeBehavior, and whatever other threads and behaviors do until it is next
   asleep with no behavior on top of it.  It then sleeps over those messages whose delivery had been
   completed, and which no enclosing receive reserves, when it called executeBehavior (unless the
   limit has since dropped them, or they are being delivered once more): executeBehavior takes the
   restart that the delivery asked for, and its commit holds the message back because the receive's
   own filter is already on the exclusion stack.
   */
  lemma YieldingReceiveRace(max: int, before: seq<Event>, mid: seq<Event>, m: Msg)
    requires var a := Steps(Init(max), before); a.pc == Check && a.stack != [] && Top(a).Receiving?
    requires forall k :: 0 <= k < |mid| ==> !mid[k].Resume?
    ensures var a := Steps(Init(max), before);
            var end := Steps(Init(max), before + [Execute] + mid);
            end.pc == Asleep && end.stack == a.stack ==>
              (Stranded(end, m) <==> Stranded(a, m) && m in end.mq.quarantine && m !in end.inflight)
  {
    hide Step, Steps, Waiting, Alert, Stranded;
    var a := Steps(Init(max), before);
    var end := Steps(Init(max), before + [Execute] + mid);
    StepsAppend(Init(max), before, [Execute]);
    StepsAppend(Init(max), before + [Execute], mid);
    OneStep(a, Execute);
    WaitBegins(a);
    WaitRuns(a, Step(a, Execute), mid);
    RunAlert(max, before + [Execute] + mid);
    if end.pc == Asleep && end.stack == a.stack { AsleepOver(a, end, m); }
  }

  /** Such a message has been delivered since the receive last looked. */
  lemma StrandedIsUncommitted(max: int, events: seq<Event>, m: Msg)
    requires var a := Steps(Init(max), events); a.pc == Check && !a.finishing && Stranded(a, m)
    ensures m in Steps(Init(max), events).uncommitted
  {
    hide Steps, Reserved;
    RunAccounted(max, events);
    var a := Steps(Init(max), events);
    var i :| 0 <= i < |a.mq.quarantine| && a.mq.quarantine[i] == m;
  }

  /** With nothing else to run and no step of another thread in between, it does go to sleep. */
  lemma NothingToRunSleeps(a: Agent, b: Behavior)
    requires a.pc == Check && a.stack != [] && Top(a).Receiving? && !a.finishing
    requires a.exclusions != [] && a.exclusions[|a.exclusions| - 1] == Top(a).filter
    requires a.newB == [] && a.active == multiset{} && a.blocked == []
    ensures var end := Step(Step(Step(a, Execute), Pick(b)), Block);
            end.pc == Asleep && forall m :: Stranded(end, m) <==> Stranded(a, m)
  {
    hide Committed, Reserved;
    var end := Step(Step(Step(a, Execute), Pick(b)), Block);
    CommitSorts(a.mq, a.exclusions);
    forall m ensures Stranded(end, m) <==> Stranded(a, m) {
      if Matches(Top(a).filter, m) { OwnFilterReserves(a.exclusions, m); }
    }
  }

  lemma OwnFilterReserves(exclusions: seq<Filter>, m: Msg)
    requires exclusions != [] && Matches(exclusions[|exclusions| - 1], m)
    ensures Reserved(exclusions, m)
  {
  }

  /** A receive that does not yield is never caught this way, on any run. */
  lemma PlainReceiveNeverStrands(max: int, events: seq<Event>, m: Msg)
    ensures var a := Steps(Init(max), events);
            a.pc == Asleep && a.stack != [] && Top(a).Receiving? && !Top(a).yielding ==> !Stranded(a, m)
  {
    hide Steps, Reserved, Awaited;
    NoStrandedDelivery(max, events);
  }

  /** The event that interrupts the agent's thread while it waits. */
  predicate Interrupts(e: Event) { e.Resume? && e.interrupted }

  ghost predicate Reaches(events: seq<Event>, a: Agent) {
    a == Steps(Init(256), events)
  }

  ghost predicate Uninterrupted(events: seq<Event>) {
    forall k :: 0 <= k < |events| ==> !Interrupts(events[k])
  }

  /** One more event on a run. */
  lemma Go(events: seq<Event>, a: Agent, e: Event, a': Agent) returns (events': seq<Event>)
    requires Reaches(events, a) && Step(a, e) == a'
    ensures Reaches(events', a') && events' == events + [e]
    ensures Uninterrupted(events) && !Interrupts(e) ==> Uninterrupted(events')
  {
    hide Step;
    events' := events + [e];
    assert events'[..|events|] == events;
  }

  lemma ReachesStart()
    ensures Reaches([], Init(256)) && Uninterrupted([])
  {
  }

  /** The agent once behavior b, its only one, is in its action. */
  function InAction(b: Behavior): Agent {
    Init(256).(pc := User, stack := [Running(b, Acting)], known := {b}, calls := [OnStart(b), Action(b)])
  }

  lemma ActingRun(b: Behavior) returns (events: seq<Event>)
    ensures Reaches(events, InAction(b)) && Uninterrupted(events)
  {
    hide Reaches, Uninterrupted;
    var a0 := Init(256);
    var a1 := a0.(newB := [b], known := {b});
    var a2 := a1.(pc := Picking);
    var a3 := a0.(pc := User, known := {b}, active := multiset{b}, stack := [Running(b, Starting)],
                  calls := [OnStart(b)]);
    var a4 := a3.(pc := Back, stack := []);
    var a5 := a4.(pc := Check);
    var a6 := a4.(pc := Picking);
    ReachesStart();
    events := Go([], a0, AddBehavior(b), a1);
    events := Go(events, a1, Execute, a2);
    events := Go(events, a2, Pick(b), a3);
    events := Go(events, a3, Return(false), a4);
    events := Go(events, a4, Resume(false, false), a5);
    events := Go(events, a5, Execute, a6);
    assert IsFirst(b, a6.active) && a6.active - multiset{b} == multiset{};
    events := Go(events, a6, Pick(b), InAction(b));
  }

  /** The race does happen: a behavior waits for any message, yielding; one is delivered before
      executeBehavior is called; the agent goes to sleep with it in quarantine. */
  lemma YieldingReceiveCanStrand() returns (events: seq<Event>, m: Msg)
    ensures forall k :: 0 <= k < |events| ==> !Interrupts(events[k])
    ensures var a := Steps(Init(256), events); a.pc == Asleep && Stranded(a, m)
  {
    hide Steps;
    m := Msg(0, "hello");
    events := StrandedRun(Behavior(0, 0), m);
  }

  /** The agent waits in b for any message, with m in quarantine. */
  function WaitingWith(b: Behavior, m: Msg, pc: Pc): Agent {
    InAction(b).(pc := pc, stack := [Running(b, Acting), Receiving(Null, true)], exclusions := [Null],
                 mq := Queues([], [m], 256))
  }

  /** A run after which a receive of anything sleeps over m. */
  lemma StrandedRun(b: Behavior, m: Msg) returns (events: seq<Event>)
    ensures Reaches(events, WaitingWith(b, m, Asleep)) && Uninterrupted(events)
    ensures Stranded(WaitingWith(b, m, Asleep), m)
  {
    hide Reaches, Step, Uninterrupted;
    events := WaitingRun(b, m);
    HeldBack(b, m);
    var a := WaitingWith(b, m, Check).(uncommitted := {m}, restart := true);
    events := Go(events, a, Execute, WaitingWith(b, m, Picking));
    WaitingSteps(b, m);
    events := Go(events, WaitingWith(b, m, Picking), Pick(b), WaitingWith(b, m, Blocking));
    events := Go(events, WaitingWith(b, m, Blocking), Block, WaitingWith(b, m, Asleep));
    assert m in [m] && Matches(Null, m);
  }

  lemma HeldBack(b: Behavior, m: Msg)
    ensures Step(WaitingWith(b, m, Check).(uncommitted := {m}, restart := true), Execute) == WaitingWith(b, m, Picking)
  {
    hide Committed;
    NullHoldsBack(m);
    assert multiset{} + multiset(InAction(b).blocked) == multiset{};
  }

  lemma NullHoldsBack(m: Msg)
    ensures Committed(Queues([], [m], 256), [Null]) == Queues([], [m], 256)
  {
    hide Trim;
    var none: seq<Msg> := [];
    assert Reserved([Null], m) by { assert Matches([Null][0], m); }
    assert [m][..0] == none && Kept(none, [Null]) == none && Free(none, [Null]) == none;
    assert none + none == none;
  }

  lemma WaitingSteps(b: Behavior, m: Msg)
    ensures Step(WaitingWith(b, m, Picking), Pick(b)) == WaitingWith(b, m, Blocking)
    ensures Step(WaitingWith(b, m, Blocking), Block) == WaitingWith(b, m, Asleep)
  {
  }

  /** A run after which a receive of anything has looked once, and m has been delivered since. */
  lemma WaitingRun(b: Behavior, m: Msg) returns (events: seq<Event>)
    ensures Reaches(events, WaitingWith(b, m, Check).(uncommitted := {m}, restart := true)) && Uninterrupted(events)
  {
    hide Reaches, Step, Uninterrupted;
    var a0 := InAction(b);
    var a1 := a0.(pc := Check, stack := [Running(b, Acting), Receiving(Null, true)], exclusions := [Null]);
    var a2 := a1.(mq := Queues([], [m], 256), inflight := {m});
    var a := a1.(mq := Queues([], [m], 256), uncommitted := {m}, restart := true);
    events := ActingRun(b);
    ReceiveStep(b);
    events := Go(events, a0, Receive(Null, true), a1);
    DepositStep(a1, m);
    events := Go(events, a1, Deposit(m), a2);
    NotifyStep(a2, m);
    assert {m} - {m} == {} && {} + {m} == {m};
    events := Go(events, a2, Notify(m), a);
  }

  lemma ReceiveStep(b: Behavior)
    ensures Step(InAction(b), Receive(Null, true)) ==
            InAction(b).(pc := Check, stack := [Running(b, Acting), Receiving(Null, true)], exclusions := [Null])
  {
    assert Committed(InAction(b).mq, []) == InAction(b).mq;
  }

  lemma DepositStep(a: Agent, m: Msg)
    requires a.mq == Queues([], [], 256)
    ensures Step(a, Deposit(m)) == a.(mq := Queues([], [m], 256), inflight := a.inflight + {m})
  {
    hide Trim;
    assert Trim([] + [m], 256) == [] + [m] == [m];
  }

  lemma NotifyStep(a: Agent, m: Msg)
    requires m in a.inflight && a.pc != Asleep && !a.unblocked
    ensures Step(a, Notify(m)) == a.(inflight := a.inflight - {m}, uncommitted := a.uncommitted + {m}, restart := true)
  {
  }
}
