/**
 Messages of one sender keep their order on the way to each slave: through the line to the master, the
 master's pool for the sender's connection, the pools of the others, the line down and the slave's own pool.
 */
module RelayOrder {
  import opened Common
  import opened Containers
  import opened Relay
  import opened RelayStreams

  /** What f picks from each element, in order. */
  function Collect<T>(q: seq<T>, f: T -> seq<Message>): seq<Message> {
    if q == [] then [] else Collect(q[..|q| - 1], f) + f(q[|q| - 1])
  }

  lemma CollectPush<T>(q: seq<T>, x: T, f: T -> seq<Message>)
    ensures Collect(q + [x], f) == Collect(q, f) + f(x)
  {
    assert (q + [x])[..|q|] == q;
  }

  lemma {:induction false} CollectPop<T>(q: seq<T>, f: T -> seq<Message>)
    requires q != []
    ensures Collect(q, f) == f(q[0]) + Collect(q[1..], f)
  {
    var front, last := q[..|q| - 1], q[|q| - 1];
    if front != [] {
      CollectPop(front, f);
      assert q[1..][..|q| - 2] == front[1..];
      Assoc(f(q[0]), Collect(front[1..], f), f(last));
    }
  }

  lemma CollectQueue<T>(q: seq<T>, x: T, f: T -> seq<Message>)
    ensures Collect(q + [x], f) == Collect(q, f) + f(x)
    ensures q != [] ==> Collect(q, f) == f(q[0]) + Collect(q[1..], f)
  {
    hide Collect;
    CollectPush(q, x, f);
    if q != [] { CollectPop(q, f); }
  }

  lemma Unit(a: seq<Message>)
    ensures a + [] == a && [] + a == a
  {
  }

  lemma Assoc(a: seq<Message>, b: seq<Message>, c: seq<Message>)
    ensures (a + b) + c == a + (b + c)
  {
  }

  lemma {:induction false} CollectNothing<T>(q: seq<T>, f: T -> seq<Message>)
    requires forall k :: 0 <= k < |q| ==> f(q[k]) == []
    ensures Collect(q, f) == []
  {
    if q != [] { CollectNothing(q[..|q| - 1], f); }
  }

  lemma {:induction false} CollectSame<T>(q: seq<T>, q': seq<T>, f: T -> seq<Message>)
    requires |q| == |q'| && forall k :: 0 <= k < |q| ==> f(q[k]) == f(q'[k])
    ensures Collect(q, f) == Collect(q', f)
  {
    if q != [] { CollectSame(q[..|q| - 1], q'[..|q'| - 1], f); }
  }

  /** The messages of a set S, among messages, lines from a slave, and tasks of the master's pool. */
  function Pick(m: Message, S: set<Message>): seq<Message> { if m in S then [m] else [] }

  function PickFrame(f: Frame, S: set<Message>): seq<Message> { if f.Send? then Pick(f.message, S) else [] }

  function Kept(S: set<Message>): Message -> seq<Message> { (m: Message) => Pick(m, S) }

  function Raised(S: set<Message>): Frame -> seq<Message> { (f: Frame) => PickFrame(f, S) }

  function PickRun(t: Task, S: set<Message>): seq<Message> { if t.Run? then PickFrame(t.frame, S) else [] }

  function PickPrint(t: Task, S: set<Message>): seq<Message> { if t.Println? then Pick(t.message, S) else [] }

  function Taken(S: set<Message>): Task -> seq<Message> { (t: Task) => PickRun(t, S) }

  function Printed(S: set<Message>): Task -> seq<Message> { (t: Task) => PickPrint(t, S) }

  /** What one connection holds of S on the way down and on the way up, oldest first. */
  function Falling(l: Link, S: set<Message>): seq<Message> {
    Collect(l.tasks, Kept(S)) + Collect(l.down, Kept(S)) + Collect(l.pool, Printed(S))
  }

  function Rising(l: Link, S: set<Message>): seq<Message> {
    Collect(l.pool, Taken(S)) + Collect(l.up, Raised(S))
  }

  // ---------------------------------------------------------------------------
  // What each operation does to one connection
  // ---------------------------------------------------------------------------

  lemma PrintFlow(l: Link, x: Message, S: set<Message>)
    ensures Rising(PrintTo(l, x), S) == Rising(l, S)
    ensures Falling(PrintTo(l, x), S) ==
            Falling(l, S) + if Wants(l.watch, x.recipient) then Pick(x, S) else []
  {
    hide Collect, Pick;
    CollectQueue(l.pool, Println(x), Taken(S));
    CollectQueue(l.pool, Println(x), Printed(S));
    Assoc(Collect(l.tasks, Kept(S)) + Collect(l.down, Kept(S)), Collect(l.pool, Printed(S)), Pick(x, S));
  }

  lemma RaiseFlow(l: Link, f: Frame, S: set<Message>)
    ensures Rising(l.(up := l.up + [f]), S) == Rising(l, S) + PickFrame(f, S)
    ensures Falling(l.(up := l.up + [f]), S) == Falling(l, S)
  {
    hide Collect, PickFrame;
    CollectQueue(l.up, f, Raised(S));
    Assoc(Collect(l.pool, Taken(S)), Collect(l.up, Raised(S)), PickFrame(f, S));
  }

  lemma ArriveFlow(l: Link, S: set<Message>)
    requires l.up != []
    ensures var l' := l.(up := l.up[1..], pool := l.pool + [Run(l.up[0])]);
            Rising(l', S) == Rising(l, S) && Falling(l', S) == Falling(l, S)
  {
    hide Collect, PickFrame;
    CollectQueue(l.up, l.up[0], Raised(S));
    CollectQueue(l.pool, Run(l.up[0]), Taken(S));
    CollectQueue(l.pool, Run(l.up[0]), Printed(S));
    Assoc(Collect(l.pool, Taken(S)), PickFrame(l.up[0], S), Collect(l.up[1..], Raised(S)));
  }

  /** The pool's first task is taken. */
  lemma TakeFlow(l: Link, l': Link, S: set<Message>)
    requires l.pool != [] && l'.pool == l.pool[1..] && l'.up == l.up && l'.tasks == l.tasks
    requires l'.down == l.down + if l.pool[0].Println? then [l.pool[0].message] else []
    ensures Rising(l, S) == PickRun(l.pool[0], S) + Rising(l', S)
    ensures Falling(l', S) == Falling(l, S)
  {
    hide Collect, Pick, PickFrame;
    CollectQueue(l.pool, l.pool[0], Taken(S));
    CollectQueue(l.pool, l.pool[0], Printed(S));
    Assoc(PickRun(l.pool[0], S), Collect(l'.pool, Taken(S)), Collect(l.up, Raised(S)));
    if l.pool[0].Println? {
      var x := l.pool[0].message;
      CollectQueue(l.down, x, Kept(S));
      Assoc(Collect(l.tasks, Kept(S)), Collect(l.down, Kept(S)), Pick(x, S));
      Assoc(Collect(l.tasks, Kept(S)) + Collect(l.down, Kept(S)), Pick(x, S), Collect(l'.pool, Printed(S)));
    } else {
      assert l'.down == l.down;
      Unit(Collect(l'.pool, Printed(S)));
    }
  }

  lemma ReturnFlow(l: Link, S: set<Message>)
    requires l.down != []
    ensures var l' := l.(down := l.down[1..], tasks := l.tasks + [l.down[0]]);
            Rising(l', S) == Rising(l, S) && Falling(l', S) == Falling(l, S)
  {
    hide Collect, Pick;
    CollectQueue(l.down, l.down[0], Kept(S));
    CollectQueue(l.tasks, l.down[0], Kept(S));
    Assoc(Collect(l.tasks, Kept(S)), Pick(l.down[0], S), Collect(l.down[1..], Kept(S)));
  }

  lemma HandleFlow(l: Link, S: set<Message>)
    requires l.tasks != []
    ensures var l' := l.(tasks := l.tasks[1..]);
            Rising(l', S) == Rising(l, S) && Falling(l, S) == Pick(l.tasks[0], S) + Falling(l', S)
  {
    hide Collect, Pick;
    CollectQueue(l.tasks, l.tasks[0], Kept(S));
    var x, tasks, down := Pick(l.tasks[0], S), Collect(l.tasks[1..], Kept(S)), Collect(l.down, Kept(S));
    Assoc(x, tasks, down);
    Assoc(x, tasks + down, Collect(l.pool, Printed(S)));
  }

  lemma ForgetFlow(l: Link, wanted: set<AgentID>, S: set<Message>)
    ensures Rising(Forget(l, wanted), S) == Rising(l, S) && Falling(Forget(l, wanted), S) == Falling(l, S)
  {
    var l' := Forget(l, wanted);
    CollectSame(l.up, l'.up, Raised(S));
    CollectSame(l.pool, l'.pool, Taken(S));
    CollectSame(l.pool, l'.pool, Printed(S));
  }

  // ---------------------------------------------------------------------------
  // One sender, one slave
  // ---------------------------------------------------------------------------

  /** The sender: a slave, or None for the master. */
  type Source = Option<nat>

  /** No line of S is on its way up but those of the sender. */
  ghost predicate OneSource(net: Net, src: Source, S: set<Message>) {
    (src.Some? ==> src.value < |net.links|) &&
    forall k :: 0 <= k < |net.links| && src != Some(k) ==> Rising(net.links[k], S) == []
  }

  /** What is on its way from the sender to slave j, oldest first. */
  function Pending(net: Net, src: Source, j: nat, S: set<Message>): seq<Message>
    requires j < |net.links|
  {
    Falling(net.links[j], S) + if src.Some? && src.value < |net.links| then Rising(net.links[src.value], S) else []
  }

  /** The messages of S that a step sends, and those it has slave j handle. */
  function SentNow(e: Event, S: set<Message>): seq<Message> {
    if e.MasterSends? || e.SlaveSends? then Pick(e.m, S) else []
  }

  function HandledNow(net: Net, e: Event, j: nat): seq<Message> {
    if e == Handles(j) && j < |net.links| && net.links[j].tasks != [] then [net.links[j].tasks[0]] else []
  }

  function SentOf(events: seq<Event>, S: set<Message>): seq<Message> {
    if events == [] then [] else SentOf(events[..|events| - 1], S) + SentNow(events[|events| - 1], S)
  }

  /** Everything slave j's pool hands to its container on a run, in order. */
  function Handled(net: Net, events: seq<Event>, j: nat): seq<Message>
    requires Wired(net)
    decreases |events|
  {
    if events == [] then []
    else Handled(net, events[..|events| - 1], j) +
         HandledNow(Steps(net, events[..|events| - 1]), events[|events| - 1], j)
  }

  /** Only the sender sends messages of S, and nothing changes at slave j. */
  ghost predicate Orderly(e: Event, src: Source, j: nat, S: set<Message>) {
    (e.MasterSends? && e.m in S ==> src.None?) && (e.SlaveSends? && e.m in S ==> src == Some(e.i)) &&
    forall m :: m in S ==> Allowed(e, j, m, src == Some(j))
  }

  /** Each message of S goes through the master to slave j. */
  ghost predicate Relayed(net: Net, src: Source, j: nat, S: set<Message>) {
    forall m :: m in S ==> Passing(net, j, m, src == Some(j)) && (m.recipient.isTopic || src != Some(j))
  }

  lemma MasterSendFlow(net: Net, x: Message, src: Source, j: nat, S: set<Message>)
    requires Wired(net) && j < |net.links| && OneSource(net, src, S)
    requires x in S ==> Held(net, j, x) && Wants(net.links[j].watch, x.recipient)
    ensures var net' := MasterSend(net, x);
            |net'.links| == |net.links| && OneSource(net', src, S) &&
            Falling(net'.links[j], S) == Falling(net.links[j], S) + Pick(x, S) &&
            forall k :: 0 <= k < |net.links| ==> Rising(net'.links[k], S) == Rising(net.links[k], S)
  {
    hide Falling, Rising;
    var net' := MasterSend(net, x);
    forall k | 0 <= k < |net.links| ensures Rising(net'.links[k], S) == Rising(net.links[k], S) {
      PrintFlow(net.links[k], x, S);
    }
    PrintFlow(net.links[j], x, S);
  }

  /** A step on one connection that leaves what it holds as it is. */
  lemma LinkFlow(net: Net, i: nat, l: Link, s: Site, src: Source, j: nat, S: set<Message>)
    requires Wired(net) && i < |net.links| && j < |net.links| && OneSource(net, src, S)
    requires Rising(l, S) == Rising(net.links[i], S) && Falling(l, S) == Falling(net.links[i], S)
    ensures var net' := net.(links := net.links[i := l], slaves := net.slaves[i := s]);
            OneSource(net', src, S) && Pending(net', src, j, S) == Pending(net, src, j, S)
  {
    hide Rising, Falling;
  }

  lemma SlaveSendFlow(net: Net, i: nat, x: Message, src: Source, j: nat, S: set<Message>)
    requires Wired(net) && i < |net.links| && j < |net.links| && OneSource(net, src, S)
    requires x in S ==> src == Some(i) && Held(net, j, x) && (x.recipient.isTopic || src != Some(j))
    ensures var net' := SlaveSend(net, i, x);
            |net'.links| == |net.links| && OneSource(net', src, S) &&
            Pending(net', src, j, S) == Pending(net, src, j, S) + Pick(x, S)
  {
    hide Rising, Falling, LocalSend;
    var l := net.links[i];
    SentUpOrHere(net.slaves[i], x);
    RaiseFlow(l, Send(x, l.told), S);
    assert PickFrame(Send(x, l.told), S) == Pick(x, S);
    Unit(Rising(l, S));
    Unit(Pending(net, src, j, S));
    if src.Some? { Assoc(Falling(net.links[j], S), Rising(net.links[src.value], S), Pick(x, S)); }
  }

  lemma ExecuteFlow(net: Net, i: nat, src: Source, j: nat, S: set<Message>)
    requires Wired(net) && i < |net.links| && j < |net.links| && OneSource(net, src, S) && Relayed(net, src, j, S)
    requires net.links[i].pool != []
    ensures var net' := Execute(net, i);
            |net'.links| == |net.links| && OneSource(net', src, S) &&
            Pending(net', src, j, S) == Pending(net, src, j, S)
  {
    hide OneSource, Relayed, Pending, Execute;
    match net.links[i].pool[0]
    case Println(x) => NoFrameFlow(net, i, src, j, S);
    case Run(WantsMessagesFor(list)) => NoFrameFlow(net, i, src, j, S);
    case Run(Send(x, known)) =>
      if x in S { RelayedIsWanted(net, i, x, src, j, S); }
      FrameFlow(net, i, x, known, src, j, S);
  }

  lemma RelayedIsWanted(net: Net, i: nat, x: Message, src: Source, j: nat, S: set<Message>)
    requires Wired(net) && i < |net.links| && j < |net.links| && Relayed(net, src, j, S) && x in S
    requires net.links[i].pool != [] && net.links[i].pool[0].Run? && net.links[i].pool[0].frame.Send?
    requires net.links[i].pool[0].frame.message == x
    ensures Held(net, j, x) && Wants(net.links[j].watch, x.recipient)
  {
    hide Held, Wants, Safe, LinkKnows;
    PassingIsWanted(net, j, x, src == Some(j));
  }

  lemma NoFrameFlow(net: Net, i: nat, src: Source, j: nat, S: set<Message>)
    requires Wired(net) && i < |net.links| && j < |net.links| && OneSource(net, src, S)
    requires net.links[i].pool != [] && (net.links[i].pool[0].Run? ==> net.links[i].pool[0].frame.WantsMessagesFor?)
    ensures var net' := Execute(net, i);
            |net'.links| == |net.links| && OneSource(net', src, S) &&
            Pending(net', src, j, S) == Pending(net, src, j, S)
  {
    hide Rising, Falling, OneSource, Pending, Pick, MasterSend;
    var l0 := net.links[i];
    var l := l0.(pool := l0.pool[1..]);
    assert net.slaves[i := net.slaves[i]] == net.slaves;
    Unit(Rising(Execute(net, i).links[i], S));
    match l0.pool[0]
    case Println(x) =>
      TakeFlow(l0, l.(down := l.down + [x], printed := l.printed + multiset{x}), S);
      LinkFlow(net, i, l.(down := l.down + [x], printed := l.printed + multiset{x}), net.slaves[i], src, j, S);
    case Run(f) =>
      assert PickRun(l0.pool[0], S) == [] && l0.down + [] == l0.down;
      TakeFlow(l0, l.(watch := f.list), S);
      Unit(Rising(l.(watch := f.list), S));
      LinkFlow(net, i, l.(watch := f.list), net.slaves[i], src, j, S);
  }

  lemma FrameFlow(net: Net, i: nat, x: Message, known: set<AgentID>, src: Source, j: nat, S: set<Message>)
    requires Wired(net) && i < |net.links| && j < |net.links| && OneSource(net, src, S)
    requires net.links[i].pool != [] && net.links[i].pool[0] == Run(Send(x, known))
    requires x in S ==> Held(net, j, x) && Wants(net.links[j].watch, x.recipient)
    ensures var net' := Execute(net, i);
            |net'.links| == |net.links| && OneSource(net', src, S) &&
            Pending(net', src, j, S) == Pending(net, src, j, S)
  {
    hide Rising, Falling, MasterSend, Wants;
    var l0 := net.links[i];
    var l := l0.(pool := l0.pool[1..], heard := l0.heard + known);
    assert l0.down + [] == l0.down && PickRun(l0.pool[0], S) == Pick(x, S);
    TakeFlow(l0, l, S);
    Unit(Rising(l, S));
    MasterSendFlow(net.(links := net.links[i := l]), x, src, j, S);
    if src.Some? { Assoc(Falling(net.links[j], S), Pick(x, S), Rising(l, S)); }
    Unit(Falling(net.links[j], S));
  }

  lemma PassingIsHeld(net: Net, j: nat, m: Message, own: bool)
    requires Passing(net, j, m, own)
    ensures Held(net, j, m)
  {
  }

  lemma SendFlow(net: Net, e: Event, src: Source, j: nat, S: set<Message>)
    requires Wired(net) && j < |net.links| && OneSource(net, src, S) && Relayed(net, src, j, S) && Orderly(e, src, j, S)
    requires e.MasterSends? || e.SlaveSends?
    ensures var net' := Step(net, e);
            |net'.links| == |net.links| && OneSource(net', src, S) &&
            Pending(net', src, j, S) == Pending(net, src, j, S) + SentNow(e, S)
  {
    hide Rising, Falling, MasterSend, SlaveSend, Held, Safe, LinkKnows, Wants, LocalSend;
    if e.m in S {
      assert Allowed(e, j, e.m, src == Some(j)) && Passing(net, j, e.m, src == Some(j));
      PassingIsWanted(net, j, e.m, src == Some(j));
    }
    match e
    case MasterSends(x) => MasterSendFlow(net, x, src, j, S);
    case SlaveSends(i, x) =>
      if i < |net.slaves| { SlaveSendFlow(net, i, x, src, j, S); }
      Unit(Pending(net, src, j, S));
  }

  lemma HandledPick(net: Net, i: nat, j: nat, S: set<Message>)
    requires i < |net.links| && net.links[i].tasks != []
    ensures Collect(HandledNow(net, Handles(i), j), Kept(S)) == if i == j then Pick(net.links[i].tasks[0], S) else []
  {
    hide Collect;
    var none: seq<Message> := [];
    var x := net.links[i].tasks[0];
    CollectNothing(none, Kept(S));
    CollectPush(none, x, Kept(S));
    Unit(Pick(x, S));
    assert none + [x] == [x];
  }

  lemma HandleStepFlow(net: Net, i: nat, src: Source, j: nat, S: set<Message>)
    requires Wired(net) && i < |net.links| && j < |net.links| && OneSource(net, src, S) && net.links[i].tasks != []
    ensures var net' := Step(net, Handles(i));
            OneSource(net', src, S) &&
            Pending(net, src, j, S) == Collect(HandledNow(net, Handles(i), j), Kept(S)) + Pending(net', src, j, S)
  {
    hide Rising, Falling, LocalSend, Collect, HandledNow, Pick;
    var l := net.links[i];
    var l' := l.(tasks := l.tasks[1..]);
    HandleFlow(l, S);
    HandledPick(net, i, j, S);
    Unit(Pending(Step(net, Handles(i)), src, j, S));
    if src.Some? { Assoc(Pick(l.tasks[0], S), Falling(l', S), Rising(net.links[src.value], S)); }
    Unit(Falling(l', S));
    Unit(Pick(l.tasks[0], S) + Falling(l', S));
  }

  /** The other steps, apart from those of the master's pool, leave what is pending as it is. */
  lemma QueueStepFlow(net: Net, e: Event, src: Source, j: nat, S: set<Message>)
    requires Wired(net) && j < |net.links| && OneSource(net, src, S)
    requires e.Arrives? || e.Returns? || e.Refreshes? || e.Configures?
    ensures var net' := Step(net, e);
            |net'.links| == |net.links| && OneSource(net', src, S) &&
            Pending(net', src, j, S) == Pending(net, src, j, S)
  {
    hide OneSource, Pending, Forget, Apply, Rising, Falling, Wanted;
    if e.i < |net.links| {
      var i, l, s := e.i, net.links[e.i], net.slaves[e.i];
      assert net.slaves[i := s] == net.slaves;
      match e
      case Arrives(_) =>
        if l.up != [] {
          ArriveFlow(l, S);
          LinkFlow(net, i, l.(up := l.up[1..], pool := l.pool + [Run(l.up[0])]), s, src, j, S);
        }
      case Returns(_) =>
        if l.down != [] {
          ReturnFlow(l, S);
          LinkFlow(net, i, l.(down := l.down[1..], tasks := l.tasks + [l.down[0]]), s, src, j, S);
        }
      case Refreshes(_) =>
        RefreshFlow(l, Wanted(s), S);
        LinkFlow(net, i, Refresh(l, Wanted(s)), s, src, j, S);
      case Configures(_, op) =>
        ForgetFlow(l, Wanted(Apply(s, op).0), S);
        LinkFlow(net, i, Forget(l, Wanted(Apply(s, op).0)), Apply(s, op).0, src, j, S);
    }
  }

  lemma RefreshFlow(l: Link, wanted: set<AgentID>, S: set<Message>)
    ensures Rising(Refresh(l, wanted), S) == Rising(l, S) && Falling(Refresh(l, wanted), S) == Falling(l, S)
  {
    hide Collect;
    RaiseFlow(l, WantsMessagesFor(wanted), S);
    Unit(Rising(l, S));
  }

  /** A step takes the oldest message from what is pending, adds a newest, or leaves it. */
  lemma StepFlow(net: Net, e: Event, src: Source, j: nat, S: set<Message>)
    requires Wired(net) && j < |net.links| && OneSource(net, src, S) && Relayed(net, src, j, S) && Orderly(e, src, j, S)
    ensures var net' := Step(net, e);
            |net'.links| == |net.links| && OneSource(net', src, S) &&
            Pending(net, src, j, S) + SentNow(e, S) ==
            Collect(HandledNow(net, e, j), Kept(S)) + Pending(net', src, j, S)
  {
    hide OneSource, Pending, MasterSend, SlaveSend, Execute, Relayed, Orderly, Rising, Falling, LocalSend;
    hide Refresh, Forget, Apply, Wanted;
    var none: seq<Message> := [];
    CollectNothing(none, Kept(S));
    Unit(Pending(net, src, j, S));
    Unit(Pending(net, src, j, S) + SentNow(e, S));
    SameSize(net, e);
    match e
    case MasterSends(_) => SendFlow(net, e, src, j, S);
    case SlaveSends(_, _) => SendFlow(net, e, src, j, S);
    case Executes(i) => if i < |net.links| && net.links[i].pool != [] { ExecuteFlow(net, i, src, j, S); }
    case Handles(i) => if i < |net.links| && net.links[i].tasks != [] { HandleStepFlow(net, i, src, j, S); }
    case MasterConfigures(op) => MasterFlow(net, op, src, j, S);
    case _ => QueueStepFlow(net, e, src, j, S);
  }

  lemma MasterFlow(net: Net, op: Op, src: Source, j: nat, S: set<Message>)
    requires Wired(net) && j < |net.links| && OneSource(net, src, S)
    ensures var net' := Step(net, MasterConfigures(op));
            OneSource(net', src, S) && Pending(net', src, j, S) == Pending(net, src, j, S)
  {
    hide Apply, Rising, Falling;
  }

  lemma StepRelayed(net: Net, e: Event, src: Source, j: nat, S: set<Message>)
    requires Wired(net) && Relayed(net, src, j, S) && Orderly(e, src, j, S)
    ensures Relayed(Step(net, e), src, j, S)
  {
    hide Passing, Allowed, Step;
    forall m | m in S ensures Passing(Step(net, e), j, m, src == Some(j)) {
      StepPassing(net, e, j, m, src == Some(j));
    }
  }

  /** Splicing one more step to a run. */
  lemma Chain(done: seq<Message>, now: seq<Message>, p0: seq<Message>, p1: seq<Message>, p2: seq<Message>,
              sent: seq<Message>, more: seq<Message>)
    requires done + p1 == p0 + sent && p1 + more == now + p2
    ensures (done + now) + p2 == p0 + (sent + more)
  {
    Assoc(done, now, p2);
    Assoc(done, p1, more);
    Assoc(p0, sent, more);
  }

  lemma {:induction false} RunFlow(net: Net, events: seq<Event>, src: Source, j: nat, S: set<Message>)
    requires Wired(net) && j < |net.links| && OneSource(net, src, S) && Relayed(net, src, j, S)
    requires forall k :: 0 <= k < |events| ==> Orderly(events[k], src, j, S)
    ensures var end := Steps(net, events);
            |end.links| == |net.links| && OneSource(end, src, S) && Relayed(end, src, j, S) &&
            Collect(Handled(net, events, j), Kept(S)) + Pending(end, src, j, S) ==
            Pending(net, src, j, S) + SentOf(events, S)
    decreases |events|
  {
    hide Step, OneSource, Relayed, Orderly, Pending, Kept, SentNow;
    if events == [] {
      Unit(Pending(net, src, j, S));
    } else {
      var front, e := events[..|events| - 1], events[|events| - 1];
      var mid := Steps(net, front);
      RunFlow(net, front, src, j, S);
      StepFlow(mid, e, src, j, S);
      StepRelayed(mid, e, src, j, S);
      CollectMore(Handled(net, front, j), HandledNow(mid, e, j), Kept(S));
      Chain(Collect(Handled(net, front, j), Kept(S)), Collect(HandledNow(mid, e, j), Kept(S)),
            Pending(net, src, j, S), Pending(mid, src, j, S), Pending(Step(mid, e), src, j, S),
            SentOf(front, S), SentNow(e, S));
    }
  }

  lemma CollectMore(q: seq<Message>, more: seq<Message>, f: Message -> seq<Message>)
    requires |more| <= 1
    ensures Collect(q + more, f) == Collect(q, f) + Collect(more, f)
  {
    hide Collect;
    var none: seq<Message> := [];
    CollectNothing(none, f);
    if more == [] {
      assert q + more == q;
      Unit(Collect(q, f));
    } else {
      CollectPush(q, more[0], f);
      CollectPush(none, more[0], f);
      Unit(f(more[0]));
      assert more == none + [more[0]] == [more[0]];
    }
  }

  lemma NothingHeld(l: Link, S: set<Message>)
    requires forall m :: m in S ==> Up(l, m) == 0 && Down(l, m) == 0
    ensures Rising(l, S) == [] && Falling(l, S) == []
  {
    hide Collect;
    NoneOnWire(l.up, S);
    NoneTaken(l.pool, S);
    NonePrinted(l.pool, S);
    forall k | 0 <= k < |l.down| ensures Pick(l.down[k], S) == [] { assert l.down[k] in multiset(l.down); }
    forall k | 0 <= k < |l.tasks| ensures Pick(l.tasks[k], S) == [] { assert l.tasks[k] in multiset(l.tasks); }
    CollectNothing(l.down, Kept(S));
    CollectNothing(l.tasks, Kept(S));
    CollectNothing(l.up, Raised(S));
    CollectNothing(l.pool, Taken(S));
    CollectNothing(l.pool, Printed(S));
  }

  lemma {:induction false} NoneOnWire(up: seq<Frame>, S: set<Message>)
    requires forall m :: m in S ==> OnWire(up, m) == 0
    ensures forall k :: 0 <= k < |up| ==> PickFrame(up[k], S) == []
  {
    if up != [] { NoneOnWire(up[..|up| - 1], S); }
  }

  lemma {:induction false} NoneTaken(pool: seq<Task>, S: set<Message>)
    requires forall m :: m in S ==> InPool(pool, m) == 0
    ensures forall k :: 0 <= k < |pool| ==> PickRun(pool[k], S) == []
  {
    if pool != [] { NoneTaken(pool[..|pool| - 1], S); }
  }

  lemma {:induction false} NonePrinted(pool: seq<Task>, S: set<Message>)
    requires forall m :: m in S ==> ToPrint(pool, m) == 0
    ensures forall k :: 0 <= k < |pool| ==> PickPrint(pool[k], S) == []
  {
    if pool != [] { NonePrinted(pool[..|pool| - 1], S); }
  }

  lemma NothingPending(net: Net, src: Source, j: nat, S: set<Message>)
    requires Wired(net) && j < |net.links| && (src.Some? ==> src.value < |net.links|)
    requires forall m :: m in S ==> Drained(net, m)
    ensures OneSource(net, src, S) && Pending(net, src, j, S) == []
  {
    hide Rising, Falling, Up, Down;
    forall k | 0 <= k < |net.links| ensures Rising(net.links[k], S) == [] && Falling(net.links[k], S) == [] {
      NothingHeld(net.links[k], S);
    }
  }

  /**
   Messages arrive in the order in which they were sent.  Take any run from a fresh system, and a set S of
   messages of which none is queued, each for a topic that slave j has announced or an agent that it alone
   holds and has announced, and let one sender, the master or a slave, send messages of S, any number of
   times each, amid anything that does not change slave j.  Either the master has heard of the
   announcements, or the sender is slave j itself and the messages are for topics.  Then at every moment
   what slave j has handled of S, in order, is a prefix of what was sent of S, in order; and once none of S
   is queued it is all of it.
   */
  lemma OrderIsKept(net: Net, before: seq<Event>, after: seq<Event>, src: Source, j: nat, S: set<Message>)
    requires Fresh(net) && j < |net.links| && (src.Some? ==> src.value < |net.links|)
    requires var mid := Steps(net, before);
             forall m :: m in S ==>
               Drained(mid, m) && m.recipient in mid.links[j].told && Held(mid, j, m) &&
               (if src == Some(j) then m.recipient.isTopic else m.recipient in mid.links[j].heard)
    requires forall k :: 0 <= k < |after| ==> Orderly(after[k], src, j, S)
    ensures var mid := Steps(net, before);
            var end := Steps(mid, after);
            var handled := Collect(Handled(mid, after, j), Kept(S));
            handled <= SentOf(after, S) && ((forall m :: m in S ==> Drained(end, m)) ==> handled == SentOf(after, S))
  {
    hide Step, Pending, Held, OneSource, Orderly, Kept, Collect, SentOf, Safe;
    var mid := Steps(net, before);
    RunSafe(net, before);
    NothingPending(mid, src, j, S);
    forall m | m in S ensures Passing(mid, j, m, src == Some(j)) {
      forall k | 0 <= k < |mid.links| ensures LinkKnows(mid.links[k], m, k == j) {
        UnsentKnows(mid.links[k], m, k == j);
      }
    }
    RunFlow(mid, after, src, j, S);
    var end := Steps(mid, after);
    Unit(SentOf(after, S));
    Unit(Collect(Handled(mid, after, j), Kept(S)));
    if forall m :: m in S ==> Drained(end, m) { NothingPending(end, src, j, S); }
  }

  // ---------------------------------------------------------------------------
  // What a slave sends up
  // ---------------------------------------------------------------------------

  /** The messages of S that a step has slave i send up, and those the master takes from its connection. */
  function RaisedNow(net: Net, e: Event, i: nat, S: set<Message>): seq<Message> {
    if e.SlaveSends? && e.i == i && i < |net.slaves| &&
       (e.m.recipient.isTopic || e.m.recipient !in net.slaves[i].agents)
    then Pick(e.m, S) else []
  }

  function TakenNow(net: Net, e: Event, i: nat, S: set<Message>): seq<Message> {
    if e == Executes(i) && i < |net.links| && net.links[i].pool != [] then PickRun(net.links[i].pool[0], S) else []
  }

  function RaisedBy(net: Net, events: seq<Event>, i: nat, S: set<Message>): seq<Message>
    requires Wired(net)
    decreases |events|
  {
    if events == [] then []
    else RaisedBy(net, events[..|events| - 1], i, S) +
         RaisedNow(Steps(net, events[..|events| - 1]), events[|events| - 1], i, S)
  }

  function TakenBy(net: Net, events: seq<Event>, i: nat, S: set<Message>): seq<Message>
    requires Wired(net)
    decreases |events|
  {
    if events == [] then []
    else TakenBy(net, events[..|events| - 1], i, S) +
         TakenNow(Steps(net, events[..|events| - 1]), events[|events| - 1], i, S)
  }

  /** A fan-out leaves what comes up as it is. */
  lemma FanOutRises(net: Net, x: Message, i: nat, S: set<Message>)
    requires Wired(net) && i < |net.links|
    ensures Rising(MasterSend(net, x).links[i], S) == Rising(net.links[i], S)
  {
    hide Rising, Falling;
    PrintFlow(net.links[i], x, S);
  }

  lemma ExecuteRises(net: Net, j: nat, i: nat, S: set<Message>)
    requires Wired(net) && i < |net.links| && j < |net.links| && net.links[j].pool != []
    ensures i < |Execute(net, j).links|
    ensures Rising(net.links[i], S) == TakenNow(net, Executes(j), i, S) + Rising(Execute(net, j).links[i], S)
  {
    hide Rising, Falling, MasterSend, PickRun;
    var l := net.links[j].(pool := net.links[j].pool[1..]);
    SameSize(net, Executes(j));
    Unit(Rising(net.links[i], S));
    match net.links[j].pool[0]
    case Println(x) =>
      TakeFlow(net.links[j], l.(down := l.down + [x], printed := l.printed + multiset{x}), S);
    case Run(WantsMessagesFor(list)) =>
      assert l.down + [] == l.down;
      TakeFlow(net.links[j], l.(watch := list), S);
    case Run(Send(x, known)) =>
      var l1 := l.(heard := l.heard + known);
      assert l.down + [] == l.down;
      TakeFlow(net.links[j], l1, S);
      FanOutRises(net.(links := net.links[j := l1]), x, i, S);
  }

  lemma StepRises(net: Net, e: Event, i: nat, S: set<Message>)
    requires Wired(net) && i < |net.links|
    ensures i < |Step(net, e).links|
    ensures Rising(net.links[i], S) + RaisedNow(net, e, i, S) ==
            TakenNow(net, e, i, S) + Rising(Step(net, e).links[i], S)
  {
    hide Rising, Falling, MasterSend, Execute, Forget, Refresh, Apply, Wanted, LocalSend, PickRun;
    SameSize(net, e);
    Unit(Rising(net.links[i], S));
    match e
    case MasterSends(x) => FanOutRises(net, x, i, S);
    case Executes(j) => if j < |net.links| && net.links[j].pool != [] { ExecuteRises(net, j, i, S); }
    case SlaveSends(j, x) =>
      if j < |net.slaves| {
        SentUpOrHere(net.slaves[j], x);
        RaiseFlow(net.links[j], Send(x, net.links[j].told), S);
        Unit(Rising(Step(net, e).links[i], S));
      }
    case Arrives(j) => if j < |net.links| && net.links[j].up != [] { ArriveFlow(net.links[j], S); }
    case Returns(j) => if j < |net.links| && net.links[j].down != [] { ReturnFlow(net.links[j], S); }
    case Handles(j) => if j < |net.links| && net.links[j].tasks != [] { HandleFlow(net.links[j], S); }
    case Refreshes(j) => if j < |net.links| { RefreshFlow(net.links[j], Wanted(net.slaves[j]), S); }
    case Configures(j, op) =>
      if j < |net.links| { ForgetFlow(net.links[j], Wanted(Apply(net.slaves[j], op).0), S); }
    case MasterConfigures(_) =>
  }

  lemma {:induction false} RunRises(net: Net, events: seq<Event>, i: nat, S: set<Message>)
    requires Wired(net) && i < |net.links|
    ensures TakenBy(net, events, i, S) + Rising(Steps(net, events).links[i], S) ==
            Rising(net.links[i], S) + RaisedBy(net, events, i, S)
    decreases |events|
  {
    hide Step, Rising, RaisedNow, TakenNow;
    if events == [] {
      Unit(Rising(net.links[i], S));
    } else {
      var front, e := events[..|events| - 1], events[|events| - 1];
      var mid := Steps(net, front);
      RunRises(net, front, i, S);
      StepRises(mid, e, i, S);
      Chain(TakenBy(net, front, i, S), TakenNow(mid, e, i, S), Rising(net.links[i], S), Rising(mid.links[i], S),
            Rising(Step(mid, e).links[i], S), RaisedBy(net, front, i, S), RaisedNow(mid, e, i, S));
    }
  }

  /** On every run, whatever else changes, the master sends on, and delivers to its own agents, what a slave
      has sent up in the order in which the slave sent it: always a prefix, and all of it once nothing of it
      is on its way up. */
  lemma MasterKeepsOrder(net: Net, events: seq<Event>, i: nat, S: set<Message>)
    requires Wired(net) && i < |net.links| && forall m :: m in S ==> Up(net.links[i], m) == 0
    ensures var taken, raised := TakenBy(net, events, i, S), RaisedBy(net, events, i, S);
            taken <= raised &&
            ((forall m :: m in S ==> Up(Steps(net, events).links[i], m) == 0) ==> taken == raised)
  {
    hide Steps, Rising, Up;
    RunRises(net, events, i, S);
    NothingRises(net.links[i], S);
    Unit(RaisedBy(net, events, i, S));
    Unit(TakenBy(net, events, i, S));
    var end := Steps(net, events);
    if forall m :: m in S ==> Up(end.links[i], m) == 0 { NothingRises(end.links[i], S); }
  }

  lemma NothingRises(l: Link, S: set<Message>)
    requires forall m :: m in S ==> Up(l, m) == 0
    ensures Rising(l, S) == []
  {
    hide Collect;
    NoneOnWire(l.up, S);
    NoneTaken(l.pool, S);
    CollectNothing(l.up, Raised(S));
    CollectNothing(l.pool, Taken(S));
  }
}
