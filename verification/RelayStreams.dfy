/**
 What the relay promises on runs on which agents, subscriptions and watch lists change: no message
 is delivered twice, what a slave has announced reaches it, and messages from one sender keep their
 order on the way to each slave.
 */
module RelayStreams {
  import opened Common
  import opened Containers
  import opened Relay

  // ---------------------------------------------------------------------------
  // Never twice
  // ---------------------------------------------------------------------------

  ghost predicate AtMost(s: Site, m: Message, pending: nat, sent: nat) {
    forall a :: s.delivered[(a, m)] + pending <= sent
  }

  ghost predicate LinkBounded(l: Link, s: Site, m: Message, up: nat, sent: nat) {
    AtMost(s, m, up + Down(l, m), sent) && l.printed[m] + ToPrint(l.pool, m) + up <= sent
  }

  /** Deliveries and copies still on their way together never exceed what was sent. */
  ghost predicate Bounded(net: Net, m: Message, up: nat, sent: nat) {
    Wired(net) && net.raised[m] <= sent && AtMost(net.master, m, up, sent) &&
    forall i :: 0 <= i < |net.links| ==> LinkBounded(net.links[i], net.slaves[i], m, up, sent)
  }

  lemma LocalSendAtMost(s: Site, x: Message, m: Message, pending: nat, sent: nat)
    requires AtMost(s, m, pending + Extra(x, m), sent)
    ensures AtMost(LocalSend(s, x).0, m, pending, sent)
  {
    hide Receivers;
    forall a ensures Deliveries(Receivers(s, x), x)[(a, m)] <= Extra(x, m) {
      DeliveriesCount(Receivers(s, x), x, a);
    }
  }

  lemma PrintBounded(l: Link, s: Site, x: Message, m: Message, up: nat, sent: nat)
    requires LinkBounded(l, s, m, up + Extra(x, m), sent)
    ensures LinkBounded(PrintTo(l, x), s, m, up, sent) && LinkBounded(l, s, m, up, sent)
    ensures Up(PrintTo(l, x), m) == Up(l, m)
  {
    hide OnWire, InPool, ToPrint;
    PoolQueue(l.pool, Println(x), m);
  }

  /** A fan-out of x, whose copy has just been counted off or whose sending has just been counted. */
  lemma MasterSendBounded(net: Net, x: Message, m: Message, sent: nat)
    requires Bounded(net, m, AllUp(net.links, m) + Extra(x, m), sent)
    ensures var net' := MasterSend(net, x); Bounded(net', m, AllUp(net'.links, m), sent)
  {
    hide AllUp, LinkBounded, Up, PrintTo, AtMost;
    var up := AllUp(net.links, m);
    LocalSendAtMost(net.master, x, m, up, sent);
    forall i | 0 <= i < |net.links|
      ensures LinkBounded(PrintTo(net.links[i], x), net.slaves[i], m, up, sent) &&
              LinkBounded(net.links[i], net.slaves[i], m, up, sent) &&
              Up(PrintTo(net.links[i], x), m) == Up(net.links[i], m)
    {
      PrintBounded(net.links[i], net.slaves[i], x, m, up, sent);
    }
    AllUpSame(MasterSend(net, x).links, net.links, m);
  }

  /** A step on one connection and its slave. */
  lemma LinkStepBounded(net: Net, i: nat, l: Link, s: Site, m: Message, up: nat, sent: nat)
    requires Bounded(net, m, AllUp(net.links, m), sent) && i < |net.links|
    requires up + Up(net.links[i], m) == AllUp(net.links, m) + Up(l, m) && up <= AllUp(net.links, m)
    requires LinkBounded(l, s, m, up, sent)
    ensures Bounded(net.(links := net.links[i := l], slaves := net.slaves[i := s]), m, up, sent)
    ensures AllUp(net.links[i := l], m) == up
  {
    hide AllUp, Up, Down, ToPrint;
    AllUpUpdate(net.links, i, l, m);
  }

  lemma ForgetCounts(l: Link, wanted: set<AgentID>, m: Message)
    ensures Up(Forget(l, wanted), m) == Up(l, m) && Down(Forget(l, wanted), m) == Down(l, m)
    ensures ToPrint(Forget(l, wanted).pool, m) == ToPrint(l.pool, m) && Forget(l, wanted).printed == l.printed
  {
    var l' := Forget(l, wanted);
    ForgetWire(l.up, l'.up, wanted, m);
    ForgetPool(l.pool, l'.pool, wanted, m);
  }

  lemma {:induction false} ForgetWire(up: seq<Frame>, up': seq<Frame>, wanted: set<AgentID>, m: Message)
    requires |up| == |up'| && forall k :: 0 <= k < |up| ==> up'[k] == ForgetFrame(up[k], wanted)
    ensures OnWire(up', m) == OnWire(up, m)
  {
    if up != [] { ForgetWire(up[..|up| - 1], up'[..|up'| - 1], wanted, m); }
  }

  lemma {:induction false} ForgetPool(pool: seq<Task>, pool': seq<Task>, wanted: set<AgentID>, m: Message)
    requires |pool| == |pool'| && forall k :: 0 <= k < |pool| ==> pool'[k] == ForgetTask(pool[k], wanted)
    ensures InPool(pool', m) == InPool(pool, m) && ToPrint(pool', m) == ToPrint(pool, m)
  {
    if pool != [] { ForgetPool(pool[..|pool| - 1], pool'[..|pool'| - 1], wanted, m); }
  }

  lemma ApplyKeepsDeliveries(s: Site, op: Op)
    ensures Apply(s, op).0.delivered == s.delivered
  {
  }

  /** One more copy sent, before anything is done with it. */
  lemma RoomBounded(net: Net, x: Message, m: Message, sent: nat)
    requires Bounded(net, m, AllUp(net.links, m), sent)
    ensures Bounded(net, m, AllUp(net.links, m) + Extra(x, m), sent + Extra(x, m))
  {
    hide AllUp, Down, ToPrint;
    forall j | 0 <= j < |net.links|
      ensures LinkBounded(net.links[j], net.slaves[j], m, AllUp(net.links, m) + Extra(x, m), sent + Extra(x, m))
    {
      assert LinkBounded(net.links[j], net.slaves[j], m, AllUp(net.links, m), sent);
    }
  }

  lemma RaiseBounded(net: Net, i: nat, x: Message, m: Message, sent: nat)
    requires Bounded(net, m, AllUp(net.links, m) + Extra(x, m), sent) && i < |net.links|
    requires net.raised[m] + Extra(x, m) <= sent
    ensures var links := net.links[i := net.links[i].(up := net.links[i].up + [Send(x, net.links[i].told)])];
            Bounded(net.(links := links, raised := net.raised + multiset{x}), m, AllUp(links, m), sent)
  {
    hide AllUp, OnWire, InPool, ToPrint, AtMost;
    var l := net.links[i];
    OnWireQueue(l.up, Send(x, l.told), m);
    AllUpUpdate(net.links, i, l.(up := l.up + [Send(x, l.told)]), m);
    assert LinkBounded(l, net.slaves[i], m, AllUp(net.links, m) + Extra(x, m), sent);
  }

  lemma LocalBounded(net: Net, i: nat, x: Message, m: Message, sent: nat)
    requires Bounded(net, m, AllUp(net.links, m) + Extra(x, m), sent) && i < |net.slaves|
    ensures Bounded(net.(slaves := net.slaves[i := LocalSend(net.slaves[i], x).0]), m, AllUp(net.links, m), sent)
  {
    hide AllUp, Down, ToPrint, LocalSend;
    var up := AllUp(net.links, m);
    assert LinkBounded(net.links[i], net.slaves[i], m, up + Extra(x, m), sent);
    LocalSendAtMost(net.slaves[i], x, m, up + Down(net.links[i], m), sent);
    forall j | 0 <= j < |net.links| && j != i ensures LinkBounded(net.links[j], net.slaves[j], m, up, sent) {
      assert LinkBounded(net.links[j], net.slaves[j], m, up + Extra(x, m), sent);
    }
  }

  lemma SlaveSendBounded(net: Net, i: nat, x: Message, m: Message, sent: nat)
    requires Bounded(net, m, AllUp(net.links, m), sent) && i < |net.slaves|
    ensures var net' := SlaveSend(net, i, x); Bounded(net', m, AllUp(net'.links, m), sent + Extra(x, m))
  {
    hide AllUp, LinkBounded, AtMost;
    RoomBounded(net, x, m, sent);
    if !x.recipient.isTopic && LocalSend(net.slaves[i], x).1 {
      LocalBounded(net, i, x, m, sent + Extra(x, m));
    } else {
      RaiseBounded(net, i, x, m, sent + Extra(x, m));
    }
  }

  lemma ExecuteBounded(net: Net, i: nat, m: Message, sent: nat)
    requires Bounded(net, m, AllUp(net.links, m), sent) && i < |net.links| && net.links[i].pool != []
    ensures var net' := Execute(net, i); Bounded(net', m, AllUp(net'.links, m), sent)
  {
    hide AllUp, OnWire, InPool, ToPrint, MasterSend;
    var l0, up := net.links[i], AllUp(net.links, m);
    var l := l0.(pool := l0.pool[1..]);
    assert LinkBounded(l0, net.slaves[i], m, up, sent) && net.slaves[i := net.slaves[i]] == net.slaves;
    PoolQueue(l0.pool, l0.pool[0], m);
    AllUpUpdate(net.links, i, l, m);
    match l0.pool[0]
    case Println(x) =>
      LineQueue(l0.down, x, m);
      LinkStepBounded(net, i, l.(down := l.down + [x], printed := l.printed + multiset{x}), net.slaves[i], m, up, sent);
    case Run(WantsMessagesFor(list)) => LinkStepBounded(net, i, l.(watch := list), net.slaves[i], m, up, sent);
    case Run(Send(x, known)) =>
      var l1 := l.(heard := l.heard + known);
      assert Up(l1, m) + Extra(x, m) == Up(l0, m);
      AllUpUpdate(net.links, i, l1, m);
      RunBounded(net, i, l1, x, m, sent);
  }

  lemma RunBounded(net: Net, i: nat, l: Link, x: Message, m: Message, sent: nat)
    requires Bounded(net, m, AllUp(net.links, m), sent) && i < |net.links|
    requires AllUp(net.links[i := l], m) + Extra(x, m) == AllUp(net.links, m)
    requires Down(l, m) == Down(net.links[i], m) && l.printed == net.links[i].printed
    requires ToPrint(l.pool, m) == ToPrint(net.links[i].pool, m)
    ensures var net' := MasterSend(net.(links := net.links[i := l]), x); Bounded(net', m, AllUp(net'.links, m), sent)
  {
    hide AllUp, Down, ToPrint, MasterSend;
    var net1 := net.(links := net.links[i := l]);
    forall j | 0 <= j < |net.links| ensures LinkBounded(net1.links[j], net.slaves[j], m, AllUp(net.links, m), sent) {
      assert LinkBounded(net.links[j], net.slaves[j], m, AllUp(net.links, m), sent);
    }
    MasterSendBounded(net1, x, m, sent);
  }

  lemma ArriveBounded(net: Net, i: nat, m: Message, sent: nat)
    requires Bounded(net, m, AllUp(net.links, m), sent) && i < |net.links| && net.links[i].up != []
    ensures var net' := Step(net, Arrives(i)); Bounded(net', m, AllUp(net'.links, m), sent)
  {
    hide AllUp, OnWire, InPool, ToPrint;
    var l, s, up := net.links[i], net.slaves[i], AllUp(net.links, m);
    assert LinkBounded(l, s, m, up, sent) && net.slaves[i := s] == net.slaves;
    OnWireQueue(l.up, l.up[0], m);
    PoolQueue(l.pool, Run(l.up[0]), m);
    LinkStepBounded(net, i, l.(up := l.up[1..], pool := l.pool + [Run(l.up[0])]), s, m, up, sent);
  }

  lemma ReturnBounded(net: Net, i: nat, m: Message, sent: nat)
    requires Bounded(net, m, AllUp(net.links, m), sent) && i < |net.links| && net.links[i].down != []
    ensures var net' := Step(net, Returns(i)); Bounded(net', m, AllUp(net'.links, m), sent)
  {
    hide AllUp, OnWire, InPool, ToPrint;
    var l, s, up := net.links[i], net.slaves[i], AllUp(net.links, m);
    assert LinkBounded(l, s, m, up, sent) && net.slaves[i := s] == net.slaves;
    LineQueue(l.down, l.down[0], m);
    LineQueue(l.tasks, l.down[0], m);
    LinkStepBounded(net, i, l.(down := l.down[1..], tasks := l.tasks + [l.down[0]]), s, m, up, sent);
  }

  lemma HandleBounded(net: Net, i: nat, m: Message, sent: nat)
    requires Bounded(net, m, AllUp(net.links, m), sent) && i < |net.links| && net.links[i].tasks != []
    ensures var net' := Step(net, Handles(i)); Bounded(net', m, AllUp(net'.links, m), sent)
  {
    hide AllUp, OnWire, InPool, ToPrint, LocalSend;
    var l, s, up := net.links[i], net.slaves[i], AllUp(net.links, m);
    var l' := l.(tasks := l.tasks[1..]);
    assert LinkBounded(l, s, m, up, sent);
    LineQueue(l.tasks, l.tasks[0], m);
    LocalSendAtMost(s, l.tasks[0], m, up + Down(l', m), sent);
    LinkStepBounded(net, i, l', LocalSend(s, l.tasks[0]).0, m, up, sent);
  }

  lemma RefreshBounded(net: Net, i: nat, m: Message, sent: nat)
    requires Bounded(net, m, AllUp(net.links, m), sent) && i < |net.links|
    ensures var net' := Step(net, Refreshes(i)); Bounded(net', m, AllUp(net'.links, m), sent)
  {
    hide AllUp, OnWire, InPool, ToPrint, Wanted;
    var l, s, up := net.links[i], net.slaves[i], AllUp(net.links, m);
    assert LinkBounded(l, s, m, up, sent) && net.slaves[i := s] == net.slaves;
    OnWireQueue(l.up, WantsMessagesFor(Wanted(s)), m);
    LinkStepBounded(net, i, Refresh(l, Wanted(s)), s, m, up, sent);
  }

  lemma ConfigureBounded(net: Net, i: nat, op: Op, m: Message, sent: nat)
    requires Bounded(net, m, AllUp(net.links, m), sent) && i < |net.links|
    ensures var net' := Step(net, Configures(i, op)); Bounded(net', m, AllUp(net'.links, m), sent)
  {
    hide AllUp, Up, Down, ToPrint, Wanted, Apply, Forget;
    var l, s, up := net.links[i], net.slaves[i], AllUp(net.links, m);
    var s' := Apply(s, op).0;
    assert LinkBounded(l, s, m, up, sent);
    ApplyKeepsDeliveries(s, op);
    ForgetCounts(l, Wanted(s'), m);
    LinkStepBounded(net, i, Forget(l, Wanted(s')), s', m, up, sent);
  }

  lemma StepBounded(net: Net, e: Event, m: Message, sent: nat)
    requires Bounded(net, m, AllUp(net.links, m), sent)
    ensures var net' := Step(net, e); Bounded(net', m, AllUp(net'.links, m), sent + Sends(e, m, |net.slaves|))
  {
    hide AllUp, LinkBounded, AtMost, MasterSend, SlaveSend, Execute, Apply;
    match e
    case MasterSends(x) => RoomBounded(net, x, m, sent); MasterSendBounded(net, x, m, sent + Extra(x, m));
    case SlaveSends(i, x) => if i < |net.slaves| { SlaveSendBounded(net, i, x, m, sent); }
    case Arrives(i) => if i < |net.links| && net.links[i].up != [] { ArriveBounded(net, i, m, sent); }
    case Executes(i) => if i < |net.links| && net.links[i].pool != [] { ExecuteBounded(net, i, m, sent); }
    case Returns(i) => if i < |net.links| && net.links[i].down != [] { ReturnBounded(net, i, m, sent); }
    case Handles(i) => if i < |net.links| && net.links[i].tasks != [] { HandleBounded(net, i, m, sent); }
    case Configures(i, op) => if i < |net.slaves| { ConfigureBounded(net, i, op, m, sent); }
    case Refreshes(i) => if i < |net.slaves| { RefreshBounded(net, i, m, sent); }
    case MasterConfigures(op) => MasterAtMost(net, op, m, sent);
  }

  lemma MasterAtMost(net: Net, op: Op, m: Message, sent: nat)
    requires Bounded(net, m, AllUp(net.links, m), sent)
    ensures Bounded(net.(master := Apply(net.master, op).0), m, AllUp(net.links, m), sent)
  {
    hide AllUp, Apply;
    ApplyKeepsDeliveries(net.master, op);
  }

  lemma {:induction false} RunBoundedBySends(net: Net, events: seq<Event>, m: Message)
    requires Wired(net) && Bounded(net, m, AllUp(net.links, m), 0)
    ensures var end := Steps(net, events); Bounded(end, m, AllUp(end.links, m), TotalSends(events, m, |net.slaves|))
    decreases |events|
  {
    hide Step, Bounded, AllUp;
    if events != [] {
      var front, e := events[..|events| - 1], events[|events| - 1];
      RunBoundedBySends(net, front, m);
      StepBounded(Steps(net, front), e, m, TotalSends(front, m, |net.slaves|));
    }
  }

  /**
   At most once, on every run: agents and subscriptions may come and go, watch lists may be anything and on
   their way.  If m is sent no more than n times, no agent in any container has had it more than n times,
   it has gone up no more than n times, and down each connection no more than n times.
   */
  lemma NeverMoreThanSent(net: Net, events: seq<Event>, m: Message)
    requires Wired(net) && Unsent(net, m)
    ensures var end, n := Steps(net, events), TotalSends(events, m, |net.slaves|);
            (forall a :: end.master.delivered[(a, m)] <= n) &&
            (forall i, a :: 0 <= i < |end.slaves| ==> end.slaves[i].delivered[(a, m)] <= n) &&
            end.raised[m] <= n && (forall i :: 0 <= i < |end.links| ==> end.links[i].printed[m] <= n)
  {
    hide AllUp, Up, Down, ToPrint, Step, TotalSends, Steps;
    NoneUp(net.links, m);
    UnsentIsBounded(net, m);
    RunBoundedBySends(net, events, m);
    var end, n := Steps(net, events), TotalSends(events, m, |net.slaves|);
    forall i | 0 <= i < |end.links| ensures LinkBounded(end.links[i], end.slaves[i], m, AllUp(end.links, m), n) {}
  }

  lemma UnsentIsBounded(net: Net, m: Message)
    requires Wired(net) && Unsent(net, m)
    ensures Bounded(net, m, 0, 0)
  {
    hide OnWire, InPool, AllUp;
    forall i | 0 <= i < |net.links| ensures LinkBounded(net.links[i], net.slaves[i], m, 0, 0) {}
  }

  // ---------------------------------------------------------------------------
  // What a slave has announced reaches it
  // ---------------------------------------------------------------------------

  /** A line that carries m comes from the slave in question, which had announced the recipient. */
  predicate Knows(f: Frame, m: Message, own: bool) {
    f.Send? && f.message == m ==> own && m.recipient in f.known
  }

  ghost predicate LinkKnows(l: Link, m: Message, own: bool) {
    (forall k :: 0 <= k < |l.up| ==> Knows(l.up[k], m, own)) &&
    (forall k :: 0 <= k < |l.pool| ==> l.pool[k].Run? ==> Knows(l.pool[k].frame, m, own))
  }

  /** Messages to the recipient are relayed to slave i: it is a topic, or an agent there and nowhere else. */
  ghost predicate Held(net: Net, i: nat, m: Message)
    requires Wired(net) && i < |net.slaves|
  {
    !m.recipient.isTopic ==>
      m.recipient in net.slaves[i].agents && m.recipient !in net.master.agents &&
      forall j :: 0 <= j < |net.slaves| && j != i ==> m.recipient !in net.slaves[j].agents
  }

  /** Slave i has announced the recipient.  Either the master has heard so (`own` is false), or every line
      with m now on its way comes from slave i and was sent after the announcement. */
  ghost predicate Passing(net: Net, i: nat, m: Message, own: bool) {
    Safe(net) && i < |net.links| && Held(net, i, m) && m.recipient in net.links[i].told &&
    if own then forall j :: 0 <= j < |net.links| ==> LinkKnows(net.links[j], m, j == i)
    else m.recipient in net.links[i].heard
  }

  /** Nothing changes at slave i, nor anywhere if the recipient is an agent; and if `own`, only slave i
      sends m. */
  predicate Allowed(e: Event, i: nat, m: Message, own: bool) {
    (e.Configures? ==> e.i != i && m.recipient.isTopic) &&
    (e.MasterConfigures? ==> m.recipient.isTopic) &&
    (own ==> e != MasterSends(m) && (e.SlaveSends? && e.m == m ==> e.i == i))
  }

  lemma StepHeld(net: Net, e: Event, i: nat, m: Message, own: bool)
    requires Wired(net) && i < |net.links| && Held(net, i, m) && Allowed(e, i, m, own)
    ensures Held(Step(net, e), i, m)
  {
  }

  lemma StepHeard(net: Net, e: Event, i: nat, m: Message, own: bool)
    requires Safe(net) && i < |net.links| && Allowed(e, i, m, own)
    ensures var l, l' := net.links[i], Step(net, e).links[i];
            (m.recipient in l.told ==> m.recipient in l'.told) && (m.recipient in l.heard ==> m.recipient in l'.heard)
  {
    hide Wanted, Wants;
    assert LinkSafe(net.links[i], net.slaves[i]);
  }

  lemma PrintKnows(l: Link, x: Message, m: Message, own: bool)
    requires LinkKnows(l, m, own)
    ensures LinkKnows(PrintTo(l, x), m, own)
  {
  }

  lemma FanOutKnows(net: Net, x: Message, i: nat, m: Message)
    requires Wired(net) && forall j :: 0 <= j < |net.links| ==> LinkKnows(net.links[j], m, j == i)
    ensures forall j :: 0 <= j < |net.links| ==> LinkKnows(MasterSend(net, x).links[j], m, j == i)
  {
    hide LinkKnows, PrintTo;
    forall j | 0 <= j < |net.links| ensures LinkKnows(MasterSend(net, x).links[j], m, j == i) {
      PrintKnows(net.links[j], x, m, j == i);
    }
  }

  lemma ForgetKnows(l: Link, wanted: set<AgentID>, m: Message)
    requires LinkKnows(l, m, false)
    ensures LinkKnows(Forget(l, wanted), m, false)
  {
  }

  lemma ExecuteKnows(net: Net, j: nat, i: nat, m: Message)
    requires Wired(net) && i < |net.links| && j < |net.links| && net.links[j].pool != []
    requires forall k :: 0 <= k < |net.links| ==> LinkKnows(net.links[k], m, k == i)
    ensures var net' := Execute(net, j);
            |net'.links| == |net.links| && forall k :: 0 <= k < |net.links| ==> LinkKnows(net'.links[k], m, k == i)
  {
    hide LinkKnows, MasterSend;
    var l := net.links[j].(pool := net.links[j].pool[1..]);
    TailKnows(net.links[j], m, j == i);
    match net.links[j].pool[0]
    case Run(Send(x, known)) =>
      FanOutKnows(net.(links := net.links[j := l.(heard := l.heard + known)]), x, i, m);
      SameSize(net, Executes(j));
    case _ =>
  }

  lemma TailKnows(l: Link, m: Message, own: bool)
    requires l.pool != [] && LinkKnows(l, m, own)
    ensures forall l': Link :: l'.pool == l.pool[1..] && l'.up == l.up ==> LinkKnows(l', m, own)
  {
  }

  lemma StepKnows(net: Net, e: Event, i: nat, m: Message)
    requires Wired(net) && i < |net.links| && Allowed(e, i, m, true) && m.recipient in net.links[i].told
    requires forall j :: 0 <= j < |net.links| ==> LinkKnows(net.links[j], m, j == i)
    ensures var net' := Step(net, e);
            |net'.links| == |net.links| && forall j :: 0 <= j < |net.links| ==> LinkKnows(net'.links[j], m, j == i)
  {
    hide Wanted, Forget, Execute, MasterSend, LinkKnows, LocalSend;
    SameSize(net, e);
    match e
    case MasterSends(x) => FanOutKnows(net, x, i, m);
    case SlaveSends(j, x) => if j < |net.links| { RaiseKnows(net.links[j], Send(x, net.links[j].told), m, j == i); }
    case Arrives(j) => if j < |net.links| && net.links[j].up != [] { ArriveKnows(net.links[j], m, j == i); }
    case Executes(j) => if j < |net.links| && net.links[j].pool != [] { ExecuteKnows(net, j, i, m); }
    case Returns(j) => if j < |net.links| { DownKnows(net.links[j], m, j == i); }
    case Handles(j) => if j < |net.links| { DownKnows(net.links[j], m, j == i); }
    case Configures(j, op) =>
      if j < |net.slaves| { ForgetKnows(net.links[j], Wanted(Apply(net.slaves[j], op).0), m); }
    case Refreshes(j) => if j < |net.links| { RefreshKnows(net.links[j], Wanted(net.slaves[j]), m, j == i); }
    case MasterConfigures(_) =>
  }

  lemma RaiseKnows(l: Link, f: Frame, m: Message, own: bool)
    requires LinkKnows(l, m, own) && Knows(f, m, own)
    ensures LinkKnows(l.(up := l.up + [f]), m, own)
  {
  }

  lemma ArriveKnows(l: Link, m: Message, own: bool)
    requires LinkKnows(l, m, own) && l.up != []
    ensures LinkKnows(l.(up := l.up[1..], pool := l.pool + [Run(l.up[0])]), m, own)
  {
  }

  lemma DownKnows(l: Link, m: Message, own: bool)
    requires LinkKnows(l, m, own)
    ensures l.down != [] ==> LinkKnows(l.(down := l.down[1..], tasks := l.tasks + [l.down[0]]), m, own)
    ensures l.tasks != [] ==> LinkKnows(l.(tasks := l.tasks[1..]), m, own)
  {
  }

  lemma RefreshKnows(l: Link, wanted: set<AgentID>, m: Message, own: bool)
    requires LinkKnows(l, m, own)
    ensures LinkKnows(Refresh(l, wanted), m, own)
  {
  }

  lemma StepPassing(net: Net, e: Event, i: nat, m: Message, own: bool)
    requires Passing(net, i, m, own) && Allowed(e, i, m, own)
    ensures Passing(Step(net, e), i, m, own)
  {
    hide Step, Held, LinkKnows, LinkSafe, Allowed;
    StepSafe(net, e);
    StepHeld(net, e, i, m, own);
    StepHeard(net, e, i, m, own);
    if own { StepKnows(net, e, i, m); }
    SameSize(net, e);
  }

  lemma SameSize(net: Net, e: Event)
    requires Wired(net)
    ensures Wired(Step(net, e)) && |Step(net, e).links| == |net.links|
  {
    hide Wants, Wanted;
  }

  /** The master wants the recipient for slave i whenever it sends m: by itself or for a line in hand. */
  lemma PassingIsWanted(net: Net, i: nat, m: Message, own: bool)
    requires Passing(net, i, m, own)
    ensures !own ==> Wants(net.links[i].watch, m.recipient)
    ensures forall j :: 0 <= j < |net.links| && net.links[j].pool != [] && net.links[j].pool[0].Run? &&
                        net.links[j].pool[0].frame.Send? && net.links[j].pool[0].frame.message == m ==>
                          Wants(net.links[i].watch, m.recipient) && (own ==> j == i)
  {
    hide FinalList, FinalPool, Held, WireSafe;
    var l := net.links[i];
    assert LinkSafe(l, net.slaves[i]);
    HeardPasses(l.pool, l.up, l.watch, l.heard, l.told);
    forall j | 0 <= j < |net.links| && net.links[j].pool != [] && net.links[j].pool[0].Run? &&
               net.links[j].pool[0].frame.Send? && net.links[j].pool[0].frame.message == m
      ensures Wants(l.watch, m.recipient) && (own ==> j == i)
    {
      if own {
        assert LinkKnows(net.links[j], m, j == i);
        HeardPasses(l.pool[1..], l.up, l.watch, l.heard + l.pool[0].frame.known, l.told);
      }
    }
  }

  lemma HeardPasses(pool: seq<Task>, up: seq<Frame>, watch: set<AgentID>, heard: set<AgentID>, told: set<AgentID>)
    requires PoolSafe(pool, up, watch, heard, told)
    ensures forall id :: id in heard ==> Wants(watch, id)
  {
    PoolSafeEnds(pool, up, watch, heard, told);
  }

  /** Deliveries in slave i, and copies on their way there, make up what has been sent. */
  ghost predicate Served(net: Net, i: nat, m: Message, sent: nat) {
    Wired(net) && i < |net.links| && Balanced(net.slaves[i], m, AllUp(net.links, m) + Down(net.links[i], m), sent)
  }

  lemma MasterSendServed(net: Net, x: Message, i: nat, m: Message, sent: nat)
    requires Wired(net) && i < |net.links| && Held(net, i, m)
    requires x == m ==> Wants(net.links[i].watch, m.recipient)
    requires Balanced(net.slaves[i], m, AllUp(net.links, m) + Extra(x, m) + Down(net.links[i], m), sent)
    ensures Served(MasterSend(net, x), i, m, sent)
  {
    hide AllUp, Balanced, OnWire, InPool, ToPrint;
    var net' := MasterSend(net, x);
    forall j | 0 <= j < |net.links|
      ensures Up(net'.links[j], m) == Up(net.links[j], m) &&
              Down(PrintTo(net.links[j], x), m) ==
              Down(net.links[j], m) + if Wants(net.links[j].watch, x.recipient) then Extra(x, m) else 0
    {
      PoolQueue(net.links[j].pool, Println(x), m);
    }
    AllUpSame(net'.links, net.links, m);
  }

  lemma LinkStepServed(net: Net, j: nat, l: Link, s: Site, i: nat, m: Message, sent: nat)
    requires Served(net, i, m, sent) && j < |net.links|
    requires Up(l, m) == Up(net.links[j], m)
    requires j == i ==> Balanced(s, m, AllUp(net.links, m) + Down(l, m), sent)
    ensures Served(net.(links := net.links[j := l], slaves := net.slaves[j := s]), i, m, sent)
  {
    hide AllUp, Up, Down, Balanced;
    AllUpUpdate(net.links, j, l, m);
  }

  lemma SlaveSendServed(net: Net, j: nat, x: Message, i: nat, m: Message, sent: nat)
    requires Served(net, i, m, sent) && Held(net, i, m) && j < |net.slaves|
    ensures Served(SlaveSend(net, j, x), i, m, sent + Extra(x, m))
  {
    hide AllUp, OnWire, InPool, ToPrint, Balanced, LocalSend;
    var l, s, up := net.links[j], net.slaves[j], AllUp(net.links, m);
    OnWireQueue(l.up, Send(x, l.told), m);
    AllUpUpdate(net.links, j, l.(up := l.up + [Send(x, l.told)]), m);
    BalancedShift(net.slaves[i], m, up + Down(net.links[i], m), sent, Extra(x, m));
    if j == i { LocalSendBalance(s, x, m, up + Down(l, m), sent); }
    SentUpOrHere(s, x);
  }

  lemma SentUpOrHere(s: Site, x: Message)
    ensures LocalSend(s, x).1 == (x.recipient.isTopic || x.recipient in s.agents)
  {
  }

  lemma ExecuteServed(net: Net, j: nat, i: nat, m: Message, own: bool, sent: nat)
    requires Passing(net, i, m, own) && Served(net, i, m, sent) && j < |net.links| && net.links[j].pool != []
    ensures Served(Execute(net, j), i, m, sent)
  {
    hide Served, Execute, Held, LinkKnows, Wants;
    PassingIsWanted(net, i, m, own);
    match net.links[j].pool[0]
    case Println(_) => NoFrameServed(net, j, i, m, sent);
    case Run(WantsMessagesFor(_)) => NoFrameServed(net, j, i, m, sent);
    case Run(Send(x, known)) => FrameServed(net, j, x, known, i, m, sent);
  }

  lemma NoFrameServed(net: Net, j: nat, i: nat, m: Message, sent: nat)
    requires Served(net, i, m, sent) && j < |net.links| && net.links[j].pool != []
    requires net.links[j].pool[0].Run? ==> net.links[j].pool[0].frame.WantsMessagesFor?
    ensures Served(Execute(net, j), i, m, sent)
  {
    hide AllUp, OnWire, InPool, ToPrint, Balanced;
    var l := net.links[j].(pool := net.links[j].pool[1..]);
    assert net.slaves[j := net.slaves[j]] == net.slaves;
    PoolQueue(net.links[j].pool, net.links[j].pool[0], m);
    match net.links[j].pool[0]
    case Println(x) =>
      LineQueue(l.down, x, m);
      LinkStepServed(net, j, l.(down := l.down + [x], printed := l.printed + multiset{x}), net.slaves[j], i, m, sent);
    case Run(f) => LinkStepServed(net, j, l.(watch := f.list), net.slaves[j], i, m, sent);
  }

  lemma FrameServed(net: Net, j: nat, x: Message, known: set<AgentID>, i: nat, m: Message, sent: nat)
    requires Served(net, i, m, sent) && Held(net, i, m)
    requires j < |net.links| && net.links[j].pool != [] && net.links[j].pool[0] == Run(Send(x, known))
    requires x == m ==> Wants(net.links[i].watch, m.recipient)
    ensures Served(Execute(net, j), i, m, sent)
  {
    hide AllUp, OnWire, InPool, ToPrint, MasterSend, Balanced;
    var l := net.links[j].(pool := net.links[j].pool[1..], heard := net.links[j].heard + known);
    PoolQueue(net.links[j].pool, net.links[j].pool[0], m);
    AllUpUpdate(net.links, j, l, m);
    MasterSendServed(net.(links := net.links[j := l]), x, i, m, sent);
  }

  lemma ArriveServed(net: Net, j: nat, i: nat, m: Message, sent: nat)
    requires Served(net, i, m, sent) && j < |net.links| && net.links[j].up != []
    ensures Served(Step(net, Arrives(j)), i, m, sent)
  {
    hide AllUp, OnWire, InPool, ToPrint, Balanced;
    var l := net.links[j];
    assert net.slaves[j := net.slaves[j]] == net.slaves;
    OnWireQueue(l.up, l.up[0], m);
    PoolQueue(l.pool, Run(l.up[0]), m);
    LinkStepServed(net, j, l.(up := l.up[1..], pool := l.pool + [Run(l.up[0])]), net.slaves[j], i, m, sent);
  }

  lemma ReturnCounts(l: Link, m: Message)
    requires l.down != []
    ensures var l' := l.(down := l.down[1..], tasks := l.tasks + [l.down[0]]);
            Up(l', m) == Up(l, m) && Down(l', m) == Down(l, m)
  {
    hide OnWire, InPool, ToPrint;
    LineQueue(l.down, l.down[0], m);
    LineQueue(l.tasks, l.down[0], m);
  }

  lemma ReturnServed(net: Net, j: nat, i: nat, m: Message, sent: nat)
    requires Served(net, i, m, sent) && j < |net.links| && net.links[j].down != []
    ensures Served(Step(net, Returns(j)), i, m, sent)
  {
    hide AllUp, Up, Down, Balanced;
    var l := net.links[j];
    assert net.slaves[j := net.slaves[j]] == net.slaves;
    ReturnCounts(l, m);
    LinkStepServed(net, j, l.(down := l.down[1..], tasks := l.tasks + [l.down[0]]), net.slaves[j], i, m, sent);
  }

  lemma HandleServed(net: Net, j: nat, i: nat, m: Message, sent: nat)
    requires Served(net, i, m, sent) && j < |net.links| && net.links[j].tasks != []
    ensures Served(Step(net, Handles(j)), i, m, sent)
  {
    hide AllUp, OnWire, InPool, ToPrint, LocalSend, Balanced;
    var l, s := net.links[j], net.slaves[j];
    LineQueue(l.tasks, l.tasks[0], m);
    if j == i { LocalSendBalance(s, l.tasks[0], m, AllUp(net.links, m) + Down(l, m), sent); }
    LinkStepServed(net, j, l.(tasks := l.tasks[1..]), LocalSend(s, l.tasks[0]).0, i, m, sent);
  }

  lemma RefreshServed(net: Net, j: nat, i: nat, m: Message, sent: nat)
    requires Served(net, i, m, sent) && j < |net.links|
    ensures Served(Step(net, Refreshes(j)), i, m, sent)
  {
    hide AllUp, OnWire, InPool, ToPrint, Wanted, Balanced;
    var l, s := net.links[j], net.slaves[j];
    assert net.slaves[j := s] == net.slaves;
    OnWireQueue(l.up, WantsMessagesFor(Wanted(s)), m);
    LinkStepServed(net, j, Refresh(l, Wanted(s)), s, i, m, sent);
  }

  lemma StepServed(net: Net, e: Event, i: nat, m: Message, own: bool, sent: nat)
    requires Passing(net, i, m, own) && Served(net, i, m, sent) && Allowed(e, i, m, own)
    ensures Served(Step(net, e), i, m, sent + Sends(e, m, |net.slaves|))
  {
    hide AllUp, Down, Up, Balanced, MasterSend, SlaveSend, Execute, Safe, Forget, Apply, LinkKnows;
    match e
    case MasterSends(x) =>
      PassingIsWanted(net, i, m, own);
      BalancedShift(net.slaves[i], m, AllUp(net.links, m) + Down(net.links[i], m), sent, Extra(x, m));
      MasterSendServed(net, x, i, m, sent + Extra(x, m));
    case SlaveSends(j, x) => if j < |net.slaves| { SlaveSendServed(net, j, x, i, m, sent); }
    case Executes(j) => if j < |net.links| && net.links[j].pool != [] { ExecuteServed(net, j, i, m, own, sent); }
    case Configures(j, op) =>
      if j < |net.slaves| {
        var s := Apply(net.slaves[j], op).0;
        ForgetCounts(net.links[j], Wanted(s), m);
        LinkStepServed(net, j, Forget(net.links[j], Wanted(s)), s, i, m, sent);
      }
    case MasterConfigures(_) =>
    case Arrives(j) => if j < |net.links| && net.links[j].up != [] { ArriveServed(net, j, i, m, sent); }
    case Returns(j) => if j < |net.links| && net.links[j].down != [] { ReturnServed(net, j, i, m, sent); }
    case Handles(j) => if j < |net.links| && net.links[j].tasks != [] { HandleServed(net, j, i, m, sent); }
    case Refreshes(j) => if j < |net.links| { RefreshServed(net, j, i, m, sent); }
  }

  lemma {:induction false} RunServed(net: Net, events: seq<Event>, i: nat, m: Message, own: bool)
    requires Passing(net, i, m, own) && Served(net, i, m, 0)
    requires forall k :: 0 <= k < |events| ==> Allowed(events[k], i, m, own)
    ensures Passing(Steps(net, events), i, m, own)
    ensures Served(Steps(net, events), i, m, TotalSends(events, m, |net.slaves|))
    decreases |events|
  {
    hide Step, Passing, Allowed, AllUp;
    if events != [] {
      var front, e := events[..|events| - 1], events[|events| - 1];
      RunServed(net, front, i, m, own);
      StepPassing(Steps(net, front), e, i, m, own);
      StepServed(Steps(net, front), e, i, m, own, TotalSends(front, m, |net.slaves|));
    }
  }

  /**
   What a slave has announced reaches it, whatever watch lists are still on their way.  Take any run from a
   fresh system, and a message nobody has sent yet, for a topic that slave i has announced or for an agent
   that it alone holds and has announced.  Let the message be sent once: by anybody, if the master has heard
   a line sent after the announcement; by slave i itself, even if it has not.  Amid anything that does not
   change slave i, every agent there that the message is for has it at most once, nobody else there has it,
   and once no copy of it is queued every one of them has had it exactly once.
   */
  lemma AnnouncedIsDelivered(net: Net, before: seq<Event>, after: seq<Event>, i: nat, m: Message)
    requires Fresh(net) && i < |net.links|
    requires var mid := Steps(net, before);
             var own := m.recipient !in mid.links[i].heard;
             m.recipient in mid.links[i].told && Held(mid, i, m) && Unsent(mid, m) &&
             forall k :: 0 <= k < |after| ==> Allowed(after[k], i, m, own)
    requires TotalSends(after, m, |net.slaves|) == 1
    ensures var end := Steps(Steps(net, before), after);
            NobodyElse(end.slaves[i], m) && (Drained(end, m) ==> AllServed(end.slaves[i], m))
  {
    hide Step, AllUp, Up, Down, Receivers, Held, Allowed, LinkKnows, LinkSafe, AllServed, NobodyElse;
    var mid := Steps(net, before);
    var own := m.recipient !in mid.links[i].heard;
    RunSafe(net, before);
    NoneUp(mid.links, m);
    forall j | 0 <= j < |mid.links| ensures LinkKnows(mid.links[j], m, j == i) { UnsentKnows(mid.links[j], m, j == i); }
    RunServed(mid, after, i, m, own);
    var end := Steps(mid, after);
    BalancedMeans(end.slaves[i], m, AllUp(end.links, m) + Down(end.links[i], m));
    if Drained(end, m) { NoneUp(end.links, m); }
  }

  lemma UnsentKnows(l: Link, m: Message, own: bool)
    requires Up(l, m) == 0
    ensures LinkKnows(l, m, own)
  {
    NotOnWire(l.up, m, own);
    NotInPool(l.pool, m, own);
  }

  lemma {:induction false} NotOnWire(up: seq<Frame>, m: Message, own: bool)
    requires OnWire(up, m) == 0
    ensures forall k :: 0 <= k < |up| ==> Knows(up[k], m, own)
  {
    if up != [] { NotOnWire(up[..|up| - 1], m, own); }
  }

  lemma {:induction false} NotInPool(pool: seq<Task>, m: Message, own: bool)
    requires InPool(pool, m) == 0
    ensures forall k :: 0 <= k < |pool| ==> pool[k].Run? ==> Knows(pool[k].frame, m, own)
  {
    if pool != [] { NotInPool(pool[..|pool| - 1], m, own); }
  }

  lemma StillUnsent(net: Net, i: nat, op: Op, m: Message)
    requires Wired(net) && i < |net.links| && Unsent(net, m)
    ensures Unsent(Step(net, Configures(i, op)), m) && Unsent(Step(net, Refreshes(i)), m)
  {
    hide OnWire, InPool, ToPrint, Wanted, Apply, Forget;
    var wanted := Wanted(Apply(net.slaves[i], op).0);
    ApplyKeepsDeliveries(net.slaves[i], op);
    ForgetCounts(net.links[i], wanted, m);
    OnWireQueue(net.links[i].up, WantsMessagesFor(Wanted(net.slaves[i])), m);
  }

  /** The agent is then subscribed, and the topic announced. */
  lemma SubscribedAndAnnounced(net: Net, i: nat, a: AgentID, topic: AgentID)
    requires Wired(net) && i < |net.links| && a in net.slaves[i].agents
    ensures var end := Step(Step(net, Configures(i, Subscribe(a, topic))), Refreshes(i));
            TopicOf(topic) in end.links[i].told && TopicOf(topic) in end.slaves[i].topics &&
            a in end.slaves[i].topics[TopicOf(topic)]
  {
  }

  lemma {:induction false} SameTopics(net: Net, events: seq<Event>, i: nat, m: Message, own: bool)
    requires Wired(net) && i < |net.slaves| && forall k :: 0 <= k < |events| ==> Allowed(events[k], i, m, own)
    ensures Steps(net, events).slaves[i].topics == net.slaves[i].topics
    decreases |events|
  {
    hide Step, Allowed;
    if events != [] {
      SameTopics(net, events[..|events| - 1], i, m, own);
      StepTopics(Steps(net, events[..|events| - 1]), events[|events| - 1], i, m, own);
    }
  }

  lemma StepTopics(net: Net, e: Event, i: nat, m: Message, own: bool)
    requires Wired(net) && i < |net.slaves| && Allowed(e, i, m, own)
    ensures i < |Step(net, e).slaves| && Step(net, e).slaves[i].topics == net.slaves[i].topics
  {
    hide Wants, Wanted, Forget;
  }

  /**
   Subscribing and publishing at once.  On any run, let an agent of slave i subscribe to a topic, slave i
   update its watch list, and then publish on the topic, while that list may still be on its way to the
   master.  Nothing is lost: once no copy is queued, the agent has had the message exactly once.
   */
  lemma SubscribeThenPublish(net: Net, before: seq<Event>, a: AgentID, topic: AgentID, i: nat, m: Message,
                             after: seq<Event>)
    requires Fresh(net) && i < |net.links| && a in Steps(net, before).slaves[i].agents
    requires m.recipient == TopicOf(topic) && Unsent(Steps(net, before), m)
    requires forall k :: 0 <= k < |after| ==> Allowed(after[k], i, m, true)
    requires TotalSends(after, m, |net.slaves|) == 1
    ensures var end := Steps(Steps(net, before + [Configures(i, Subscribe(a, topic)), Refreshes(i)]), after);
            Drained(end, m) ==> end.slaves[i].delivered[(a, m)] == 1
  {
    hide Drained, Unsent, Step, TotalSends;
    var start := before + [Configures(i, Subscribe(a, topic)), Refreshes(i)];
    var mid0, mid := Steps(net, before), Steps(net, start);
    TwoMore(net, before, Configures(i, Subscribe(a, topic)), Refreshes(i));
    StillUnsent(mid0, i, Subscribe(a, topic), m);
    StillUnsent(Step(mid0, Configures(i, Subscribe(a, topic))), i, Subscribe(a, topic), m);
    SubscribedAndAnnounced(mid0, i, a, topic);
    SameTopics(mid, after, i, m, true);
    AnnouncedIsDelivered(net, start, after, i, m);
  }

  lemma TwoMore(net: Net, before: seq<Event>, e: Event, e': Event)
    requires Wired(net)
    ensures var mid := Step(Steps(net, before), e);
            Wired(mid) && |mid.links| == |net.links| && Steps(net, before + [e, e']) == Step(mid, e')
  {
    hide Step;
    assert (before + [e, e'])[..|before| + 1] == before + [e] && (before + [e])[..|before|] == before;
    SameSize(Steps(net, before), e);
    assert Steps(net, before + [e]) == Step(Steps(net, before), e);
  }
}
