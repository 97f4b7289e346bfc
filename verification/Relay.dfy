/**
 The relay between a master container and its slaves (MasterContainer.java,
 SlaveContainer.java, ConnectionHandler.java) as a system of atomic steps.

 Each connection is four FIFO queues: lines on the wire to the master, tasks of the master's
 single-thread pool for that connection, lines on the wire to the slave, and tasks of the
 slave's pool.  A slave never delivers its own topic messages; it relies on the master
 sending them back.
 */
module Relay {
  import opened Common
  import opened Containers

  /** A line from a slave.  `known` is bookkeeping of the proofs, not of the program: what the
      slave had told the master to watch for, and not taken back, when it sent the line. */
  datatype Frame =
    | Send(message: Message, known: set<AgentID>)
    | WantsMessagesFor(list: set<AgentID>)

  datatype Task =
    | Run(frame: Frame)
    | Println(message: Message)

  datatype Cache = Unset | Cached(list: set<AgentID>)

  /**
   One connection.  up, pool, down and tasks are the queues; watch is the handler's watch list
   and cache the slave's watchListCache.  The rest is bookkeeping: what the slave has announced
   and still wants (told), what the master has seen a later frame about (heard), and the lines
   ever printed to the slave (printed).
   */
  datatype Link = Link(up: seq<Frame>, pool: seq<Task>, down: seq<Message>, tasks: seq<Message>,
                       watch: set<AgentID>, cache: Cache,
                       told: set<AgentID>, heard: set<AgentID>, printed: multiset<Message>)

  /** The whole system; raised counts the messages slaves have passed up. */
  datatype Net = Net(master: Site, slaves: seq<Site>, links: seq<Link>, raised: multiset<Message>)

  predicate Wired(net: Net) { |net.slaves| == |net.links| }

  /** What updateWatchList puts in the list: local agents, and topics with a subscriber. */
  function Wanted(s: Site): set<AgentID> {
    s.agents + set t | t in s.topics && s.topics[t] != {}
  }

  /** ConnectionHandler.wantsMessagesFor: an empty list wants everything. */
  predicate Wants(watch: set<AgentID>, id: AgentID) { watch == {} || id in watch }

  function PrintTo(l: Link, m: Message): Link {
    if Wants(l.watch, m.recipient) then l.(pool := l.pool + [Println(m)]) else l
  }

  /** The loop over the slaves in MasterContainer.send. */
  function FanOut(links: seq<Link>, m: Message): (r: seq<Link>)
    ensures |r| == |links|
    ensures forall i :: 0 <= i < |links| ==> r[i] == PrintTo(links[i], m)
  {
    seq(|links|, i requires 0 <= i < |links| => PrintTo(links[i], m))
  }

  /** MasterContainer.send(m, true) */
  function MasterSend(net: Net, m: Message): Net {
    var (site, ok) := LocalSend(net.master, m);
    if ok && !m.recipient.isTopic then net.(master := site)
    else net.(master := site, links := FanOut(net.links, m))
  }

  /** SlaveContainer.send(m, true) on slave i */
  function SlaveSend(net: Net, i: nat, m: Message): Net
    requires Wired(net) && i < |net.slaves|
  {
    var (site, ok) := LocalSend(net.slaves[i], m);
    var l := net.links[i];
    if !m.recipient.isTopic && ok then net.(slaves := net.slaves[i := site])
    else net.(links := net.links[i := l.(up := l.up + [Send(m, l.told)])], raised := net.raised + multiset{m})
  }

  datatype Event =
    | MasterSends(m: Message)
    | SlaveSends(i: nat, m: Message)
    | Arrives(i: nat)               // the master reads a line and gives it to the pool
    | Executes(i: nat)              // the master's pool runs its next task for connection i
    | Returns(i: nat)               // the slave reads a line and gives it to its pool
    | Handles(i: nat)               // the slave's pool runs its next task
    | Configures(i: nat, op: Op)    // slave i adds, kills, subscribes or unsubscribes
    | Refreshes(i: nat)             // slave i runs updateWatchList
    | MasterConfigures(op: Op)

  function Execute(net: Net, i: nat): Net
    requires Wired(net) && i < |net.links| && net.links[i].pool != []
  {
    var l := net.links[i].(pool := net.links[i].pool[1..]);
    match net.links[i].pool[0]
    case Run(Send(m, known)) => MasterSend(net.(links := net.links[i := l.(heard := l.heard + known)]), m)
    case Run(WantsMessagesFor(list)) => net.(links := net.links[i := l.(watch := list)])
    case Println(m) => net.(links := net.links[i := l.(down := l.down + [m], printed := l.printed + multiset{m})])
  }

  /** Forget, in the bookkeeping, what the slave no longer wants. */
  function Forget(l: Link, wanted: set<AgentID>): Link {
    l.(told := l.told * wanted, heard := l.heard * wanted,
       up := seq(|l.up|, k requires 0 <= k < |l.up| => ForgetFrame(l.up[k], wanted)),
       pool := seq(|l.pool|, k requires 0 <= k < |l.pool| => ForgetTask(l.pool[k], wanted)))
  }

  function ForgetFrame(f: Frame, wanted: set<AgentID>): Frame {
    if f.Send? then f.(known := f.known * wanted) else f
  }

  function ForgetTask(t: Task, wanted: set<AgentID>): Task {
    if t.Run? then Run(ForgetFrame(t.frame, wanted)) else t
  }

  /** updateWatchList: a line is sent only when the list differs from the last one sent. */
  function Refresh(l: Link, wanted: set<AgentID>): Link {
    if l.cache == Cached(wanted) then l.(told := wanted)
    else l.(up := l.up + [WantsMessagesFor(wanted)], cache := Cached(wanted), told := wanted)
  }

  /** One atomic step; an event that is not enabled changes nothing. */
  function Step(net: Net, e: Event): Net
    requires Wired(net)
  {
    match e
    case MasterSends(m) => MasterSend(net, m)
    case SlaveSends(i, m) => if i < |net.slaves| then SlaveSend(net, i, m) else net
    case Arrives(i) =>
      if i < |net.links| && net.links[i].up != [] then
        var l := net.links[i];
        net.(links := net.links[i := l.(up := l.up[1..], pool := l.pool + [Run(l.up[0])])])
      else net
    case Executes(i) => if i < |net.links| && net.links[i].pool != [] then Execute(net, i) else net
    case Returns(i) =>
      if i < |net.links| && net.links[i].down != [] then
        var l := net.links[i];
        net.(links := net.links[i := l.(down := l.down[1..], tasks := l.tasks + [l.down[0]])])
      else net
    case Handles(i) =>
      if i < |net.links| && net.links[i].tasks != [] then
        var l := net.links[i];
        // SlaveContainer.send(m, false), whatever the kind of recipient
        net.(slaves := net.slaves[i := LocalSend(net.slaves[i], l.tasks[0]).0],
             links := net.links[i := l.(tasks := l.tasks[1..])])
      else net
    case Configures(i, op) =>
      if i < |net.slaves| then
        var site := Apply(net.slaves[i], op).0;
        net.(slaves := net.slaves[i := site], links := net.links[i := Forget(net.links[i], Wanted(site))])
      else net
    case Refreshes(i) =>
      if i < |net.slaves| then net.(links := net.links[i := Refresh(net.links[i], Wanted(net.slaves[i]))]) else net
    case MasterConfigures(op) => net.(master := Apply(net.master, op).0)
  }

  function Steps(net: Net, events: seq<Event>): (r: Net)
    requires Wired(net)
    ensures Wired(r) && |r.slaves| == |net.slaves|
    decreases |events|
  {
    if events == [] then net else Step(Steps(net, events[..|events| - 1]), events[|events| - 1])
  }

  // ---------------------------------------------------------------------------
  // Where a message is
  // ---------------------------------------------------------------------------

  function Carries(f: Frame, m: Message): nat { if f.Send? && f.message == m then 1 else 0 }

  function OnWire(up: seq<Frame>, m: Message): nat {
    if up == [] then 0 else OnWire(up[..|up| - 1], m) + Carries(up[|up| - 1], m)
  }

  function InPool(pool: seq<Task>, m: Message): nat {
    if pool == [] then 0
    else InPool(pool[..|pool| - 1], m) + var t := pool[|pool| - 1]; if t.Run? then Carries(t.frame, m) else 0
  }

  function ToPrint(pool: seq<Task>, m: Message): nat {
    if pool == [] then 0
    else ToPrint(pool[..|pool| - 1], m) + if pool[|pool| - 1] == Println(m) then 1 else 0
  }

  /** Copies of m on their way up one connection, and down it. */
  function Up(l: Link, m: Message): nat { OnWire(l.up, m) + InPool(l.pool, m) }
  function Down(l: Link, m: Message): nat { ToPrint(l.pool, m) + multiset(l.down)[m] + multiset(l.tasks)[m] }

  function AllUp(links: seq<Link>, m: Message): nat {
    if links == [] then 0 else AllUp(links[..|links| - 1], m) + Up(links[|links| - 1], m)
  }

  lemma {:induction false} AllUpUpdate(links: seq<Link>, i: nat, l: Link, m: Message)
    requires i < |links|
    ensures AllUp(links[i := l], m) == AllUp(links, m) - Up(links[i], m) + Up(l, m)
  {
    var front, last := links[..|links| - 1], |links| - 1;
    if i < last {
      AllUpUpdate(front, i, l, m);
      assert links[i := l][..last] == front[i := l];
    } else {
      assert links[i := l][..last] == front;
    }
  }

  lemma {:induction false} AllUpSame(a: seq<Link>, b: seq<Link>, m: Message)
    requires |a| == |b| && forall i :: 0 <= i < |a| ==> Up(a[i], m) == Up(b[i], m)
    ensures AllUp(a, m) == AllUp(b, m)
  {
    if a != [] { AllUpSame(a[..|a| - 1], b[..|b| - 1], m); }
  }

  /** Taking from the front and adding at the back. */
  lemma {:induction false} OnWireQueue(up: seq<Frame>, f: Frame, m: Message)
    ensures OnWire(up + [f], m) == OnWire(up, m) + Carries(f, m)
    ensures up != [] ==> OnWire(up, m) == Carries(up[0], m) + OnWire(up[1..], m)
    decreases |up|
  {
    assert (up + [f])[..|up|] == up;
    if up != [] {
      var front, last := up[..|up| - 1], up[|up| - 1];
      if front != [] {
        OnWireQueue(front, f, m);
        assert up[1..][..|up| - 2] == front[1..];
      }
    }
  }

  lemma PoolPush(pool: seq<Task>, t: Task, m: Message)
    ensures InPool(pool + [t], m) == InPool(pool, m) + if t.Run? then Carries(t.frame, m) else 0
    ensures ToPrint(pool + [t], m) == ToPrint(pool, m) + if t == Println(m) then 1 else 0
  {
    assert (pool + [t])[..|pool|] == pool;
  }

  lemma {:induction false} PoolPop(pool: seq<Task>, m: Message)
    requires pool != []
    ensures InPool(pool, m) == (if pool[0].Run? then Carries(pool[0].frame, m) else 0) + InPool(pool[1..], m)
    ensures ToPrint(pool, m) == (if pool[0] == Println(m) then 1 else 0) + ToPrint(pool[1..], m)
    decreases |pool|
  {
    var front := pool[..|pool| - 1];
    if front != [] {
      PoolPop(front, m);
      assert pool[1..][..|pool| - 2] == front[1..];
    }
  }

  lemma PoolQueue(pool: seq<Task>, t: Task, m: Message)
    ensures InPool(pool + [t], m) == InPool(pool, m) + if t.Run? then Carries(t.frame, m) else 0
    ensures ToPrint(pool + [t], m) == ToPrint(pool, m) + if t == Println(m) then 1 else 0
    ensures pool != [] ==>
              InPool(pool, m) == (if pool[0].Run? then Carries(pool[0].frame, m) else 0) + InPool(pool[1..], m) &&
              ToPrint(pool, m) == (if pool[0] == Println(m) then 1 else 0) + ToPrint(pool[1..], m)
  {
    hide InPool, ToPrint;
    PoolPush(pool, t, m);
    if pool != [] { PoolPop(pool, m); }
  }

  lemma LineQueue(q: seq<Message>, x: Message, m: Message)
    ensures multiset(q + [x])[m] == multiset(q)[m] + if x == m then 1 else 0
    ensures q != [] ==> multiset(q)[m] == (if q[0] == m then 1 else 0) + multiset(q[1..])[m]
  {
    if q != [] { assert q == [q[0]] + q[1..]; }
  }

  // ---------------------------------------------------------------------------
  // Exactly-once delivery
  // ---------------------------------------------------------------------------

  /** Any list a line brings is empty or covers what the slave wants. */
  ghost predicate Covers(f: Frame, s: Site) {
    f.WantsMessagesFor? ==> f.list == {} || Wanted(s) <= f.list
  }

  /** The list the master holds for a slave is empty or covers its wants, and so is every list that is on
      its way. */
  ghost predicate Covered(l: Link, s: Site) {
    (l.watch == {} || Wanted(s) <= l.watch) &&
    (forall k :: 0 <= k < |l.up| ==> Covers(l.up[k], s)) &&
    (forall k :: 0 <= k < |l.pool| ==> l.pool[k].Run? ==> Covers(l.pool[k].frame, s))
  }

  /** An agent-addressed message has at most one container holding its recipient. */
  ghost predicate Unique(net: Net, m: Message) {
    !m.recipient.isTopic ==>
      (m.recipient in net.master.agents ==>
         forall i :: 0 <= i < |net.slaves| ==> m.recipient !in net.slaves[i].agents) &&
      (forall i, j :: 0 <= i < j < |net.slaves| && m.recipient in net.slaves[i].agents ==>
         m.recipient !in net.slaves[j].agents)
  }

  /** Each receiver here has had every copy sent that is not still pending; nobody else has had any. */
  ghost predicate Balanced(s: Site, m: Message, pending: nat, sent: nat) {
    forall a :: s.delivered[(a, m)] == if a in Receivers(s, m) then sent - pending else 0
  }

  /** One slave and its connection, with `up` copies of m on their way to the master anywhere:
      deliveries and pending copies add up, and the connection is given no more lines than were sent. */
  ghost predicate LinkAccounted(l: Link, s: Site, m: Message, up: nat, sent: nat) {
    Covered(l, s) && Balanced(s, m, up + Down(l, m), sent) && l.printed[m] + ToPrint(l.pool, m) + up <= sent
  }

  ghost predicate LinksAccounted(net: Net, m: Message, up: nat, sent: nat) {
    Wired(net) && forall i :: 0 <= i < |net.links| ==> LinkAccounted(net.links[i], net.slaves[i], m, up, sent)
  }

  /** The invariant: in every container, deliveries plus copies still on their way there make up
      what has been sent. */
  ghost predicate Accounted(net: Net, m: Message, sent: nat) {
    Unique(net, m) && net.raised[m] <= sent &&
    Balanced(net.master, m, AllUp(net.links, m), sent) &&
    LinksAccounted(net, m, AllUp(net.links, m), sent)
  }

  lemma LocalSendBalance(s: Site, x: Message, m: Message, pending: nat, sent: nat)
    requires Balanced(s, m, pending, sent)
    ensures var s' := LocalSend(s, x).0;
            Wanted(s') == Wanted(s) && s'.agents == s.agents && s'.topics == s.topics &&
            (x != m ==> Balanced(s', m, pending, sent)) &&
            (x == m ==> Balanced(s', m, pending, sent + 1)) &&
            (x == m && pending > 0 ==> Balanced(s', m, pending - 1, sent))
  {
    forall a ensures Deliveries(Receivers(s, x), x)[(a, m)] == if x == m && a in Receivers(s, x) then 1 else 0 {
      DeliveriesCount(Receivers(s, x), x, a);
    }
  }

  /** What the account of m owes when x is sent: one more copy sent, or one fewer still coming up. */
  function Extra(x: Message, m: Message): nat { if x == m then 1 else 0 }

  /** A fan-out of x on one connection.  `taken` says that x itself came off some connection. */
  lemma PrintAccounted(l: Link, s: Site, x: Message, m: Message, up: nat, sent: nat, taken: bool)
    requires LinkAccounted(l, s, m, up + (if taken then Extra(x, m) else 0), sent)
    ensures LinkAccounted(PrintTo(l, x), s, m, up, sent + if taken then 0 else Extra(x, m))
    ensures Up(PrintTo(l, x), m) == Up(l, m)
  {
    hide OnWire, Receivers;
    PoolQueue(l.pool, Println(x), m);
    ReceiversAreWanted(s, m);
  }

  /** What a slave asks for: its own agents, and exactly those topics on which somebody would be called. */
  lemma WantedIsExact(s: Site, id: AgentID)
    ensures id in Wanted(s) <==> id in s.agents || (id in s.topics && exists a :: a in s.topics[id])
    ensures id.isTopic && id !in s.agents ==> (id in Wanted(s) <==> exists a :: IsFor(s, Message(0, id), a))
  {
    if id in s.topics && s.topics[id] != {} {
      var a :| a in s.topics[id];
      assert id.isTopic ==> IsFor(s, Message(0, id), a);
    }
  }

  lemma ReceiversAreWanted(s: Site, m: Message)
    ensures Receivers(s, m) != {} ==> m.recipient in Wanted(s)
  {
  }

  /** A message that the master keeps to itself had no receivers on this slave. */
  lemma SkipAccounted(l: Link, s: Site, x: Message, m: Message, up: nat, sent: nat, taken: bool)
    requires LinkAccounted(l, s, m, up + (if taken then Extra(x, m) else 0), sent)
    requires x == m ==> Receivers(s, m) == {}
    ensures LinkAccounted(l, s, m, up, sent + if taken then 0 else Extra(x, m))
  {
    hide Receivers, Wanted, ToPrint, Down;
  }

  lemma MasterSendAccounted(net: Net, x: Message, m: Message, up: nat, sent: nat, taken: bool)
    requires var pending := up + if taken then Extra(x, m) else 0;
             Unique(net, m) && net.raised[m] <= sent && up == AllUp(net.links, m) &&
             Balanced(net.master, m, pending, sent) && LinksAccounted(net, m, pending, sent)
    ensures Accounted(MasterSend(net, x), m, sent + if taken then 0 else Extra(x, m))
  {
    hide LinkAccounted, AllUp, Wanted, Balanced, Up, PrintTo;
    var pending := up + if taken then Extra(x, m) else 0;
    var sent' := sent + if taken then 0 else Extra(x, m);
    var net' := MasterSend(net, x);
    LocalSendBalance(net.master, x, m, pending, sent);
    forall i | 0 <= i < |net.links|
      ensures LinkAccounted(net'.links[i], net'.slaves[i], m, up, sent') && Up(net'.links[i], m) == Up(net.links[i], m)
    {
      assert LinkAccounted(net.links[i], net.slaves[i], m, pending, sent);
      if net'.links == net.links {
        if !x.recipient.isTopic && x.recipient in net.master.agents {
          SkipAccounted(net.links[i], net.slaves[i], x, m, up, sent, taken);
        } else {
          PrintAccounted(net.links[i], net.slaves[i], x, m, up, sent, taken);
        }
      } else {
        PrintAccounted(net.links[i], net.slaves[i], x, m, up, sent, taken);
      }
    }
    AllUpSame(net'.links, net.links, m);
  }

  /** One more copy sent, and one more coming up: nothing changes for anybody else. */
  lemma ShiftAccounted(l: Link, s: Site, m: Message, up: nat, sent: nat, d: nat)
    requires LinkAccounted(l, s, m, up, sent)
    ensures LinkAccounted(l, s, m, up + d, sent + d)
  {
    hide Receivers, Wanted, ToPrint, Down, Covered;
  }

  lemma SlaveSendAccounted(net: Net, i: nat, x: Message, m: Message, sent: nat)
    requires Accounted(net, m, sent) && i < |net.slaves|
    ensures Accounted(SlaveSend(net, i, x), m, sent + Extra(x, m))
  {
    if !x.recipient.isTopic && x.recipient in net.slaves[i].agents {
      LocalAccounted(net, i, x, m, sent);
    } else {
      RaiseAccounted(net, i, x, m, sent);
    }
  }

  lemma RaiseAccounted(net: Net, i: nat, x: Message, m: Message, sent: nat)
    requires Accounted(net, m, sent) && i < |net.slaves|
    ensures var l := net.links[i];
            var links := net.links[i := l.(up := l.up + [Send(x, l.told)])];
            Accounted(net.(links := links, raised := net.raised + multiset{x}), m, sent + Extra(x, m))
  {
    hide AllUp, Balanced, LinkAccounted, Up;
    var up, d := AllUp(net.links, m), Extra(x, m);
    var l := net.links[i].(up := net.links[i].up + [Send(x, net.links[i].told)]);
    RaiseLink(net.links[i], net.slaves[i], x, m, up, sent);
    AllUpUpdate(net.links, i, l, m);
    BalancedShift(net.master, m, up, sent, d);
    forall j | 0 <= j < |net.links| ensures LinkAccounted(net.links[i := l][j], net.slaves[j], m, up + d, sent + d) {
      ShiftAccounted(net.links[j], net.slaves[j], m, up, sent, d);
    }
  }

  lemma RaiseLink(l: Link, s: Site, x: Message, m: Message, up: nat, sent: nat)
    requires LinkAccounted(l, s, m, up, sent)
    ensures var l' := l.(up := l.up + [Send(x, l.told)]);
            Up(l', m) == Up(l, m) + Extra(x, m) && LinkAccounted(l', s, m, up + Extra(x, m), sent + Extra(x, m))
  {
    hide OnWire, InPool, ToPrint, Wanted, Balanced;
    OnWireQueue(l.up, Send(x, l.told), m);
    ShiftAccounted(l, s, m, up, sent, Extra(x, m));
  }

  lemma BalancedShift(s: Site, m: Message, pending: nat, sent: nat, d: nat)
    requires Balanced(s, m, pending, sent)
    ensures Balanced(s, m, pending + d, sent + d)
    ensures Receivers(s, m) == {} ==> Balanced(s, m, pending, sent + d)
  {
    hide Receivers;
  }

  /** A message that a slave delivers to its own agent has no receiver anywhere else. */
  lemma LocalAccounted(net: Net, i: nat, x: Message, m: Message, sent: nat)
    requires Accounted(net, m, sent) && i < |net.slaves|
    requires !x.recipient.isTopic && x.recipient in net.slaves[i].agents
    ensures Accounted(net.(slaves := net.slaves[i := LocalSend(net.slaves[i], x).0]), m, sent + Extra(x, m))
  {
    hide AllUp, Wanted, Balanced, Down, ToPrint;
    var up, d := AllUp(net.links, m), Extra(x, m);
    var s := LocalSend(net.slaves[i], x).0;
    BalancedShift(net.master, m, up, sent, d);
    assert x == m ==> Receivers(net.master, m) == {};
    forall j | 0 <= j < |net.links| ensures LinkAccounted(net.links[j], net.slaves[i := s][j], m, up, sent + d) {
      assert LinkAccounted(net.links[j], net.slaves[j], m, up, sent);
      if j == i {
        LocalSendBalance(net.slaves[i], x, m, up + Down(net.links[i], m), sent);
      } else {
        assert x == m ==> Receivers(net.slaves[j], m) == {};
        SkipAccounted(net.links[j], net.slaves[j], x, m, up, sent, false);
      }
    }
  }

  /** A step on one connection that leaves as many copies of m coming up as before. */
  lemma LinkMoves(net: Net, i: nat, l: Link, s: Site, m: Message, sent: nat)
    requires Accounted(net, m, sent) && i < |net.links|
    requires Up(l, m) == Up(net.links[i], m) && s.agents == net.slaves[i].agents
    requires LinkAccounted(l, s, m, AllUp(net.links, m), sent)
    ensures Accounted(net.(links := net.links[i := l], slaves := net.slaves[i := s]), m, sent)
  {
    hide AllUp, LinkAccounted, Up;
    AllUpUpdate(net.links, i, l, m);
  }

  lemma ArriveAccounted(net: Net, i: nat, m: Message, sent: nat)
    requires Accounted(net, m, sent) && i < |net.links| && net.links[i].up != []
    ensures Accounted(Step(net, Arrives(i)), m, sent)
  {
    hide AllUp, OnWire, InPool, ToPrint, Wanted, Balanced, Unique;
    var l := net.links[i];
    OnWireQueue(l.up, l.up[0], m);
    PoolQueue(l.pool, Run(l.up[0]), m);
    assert LinkAccounted(l, net.slaves[i], m, AllUp(net.links, m), sent);
    LinkMoves(net, i, l.(up := l.up[1..], pool := l.pool + [Run(l.up[0])]), net.slaves[i], m, sent);
    assert net.slaves[i := net.slaves[i]] == net.slaves;
  }

  lemma ReturnAccounted(net: Net, i: nat, m: Message, sent: nat)
    requires Accounted(net, m, sent) && i < |net.links| && net.links[i].down != []
    ensures Accounted(Step(net, Returns(i)), m, sent)
  {
    hide AllUp, OnWire, InPool, ToPrint, Wanted, Balanced, Unique;
    var l := net.links[i];
    LineQueue(l.down, l.down[0], m);
    LineQueue(l.tasks, l.down[0], m);
    assert LinkAccounted(l, net.slaves[i], m, AllUp(net.links, m), sent);
    LinkMoves(net, i, l.(down := l.down[1..], tasks := l.tasks + [l.down[0]]), net.slaves[i], m, sent);
    assert net.slaves[i := net.slaves[i]] == net.slaves;
  }

  lemma HandleAccounted(net: Net, i: nat, m: Message, sent: nat)
    requires Accounted(net, m, sent) && i < |net.links| && net.links[i].tasks != []
    ensures Accounted(Step(net, Handles(i)), m, sent)
  {
    hide AllUp, OnWire, InPool, ToPrint, Wanted, Balanced, Unique;
    var l := net.links[i];
    LineQueue(l.tasks, l.tasks[0], m);
    assert LinkAccounted(l, net.slaves[i], m, AllUp(net.links, m), sent);
    LocalSendBalance(net.slaves[i], l.tasks[0], m, AllUp(net.links, m) + Down(l, m), sent);
    LinkMoves(net, i, l.(tasks := l.tasks[1..]), LocalSend(net.slaves[i], l.tasks[0]).0, m, sent);
  }

  lemma ExecuteAccounted(net: Net, i: nat, m: Message, sent: nat)
    requires Accounted(net, m, sent) && i < |net.links| && net.links[i].pool != []
    ensures Accounted(Execute(net, i), m, sent)
  {
    hide Accounted, Execute;
    match net.links[i].pool[0]
    case Println(x) => PrintlnAccounted(net, i, x, m, sent);
    case Run(frame) =>
      if frame.Send? { FrameAccounted(net, i, frame, m, sent); } else { ListAccounted(net, i, frame, m, sent); }
  }

  lemma PrintlnAccounted(net: Net, i: nat, x: Message, m: Message, sent: nat)
    requires Accounted(net, m, sent) && i < |net.links| && net.links[i].pool != [] && net.links[i].pool[0] == Println(x)
    ensures Accounted(Execute(net, i), m, sent)
  {
    hide AllUp, OnWire, InPool, ToPrint, Wanted, Balanced, Unique;
    var l0 := net.links[i];
    assert LinkAccounted(l0, net.slaves[i], m, AllUp(net.links, m), sent);
    PoolQueue(l0.pool, l0.pool[0], m);
    LineQueue(l0.down, x, m);
    var l := l0.(pool := l0.pool[1..], down := l0.down + [x], printed := l0.printed + multiset{x});
    LinkMoves(net, i, l, net.slaves[i], m, sent);
    assert net.slaves[i := net.slaves[i]] == net.slaves;
  }

  lemma ListAccounted(net: Net, i: nat, frame: Frame, m: Message, sent: nat)
    requires Accounted(net, m, sent) && i < |net.links| && net.links[i].pool != [] && net.links[i].pool[0] == Run(frame)
    requires frame.WantsMessagesFor?
    ensures Accounted(Execute(net, i), m, sent)
  {
    hide AllUp, OnWire, InPool, ToPrint, Wanted, Balanced, Unique;
    var l := net.links[i];
    assert LinkAccounted(l, net.slaves[i], m, AllUp(net.links, m), sent);
    PoolQueue(l.pool, l.pool[0], m);
    LinkMoves(net, i, l.(pool := l.pool[1..], watch := frame.list), net.slaves[i], m, sent);
    assert net.slaves[i := net.slaves[i]] == net.slaves;
  }

  lemma RefreshAccounted(net: Net, i: nat, m: Message, sent: nat)
    requires Accounted(net, m, sent) && i < |net.slaves|
    ensures Accounted(Step(net, Refreshes(i)), m, sent)
  {
    hide AllUp, OnWire, InPool, ToPrint, Wanted, Balanced, Unique;
    var l, wanted := net.links[i], Wanted(net.slaves[i]);
    assert LinkAccounted(l, net.slaves[i], m, AllUp(net.links, m), sent);
    OnWireQueue(l.up, WantsMessagesFor(wanted), m);
    LinkMoves(net, i, Refresh(l, wanted), net.slaves[i], m, sent);
    assert net.slaves[i := net.slaves[i]] == net.slaves;
  }

  lemma FrameAccounted(net: Net, i: nat, frame: Frame, m: Message, sent: nat)
    requires Accounted(net, m, sent) && i < |net.links| && net.links[i].pool != [] && net.links[i].pool[0] == Run(frame)
    requires frame.Send?
    ensures Accounted(Execute(net, i), m, sent)
  {
    hide AllUp, OnWire, InPool, ToPrint, Wanted, Balanced, Unique, MasterSend;
    var up := AllUp(net.links, m);
    var l0 := net.links[i];
    assert LinkAccounted(l0, net.slaves[i], m, up, sent);
    PoolQueue(l0.pool, l0.pool[0], m);
    var l1 := l0.(pool := l0.pool[1..], heard := l0.heard + frame.known);
    var net1 := net.(links := net.links[i := l1]);
    AllUpUpdate(net.links, i, l1, m);
    UniqueKept(net, net1, m);
    forall j | 0 <= j < |net.links| ensures LinkAccounted(net1.links[j], net1.slaves[j], m, up, sent) {
      assert LinkAccounted(net.links[j], net.slaves[j], m, up, sent);
    }
    MasterSendAccounted(net1, frame.message, m, AllUp(net1.links, m), sent, true);
  }

  lemma UniqueKept(net: Net, net': Net, m: Message)
    requires Unique(net, m) && net.master == net'.master && net.slaves == net'.slaves
    ensures Unique(net', m)
  {
  }

  /** Everything but a change of agents or subscriptions. */
  predicate IsTraffic(e: Event) {
    !e.Configures? && !e.MasterConfigures?
  }

  /** How often an event sends m (from a container that exists). */
  function Sends(e: Event, m: Message, slaves: nat): nat {
    if e == MasterSends(m) || (e.SlaveSends? && e.m == m && e.i < slaves) then 1 else 0
  }

  lemma StepAccounted(net: Net, e: Event, m: Message, sent: nat)
    requires Wired(net) && Accounted(net, m, sent) && IsTraffic(e)
    ensures Accounted(Step(net, e), m, sent + Sends(e, m, |net.slaves|))
  {
    hide LinksAccounted, Unique, Balanced, MasterSend, SlaveSend, Execute;
    match e
    case MasterSends(x) => MasterSendAccounted(net, x, m, AllUp(net.links, m), sent, false);
    case SlaveSends(i, x) => if i < |net.slaves| { SlaveSendAccounted(net, i, x, m, sent); }
    case Arrives(i) => if i < |net.links| && net.links[i].up != [] { ArriveAccounted(net, i, m, sent); }
    case Executes(i) => if i < |net.links| && net.links[i].pool != [] { ExecuteAccounted(net, i, m, sent); }
    case Returns(i) => if i < |net.links| && net.links[i].down != [] { ReturnAccounted(net, i, m, sent); }
    case Handles(i) => if i < |net.links| && net.links[i].tasks != [] { HandleAccounted(net, i, m, sent); }
    case Refreshes(i) => if i < |net.slaves| { RefreshAccounted(net, i, m, sent); }
  }

  function TotalSends(events: seq<Event>, m: Message, slaves: nat): nat {
    if events == [] then 0
    else TotalSends(events[..|events| - 1], m, slaves) + Sends(events[|events| - 1], m, slaves)
  }

  lemma {:induction false} RunAccounted(net: Net, events: seq<Event>, m: Message)
    requires Accounted(net, m, 0) && forall k :: 0 <= k < |events| ==> IsTraffic(events[k])
    ensures Accounted(Steps(net, events), m, TotalSends(events, m, |net.slaves|))
    decreases |events|
  {
    if events != [] {
      var front, e := events[..|events| - 1], events[|events| - 1];
      RunAccounted(net, front, m);
      StepAccounted(Steps(net, front), e, m, TotalSends(front, m, |net.slaves|));
    }
  }

  /** A message nobody has sent yet. */
  ghost predicate Unsent(net: Net, m: Message) {
    net.raised[m] == 0 && (forall a :: net.master.delivered[(a, m)] == 0) &&
    (forall i, a :: 0 <= i < |net.slaves| ==> net.slaves[i].delivered[(a, m)] == 0) &&
    (forall i :: 0 <= i < |net.links| ==> Up(net.links[i], m) == Down(net.links[i], m) == net.links[i].printed[m] == 0)
  }

  ghost predicate AllCovered(net: Net) {
    Wired(net) && forall i :: 0 <= i < |net.links| ==> Covered(net.links[i], net.slaves[i])
  }

  lemma {:induction false} NoneUp(links: seq<Link>, m: Message)
    requires forall i :: 0 <= i < |links| ==> Up(links[i], m) == 0
    ensures AllUp(links, m) == 0
  {
    if links != [] { NoneUp(links[..|links| - 1], m); }
  }

  /** Every agent of a container that m is for has had it exactly once: each subscriber of the topic, or the
      agent addressed, if it is here. */
  ghost predicate AllServed(s: Site, m: Message) {
    if m.recipient.isTopic then
      m.recipient in s.topics ==> forall a :: a in s.topics[m.recipient] ==> s.delivered[(a, m)] == 1
    else m.recipient in s.agents ==> s.delivered[(m.recipient, m)] == 1
  }

  /** None of them has had it more than once, and nobody else has had it. */
  ghost predicate NobodyElse(s: Site, m: Message) {
    forall a :: s.delivered[(a, m)] <=
      if m.recipient.isTopic then if m.recipient in s.topics && a in s.topics[m.recipient] then 1 else 0
      else if a == m.recipient && a in s.agents then 1 else 0
  }

  lemma BalancedMeans(s: Site, m: Message, pending: nat)
    requires Balanced(s, m, pending, 1)
    ensures NobodyElse(s, m) && (pending == 0 ==> AllServed(s, m))
  {
    forall a ensures s.delivered[(a, m)] == if a in Receivers(s, m) then 1 - pending else 0 {}
  }

  /** Nothing of m is queued anywhere. */
  ghost predicate Drained(net: Net, m: Message) {
    forall i :: 0 <= i < |net.links| ==> Up(net.links[i], m) == 0 && Down(net.links[i], m) == 0
  }

  /**
   Exactly-once delivery.  From any state in which all watch lists, held or on their way, are empty or
   cover the slaves' wants, let m be sent once, by the master or by any slave, and let anything but a
   change of agents or subscriptions happen in any order.  Then at every moment each agent m is for (each
   subscriber of the topic in every container, the sending slave included, or the one holder of the address)
   has had it at most once and nobody else has had it; m has gone up at most once and down each connection
   at most once; and as soon as no copy is queued, every receiver has had it exactly once.
   */
  lemma ExactlyOnce(net: Net, events: seq<Event>, m: Message)
    requires AllCovered(net) && Unique(net, m) && Unsent(net, m)
    requires forall k :: 0 <= k < |events| ==> IsTraffic(events[k])
    requires TotalSends(events, m, |net.slaves|) == 1
    ensures var end := Steps(net, events);
            NobodyElse(end.master, m) && (forall i :: 0 <= i < |end.slaves| ==> NobodyElse(end.slaves[i], m)) &&
            end.raised[m] <= 1 && (forall i :: 0 <= i < |end.links| ==> end.links[i].printed[m] <= 1) &&
            (Drained(end, m) ==>
               AllServed(end.master, m) && forall i :: 0 <= i < |end.slaves| ==> AllServed(end.slaves[i], m))
  {
    hide AllUp, Covered, Up, Down, ToPrint, Step, Balanced, NobodyElse, AllServed, Unique, AllCovered, Unsent;
    CoveredIsWired(net);
    StartAccounted(net, m);
    RunAccounted(net, events, m);
    var end := Steps(net, events);
    if Drained(end, m) { NoneUp(end.links, m); }
    BalancedMeans(end.master, m, AllUp(end.links, m));
    forall i | 0 <= i < |end.links|
      ensures NobodyElse(end.slaves[i], m) && end.links[i].printed[m] <= 1
      ensures Drained(end, m) ==> AllServed(end.slaves[i], m)
    {
      assert LinkAccounted(end.links[i], end.slaves[i], m, AllUp(end.links, m), 1);
      BalancedMeans(end.slaves[i], m, AllUp(end.links, m) + Down(end.links[i], m));
    }
  }

  lemma StartAccounted(net: Net, m: Message)
    requires AllCovered(net) && Unique(net, m) && Unsent(net, m)
    ensures Accounted(net, m, 0)
  {
    hide AllUp, Receivers, Covered, InPool, OnWire, Unique;
    NoneUp(net.links, m);
    forall i | 0 <= i < |net.links| ensures LinkAccounted(net.links[i], net.slaves[i], m, 0, 0) {}
  }

  // ---------------------------------------------------------------------------
  // The queues drain
  // ---------------------------------------------------------------------------

  function Cost(t: Task, w: nat): nat { if t.Run? then w else 3 }

  function PoolCost(pool: seq<Task>, w: nat): nat {
    if pool == [] then 0 else PoolCost(pool[..|pool| - 1], w) + Cost(pool[|pool| - 1], w)
  }

  function WireCost(up: seq<Frame>, w: nat): nat {
    if up == [] then 0 else WireCost(up[..|up| - 1], w) + w + 1
  }

  function LinkCost(l: Link, w: nat): nat { WireCost(l.up, w) + PoolCost(l.pool, w) + 2 * |l.down| + |l.tasks| }

  /** Work left: a line from a slave weighs more than all the copies the master may make of it. */
  function Work(links: seq<Link>, w: nat): nat {
    if links == [] then 0 else Work(links[..|links| - 1], w) + LinkCost(links[|links| - 1], w)
  }

  function Weight(net: Net): nat { 3 * |net.links| + 1 }

  lemma {:induction false} WorkUpdate(links: seq<Link>, i: nat, l: Link, w: nat)
    requires i < |links|
    ensures Work(links[i := l], w) == Work(links, w) - LinkCost(links[i], w) + LinkCost(l, w)
  {
    var front, last := links[..|links| - 1], |links| - 1;
    if i < last {
      WorkUpdate(front, i, l, w);
      assert links[i := l][..last] == front[i := l];
    } else {
      assert links[i := l][..last] == front;
    }
  }

  lemma {:induction false} PoolCostQueue(pool: seq<Task>, t: Task, w: nat)
    ensures PoolCost(pool + [t], w) == PoolCost(pool, w) + Cost(t, w)
    ensures pool != [] ==> PoolCost(pool, w) == Cost(pool[0], w) + PoolCost(pool[1..], w)
    decreases |pool|
  {
    assert (pool + [t])[..|pool|] == pool;
    if |pool| > 1 {
      PoolCostQueue(pool[..|pool| - 1], t, w);
      assert pool[1..][..|pool| - 2] == pool[..|pool| - 1][1..];
    }
  }

  lemma {:induction false} WireCostTail(up: seq<Frame>, w: nat)
    requires up != []
    ensures WireCost(up, w) == w + 1 + WireCost(up[1..], w)
  {
    if |up| > 1 {
      WireCostTail(up[..|up| - 1], w);
      assert up[1..][..|up| - 2] == up[..|up| - 1][1..];
    }
  }

  lemma {:induction false} FanOutWork(links: seq<Link>, x: Message, w: nat)
    ensures Work(FanOut(links, x), w) <= Work(links, w) + 3 * |links|
  {
    if links != [] {
      var front, l := links[..|links| - 1], links[|links| - 1];
      FanOutWork(front, x, w);
      PoolCostQueue(l.pool, Println(x), w);
      assert FanOut(links, x)[..|links| - 1] == FanOut(front, x);
    }
  }

  predicate IsDelivery(net: Net, e: Event) {
    (e.Arrives? && e.i < |net.links| && net.links[e.i].up != []) ||
    (e.Executes? && e.i < |net.links| && net.links[e.i].pool != []) ||
    (e.Returns? && e.i < |net.links| && net.links[e.i].down != []) ||
    (e.Handles? && e.i < |net.links| && net.links[e.i].tasks != [])
  }

  /** Every step that takes something from a queue leaves less work to do. */
  lemma DeliveryDrains(net: Net, e: Event)
    requires Wired(net) && IsDelivery(net, e)
    ensures Work(Step(net, e).links, Weight(net)) < Work(net.links, Weight(net))
    ensures Weight(Step(net, e)) == Weight(net)
  {
    hide Work, PoolCost, WireCost;
    var w := Weight(net);
    var l := net.links[e.i];
    match e
    case Arrives(i) =>
      WireCostTail(l.up, w);
      PoolCostQueue(l.pool, Run(l.up[0]), w);
      WorkUpdate(net.links, i, l.(up := l.up[1..], pool := l.pool + [Run(l.up[0])]), w);
    case Executes(i) => ExecuteDrains(net, i);
    case Returns(i) => WorkUpdate(net.links, i, l.(down := l.down[1..], tasks := l.tasks + [l.down[0]]), w);
    case Handles(i) => WorkUpdate(net.links, i, l.(tasks := l.tasks[1..]), w);
  }

  lemma ExecuteDrains(net: Net, i: nat)
    requires Wired(net) && i < |net.links| && net.links[i].pool != []
    ensures Work(Execute(net, i).links, Weight(net)) < Work(net.links, Weight(net))
    ensures |Execute(net, i).links| == |net.links|
  {
    hide Work, PoolCost, WireCost;
    var w := Weight(net);
    var l0 := net.links[i];
    var l := l0.(pool := l0.pool[1..]);
    PoolCostQueue(l0.pool, l0.pool[0], w);
    match l0.pool[0]
    case Println(x) => WorkUpdate(net.links, i, l.(down := l.down + [x], printed := l.printed + multiset{x}), w);
    case Run(WantsMessagesFor(list)) => WorkUpdate(net.links, i, l.(watch := list), w);
    case Run(Send(x, known)) =>
      var l1 := l.(heard := l.heard + known);
      WorkUpdate(net.links, i, l1, w);
      FanOutWork(net.links[i := l1], x, w);
  }

  /** With no work left nothing is queued; with work left some delivery step is possible. */
  lemma {:induction false} WorkOrDrained(net: Net, m: Message)
    requires Wired(net)
    ensures Work(net.links, Weight(net)) == 0 ==> Drained(net, m)
    ensures Work(net.links, Weight(net)) > 0 ==> exists e :: IsDelivery(net, e)
  {
    var w := Weight(net);
    if i :| 0 <= i < |net.links| && LinkCost(net.links[i], w) > 0 {
      WorkUpdate(net.links, i, net.links[i].(up := [], pool := [], down := [], tasks := []), w);
      var l := net.links[i];
      if l.up != [] { assert IsDelivery(net, Arrives(i)); }
      else if l.pool != [] { assert IsDelivery(net, Executes(i)); }
      else if l.down != [] { assert IsDelivery(net, Returns(i)); }
      else { assert IsDelivery(net, Handles(i)); }
    } else {
      NoWork(net.links, w);
      forall i | 0 <= i < |net.links| ensures Up(net.links[i], m) == 0 && Down(net.links[i], m) == 0 {
        CostEmpty(net.links[i], w);
      }
    }
  }

  /** Each event takes something from a queue when its turn comes. */
  predicate OnlyDeliveries(net: Net, events: seq<Event>)
    requires Wired(net)
    decreases |events|
  {
    events == [] ||
    (OnlyDeliveries(net, events[..|events| - 1]) &&
     IsDelivery(Steps(net, events[..|events| - 1]), events[|events| - 1]))
  }

  /** Delivery steps cannot go on for more steps than there is work. */
  lemma {:induction false} DeliveriesEnd(net: Net, events: seq<Event>)
    requires Wired(net) && OnlyDeliveries(net, events)
    ensures |events| + Work(Steps(net, events).links, Weight(net)) <= Work(net.links, Weight(net))
    ensures Weight(Steps(net, events)) == Weight(net)
    decreases |events|
  {
    hide Step, Work, Weight, IsDelivery;
    if events != [] {
      DeliveriesEnd(net, events[..|events| - 1]);
      DeliveryDrains(Steps(net, events[..|events| - 1]), events[|events| - 1]);
    }
  }

  /** And when no delivery step is possible any more, nothing is queued. */
  lemma MaximalIsDrained(net: Net, m: Message)
    requires Wired(net) && forall e :: !IsDelivery(net, e)
    ensures Drained(net, m)
  {
    hide IsDelivery, Work, Drained;
    WorkOrDrained(net, m);
  }

  lemma {:induction false} StepsOver(net: Net, first: seq<Event>, more: seq<Event>)
    requires Wired(net)
    ensures Steps(net, first + more) == Steps(Steps(net, first), more)
    decreases |more|
  {
    hide Step;
    if more == [] {
      assert first + more == first;
    } else {
      StepsOver(net, first, more[..|more| - 1]);
      assert (first + more)[..|first + more| - 1] == first + more[..|more| - 1];
    }
  }

  lemma {:induction false} DeliveriesAreTraffic(net: Net, events: seq<Event>, m: Message)
    requires Wired(net) && OnlyDeliveries(net, events)
    ensures (forall k :: 0 <= k < |events| ==> IsTraffic(events[k])) && TotalSends(events, m, |net.slaves|) == 0
    decreases |events|
  {
    hide Steps;
    if events != [] { DeliveriesAreTraffic(net, events[..|events| - 1], m); }
  }

  lemma {:induction false} SendsOver(first: seq<Event>, more: seq<Event>, m: Message, slaves: nat)
    ensures TotalSends(first + more, m, slaves) == TotalSends(first, m, slaves) + TotalSends(more, m, slaves)
    decreases |more|
  {
    if more == [] {
      assert first + more == first;
    } else {
      SendsOver(first, more[..|more| - 1], m, slaves);
      assert (first + more)[..|first + more| - 1] == first + more[..|more| - 1];
    }
  }

  /**
   Delivery is bound to happen: after any traffic in which m was sent once, let delivery steps follow, in
   any order, until none is possible.  There are at most as many as there is work, and every agent that m
   is for has then had it exactly once.
   */
  lemma EveryoneIsServed(net: Net, events: seq<Event>, rest: seq<Event>, m: Message)
    requires AllCovered(net) && Unique(net, m) && Unsent(net, m)
    requires forall k :: 0 <= k < |events| ==> IsTraffic(events[k])
    requires TotalSends(events, m, |net.slaves|) == 1
    requires OnlyDeliveries(Steps(net, events), rest)
    requires forall e :: !IsDelivery(Steps(Steps(net, events), rest), e)
    ensures var mid := Steps(net, events);
            var end := Steps(mid, rest);
            |rest| <= Work(mid.links, Weight(mid)) &&
            AllServed(end.master, m) && forall i :: 0 <= i < |end.slaves| ==> AllServed(end.slaves[i], m)
  {
    hide Step, Steps, Work, Weight, OnlyDeliveries, IsDelivery, AllServed, AllCovered, Unique, Unsent, Drained;
    hide IsTraffic;
    CoveredIsWired(net);
    DeliveriesEnd(Steps(net, events), rest);
    DeliveriesAreTraffic(Steps(net, events), rest, m);
    SendsOver(events, rest, m, |net.slaves|);
    StepsOver(net, events, rest);
    MaximalIsDrained(Steps(Steps(net, events), rest), m);
    ExactlyOnce(net, events + rest, m);
  }

  lemma CoveredIsWired(net: Net)
    requires AllCovered(net)
    ensures Wired(net)
  {
  }

  lemma {:induction false} NoWork(links: seq<Link>, w: nat)
    requires forall i :: 0 <= i < |links| ==> LinkCost(links[i], w) == 0
    ensures Work(links, w) == 0
  {
    if links != [] { NoWork(links[..|links| - 1], w); }
  }

  lemma CostEmpty(l: Link, w: nat)
    requires w > 0 && LinkCost(l, w) == 0
    ensures l.up == [] && l.pool == [] && l.down == [] && l.tasks == []
  {
  }

  // ---------------------------------------------------------------------------
  // Watch lists
  // ---------------------------------------------------------------------------

  predicate Passes(watch: set<AgentID>, ids: set<AgentID>) { watch == {} || ids <= watch }

  /** Read from the front of the queue, with the list the master then holds and the ids it must
      know of: lists never take away an id the master has heard about, and a line arrives only
      when every id announced before it is on the list (or the list is empty). */
  predicate PoolSafe(pool: seq<Task>, up: seq<Frame>, watch: set<AgentID>, heard: set<AgentID>, told: set<AgentID>)
    decreases |pool|
  {
    if pool == [] then WireSafe(up, watch, heard, told)
    else
      Passes(watch, heard) &&
      match pool[0]
      case Println(_) => PoolSafe(pool[1..], up, watch, heard, told)
      case Run(Send(_, known)) => PoolSafe(pool[1..], up, watch, heard + known, told)
      case Run(WantsMessagesFor(list)) => PoolSafe(pool[1..], up, list, heard, told)
  }

  predicate WireSafe(up: seq<Frame>, watch: set<AgentID>, heard: set<AgentID>, told: set<AgentID>)
    decreases |up|
  {
    Passes(watch, heard) &&
    if up == [] then heard <= told && Passes(watch, told)
    else match up[0]
      case Send(_, known) => WireSafe(up[1..], watch, heard + known, told)
      case WantsMessagesFor(list) => WireSafe(up[1..], list, heard, told)
  }

  /** The list the master will hold once everything queued has been executed. */
  function FinalPool(pool: seq<Task>, watch: set<AgentID>): set<AgentID> {
    if pool == [] then watch
    else FinalPool(pool[1..], match pool[0] case Run(WantsMessagesFor(list)) => list case _ => watch)
  }

  function FinalList(up: seq<Frame>, watch: set<AgentID>): set<AgentID> {
    if up == [] then watch
    else FinalList(up[1..], match up[0] case WantsMessagesFor(list) => list case _ => watch)
  }

  /** The list last sent, by the slave's own cache. */
  function LastSent(l: Link): set<AgentID> { if l.cache.Unset? then {} else l.cache.list }

  ghost predicate LinkSafe(l: Link, s: Site) {
    PoolSafe(l.pool, l.up, l.watch, l.heard, l.told) &&
    FinalList(l.up, FinalPool(l.pool, l.watch)) == LastSent(l) &&
    l.told <= Wanted(s)
  }

  /** Everything may have happened before: agents and subscriptions coming and going, lists sent
      or not, lines in flight. */
  ghost predicate Safe(net: Net) {
    Wired(net) && forall i :: 0 <= i < |net.links| ==> LinkSafe(net.links[i], net.slaves[i])
  }

  lemma {:induction false} WireAppend(up: seq<Frame>, f: Frame, watch: set<AgentID>,
                                      heard: set<AgentID>, told: set<AgentID>)
    requires WireSafe(up, watch, heard, told)
    ensures f.Send? && f.known <= told ==> WireSafe(up + [f], watch, heard, told)
    ensures forall told' :: f == WantsMessagesFor(told') && told <= told' ==> WireSafe(up + [f], watch, heard, told')
    ensures FinalList(up + [f], watch) == match f case WantsMessagesFor(list) => list case _ => FinalList(up, watch)
    decreases |up|
  {
    if up == [] {
      assert (up + [f])[1..] == [];
    } else {
      assert (up + [f])[1..] == up[1..] + [f] && (up + [f])[0] == up[0];
      match up[0]
      case Send(_, known) => WireAppend(up[1..], f, watch, heard + known, told);
      case WantsMessagesFor(list) => WireAppend(up[1..], f, list, heard, told);
    }
  }

  lemma {:induction false} PoolAppendFrame(pool: seq<Task>, up: seq<Frame>, f: Frame, watch: set<AgentID>,
                                           heard: set<AgentID>, told: set<AgentID>, told': set<AgentID>)
    requires PoolSafe(pool, up, watch, heard, told)
    requires (f.Send? && f.known <= told && told' == told) || (f == WantsMessagesFor(told') && told <= told')
    ensures PoolSafe(pool, up + [f], watch, heard, told')
    decreases |pool|
  {
    if pool == [] {
      WireAppend(up, f, watch, heard, told);
    } else {
      match pool[0]
      case Println(_) => PoolAppendFrame(pool[1..], up, f, watch, heard, told, told');
      case Run(Send(_, known)) => PoolAppendFrame(pool[1..], up, f, watch, heard + known, told, told');
      case Run(WantsMessagesFor(list)) => PoolAppendFrame(pool[1..], up, f, list, heard, told, told');
    }
  }

  /** A print task at the end of the pool changes nothing; a line read goes from wire to pool. */
  lemma {:induction false} PoolAppendTask(pool: seq<Task>, up: seq<Frame>, m: Message,
                                          watch: set<AgentID>, heard: set<AgentID>, told: set<AgentID>)
    ensures PoolSafe(pool + [Println(m)], up, watch, heard, told) == PoolSafe(pool, up, watch, heard, told)
    ensures FinalPool(pool + [Println(m)], watch) == FinalPool(pool, watch)
    ensures up != [] ==>
              PoolSafe(pool + [Run(up[0])], up[1..], watch, heard, told) == PoolSafe(pool, up, watch, heard, told) &&
              FinalList(up[1..], FinalPool(pool + [Run(up[0])], watch)) == FinalList(up, FinalPool(pool, watch))
    decreases |pool|
  {
    if pool == [] {
      assert ([Println(m)])[1..] == [];
      if up != [] {
        var one := [Run(up[0])];
        assert one[1..] == [] && pool + one == one;
        match up[0]
        case Send(_, known) =>
          assert PoolSafe(one[1..], up[1..], watch, heard + known, told) ==
                 WireSafe(up[1..], watch, heard + known, told);
        case WantsMessagesFor(list) =>
          assert PoolSafe(one[1..], up[1..], list, heard, told) == WireSafe(up[1..], list, heard, told);
      }
    } else {
      assert (pool + [Println(m)])[1..] == pool[1..] + [Println(m)];
      if up != [] { assert (pool + [Run(up[0])])[1..] == pool[1..] + [Run(up[0])]; }
      match pool[0]
      case Println(_) => PoolAppendTask(pool[1..], up, m, watch, heard, told);
      case Run(Send(_, known)) => PoolAppendTask(pool[1..], up, m, watch, heard + known, told);
      case Run(WantsMessagesFor(list)) => PoolAppendTask(pool[1..], up, m, list, heard, told);
    }
  }

  lemma {:induction false} WireForget(up: seq<Frame>, up': seq<Frame>, watch: set<AgentID>,
                                      heard: set<AgentID>, told: set<AgentID>, wanted: set<AgentID>)
    requires WireSafe(up, watch, heard, told) && |up| == |up'|
    requires forall k :: 0 <= k < |up| ==> up'[k] == ForgetFrame(up[k], wanted)
    ensures WireSafe(up', watch, heard * wanted, told * wanted)
    ensures FinalList(up', watch) == FinalList(up, watch)
    decreases |up|
  {
    if up != [] {
      match up[0]
      case Send(_, known) =>
        WireForget(up[1..], up'[1..], watch, heard + known, told, wanted);
        assert (heard + known) * wanted == heard * wanted + known * wanted;
      case WantsMessagesFor(list) => WireForget(up[1..], up'[1..], list, heard, told, wanted);
    }
  }

  lemma {:induction false} PoolForget(pool: seq<Task>, pool': seq<Task>, up: seq<Frame>, up': seq<Frame>,
                                          watch: set<AgentID>,
                                      heard: set<AgentID>, told: set<AgentID>, wanted: set<AgentID>)
    requires PoolSafe(pool, up, watch, heard, told) && |up| == |up'| && |pool| == |pool'|
    requires forall k :: 0 <= k < |up| ==> up'[k] == ForgetFrame(up[k], wanted)
    requires forall k :: 0 <= k < |pool| ==> pool'[k] == ForgetTask(pool[k], wanted)
    ensures PoolSafe(pool', up', watch, heard * wanted, told * wanted)
    ensures FinalPool(pool', watch) == FinalPool(pool, watch)
    decreases |pool|
  {
    if pool == [] {
      WireForget(up, up', watch, heard, told, wanted);
    } else {
      match pool[0]
      case Println(_) => PoolForget(pool[1..], pool'[1..], up, up', watch, heard, told, wanted);
      case Run(Send(_, known)) =>
        PoolForget(pool[1..], pool'[1..], up, up', watch, heard + known, told, wanted);
        assert (heard + known) * wanted == heard * wanted + known * wanted;
      case Run(WantsMessagesFor(list)) => PoolForget(pool[1..], pool'[1..], up, up', list, heard, told, wanted);
    }
  }

  lemma PrintSafe(l: Link, s: Site, m: Message)
    requires LinkSafe(l, s)
    ensures LinkSafe(PrintTo(l, m), s)
  {
    PoolAppendTask(l.pool, l.up, m, l.watch, l.heard, l.told);
  }

  lemma MasterSendSafe(net: Net, m: Message)
    requires Safe(net)
    ensures Safe(MasterSend(net, m))
  {
    hide LinkSafe, LocalSend;
    forall i | 0 <= i < |net.links| ensures LinkSafe(PrintTo(net.links[i], m), net.slaves[i]) {
      PrintSafe(net.links[i], net.slaves[i], m);
    }
  }

  lemma SlaveSendSafe(net: Net, i: nat, m: Message)
    requires Safe(net) && i < |net.slaves|
    ensures Safe(SlaveSend(net, i, m))
  {
    var l := net.links[i];
    var f := Send(m, l.told);
    assert LinkSafe(l, net.slaves[i]);
    PoolAppendFrame(l.pool, l.up, f, l.watch, l.heard, l.told, l.told);
    WireAppendFinal(l.up, f, FinalPool(l.pool, l.watch));
  }

  lemma {:induction false} WireAppendFinal(up: seq<Frame>, f: Frame, watch: set<AgentID>)
    ensures FinalList(up + [f], watch) == match f case WantsMessagesFor(list) => list case _ => FinalList(up, watch)
    decreases |up|
  {
    if up != [] {
      assert (up + [f])[1..] == up[1..] + [f];
      WireAppendFinal(up[1..], f, match up[0] case WantsMessagesFor(list) => list case _ => watch);
    } else {
      assert (up + [f])[1..] == [];
    }
  }

  lemma ExecuteSafe(net: Net, i: nat)
    requires Safe(net) && i < |net.links| && net.links[i].pool != []
    ensures Safe(Execute(net, i))
  {
    var l0 := net.links[i];
    var l := l0.(pool := l0.pool[1..]);
    assert LinkSafe(l0, net.slaves[i]);
    match l0.pool[0]
    case Run(Send(m, known)) =>
      var net1 := net.(links := net.links[i := l.(heard := l.heard + known)]);
      assert Safe(net1);
      MasterSendSafe(net1, m);
    case _ =>
  }

  lemma RefreshSafe(l: Link, s: Site)
    requires LinkSafe(l, s)
    ensures LinkSafe(Refresh(l, Wanted(s)), s)
  {
    var wanted := Wanted(s);
    if l.cache == Cached(wanted) {
      RaiseTold(l.pool, l.up, l.watch, l.heard, l.told, wanted);
    } else {
      PoolAppendFrame(l.pool, l.up, WantsMessagesFor(wanted), l.watch, l.heard, l.told, wanted);
      WireAppendFinal(l.up, WantsMessagesFor(wanted), FinalPool(l.pool, l.watch));
    }
  }

  /** Everything on the list last sent may be counted as announced. */
  lemma {:induction false} RaiseTold(pool: seq<Task>, up: seq<Frame>, watch: set<AgentID>,
                                     heard: set<AgentID>, told: set<AgentID>, told': set<AgentID>)
    requires PoolSafe(pool, up, watch, heard, told) && told <= told'
    requires FinalList(up, FinalPool(pool, watch)) == told'
    ensures PoolSafe(pool, up, watch, heard, told')
    decreases |pool| + |up|
  {
    if pool != [] {
      match pool[0]
      case Println(_) => RaiseTold(pool[1..], up, watch, heard, told, told');
      case Run(Send(_, known)) => RaiseTold(pool[1..], up, watch, heard + known, told, told');
      case Run(WantsMessagesFor(list)) => RaiseTold(pool[1..], up, list, heard, told, told');
    } else if up != [] {
      match up[0]
      case Send(_, known) => RaiseTold([], up[1..], watch, heard + known, told, told');
      case WantsMessagesFor(list) => RaiseTold([], up[1..], list, heard, told, told');
    }
  }

  lemma StepSafe(net: Net, e: Event)
    requires Safe(net)
    ensures Safe(Step(net, e))
  {
    match e
    case MasterSends(m) => MasterSendSafe(net, m);
    case SlaveSends(i, m) => if i < |net.slaves| { SlaveSendSafe(net, i, m); }
    case Arrives(i) =>
      if i < |net.links| && net.links[i].up != [] {
        var l := net.links[i];
        assert LinkSafe(l, net.slaves[i]);
        PoolAppendTask(l.pool, l.up, Message(0, AgentID("", false)), l.watch, l.heard, l.told);
      }
    case Executes(i) => if i < |net.links| && net.links[i].pool != [] { ExecuteSafe(net, i); }
    case Returns(i) => if i < |net.links| { assert LinkSafe(net.links[i], net.slaves[i]); }
    case Handles(i) => if i < |net.links| { assert LinkSafe(net.links[i], net.slaves[i]); }
    case Configures(i, op) =>
      if i < |net.slaves| {
        var l, wanted := net.links[i], Wanted(Apply(net.slaves[i], op).0);
        var l' := Forget(l, wanted);
        assert LinkSafe(l, net.slaves[i]);
        PoolForget(l.pool, l'.pool, l.up, l'.up, l.watch, l.heard, l.told, wanted);
        WireForgetFinal(l.up, l'.up, FinalPool(l.pool, l.watch), wanted);
      }
    case Refreshes(i) =>
      if i < |net.slaves| {
        assert LinkSafe(net.links[i], net.slaves[i]);
        RefreshSafe(net.links[i], net.slaves[i]);
      }
    case MasterConfigures(op) =>
  }

  lemma {:induction false} WireForgetFinal(up: seq<Frame>, up': seq<Frame>, watch: set<AgentID>, wanted: set<AgentID>)
    requires |up| == |up'| && forall k :: 0 <= k < |up| ==> up'[k] == ForgetFrame(up[k], wanted)
    ensures FinalList(up', watch) == FinalList(up, watch)
    decreases |up|
  {
    if up != [] {
      WireForgetFinal(up[1..], up'[1..], match up[0] case WantsMessagesFor(list) => list case _ => watch, wanted);
    }
  }

  /** A system that has just been connected: empty queues and lists, whatever agents and subscriptions
      the slaves already have. */
  ghost predicate Fresh(net: Net) {
    Wired(net) && forall i :: 0 <= i < |net.links| ==>
      net.links[i] == Link([], [], [], [], {}, Unset, {}, {}, multiset{})
  }

  lemma {:induction false} RunSafe(net: Net, events: seq<Event>)
    requires Fresh(net)
    ensures Safe(Steps(net, events))
    decreases |events|
  {
    hide Step;
    if events == [] {
      forall i | 0 <= i < |net.links| ensures LinkSafe(net.links[i], net.slaves[i]) {}
    } else {
      RunSafe(net, events[..|events| - 1]);
      StepSafe(Steps(net, events[..|events| - 1]), events[|events| - 1]);
    }
  }

  predicate NoListInFlight(l: Link) {
    (forall k :: 0 <= k < |l.up| ==> l.up[k].Send?) &&
    (forall k :: 0 <= k < |l.pool| ==> l.pool[k].Run? ==> l.pool[k].frame.Send?)
  }

  lemma {:induction false} FinalIsCurrent(pool: seq<Task>, up: seq<Frame>, watch: set<AgentID>)
    requires forall k :: 0 <= k < |up| ==> up[k].Send?
    requires forall k :: 0 <= k < |pool| ==> pool[k].Run? ==> pool[k].frame.Send?
    ensures FinalList(up, FinalPool(pool, watch)) == watch
    decreases |pool| + |up|
  {
    if pool != [] { FinalIsCurrent(pool[1..], up, watch); }
    else if up != [] { FinalIsCurrent([], up[1..], watch); }
  }

  lemma {:induction false} PoolSafeEnds(pool: seq<Task>, up: seq<Frame>, watch: set<AgentID>,
                                        heard: set<AgentID>, told: set<AgentID>)
    requires PoolSafe(pool, up, watch, heard, told)
    ensures Passes(watch, heard) && heard <= told && Passes(FinalList(up, FinalPool(pool, watch)), told)
    decreases |pool| + |up|
  {
    if pool != [] {
      match pool[0]
      case Println(_) => PoolSafeEnds(pool[1..], up, watch, heard, told);
      case Run(Send(_, known)) => PoolSafeEnds(pool[1..], up, watch, heard + known, told);
      case Run(WantsMessagesFor(list)) => PoolSafeEnds(pool[1..], up, list, heard, told);
    } else if up != [] {
      match up[0]
      case Send(_, known) => PoolSafeEnds([], up[1..], watch, heard + known, told);
      case WantsMessagesFor(list) => PoolSafeEnds([], up[1..], list, heard, told);
    }
  }

  /**
   Watch-list safety, on every run from a fresh system, with agents and subscriptions coming and
   going at any time.  (1) The master never filters out a message for an id it has heard about.
   (2) When it executes a line from a slave, it already wants everything the slave had announced
   before sending that line.  (3) With no list on its way, the list it holds is the one the slave
   last sent, or empty if none was ever sent.  (4) What a slave has announced it still wants.
   */
  lemma WatchListsAreSafe(net: Net, events: seq<Event>, i: nat)
    requires Fresh(net) && i < |net.links|
    ensures var end := Steps(net, events);
            var l := end.links[i];
            (forall id :: id in l.heard ==> Wants(l.watch, id)) &&
            (l.pool != [] && l.pool[0].Run? && l.pool[0].frame.Send? ==>
               forall id :: id in l.pool[0].frame.known ==> Wants(l.watch, id)) &&
            (NoListInFlight(l) ==> l.watch == LastSent(l) && forall id :: id in l.told ==> Wants(l.watch, id)) &&
            l.heard <= l.told <= Wanted(end.slaves[i])
  {
    RunSafe(net, events);
    var l := Steps(net, events).links[i];
    assert LinkSafe(l, Steps(net, events).slaves[i]);
    PoolSafeEnds(l.pool, l.up, l.watch, l.heard, l.told);
    if l.pool != [] && l.pool[0].Run? && l.pool[0].frame.Send? {
      PoolSafeEnds(l.pool[1..], l.up, l.watch, l.heard + l.pool[0].frame.known, l.told);
    }
    if NoListInFlight(l) { FinalIsCurrent(l.pool, l.up, l.watch); }
  }

  /** What the bookkeeping stands for, step by step.  A line sent up is counted as raised, and one sent down as
      printed.  An id counts as announced from the refresh
      that finds it wanted until it is no longer wanted; a line carries what was announced when it
      was sent, and once executed the master has heard of that, again until it is unwanted. */
  lemma Bookkeeping(net: Net, e: Event, i: nat, id: AgentID)
    requires Wired(net) && i < |net.links|
    ensures var net' := Step(net, e);
            var l, l', s' := net.links[i], net'.links[i], net'.slaves[i];
            (e == Refreshes(i) && id in Wanted(s') ==> id in l'.told) &&
            (id in l.told && id in Wanted(s') ==> id in l'.told) &&
            (id in l.heard && id in Wanted(s') ==> id in l'.heard) &&
            (e.SlaveSends? && e.i == i && l'.up != l.up ==>
               l'.up == l.up + [Send(e.m, l.told)] && net'.raised == net.raised + multiset{e.m}) &&
            (e == Executes(i) && l.pool != [] && l.pool[0].Println? ==>
               l'.down == l.down + [l.pool[0].message] && l'.printed == l.printed + multiset{l.pool[0].message}) &&
            (e == Executes(i) && l.pool != [] && l.pool[0].Run? && l.pool[0].frame.Send? ==>
               l.pool[0].frame.known <= l'.heard)
  {
    hide LocalSend;
    if e.Handles? && e.i < |net.links| && net.links[e.i].tasks != [] {
      LocalSendKeeps(net.slaves[e.i], net.links[e.i].tasks[0]);
    }
    if e.SlaveSends? && e.i < |net.slaves| { LocalSendKeeps(net.slaves[e.i], e.m); }
  }

  lemma LocalSendKeeps(s: Site, m: Message)
    ensures LocalSend(s, m).0.agents == s.agents && LocalSend(s, m).0.topics == s.topics
    ensures Wanted(LocalSend(s, m).0) == Wanted(s)
  {
  }

  /** Exactly when a copy sets out for a slave: the master does not keep the message to itself,
      and its list for that slave, at the moment of sending, is empty or names the recipient.  A
      subscription the list does not show yet misses the message for good. */
  lemma CopySetsOut(net: Net, m: Message, i: nat)
    requires Wired(net) && i < |net.links|
    ensures var kept := !m.recipient.isTopic && m.recipient in net.master.agents;
            var l, l' := net.links[i], Step(net, MasterSends(m)).links[i];
            Up(l', m) == Up(l, m) &&
            (Down(l', m) == Down(l, m) + 1 <==> !kept && Wants(l.watch, m.recipient)) &&
            (Down(l', m) == Down(l, m) <==> kept || !Wants(l.watch, m.recipient))
  {
    hide OnWire;
    PoolQueue(net.links[i].pool, Println(m), m);
  }

  /** Every slave has refreshed its list since its last change and the master has it, or the lists held and
      on their way cover its wants anyhow. */
  ghost predicate Settled(net: Net) {
    Wired(net) && forall i :: 0 <= i < |net.links| ==>
      (net.links[i].told == Wanted(net.slaves[i]) && NoListInFlight(net.links[i])) ||
      Covered(net.links[i], net.slaves[i])
  }

  lemma SettledIsCovered(l: Link, s: Site)
    requires NoListInFlight(l) ==> forall id :: id in l.told ==> Wants(l.watch, id)
    requires (l.told == Wanted(s) && NoListInFlight(l)) || Covered(l, s)
    ensures Covered(l, s)
  {
    hide Wanted;
    if l.told == Wanted(s) && l.watch != {} {
      forall id | id in Wanted(s) && NoListInFlight(l) ensures id in l.watch { assert Wants(l.watch, id); }
    }
  }

  /**
   The two halves together.  On any run from a fresh system that reaches a settled state, a
   message not sent before and then sent once, amid any traffic and refreshed lists, is delivered
   exactly once to every agent it is for, as soon as the queues have drained.
   */
  lemma DeliveredOnceAfterSettling(net: Net, before: seq<Event>, after: seq<Event>, m: Message)
    requires Fresh(net) && Settled(Steps(net, before))
    requires Unique(Steps(net, before), m) && Unsent(Steps(net, before), m)
    requires forall k :: 0 <= k < |after| ==> IsTraffic(after[k])
    requires TotalSends(after, m, |net.slaves|) == 1
    ensures var end := Steps(Steps(net, before), after);
            Drained(end, m) ==>
              AllServed(end.master, m) && forall i :: 0 <= i < |end.slaves| ==> AllServed(end.slaves[i], m)
  {
    hide AllServed, Step, Up, Down, Wanted, Covered, NoListInFlight, Wants;
    var mid := Steps(net, before);
    forall i | 0 <= i < |mid.links| ensures Covered(mid.links[i], mid.slaves[i]) {
      WatchListsAreSafe(net, before, i);
      SettledIsCovered(mid.links[i], mid.slaves[i]);
    }
    ExactlyOnce(mid, after, m);
  }

  lemma FreshIsReady(net: Net, m: Message)
    requires Fresh(net) && net.raised[m] == 0 && (forall a :: net.master.delivered[(a, m)] == 0)
    requires forall i, a :: 0 <= i < |net.slaves| ==> net.slaves[i].delivered[(a, m)] == 0
    ensures AllCovered(net) && Unsent(net, m)
  {
    hide Wanted;
    var none: seq<Message> := [];
    assert multiset(none) == multiset{};
  }

  /** With nothing assumed of queues or lists: from a fresh system, a message that nobody has had is sent once
      amid any traffic, and delivery steps follow until none is possible.  Then every agent it is for has had
      it exactly once. */
  lemma ServedFromTheStart(net: Net, events: seq<Event>, rest: seq<Event>, m: Message)
    requires Fresh(net) && Unique(net, m)
    requires net.raised[m] == 0 && (forall a :: net.master.delivered[(a, m)] == 0)
    requires forall i, a :: 0 <= i < |net.slaves| ==> net.slaves[i].delivered[(a, m)] == 0
    requires forall k :: 0 <= k < |events| ==> IsTraffic(events[k])
    requires TotalSends(events, m, |net.slaves|) == 1
    requires OnlyDeliveries(Steps(net, events), rest)
    requires forall e :: !IsDelivery(Steps(Steps(net, events), rest), e)
    ensures var end := Steps(Steps(net, events), rest);
            AllServed(end.master, m) && forall i :: 0 <= i < |end.slaves| ==> AllServed(end.slaves[i], m)
  {
    hide Steps, AllCovered, Unsent, Unique, AllServed, OnlyDeliveries, IsDelivery, IsTraffic;
    FreshIsReady(net, m);
    EveryoneIsServed(net, events, rest, m);
  }
}
