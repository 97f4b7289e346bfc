/**
 A container's agents, topics and local delivery (Container.java): the state as a value with
 one function per operation, and the class that updates its maps in place.
 */
module Containers {
  import opened Common

  /** A message, told apart from all others by its id. */
  datatype Message = Message(id: nat, recipient: AgentID)

  /**
   agents: the map from ids to agents (its keys).  topics: the subscribers of each topic.
   delivered: how often `deliver` has been called on an agent with a message.
   */
  datatype Site = Site(agents: set<AgentID>, topics: map<AgentID, set<AgentID>>,
                       delivered: multiset<(AgentID, Message)>)

  const EMPTY_SITE := Site({}, map[], multiset{})

  /** The topic a subscription really concerns: an agent stands for its notification topic. */
  function TopicOf(id: AgentID): AgentID {
    if id.isTopic then id else AgentID(id.name + "__ntf", true)
  }

  function Subscribers(s: Site, topic: AgentID): set<AgentID> {
    if topic in s.topics then s.topics[topic] else {}
  }

  /** The agents of this container that a message is for. */
  function Receivers(s: Site, m: Message): set<AgentID> {
    if m.recipient.isTopic then Subscribers(s, m.recipient)
    else if m.recipient in s.agents then {m.recipient} else {}
  }

  /** One delivery of m to each agent in a set. */
  function Deliveries(to: set<AgentID>, m: Message): multiset<(AgentID, Message)> {
    multiset(set a | a in to :: (a, m))
  }

  /** Container.send without relaying: what it delivers and what it answers. */
  function LocalSend(s: Site, m: Message): (Site, bool) {
    (s.(delivered := s.delivered + Deliveries(Receivers(s, m), m)),
     m.recipient.isTopic || m.recipient in s.agents)
  }

  datatype Op =
    | Add(agent: AgentID)
    | Kill(agent: AgentID)
    | Subscribe(agent: AgentID, topic: AgentID)
    | Unsubscribe(agent: AgentID, topic: AgentID)
    | UnsubscribeAll(agent: AgentID)

  /** A configuration operation: the new state, and whether it succeeded. */
  function Apply(s: Site, op: Op): (Site, bool) {
    match op
    case Add(a) => if a.name == "" || a in s.agents then (s, false) else (s.(agents := s.agents + {a}), true)
    case Kill(a) =>
      // the agent leaves the map before its subscriptions are looked up through that map
      if a !in s.agents then (s, false)
      else (RemoveAll(s.(agents := s.agents - {a}), a), true)
    case Subscribe(a, topic) =>
      var t := TopicOf(topic);
      if a !in s.agents then (s, false)
      else (s.(topics := s.topics[t := Subscribers(s, t) + {a}]), true)
    case Unsubscribe(a, topic) =>
      var t := TopicOf(topic);
      if a !in s.agents || t !in s.topics then (s, false)
      else (s.(topics := s.topics[t := s.topics[t] - {a}]), a in s.topics[t])
    case UnsubscribeAll(a) => (RemoveAll(s, a), true)
  }

  /** Container.unsubscribe(aid): only an agent still in the map loses its subscriptions. */
  function RemoveAll(s: Site, a: AgentID): Site {
    if a !in s.agents then s
    else s.(topics := map t | t in s.topics :: s.topics[t] - {a})
  }

  predicate IsSubscriber(s: Site, a: AgentID) {
    exists t :: t in s.topics && a in s.topics[t]
  }

  /** Whom a message is for in a container: the subscribers of its topic, or the agent it is addressed to, if
      it is here. */
  predicate IsFor(s: Site, m: Message, a: AgentID) {
    (m.recipient.isTopic && m.recipient in s.topics && a in s.topics[m.recipient]) ||
    (!m.recipient.isTopic && a == m.recipient && a in s.agents)
  }

  /** Sending in a container: one delivery of the message to everyone it is for, and no other delivery. */
  lemma SendReaches(s: Site, m: Message)
    ensures var (s', ok) := LocalSend(s, m);
            s'.agents == s.agents && s'.topics == s.topics &&
            (ok <==> m.recipient.isTopic || m.recipient in s.agents) &&
            forall a, x :: s'.delivered[(a, x)] == s.delivered[(a, x)] + if x == m && IsFor(s, m, a) then 1 else 0
  {
    hide Deliveries;
    forall a, x ensures Deliveries(Receivers(s, m), m)[(a, x)] == if x == m && IsFor(s, m, a) then 1 else 0 {
      DeliveriesCount(Receivers(s, m), m, a);
    }
  }

  /** Subscribing makes the agent a receiver of what is sent to the topic, or to the agent's notification
      topic if an agent is named, and changes nothing else; unsubscribing undoes exactly that. */
  lemma SubscribeThenUnsubscribe(s: Site, a: AgentID, topic: AgentID)
    requires a in s.agents
    ensures var (s1, ok1) := Apply(s, Subscribe(a, topic));
            var (s2, ok2) := Apply(s1, Unsubscribe(a, topic));
            var t := if topic.isTopic then topic else AgentID(topic.name + "__ntf", true);
            ok1 && ok2 && s1.agents == s2.agents == s.agents && s1.delivered == s2.delivered == s.delivered &&
            (forall m, b :: IsFor(s1, m, b) <==> IsFor(s, m, b) || (b == a && m.recipient == t)) &&
            (forall m, b :: IsFor(s2, m, b) <==> IsFor(s, m, b) && !(b == a && m.recipient == t))
  {
  }

  /** Different agents have different notification topics. */
  lemma NotificationTopics(a: AgentID, b: AgentID)
    requires !a.isTopic && !b.isTopic
    ensures TopicOf(a).isTopic && (TopicOf(a) == TopicOf(b) ==> a == b)
  {
    assert TopicOf(a).name[..|a.name|] == a.name && TopicOf(b).name[..|b.name|] == b.name;
  }

  /** Who may not subscribe or unsubscribe, and that an agent in the map loses all its subscriptions at once
      while another keeps them. */
  lemma ApplyIsExact(s: Site, a: AgentID, topic: AgentID)
    ensures a !in s.agents ==>
              Apply(s, Subscribe(a, topic)) == (s, false) && Apply(s, Unsubscribe(a, topic)) == (s, false) &&
              Apply(s, UnsubscribeAll(a)).0 == s && Apply(s, Kill(a)) == (s, false)
    ensures Apply(s, Unsubscribe(a, topic)).1 <==>
            var t := if topic.isTopic then topic else AgentID(topic.name + "__ntf", true);
            a in s.agents && IsFor(s, Message(0, t), a)
    ensures a in s.agents ==>
              var s' := Apply(s, UnsubscribeAll(a)).0;
              s'.agents == s.agents && s'.delivered == s.delivered &&
              forall m: Message, b :: m.recipient.isTopic ==> (IsFor(s', m, b) <==> IsFor(s, m, b) && b != a)
    ensures var (s', ok) := Apply(s, Add(a));
            (ok <==> a.name != "" && a !in s.agents) && s' == s.(agents := if ok then s.agents + {a} else s.agents)
  {
  }

  /** Killing an agent was meant to end its subscriptions.  It does so exactly when there are none. */
  lemma KillEndsSubscriptions(s: Site, a: AgentID)
    requires a in s.agents
    ensures var (s', ok) := Apply(s, Kill(a));
            ok && s'.agents == s.agents - {a} && s'.topics == s.topics && s'.delivered == s.delivered &&
            (!IsSubscriber(s', a) <==> !IsSubscriber(s, a))
  {
  }

  /** A run of configuration operations. */
  function Configured(s: Site, ops: seq<Op>): Site
    decreases |ops|
  {
    if ops == [] then s else Configured(Apply(s, ops[0]).0, ops[1..])
  }

  /** A run from the empty container: an agent is added, subscribes to a topic and is killed, and is then
      called for a message sent to the topic. */
  lemma KilledAgentStillCalled() returns (a: AgentID, t: AgentID, m: Message)
    ensures var s := Configured(EMPTY_SITE, [Add(a), Subscribe(a, t), Kill(a)]);
            s.agents == {} && s.delivered[(a, m)] == 0 && LocalSend(s, m).0.delivered[(a, m)] == 1
  {
    a := AgentID("a", false);
    t := AgentID("t", true);
    m := Message(0, t);
    var s1 := Site({a}, map[], multiset{});
    var s2 := Site({a}, map[t := {a}], multiset{});
    var s3 := Site({}, map[t := {a}], multiset{});
    assert Apply(EMPTY_SITE, Add(a)).0 == s1;
    assert Apply(s1, Subscribe(a, t)).0 == s2;
    assert Apply(s2, Kill(a)).0 == s3;
    ThreeOps(EMPTY_SITE, Add(a), Subscribe(a, t), Kill(a));
    assert Receivers(s3, m) == {a};
    DeliveriesCount({a}, m, a);
  }

  lemma ThreeOps(s: Site, op1: Op, op2: Op, op3: Op)
    ensures Configured(s, [op1, op2, op3]) == Apply(Apply(Apply(s, op1).0, op2).0, op3).0
  {
    hide Apply;
    var s1 := Apply(s, op1).0;
    assert [op1, op2, op3][1..] == [op2, op3] && [op2, op3][1..] == [op3];
    assert Configured(s, [op1, op2, op3]) == Configured(s1, [op2, op3]);
    assert Configured(s1, [op2, op3]) == Configured(Apply(s1, op2).0, [op3]);
  }

  lemma DeliveriesCount(to: set<AgentID>, m: Message, a: AgentID)
    ensures Deliveries(to, m)[(a, m)] == if a in to then 1 else 0
    ensures forall b, m' :: m' != m ==> Deliveries(to, m)[(b, m')] == 0
  {
    var pairs := set x | x in to :: (x, m);
    assert (a, m) in pairs <==> a in to;
  }

  class Container {
    var agents: set<AgentID>
    var topics: map<AgentID, set<AgentID>>
    var delivered: multiset<(AgentID, Message)>

    constructor ()
      ensures State() == EMPTY_SITE
    {
      agents, topics, delivered := {}, map[], multiset{};
    }

    ghost function State(): Site
      reads this
    {
      Site(agents, topics, delivered)
    }

    /** Container.send(m, false) */
    method Send(m: Message) returns (ok: bool)
      modifies this`delivered
      ensures (State(), ok) == LocalSend(old(State()), m)
      ensures m.recipient.isTopic ==>
                ok && forall a, x :: delivered[(a, x)] == old(delivered)[(a, x)] +
                        if x == m && m.recipient in topics && a in topics[m.recipient] then 1 else 0
      ensures !m.recipient.isTopic ==>
                ok == (m.recipient in agents) &&
                forall a, x :: delivered[(a, x)] == old(delivered)[(a, x)] +
                  if x == m && a == m.recipient && m.recipient in agents then 1 else 0
    {
      hide Deliveries;
      SendReaches(State(), m);
      NoDeliveries(m);
      assert delivered == delivered + Deliveries({}, m);
      if m.recipient.isTopic {
        if m.recipient in topics { DeliverAll(topics[m.recipient], m); }
        return true;
      }
      if m.recipient !in agents { return false; }
      delivered := delivered + multiset{(m.recipient, m)};
      DeliverOneMore({}, m.recipient, m);
      assert {} + {m.recipient} == {m.recipient};
      assert multiset{} + multiset{(m.recipient, m)} == multiset{(m.recipient, m)};
      return true;
    }

    /** The loop over the subscribers of a topic. */
    method DeliverAll(to: set<AgentID>, m: Message)
      modifies this`delivered
      ensures delivered == old(delivered) + Deliveries(to, m)
    {
      hide Deliveries;
      var rest := to;
      ghost var done := {};
      NoDeliveries(m);
      while rest != {}
        invariant done + rest == to && done !! rest
        invariant delivered == old(delivered) + Deliveries(done, m)
        decreases rest
      {
        var a :| a in rest;
        DeliverOneMore(done, a, m);
        delivered := delivered + multiset{(a, m)};
        done, rest := done + {a}, rest - {a};
      }
    }

    method Subscribe(agent: AgentID, topic: AgentID) returns (ok: bool)
      modifies this`topics
      ensures (State(), ok) == Apply(old(State()), Op.Subscribe(agent, topic))
    {
      var t := topic;
      if !t.isTopic { t := AgentID(t.name + "__ntf", true); }
      if agent !in agents { return false; }
      if t !in topics { topics := topics[t := {}]; }
      topics := topics[t := topics[t] + {agent}];
      assert topics == old(topics)[t := Subscribers(old(State()), t) + {agent}];
      return true;
    }

    method Unsubscribe(agent: AgentID, topic: AgentID) returns (ok: bool)
      modifies this`topics
      ensures (State(), ok) == Apply(old(State()), Op.Unsubscribe(agent, topic))
    {
      var t := topic;
      if !t.isTopic { t := AgentID(t.name + "__ntf", true); }
      if agent !in agents || t !in topics { return false; }
      ok := agent in topics[t];
      topics := topics[t := topics[t] - {agent}];
    }

    method UnsubscribeAll(agent: AgentID)
      modifies this`topics
      ensures State() == RemoveAll(old(State()), agent)
    {
      if agent !in agents { return; }
      var keys := topics.Keys;
      while keys != {}
        invariant topics.Keys == old(topics).Keys && keys <= topics.Keys
        invariant forall t :: t in topics ==>
                    topics[t] == if t in keys then old(topics)[t] else old(topics)[t] - {agent}
        decreases keys
      {
        var t :| t in keys;
        topics := topics[t := topics[t] - {agent}];
        keys := keys - {t};
      }
    }

    method Kill(agent: AgentID) returns (ok: bool)
      modifies this`agents, this`topics
      ensures (State(), ok) == Apply(old(State()), Op.Kill(agent))
    {
      if agent !in agents { return false; }
      agents := agents - {agent};
      UnsubscribeAll(agent);
      return true;
    }

    method Add(agent: AgentID) returns (ok: bool)
      modifies this`agents
      ensures (State(), ok) == Apply(old(State()), Op.Add(agent))
    {
      if agent.name == "" { return false; }
      if agent in agents { return false; }
      agents := agents + {agent};
      return true;
    }
  }

  lemma NoDeliveries(m: Message)
    ensures Deliveries({}, m) == multiset{}
  {
  }

  lemma DeliverOneMore(done: set<AgentID>, a: AgentID, m: Message)
    requires a !in done
    ensures Deliveries(done + {a}, m) == Deliveries(done, m) + multiset{(a, m)}
  {
    var pairs := set x | x in done :: (x, m);
    var more := set x | x in done + {a} :: (x, m);
    assert more == pairs + {(a, m)};
  }
}
