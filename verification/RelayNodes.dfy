/**
 The objects behind the relay's steps: the master's fan-out loop, the slave's send and watch
 list, and the handler's tasks, each proved against the step it stands for.
 */
module RelayNodes {
  import opened Common
  import opened Containers
  import opened Relay

  /** ConnectionHandler, as the master sees it: the watch list and the single-thread pool. */
  class ConnectionHandler {
    var watchList: set<AgentID>
    var pool: seq<Task>

    constructor ()
      ensures watchList == {} && pool == []
    {
      watchList, pool := {}, [];
    }

    method Wanted(id: AgentID) returns (b: bool)
      ensures b == Wants(watchList, id)
    {
      if watchList == {} { return true; }
      return id in watchList;
    }

    method PrintlnQueued(m: Message)
      modifies this`pool
      ensures pool == old(pool) + [Println(m)]
    {
      pool := pool + [Println(m)];
    }

    /** The WANTS_MESSAGES_FOR task: empty the list, then add the ids of the line one by one. */
    method SetWatchList(ids: seq<AgentID>)
      modifies this`watchList
      ensures watchList == set id | id in ids
    {
      watchList := {};
      for k := 0 to |ids|
        invariant watchList == set id | id in ids[..k]
      {
        watchList := watchList + {ids[k]};
        assert ids[..k + 1] == ids[..k] + [ids[k]];
      }
      assert ids[..|ids|] == ids;
    }
  }

  class MasterContainer {
    const local: Container
    var slaves: seq<ConnectionHandler>

    constructor (local: Container)
      ensures this.local == local && slaves == []
    {
      this.local := local;
      slaves := [];
    }

    ghost predicate Valid()
      reads this
    {
      forall i, j :: 0 <= i < j < |slaves| ==> slaves[i] != slaves[j]
    }

    /** MasterContainer.send(m, relay).  With relaying on it is the step `MasterSend`. */
    method Send(m: Message, relay: bool) returns (ok: bool)
      requires Valid()
      modifies local`delivered, (set h | h in slaves)`pool
      ensures local.State() == LocalSend(old(local.State()), m).0
      ensures forall i :: 0 <= i < |slaves| ==> slaves[i].watchList == old(slaves[i].watchList)
      ensures var kept := LocalSend(old(local.State()), m).1 && !m.recipient.isTopic;
              ok == (kept || relay) &&
              forall i :: 0 <= i < |slaves| ==>
                slaves[i].pool ==
                if !kept && relay && Wants(slaves[i].watchList, m.recipient)
                then old(slaves[i].pool) + [Println(m)] else old(slaves[i].pool)
    {
      ok := local.Send(m);
      if ok && !m.recipient.isTopic { return true; }
      if !relay { return false; }
      for k := 0 to |slaves|
        invariant slaves == old(slaves) && local.State() == LocalSend(old(local.State()), m).0
        invariant forall i :: 0 <= i < |slaves| ==>
                    slaves[i].watchList == old(slaves[i].watchList) &&
                    slaves[i].pool ==
                    if i < k && Wants(slaves[i].watchList, m.recipient)
                    then old(slaves[i].pool) + [Println(m)] else old(slaves[i].pool)
      {
        var wanted := slaves[k].Wanted(m.recipient);
        if wanted { slaves[k].PrintlnQueued(m); }
      }
      return true;
    }
  }

  class SlaveContainer {
    const local: Container
    /** Lines written to the master, oldest first. */
    var lines: seq<Frame>
    var watchListCache: Cache
    /** Bookkeeping: what has been announced (see `Relay.Link`). */
    var told: set<AgentID>

    constructor (local: Container)
      ensures this.local == local && lines == [] && watchListCache == Unset && told == {}
    {
      this.local := local;
      lines, watchListCache, told := [], Unset, {};
    }

    /** SlaveContainer.send(m, relay): a topic message is never delivered locally on the way up. */
    method Send(m: Message, relay: bool) returns (ok: bool)
      modifies this`lines, local`delivered
      ensures var (site, held) := LocalSend(old(local.State()), m);
              var passedUp := relay && (m.recipient.isTopic || !held);
              (if m.recipient.isTopic && relay then local.State() == old(local.State()) else local.State() == site) &&
              lines == (if passedUp then old(lines) + [Frame.Send(m, told)] else old(lines)) &&
              ok == (passedUp || held)
    {
      if m.recipient.isTopic {
        if !relay {
          ok := local.Send(m);
          return;
        }
      } else {
        ok := local.Send(m);
        if ok { return true; }
        if !relay { return false; }
      }
      lines := lines + [Frame.Send(m, told)];
      return true;
    }

    /** What the master has been told after a change: the new list, unless it is the one sent last. */
    ghost predicate Announced(lines0: seq<Frame>, cache0: Cache, changed: bool)
      reads this, local
    {
      var wanted := Relay.Wanted(local.State());
      if changed then
        watchListCache == Cached(wanted) && told == wanted &&
        lines == if cache0 == Cached(wanted) then lines0 else lines0 + [WantsMessagesFor(wanted)]
      else
        watchListCache == cache0 && lines == lines0
    }

    /** The overrides of add, kill, subscribe and unsubscribe: a change that succeeds is announced.
        (Inside kill the override of unsubscribe announces the same list once more, which sends nothing.) */
    method Add(agent: AgentID) returns (ok: bool)
      modifies this, local
      ensures (local.State(), ok) == Containers.Apply(old(local.State()), Op.Add(agent))
      ensures Announced(old(lines), old(watchListCache), ok)
    {
      ok := local.Add(agent);
      if ok { UpdateWatchList(); }
    }

    method Kill(agent: AgentID) returns (ok: bool)
      modifies this, local
      ensures (local.State(), ok) == Containers.Apply(old(local.State()), Op.Kill(agent))
      ensures Announced(old(lines), old(watchListCache), ok)
    {
      ok := local.Kill(agent);
      if ok { UpdateWatchList(); }
    }

    method Subscribe(agent: AgentID, topic: AgentID) returns (ok: bool)
      modifies this, local
      ensures (local.State(), ok) == Containers.Apply(old(local.State()), Op.Subscribe(agent, topic))
      ensures Announced(old(lines), old(watchListCache), ok)
    {
      ok := local.Subscribe(agent, topic);
      if ok { UpdateWatchList(); }
    }

    method Unsubscribe(agent: AgentID, topic: AgentID) returns (ok: bool)
      modifies this, local
      ensures (local.State(), ok) == Containers.Apply(old(local.State()), Op.Unsubscribe(agent, topic))
      ensures Announced(old(lines), old(watchListCache), ok)
    {
      ok := local.Unsubscribe(agent, topic);
      if ok { UpdateWatchList(); }
    }

    method UnsubscribeAll(agent: AgentID)
      modifies this, local
      ensures local.State() == RemoveAll(old(local.State()), agent)
      ensures Announced(old(lines), old(watchListCache), true)
    {
      local.UnsubscribeAll(agent);
      UpdateWatchList();
    }

    /** updateWatchList: collect local agents and topics with subscribers; send the list only if
        it is not the one sent last. */
    method UpdateWatchList()
      modifies this
      ensures var wanted := Relay.Wanted(local.State());
              watchListCache == Cached(wanted) && told == wanted &&
              lines ==
              if old(watchListCache) == Cached(wanted) then old(lines) else old(lines) + [WantsMessagesFor(wanted)]
      ensures watchListCache.Cached? && forall id :: id in watchListCache.list <==>
                id in local.agents || (id in local.topics && exists a :: a in local.topics[id])
    {
      forall id ensures id in Relay.Wanted(local.State()) <==>
                        id in local.agents || (id in local.topics && exists a :: a in local.topics[id])
      {
        WantedIsExact(local.State(), id);
      }
      var watchList := local.agents;
      var keys := local.topics.Keys;
      ghost var done := {};
      while keys != {}
        invariant done + keys == local.topics.Keys && done !! keys
        invariant watchList == local.agents + set t | t in done && local.topics[t] != {}
        decreases keys
      {
        var t :| t in keys;
        if local.topics[t] != {} { watchList := watchList + {t}; }
        done, keys := done + {t}, keys - {t};
      }
      assert watchList == Relay.Wanted(local.State());
      told := watchList;
      if watchListCache != Cached(watchList) {
        lines := lines + [WantsMessagesFor(watchList)];
        watchListCache := Cached(watchList);
      }
    }
  }

  /** What one connection and one slave look like to the step system. */
  lemma SendIsTheStep(net: Net, m: Message, site: Site, pools: seq<seq<Task>>)
    requires Wired(net) && |pools| == |net.links|
    requires site == LocalSend(net.master, m).0
    requires var kept := LocalSend(net.master, m).1 && !m.recipient.isTopic;
             forall i :: 0 <= i < |pools| ==>
               pools[i] == if !kept && Wants(net.links[i].watch, m.recipient)
                           then net.links[i].pool + [Println(m)] else net.links[i].pool
    ensures MasterSend(net, m).master == site
    ensures forall i :: 0 <= i < |pools| ==> MasterSend(net, m).links[i] == net.links[i].(pool := pools[i])
  {
  }

  /** What SlaveContainer.Send leaves, when it relays, is the step `SlaveSend` of its slave. */
  lemma SlaveSendIsTheStep(net: Net, i: nat, m: Message, site: Site, lines: seq<Frame>)
    requires Wired(net) && i < |net.slaves|
    requires var (local, held) := LocalSend(net.slaves[i], m);
             (site == if m.recipient.isTopic then net.slaves[i] else local) &&
             (lines == if m.recipient.isTopic || !held then net.links[i].up + [Frame.Send(m, net.links[i].told)]
                       else net.links[i].up)
    ensures var net' := SlaveSend(net, i, m);
            net'.master == net.master && net'.slaves == net.slaves[i := site] &&
            net'.links == net.links[i := net.links[i].(up := lines)]
  {
    var (local, held) := LocalSend(net.slaves[i], m);
    if m.recipient.isTopic || !held {
      NotHeldUnchanged(net.slaves[i], m);
      assert net.slaves[i := net.slaves[i]] == net.slaves;
    } else {
      assert net.links[i := net.links[i].(up := net.links[i].up)] == net.links;
    }
  }

  lemma NotHeldUnchanged(s: Site, m: Message)
    ensures !m.recipient.isTopic && !LocalSend(s, m).1 ==> LocalSend(s, m).0 == s
  {
    if !m.recipient.isTopic && !LocalSend(s, m).1 {
      assert (set x | x in Receivers(s, m) :: (x, m)) == {};
      assert s.delivered + multiset{} == s.delivered;
    }
  }

  /** What UpdateWatchList leaves is the step `Refresh`. */
  lemma UpdateIsTheStep(l: Link, site: Site, lines: seq<Frame>)
    requires var wanted := Relay.Wanted(site);
             lines == if l.cache == Cached(wanted) then l.up else l.up + [WantsMessagesFor(wanted)]
    ensures var wanted := Relay.Wanted(site);
            Refresh(l, wanted) == l.(up := lines, cache := Cached(wanted), told := wanted)
  {
  }
}
