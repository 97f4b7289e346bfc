/**
 An agent's message queue (MessageQueue.java): arriving messages wait in quarantine; a commit
 moves those that no exclusion filter reserves to the queue proper, from which `get` takes the
 first match.
 */
module MessageQueues {
  import opened Common

  /** A message, stamped with its place in the order of arrival. */
  datatype Msg = Msg(stamp: nat, body: string)

  /** A filter reference: null matches everything, as both `commit` and `get` treat it. */
  datatype Filter = Null | Matching(accepts: Msg -> bool)

  predicate Matches(f: Filter, m: Msg) { f.Null? || f.accepts(m) }

  predicate Reserved(exclusions: seq<Filter>, m: Msg) {
    exists i :: 0 <= i < |exclusions| && Matches(exclusions[i], m)
  }

  /** A queue with a limit n > 0 is cut back to its last n - 1 messages. */
  function Trim(q: seq<Msg>, max: int): (r: seq<Msg>)
    ensures max > 0 ==> |r| < max
    ensures |r| <= |q| && r == q[|q| - |r|..]
    ensures max <= 0 || |q| < max ==> r == q
  {
    if max > 0 && |q| >= max then q[|q| - (max - 1)..] else q
  }

  function Free(q: seq<Msg>, exclusions: seq<Filter>): seq<Msg> {
    if q == [] then []
    else Free(q[..|q| - 1], exclusions) + if Reserved(exclusions, q[|q| - 1]) then [] else [q[|q| - 1]]
  }

  function Kept(q: seq<Msg>, exclusions: seq<Filter>): seq<Msg> {
    if q == [] then []
    else Kept(q[..|q| - 1], exclusions) + if Reserved(exclusions, q[|q| - 1]) then [q[|q| - 1]] else []
  }

  datatype Queues = Queues(queue: seq<Msg>, quarantine: seq<Msg>, max: int)

  function Resized(s: Queues, size: int): Queues { Queues(Trim(s.queue, size), s.quarantine, size) }

  function Added(s: Queues, m: Msg): Queues { s.(quarantine := Trim(s.quarantine + [m], s.max)) }

  function Committed(s: Queues, exclusions: seq<Filter>): Queues {
    Queues(Trim(s.queue + Free(s.quarantine, exclusions), s.max), Kept(s.quarantine, exclusions), s.max)
  }

  /** Index of the first message from i on that matches, or the length of the queue. */
  function FirstMatch(q: seq<Msg>, f: Filter, i: nat): (k: nat)
    requires i <= |q|
    ensures i <= k <= |q|
    ensures k < |q| ==> Matches(f, q[k])
    ensures forall j :: i <= j < k ==> !Matches(f, q[j])
    decreases |q| - i
  {
    if i == |q| || Matches(f, q[i]) then i else FirstMatch(q, f, i + 1)
  }

  function Taken(s: Queues, f: Filter): (Queues, Option<Msg>) {
    var k := FirstMatch(s.queue, f, 0);
    if k == |s.queue| then (s, None)
    else (s.(queue := s.queue[..k] + s.queue[k + 1..]), Some(s.queue[k]))
  }

  class MessageQueue {
    var queue: seq<Msg>
    var quarantine: seq<Msg>
    var maxQueueLen: int

    constructor (maxlen: int)
      ensures State() == Queues([], [], maxlen)
    {
      queue, quarantine, maxQueueLen := [], [], maxlen;
    }

    ghost function State(): Queues
      reads this
    {
      Queues(queue, quarantine, maxQueueLen)
    }

    method SetSize(size: int)
      modifies this
      ensures State() == Resized(old(State()), size)
    {
      maxQueueLen := size;
      TrimQueue();
    }

    /** The trimming loop on the queue proper. */
    method TrimQueue()
      modifies this`queue
      ensures queue == Trim(old(queue), maxQueueLen)
    {
      ghost var all, n := queue, 0;
      while maxQueueLen > 0 && |queue| >= maxQueueLen
        invariant 0 <= n <= |all| && queue == all[n..]
        invariant n > 0 ==> maxQueueLen > 0 && |queue| >= maxQueueLen - 1
        decreases |queue|
      {
        queue, n := queue[1..], n + 1;
      }
    }

    method Add(m: Msg)
      modifies this`quarantine
      ensures State() == Added(old(State()), m)
    {
      quarantine := quarantine + [m];
      ghost var all, n := quarantine, 0;
      while maxQueueLen > 0 && |quarantine| >= maxQueueLen
        invariant 0 <= n <= |all| && quarantine == all[n..]
        invariant n > 0 ==> maxQueueLen > 0 && |quarantine| >= maxQueueLen - 1
        decreases |quarantine|
      {
        quarantine, n := quarantine[1..], n + 1;
      }
    }

    /** The loop over the exclusions for one message. */
    method IsReserved(exclusions: seq<Filter>, m: Msg) returns (exclude: bool)
      ensures exclude == Reserved(exclusions, m)
    {
      exclude := false;
      for i := 0 to |exclusions|
        invariant !exclude && forall j :: 0 <= j < i ==> !Matches(exclusions[j], m)
      {
        if exclusions[i].Null? || exclusions[i].accepts(m) { return true; }
      }
    }

    method Commit(exclusions: seq<Filter>)
      modifies this`queue, this`quarantine
      ensures State() == Committed(old(State()), exclusions)
      ensures forall m :: m in quarantine <==>
                m in old(quarantine) &&
                exists i :: 0 <= i < |exclusions| && (exclusions[i].Matching? ==> exclusions[i].accepts(m))
      ensures forall m :: m in queue ==>
                m in old(queue) ||
                (m in old(quarantine) &&
                 forall i :: 0 <= i < |exclusions| ==> exclusions[i].Matching? && !exclusions[i].accepts(m))
    {
      CommitSorts(State(), exclusions);
      hide Free, Kept, Reserved;
      ghost var was := quarantine;
      ghost var done := 0;
      NothingSorted(exclusions);
      var at := 0;     // the iterator: messages before it stay
      while at < |quarantine|
        invariant 0 <= done <= |was| && 0 <= at <= |quarantine|
        invariant quarantine[..at] == Kept(was[..done], exclusions) && quarantine[at..] == was[done..]
        invariant queue == old(queue) + Free(was[..done], exclusions)
        decreases |quarantine| - at
      {
        var m := quarantine[at];
        SortNext(was, done, exclusions);
        var exclude := IsReserved(exclusions, m);
        if exclude {
          at := at + 1;
        } else {
          quarantine := quarantine[..at] + quarantine[at + 1..];
          queue := queue + [m];
        }
        done := done + 1;
      }
      assert was[..done] == was;
      TrimQueue();
    }

    method Get(filter: Filter) returns (r: Option<Msg>)
      modifies this`queue
      ensures (State(), r) == Taken(old(State()), filter)
      ensures var q := old(queue);
              if r.None? then
                queue == q && (filter.Null? ==> q == []) &&
                (filter.Matching? ==> forall k :: 0 <= k < |q| ==> !filter.accepts(q[k]))
              else
                exists k :: 0 <= k < |q| && q[k] == r.value && queue == q[..k] + q[k + 1..] &&
                            if filter.Null? then k == 0
                            else filter.accepts(q[k]) && forall j :: 0 <= j < k ==> !filter.accepts(q[j])
    {
      TakenIsFirst(State(), filter);
      if filter.Null? {
        if queue == [] { return None; }
        r := Some(queue[0]);
        assert queue[..0] + queue[1..] == queue[1..];
        queue := queue[1..];
        return;
      }
      for k := 0 to |queue|
        invariant queue == old(queue)
        invariant FirstMatch(queue, filter, 0) == FirstMatch(queue, filter, k)
      {
        if filter.accepts(queue[k]) {
          r := Some(queue[k]);
          queue := queue[..k] + queue[k + 1..];
          return;
        }
      }
      return None;
    }
  }

  lemma NothingSorted(ex: seq<Filter>)
    ensures Free([], ex) == [] && Kept([], ex) == []
  {
  }

  lemma SortNext(q: seq<Msg>, n: nat, ex: seq<Filter>)
    requires n < |q|
    ensures Free(q[..n + 1], ex) == Free(q[..n], ex) + if Reserved(ex, q[n]) then [] else [q[n]]
    ensures Kept(q[..n + 1], ex) == Kept(q[..n], ex) + if Reserved(ex, q[n]) then [q[n]] else []
  {
    assert q[..n + 1][..n] == q[..n];
  }

  // ---------------------------------------------------------------------------
  // What a commit and a get do to individual messages
  // ---------------------------------------------------------------------------

  lemma {:induction false} Sorting(q: seq<Msg>, exclusions: seq<Filter>)
    ensures forall m :: m in Free(q, exclusions) <==> m in q && !Reserved(exclusions, m)
    ensures forall m :: m in Kept(q, exclusions) <==> m in q && Reserved(exclusions, m)
    decreases |q|
  {
    hide Reserved;
    if q != [] {
      var front, x := q[..|q| - 1], q[|q| - 1];
      Sorting(front, exclusions);
      assert q == front + [x];
    }
  }

  lemma {:induction false} SortingConserves(q: seq<Msg>, exclusions: seq<Filter>)
    ensures multiset(Free(q, exclusions)) + multiset(Kept(q, exclusions)) == multiset(q)
    decreases |q|
  {
    hide Reserved;
    if q != [] {
      var front, x := q[..|q| - 1], q[|q| - 1];
      SortingConserves(front, exclusions);
      assert q == front + [x];
    }
  }

  /** Taking with a filter: the first message the filter accepts, the others stay in order; with no filter,
      the front. */
  lemma TakenIsFirst(s: Queues, filter: Filter)
    ensures var (s', r) := Taken(s, filter);
            s'.quarantine == s.quarantine && s'.max == s.max &&
            if r.None? then
              s'.queue == s.queue && (filter.Null? ==> s.queue == []) &&
              (filter.Matching? ==> forall k :: 0 <= k < |s.queue| ==> !filter.accepts(s.queue[k]))
            else
              exists k :: 0 <= k < |s.queue| && s.queue[k] == r.value && s'.queue == s.queue[..k] + s.queue[k + 1..] &&
                          if filter.Null? then k == 0
                          else filter.accepts(s.queue[k]) && forall j :: 0 <= j < k ==> !filter.accepts(s.queue[j])
  {
    var k := FirstMatch(s.queue, filter, 0);
    if filter.Null? && s.queue != [] { assert Matches(filter, s.queue[0]); }
    if k < |s.queue| { assert Matches(filter, s.queue[k]); }
    assert forall j :: 0 <= j < k ==> !Matches(filter, s.queue[j]);
  }

  /** What reserves a message: some exclusion that is null or accepts it. */
  lemma ReservedMeans(exclusions: seq<Filter>, m: Msg)
    ensures Reserved(exclusions, m) <==>
            exists i :: 0 <= i < |exclusions| && (exclusions[i].Matching? ==> exclusions[i].accepts(m))
  {
    if i :| 0 <= i < |exclusions| && (exclusions[i].Matching? ==> exclusions[i].accepts(m)) {
      assert Matches(exclusions[i], m);
    }
  }

  /** After a commit no reserved message has entered the queue, and nothing unreserved is left behind. */
  lemma CommitSorts(s: Queues, exclusions: seq<Filter>)
    ensures var s' := Committed(s, exclusions);
            (forall m :: m in s'.queue ==> m in s.queue || (m in s.quarantine && !Reserved(exclusions, m))) &&
            (forall m :: m in s'.quarantine <==> m in s.quarantine && Reserved(exclusions, m))
    ensures forall m :: Reserved(exclusions, m) <==>
              exists i :: 0 <= i < |exclusions| && (exclusions[i].Matching? ==> exclusions[i].accepts(m))
  {
    forall m ensures Reserved(exclusions, m) <==>
              exists i :: 0 <= i < |exclusions| && (exclusions[i].Matching? ==> exclusions[i].accepts(m))
    {
      ReservedMeans(exclusions, m);
    }
    Sorting(s.quarantine, exclusions);
    var all := s.queue + Free(s.quarantine, exclusions);
    assert forall m :: m in Trim(all, s.max) ==> m in all;
  }

  // ---------------------------------------------------------------------------
  // Runs: conservation and order
  // ---------------------------------------------------------------------------

  datatype Op = DoAdd(body: string) | DoCommit(exclusions: seq<Filter>) | DoGet(filter: Filter) | DoSetSize(size: int)

  /** A queue with its history: how many messages have arrived, which were handed out (in order),
      which were dropped, and the exclusion and selection filters used so far. */
  datatype Trail = Trail(s: Queues, arrived: seq<Msg>, taken: seq<Msg>, dropped: multiset<Msg>,
                         exclusions: seq<Filter>, selections: seq<Filter>)

  function Cut(q: seq<Msg>, r: seq<Msg>): multiset<Msg> { multiset(q) - multiset(r) }

  function Do(t: Trail, op: Op): Trail {
    match op
    case DoAdd(body) =>
      var m := Msg(|t.arrived|, body);
      var s' := Added(t.s, m);
      t.(s := s', arrived := t.arrived + [m], dropped := t.dropped + Cut(t.s.quarantine + [m], s'.quarantine))
    case DoCommit(ex) =>
      var s' := Committed(t.s, ex);
      t.(s := s', dropped := t.dropped + Cut(t.s.queue + Free(t.s.quarantine, ex), s'.queue),
         exclusions := t.exclusions + ex)
    case DoGet(f) =>
      var (s', r) := Taken(t.s, f);
      t.(s := s', taken := t.taken + (if r.None? then [] else [r.value]), selections := t.selections + [f])
    case DoSetSize(size) =>
      var s' := Resized(t.s, size);
      t.(s := s', dropped := t.dropped + Cut(t.s.queue, s'.queue))
  }

  function DoAll(t: Trail, ops: seq<Op>): Trail
    decreases |ops|
  {
    if ops == [] then t else Do(DoAll(t, ops[..|ops| - 1]), ops[|ops| - 1])
  }

  function Start(max: int): Trail { Trail(Queues([], [], max), [], [], multiset{}, [], []) }

  lemma TrimCut(q: seq<Msg>, max: int)
    ensures multiset(Trim(q, max)) + Cut(q, Trim(q, max)) == multiset(q)
  {
    hide Trim;
    var k := |q| - |Trim(q, max)|;
    assert q == q[..k] + q[k..];
  }

  ghost predicate Conserved(t: Trail) {
    multiset(t.arrived) == multiset(t.taken) + multiset(t.s.queue) + multiset(t.s.quarantine) + t.dropped
  }

  lemma DoConserves(t: Trail, op: Op)
    requires Conserved(t)
    ensures Conserved(Do(t, op))
  {
    hide Do, Conserved;
    match op
    case DoAdd(body) => AddConserves(t, body);
    case DoCommit(ex) => CommitConserves(t, ex);
    case DoGet(f) => GetConserves(t, f);
    case DoSetSize(size) => SizeConserves(t, size);
  }

  lemma GetConserves(t: Trail, f: Filter)
    requires Conserved(t)
    ensures Conserved(Do(t, DoGet(f)))
  {
    hide Taken;
    TakenConserves(t.s, f);
  }

  lemma TakenConserves(s: Queues, f: Filter)
    ensures var (s', r) := Taken(s, f);
            multiset(s'.queue) + multiset(if r.None? then [] else [r.value]) == multiset(s.queue) &&
            s'.quarantine == s.quarantine
  {
    hide FirstMatch, Matches;
    var k := FirstMatch(s.queue, f, 0);
    if k < |s.queue| {
      TakeOut(s.queue, k);
      assert Taken(s, f) == (s.(queue := s.queue[..k] + s.queue[k + 1..]), Some(s.queue[k]));
    }
  }

  lemma SizeConserves(t: Trail, size: int)
    requires Conserved(t)
    ensures Conserved(Do(t, DoSetSize(size)))
  {
    hide Trim;
    TrimCut(t.s.queue, size);
  }

  lemma TakeOut(q: seq<Msg>, k: nat)
    requires k < |q|
    ensures multiset(q[..k] + q[k + 1..]) + multiset([q[k]]) == multiset(q)
  {
    assert q == q[..k] + [q[k]] + q[k + 1..];
  }

  lemma AddConserves(t: Trail, body: string)
    requires Conserved(t)
    ensures Conserved(Do(t, DoAdd(body)))
  {
    hide Trim;
    TrimCut(t.s.quarantine + [Msg(|t.arrived|, body)], t.s.max);
  }

  lemma CommitConserves(t: Trail, ex: seq<Filter>)
    requires Conserved(t)
    ensures Conserved(Do(t, DoCommit(ex)))
  {
    hide Trim, Free, Kept;
    TrimCut(t.s.queue + Free(t.s.quarantine, ex), t.s.max);
    SortingConserves(t.s.quarantine, ex);
  }

  /** No filter of the list tells x and y apart. */
  predicate Alike(filters: seq<Filter>, x: Msg, y: Msg) {
    forall i :: 0 <= i < |filters| ==> Matches(filters[i], x) == Matches(filters[i], y)
  }

  /** In the queue followed by the quarantine, messages that no exclusion used so far tells apart
      are in order of arrival. */
  ghost predicate InOrder(line: seq<Msg>, filters: seq<Filter>) {
    forall i, j :: 0 <= i < j < |line| && Alike(filters, line[i], line[j]) ==> line[i].stamp < line[j].stamp
  }

  function Line(s: Queues): seq<Msg> { s.queue + s.quarantine }

  /** Everything handed out so far, then the queue, then the quarantine. */
  function History(t: Trail): seq<Msg> { t.taken + Line(t.s) }

  ghost predicate Stamped(q: seq<Msg>, n: nat) { forall i :: 0 <= i < |q| ==> q[i].stamp < n }

  ghost predicate Ordered(t: Trail) {
    Stamped(History(t), |t.arrived|) &&
    InOrder(Line(t.s), t.exclusions) && InOrder(History(t), t.exclusions + t.selections)
  }

  /** Taking a message past others it is told apart from keeps the order. */
  lemma MoveForward(a: seq<Msg>, passed: seq<Msg>, x: Msg, rest: seq<Msg>, filters: seq<Filter>)
    requires InOrder(a + passed + [x] + rest, filters)
    requires forall i :: 0 <= i < |passed| ==> !Alike(filters, x, passed[i])
    ensures InOrder(a + [x] + passed + rest, filters)
  {
    hide Alike;
    var old' := a + passed + [x] + rest;
    var new' := a + [x] + passed + rest;
    var p, q := |a|, |a| + |passed|;
    forall i, j | 0 <= i < j < |new'| ensures Alike(filters, new'[i], new'[j]) ==> new'[i].stamp < new'[j].stamp {
      var i' := if i == p then q else if p < i <= q then i - 1 else i;
      var j' := if j == p then q else if p < j <= q then j - 1 else j;
      assert new'[i] == old'[i'] && new'[j] == old'[j'];
      if i == p && j <= q { assert new'[j] == passed[j - p - 1]; }
    }
  }

  /** Leaving out a stretch of messages keeps the order. */
  lemma LeaveOut(a: seq<Msg>, out: seq<Msg>, rest: seq<Msg>, filters: seq<Filter>)
    requires InOrder(a + out + rest, filters)
    ensures InOrder(a + rest, filters)
  {
    hide Alike;
    var all, some := a + out + rest, a + rest;
    forall i, j | 0 <= i < j < |some| && Alike(filters, some[i], some[j]) ensures some[i].stamp < some[j].stamp {
      var i' := if i < |a| then i else i + |out|;
      var j' := if j < |a| then j else j + |out|;
      assert some[i] == all[i'] && some[j] == all[j'];
    }
  }

  /** Filters used later only make fewer messages alike. */
  lemma MoreFilters(q: seq<Msg>, filters: seq<Filter>, more: seq<Filter>)
    requires InOrder(q, filters) && forall i :: 0 <= i < |filters| ==> filters[i] in more
    ensures InOrder(q, more)
  {
    forall i, j | 0 <= i < j < |q| && Alike(more, q[i], q[j]) ensures Alike(filters, q[i], q[j]) {
      forall k | 0 <= k < |filters| ensures Matches(filters[k], q[i]) == Matches(filters[k], q[j]) {
        assert filters[k] in more;
      }
    }
  }

  lemma ReservedApart(ex: seq<Filter>, filters: seq<Filter>, x: Msg, y: Msg)
    requires Reserved(ex, x) != Reserved(ex, y)
    requires forall i :: 0 <= i < |ex| ==> ex[i] in filters
    ensures !Alike(filters, x, y)
  {
    var i :| 0 <= i < |ex| && (Matches(ex[i], x) || Matches(ex[i], y)) && (Reserved(ex, x) || Matches(ex[i], y)) &&
             (Reserved(ex, y) || Matches(ex[i], x));
    assert ex[i] in filters;
  }

  /** A commit, message by message: the free ones pass the reserved ones, which the exclusions
      tell apart from them. */
  lemma {:induction false} CommitOrder(a: seq<Msg>, q: seq<Msg>, rest: seq<Msg>, ex: seq<Filter>, filters: seq<Filter>)
    requires InOrder(a + q + rest, filters)
    requires forall i :: 0 <= i < |ex| ==> ex[i] in filters
    ensures InOrder(a + Free(q, ex) + Kept(q, ex) + rest, filters)
    decreases |q|
  {
    hide InOrder, Alike, Reserved;
    if q == [] {
      assert a + Free(q, ex) + Kept(q, ex) + rest == a + q + rest;
    } else {
      var front, x := q[..|q| - 1], q[|q| - 1];
      assert a + q + rest == a + front + ([x] + rest);
      CommitOrder(a, front, [x] + rest, ex, filters);
      CommitOne(a, front, x, rest, ex, filters);
      if Reserved(ex, x) {
        assert Free(q, ex) == Free(front, ex) && Kept(q, ex) == Kept(front, ex) + [x];
      } else {
        assert Free(q, ex) == Free(front, ex) + [x] && Kept(q, ex) == Kept(front, ex);
      }
    }
  }

  lemma CommitOne(a: seq<Msg>, front: seq<Msg>, x: Msg, rest: seq<Msg>, ex: seq<Filter>, filters: seq<Filter>)
    requires InOrder(a + Free(front, ex) + Kept(front, ex) + ([x] + rest), filters)
    requires forall i :: 0 <= i < |ex| ==> ex[i] in filters
    ensures if Reserved(ex, x) then InOrder(a + Free(front, ex) + (Kept(front, ex) + [x]) + rest, filters)
            else InOrder(a + (Free(front, ex) + [x]) + Kept(front, ex) + rest, filters)
  {
    hide InOrder, Alike, Reserved, Free, Kept;
    var f, k := Free(front, ex), Kept(front, ex);
    if Reserved(ex, x) {
      assert a + f + k + ([x] + rest) == a + f + (k + [x]) + rest;
    } else {
      Sorting(front, ex);
      forall i | 0 <= i < |k| ensures !Alike(filters, x, k[i]) {
        assert k[i] in k;
        ReservedApart(ex, filters, x, k[i]);
      }
      assert a + f + k + ([x] + rest) == (a + f) + k + [x] + rest;
      MoveForward(a + f, k, x, rest, filters);
      assert (a + f) + [x] + k + rest == a + (f + [x]) + k + rest;
    }
  }

  lemma TrimOrder(a: seq<Msg>, q: seq<Msg>, rest: seq<Msg>, max: int, filters: seq<Filter>)
    requires InOrder(a + q + rest, filters)
    ensures InOrder(a + Trim(q, max) + rest, filters)
  {
    hide InOrder;
    var n := |q| - |Trim(q, max)|;
    assert a + q + rest == a + q[..n] + (Trim(q, max) + rest);
    LeaveOut(a, q[..n], Trim(q, max) + rest, filters);
    assert a + (Trim(q, max) + rest) == a + Trim(q, max) + rest;
  }

  lemma StampedParts(q: seq<Msg>, r: seq<Msg>, n: nat)
    requires Stamped(q, n) && forall m :: m in r ==> m in q
    ensures Stamped(r, n)
  {
    forall i | 0 <= i < |r| ensures r[i].stamp < n { assert r[i] in q; }
  }

  lemma AppendOrder(q: seq<Msg>, m: Msg, filters: seq<Filter>)
    requires InOrder(q, filters) && Stamped(q, m.stamp)
    ensures InOrder(q + [m], filters)
  {
    hide Alike;
  }

  // Each operation keeps the order of anything handed out before, the queue and the quarantine.

  lemma AddKeepsOrder(a: seq<Msg>, s: Queues, m: Msg, filters: seq<Filter>)
    requires InOrder(a + Line(s), filters) && Stamped(a + Line(s), m.stamp)
    ensures InOrder(a + Line(Added(s, m)), filters)
  {
    hide InOrder, Trim, Stamped;
    var b, q := a + s.queue, s.quarantine + [m];
    AppendOrder(a + Line(s), m, filters);
    assert a + Line(s) + [m] == b + q + [];
    TrimOrder(b, q, [], s.max, filters);
    assert b + Trim(q, s.max) + [] == a + Line(Added(s, m));
  }

  lemma CommitKeepsOrder(a: seq<Msg>, s: Queues, ex: seq<Filter>, filters: seq<Filter>)
    requires InOrder(a + Line(s), filters) && forall i :: 0 <= i < |ex| ==> ex[i] in filters
    ensures InOrder(a + Line(Committed(s, ex)), filters)
  {
    hide InOrder, Trim, Free, Kept;
    var f, k := Free(s.quarantine, ex), Kept(s.quarantine, ex);
    assert a + Line(s) == (a + s.queue) + s.quarantine + [];
    CommitOrder(a + s.queue, s.quarantine, [], ex, filters);
    assert (a + s.queue) + f + k + [] == a + (s.queue + f) + k;
    TrimOrder(a, s.queue + f, k, s.max, filters);
    assert a + Trim(s.queue + f, s.max) + k == a + Line(Committed(s, ex));
  }

  lemma SizeKeepsOrder(a: seq<Msg>, s: Queues, size: int, filters: seq<Filter>)
    requires InOrder(a + Line(s), filters)
    ensures InOrder(a + Line(Resized(s, size)), filters)
  {
    hide InOrder, Trim;
    assert a + Line(s) == a + s.queue + s.quarantine;
    TrimOrder(a, s.queue, s.quarantine, size, filters);
    assert a + Trim(s.queue, size) + s.quarantine == a + Line(Resized(s, size));
  }

  lemma TakeKeepsOrder(taken: seq<Msg>, s: Queues, f: Filter, filters: seq<Filter>)
    requires FirstMatch(s.queue, f, 0) < |s.queue|
    requires InOrder(taken + Line(s), filters) && f in filters
    ensures InOrder(taken + [s.queue[FirstMatch(s.queue, f, 0)]] + Line(Taken(s, f).0), filters)
  {
    hide InOrder, FirstMatch;
    var k := FirstMatch(s.queue, f, 0);
    var before, x, after := s.queue[..k], s.queue[k], s.queue[k + 1..] + s.quarantine;
    assert taken + Line(s) == taken + before + [x] + after;
    var i :| 0 <= i < |filters| && filters[i] == f;
    assert forall j :: 0 <= j < |before| ==> !Matches(filters[i], before[j]);
    MoveForward(taken, before, x, after, filters);
    assert taken + [x] + Line(Taken(s, f).0) == taken + [x] + before + after;
  }

  lemma TakeKeepsLine(s: Queues, f: Filter, filters: seq<Filter>)
    requires InOrder(Line(s), filters)
    ensures InOrder(Line(Taken(s, f).0), filters)
  {
    hide InOrder, FirstMatch;
    var k := FirstMatch(s.queue, f, 0);
    if k < |s.queue| {
      var before, after := s.queue[..k], s.queue[k + 1..] + s.quarantine;
      assert Line(s) == before + [s.queue[k]] + after;
      LeaveOut(before, [s.queue[k]], after, filters);
      assert Line(Taken(s, f).0) == before + after;
    }
  }

  lemma NothingBefore(q: seq<Msg>)
    ensures [] + q == q
  {
  }

  lemma TrimMembers(q: seq<Msg>, max: int)
    ensures forall m :: m in Trim(q, max) ==> m in q
  {
  }

  lemma AddOrders(t: Trail, body: string)
    requires Ordered(t)
    ensures Ordered(Do(t, DoAdd(body)))
  {
    hide InOrder, Trim, Stamped, Line;
    var m := Msg(|t.arrived|, body);
    NothingBefore(Line(t.s));
    NothingBefore(Line(Added(t.s, m)));
    LineStamps(t, m.stamp);
    AddKeepsOrder([], t.s, m, t.exclusions);
    AddKeepsOrder(t.taken, t.s, m, t.exclusions + t.selections);
    AddStamps(t, body);
  }

  lemma LineStamps(t: Trail, n: nat)
    requires Stamped(History(t), n)
    ensures Stamped(Line(t.s), n)
  {
    hide Stamped, Line;
    StampedParts(History(t), Line(t.s), n);
  }

  lemma AddStamps(t: Trail, body: string)
    requires Stamped(History(t), |t.arrived|)
    ensures Stamped(History(Do(t, DoAdd(body))), |t.arrived| + 1)
  {
    hide Trim;
    var m := Msg(|t.arrived|, body);
    TrimMembers(t.s.quarantine + [m], t.s.max);
    StampedParts(History(t) + [m], History(Do(t, DoAdd(body))), |t.arrived| + 1);
  }

  lemma CommitOrders(t: Trail, ex: seq<Filter>)
    requires Ordered(t)
    ensures Ordered(Do(t, DoCommit(ex)))
  {
    hide InOrder, Stamped, Line, Committed;
    var t' := Do(t, DoCommit(ex));
    MoreFilters(Line(t.s), t.exclusions, t'.exclusions);
    MoreFilters(History(t), t.exclusions + t.selections, t'.exclusions + t'.selections);
    NothingBefore(Line(t.s));
    NothingBefore(Line(t'.s));
    CommitKeepsOrder([], t.s, ex, t'.exclusions);
    CommitKeepsOrder(t.taken, t.s, ex, t'.exclusions + t'.selections);
    CommitStamps(t, ex);
  }

  lemma CommitStamps(t: Trail, ex: seq<Filter>)
    requires Stamped(History(t), |t.arrived|)
    ensures Stamped(History(Do(t, DoCommit(ex))), |t.arrived|)
  {
    hide Stamped, Committed;
    CommitSorts(t.s, ex);
    StampedParts(History(t), History(Do(t, DoCommit(ex))), |t.arrived|);
  }

  lemma GetOrders(t: Trail, f: Filter)
    requires Ordered(t)
    ensures Ordered(Do(t, DoGet(f)))
  {
    hide InOrder, Stamped, Line, FirstMatch;
    var filters := t.exclusions + (t.selections + [f]);
    MoreFilters(History(t), t.exclusions + t.selections, filters);
    TakeKeepsLine(t.s, f, t.exclusions);
    GetStamps(t, f);
    if FirstMatch(t.s.queue, f, 0) < |t.s.queue| {
      TakeKeepsOrder(t.taken, t.s, f, filters);
    } else {
      assert t.taken + [] == t.taken;
    }
  }

  lemma GetStamps(t: Trail, f: Filter)
    requires Stamped(History(t), |t.arrived|)
    ensures Stamped(History(Do(t, DoGet(f))), |t.arrived|)
  {
    hide Stamped, FirstMatch;
    StampedParts(History(t), History(Do(t, DoGet(f))), |t.arrived|);
  }

  lemma SizeOrders(t: Trail, size: int)
    requires Ordered(t)
    ensures Ordered(Do(t, DoSetSize(size)))
  {
    hide InOrder, Trim, Stamped, Line;
    NothingBefore(Line(t.s));
    NothingBefore(Line(Resized(t.s, size)));
    SizeKeepsOrder([], t.s, size, t.exclusions);
    SizeKeepsOrder(t.taken, t.s, size, t.exclusions + t.selections);
    SizeStamps(t, size);
  }

  lemma SizeStamps(t: Trail, size: int)
    requires Stamped(History(t), |t.arrived|)
    ensures Stamped(History(Do(t, DoSetSize(size))), |t.arrived|)
  {
    hide Trim, Stamped;
    TrimMembers(t.s.queue, size);
    StampedParts(History(t), History(Do(t, DoSetSize(size))), |t.arrived|);
  }

  /**
   Conservation and order, over any run.  Every message that arrived has been handed out once, or
   is queued once, or quarantined once, or was dropped by a limit.  In the queue followed by the
   quarantine, messages that no exclusion used so far tells apart are in order of arrival; and
   counting what has been handed out first, so are all messages that no filter used so far tells
   apart: a message is never handed out before an earlier one like it that is still here.
   */
  lemma {:induction false} RunsConserveAndOrder(max: int, ops: seq<Op>)
    ensures var t := DoAll(Start(max), ops);
            Conserved(t) && InOrder(Line(t.s), t.exclusions) && InOrder(History(t), t.exclusions + t.selections)
    ensures Ordered(DoAll(Start(max), ops))
    decreases |ops|
  {
    hide Do, InOrder, Conserved;
    if ops == [] {
      StartIsGood(max);
    } else {
      var front, op := ops[..|ops| - 1], ops[|ops| - 1];
      RunsConserveAndOrder(max, front);
      var t := DoAll(Start(max), front);
      DoConserves(t, op);
      match op
      case DoAdd(body) => AddOrders(t, body);
      case DoCommit(ex) => CommitOrders(t, ex);
      case DoGet(f) => GetOrders(t, f);
      case DoSetSize(size) => SizeOrders(t, size);
    }
  }

  lemma StartIsGood(max: int)
    ensures Conserved(Start(max)) && Ordered(Start(max))
  {
  }

  /** A list with a limit of n > 0 is left as it is while it is shorter than n, and is otherwise cut to
      its last n - 1 messages; with no limit it is never cut. */
  lemma TrimIsExact(q: seq<Msg>, max: int)
    ensures var r := Trim(q, max);
            |r| == (if max > 0 && |q| >= max then max - 1 else |q|) && r == q[|q| - |r|..]
  {
  }

  /**
   A limit of n was meant to let a list hold n messages.  Exactly when a message is dropped: by an
   arrival, if the quarantine would come to n; by a commit, if the queue would; by setting the limit, if
   the queue has n.  What is dropped is then the oldest: the messages in front of the last n - 1.
   */
  lemma LimitsDropOldest(s: Queues, m: Msg, ex: seq<Filter>, size: int)
    ensures var q, r := s.quarantine + [m], Added(s, m).quarantine;
            (r != q <==> s.max > 0 && |s.quarantine| + 1 >= s.max) && r == q[|q| - |r|..] &&
            (r != q ==> |r| == s.max - 1)
    ensures var q, r := s.queue + Free(s.quarantine, ex), Committed(s, ex).queue;
            (r != q <==> s.max > 0 && |q| >= s.max) && r == q[|q| - |r|..] && (r != q ==> |r| == s.max - 1)
    ensures var r := Resized(s, size).queue;
            (r != s.queue <==> size > 0 && |s.queue| >= size) && r == s.queue[|s.queue| - |r|..] &&
            (r != s.queue ==> |r| == size - 1)
  {
    hide Trim, Free;
    TrimIsExact(s.quarantine + [m], s.max);
    TrimIsExact(s.queue + Free(s.quarantine, ex), s.max);
    TrimIsExact(s.queue, size);
  }

  /** The first n messages to arrive, all with the same body. */
  function Numbered(n: nat, body: string): (q: seq<Msg>)
    ensures |q| == n
  {
    if n == 0 then [] else Numbered(n - 1, body) + [Msg(n - 1, body)]
  }

  function Arrivals(n: nat, body: string): seq<Op> {
    if n == 0 then [] else Arrivals(n - 1, body) + [DoAdd(body)]
  }

  /** Only arrivals so far, and nothing dropped. */
  function Arrived(q: seq<Msg>, max: int): Trail { Trail(Queues([], q, max), q, [], multiset{}, [], []) }

  lemma OneMoreArrival(q: seq<Msg>, max: int, body: string)
    ensures var all := q + [Msg(|q|, body)];
            Do(Arrived(q, max), DoAdd(body)) ==
            Trail(Queues([], Trim(all, max), max), all, [], multiset{} + Cut(all, Trim(all, max)), [], [])
  {
    hide Trim;
  }

  lemma LastOp(t: Trail, ops: seq<Op>, op: Op)
    ensures DoAll(t, ops + [op]) == Do(DoAll(t, ops), op)
  {
    hide Do;
    assert (ops + [op])[..|ops|] == ops;
  }

  lemma {:induction false} FewArrivals(max: int, n: nat, body: string)
    requires n < max
    ensures DoAll(Start(max), Arrivals(n, body)) == Arrived(Numbered(n, body), max)
    decreases n
  {
    hide Do, Trim, Cut;
    if n > 0 {
      FewArrivals(max, n - 1, body);
      LastOp(Start(max), Arrivals(n - 1, body), DoAdd(body));
      OneMoreArrival(Numbered(n - 1, body), max, body);
      TrimIsExact(Numbered(n, body), max);
      NothingCut(Numbered(n, body));
    }
  }

  lemma NothingCut(q: seq<Msg>)
    ensures multiset{} + Cut(q, q[0..]) == multiset{}
  {
    assert q[0..] == q;
  }

  /** With a limit of n, the n-th message to arrive costs the first. */
  lemma LimitIsOneShort(n: nat, body: string)
    requires n > 0
    ensures var t := DoAll(Start(n), Arrivals(n, body));
            var q := Numbered(n, body);
            t.arrived == q && t.s.quarantine == q[1..] && t.dropped == multiset{q[0]}
  {
    hide Do, Trim, Cut, DoAll;
    FewArrivals(n, n - 1, body);
    LastOp(Start(n), Arrivals(n - 1, body), DoAdd(body));
    OneMoreArrival(Numbered(n - 1, body), n, body);
    TrimIsExact(Numbered(n, body), n);
    FirstCut(Numbered(n, body));
  }

  lemma FirstCut(q: seq<Msg>)
    requires q != []
    ensures multiset{} + Cut(q, q[1..]) == multiset{q[0]}
  {
    assert q == [q[0]] + q[1..];
  }
}
