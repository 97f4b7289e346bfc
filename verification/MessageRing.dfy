/**
 The C gateway's ring of received messages (fjage.c: mqueue_put, mqueue_get, mqueue_get_any).
 Taking a message from the middle leaves a hole, so what the ring holds is a window of slots.
 */
module MessageRing {
  import opened Common

  const QUEUE_LEN := 1024

  /** A received message, told apart by its address; a class or a reply id that its JSON text does
      not have is None. */
  datatype Message = Message(address: nat, clazz: Option<string>, inReplyTo: Option<string>)

  /** What a caller asks for: a class and the message replied to, each optional, or any of some classes. */
  datatype Query = Reply(clazz: Option<string>, id: Option<string>) | AnyOf(clazzes: seq<string>)

  predicate Matches(q: Query, m: Message) {
    match q
    case Reply(clazz, id) => (clazz.Some? ==> m.clazz == clazz) && (id.Some? ==> m.inReplyTo == id)
    case AnyOf(clazzes) => m.clazz.Some? && m.clazz.value in clazzes
  }

  /** The slots from the oldest to the newest; None is a hole. */
  type Window = seq<Option<Message>>

  function Listed(s: Option<Message>): seq<Message> { if s.None? then [] else [s.value] }

  /** The messages waiting, oldest first. */
  function Contents(w: Window): (c: seq<Message>) {
    if w == [] then [] else Contents(w[..|w| - 1]) + Listed(w[|w| - 1])
  }

  /** The new window, and what is destroyed to make room. */
  function PutInto(w: Window, m: Message): (Window, Option<Message>) {
    if |w| + 1 < QUEUE_LEN then (w + [Some(m)], None) else (w[1..] + [Some(m)], w[0])
  }

  predicate Answers(w: Window, q: Query, i: nat)
    requires i < |w|
  {
    w[i].Some? && Matches(q, w[i].value)
  }

  /** The first slot with a message that matches, or the length of the window. */
  function First(w: Window, q: Query, from: nat): (i: nat)
    requires from <= |w|
    ensures from <= i <= |w| && (i < |w| ==> Answers(w, q, i))
    ensures forall j :: from <= j < i ==> !Answers(w, q, j)
    decreases |w| - from
  {
    if from == |w| || Answers(w, q, from) then from else First(w, q, from + 1)
  }

  /** Without slot i; only the oldest slot is given up. */
  function Without(w: Window, i: nat): Window
    requires i < |w|
  {
    if i == 0 then w[1..] else w[i := None]
  }

  function TakeFrom(w: Window, q: Query): (Window, Option<Message>) {
    var i := First(w, q, 0);
    if i == |w| then (w, None) else (Without(w, i), w[i])
  }

  // ---------------------------------------------------------------------------
  // A take is the removal of the oldest match from the list of waiting messages
  // ---------------------------------------------------------------------------

  lemma {:induction false} ContentsSplit(a: Window, b: Window)
    ensures Contents(a + b) == Contents(a) + Contents(b)
    decreases |b|
  {
    if b == [] {
      assert a + b == a;
    } else {
      assert (a + b)[..|a + b| - 1] == a + b[..|b| - 1];
      ContentsSplit(a, b[..|b| - 1]);
    }
  }

  lemma ContentsOfOne(s: Option<Message>)
    ensures Contents([]) == [] && Contents([s]) == Listed(s)
  {
    assert [s][..0] == [];
  }

  lemma SplitWindow(w: Window, i: nat)
    requires i < |w|
    ensures w == w[..i] + ([w[i]] + w[i + 1..])
  {
  }

  lemma ContentsAround(w: Window, i: nat)
    requires i < |w|
    ensures Contents(w) == Contents(w[..i]) + Listed(w[i]) + Contents(w[i + 1..])
  {
    hide Contents;
    SplitWindow(w, i);
    ContentsSplit(w[..i], [w[i]] + w[i + 1..]);
    ContentsSplit([w[i]], w[i + 1..]);
    ContentsOfOne(w[i]);
  }

  lemma WithoutRemoves(w: Window, i: nat)
    requires i < |w|
    ensures Contents(Without(w, i)) == Contents(w[..i]) + Contents(w[i + 1..])
  {
    if i > 0 {
      var w' := w[i := None];
      ContentsAround(w', i);
      assert w'[..i] == w[..i] && w'[i + 1..] == w[i + 1..];
    }
  }

  lemma {:induction false} ContentsAre(w: Window, m: Message)
    ensures m in Contents(w) <==> Some(m) in w
    decreases |w|
  {
    if w != [] {
      ContentsAre(w[..|w| - 1], m);
      assert w == w[..|w| - 1] + [w[|w| - 1]];
    }
  }

  lemma TakeIsOldestMatch(w: Window, q: Query)
    ensures var (w', r) := TakeFrom(w, q);
            var c := Contents(w);
            if r.None? then w' == w && forall m :: m in c ==> !Matches(q, m)
            else exists j :: 0 <= j < |c| && Some(c[j]) == r && Matches(q, c[j]) &&
                             (forall k :: 0 <= k < j ==> !Matches(q, c[k])) &&
                             Contents(w') == c[..j] + c[j + 1..]
  {
    hide Contents, Matches;
    var i := First(w, q, 0);
    var c := Contents(w);
    if i == |w| {
      forall m | m in c ensures !Matches(q, m) {
        ContentsAre(w, m);
        var l :| 0 <= l < |w| && w[l] == Some(m);
        assert !Answers(w, q, l);
      }
    } else {
      ContentsAround(w, i);
      WithoutRemoves(w, i);
      var j := |Contents(w[..i])|;
      assert c[..j] == Contents(w[..i]) && c[j + 1..] == Contents(w[i + 1..]) && Some(c[j]) == w[i];
      forall k | 0 <= k < j ensures !Matches(q, c[k]) {
        ContentsAre(w[..i], c[k]);
        assert c[k] == c[..j][k];
        var l :| 0 <= l < i && w[..i][l] == Some(c[k]);
        assert !Answers(w, q, l);
      }
    }
  }

  /** The message of the class named, if one is, that answers the message named, if one is. */
  predicate IsReply(m: Message, clazz: Option<string>, id: Option<string>) {
    (clazz.Some? ==> m.clazz == clazz) && (id.Some? ==> m.inReplyTo == id)
  }

  /** Asking by class and reply id: the oldest such message, or nothing if there is none. */
  lemma TakeByReply(w: Window, clazz: Option<string>, id: Option<string>)
    ensures var (w', r) := TakeFrom(w, Reply(clazz, id));
            var c := Contents(w);
            if r.None? then w' == w && forall m :: m in c ==> !IsReply(m, clazz, id)
            else
              exists j :: 0 <= j < |c| && Some(c[j]) == r && Contents(w') == c[..j] + c[j + 1..] &&
                          IsReply(c[j], clazz, id) && forall k :: 0 <= k < j ==> !IsReply(c[k], clazz, id)
  {
    hide Contents, TakeFrom;
    TakeIsOldestMatch(w, Reply(clazz, id));
    forall m ensures Matches(Reply(clazz, id), m) <==> IsReply(m, clazz, id) {}
  }

  /** Asking for any of some classes: the oldest message whose class is one of them. */
  lemma TakeByClass(w: Window, clazzes: seq<string>)
    ensures var (w', r) := TakeFrom(w, AnyOf(clazzes));
            var c := Contents(w);
            if r.None? then
              w' == w && forall m, i :: m in c && 0 <= i < |clazzes| ==> m.clazz != Some(clazzes[i])
            else
              exists j :: 0 <= j < |c| && Some(c[j]) == r && Contents(w') == c[..j] + c[j + 1..] &&
                          (exists i :: 0 <= i < |clazzes| && c[j].clazz == Some(clazzes[i])) &&
                          forall k, i :: 0 <= k < j && 0 <= i < |clazzes| ==> c[k].clazz != Some(clazzes[i])
  {
    hide Contents, TakeFrom;
    var q := AnyOf(clazzes);
    TakeIsOldestMatch(w, q);
    var (w', r) := TakeFrom(w, q);
    var c := Contents(w);
    if r.Some? {
      var j :| 0 <= j < |c| && Some(c[j]) == r && Matches(q, c[j]) &&
               (forall k :: 0 <= k < j ==> !Matches(q, c[k])) && Contents(w') == c[..j] + c[j + 1..];
      assert Some(c[j]) == r;
      forall k, i | 0 <= k < j && 0 <= i < |clazzes| ensures c[k].clazz != Some(clazzes[i]) {
        assert !Matches(q, c[k]) && clazzes[i] in clazzes;
      }
    }
  }

  // ---------------------------------------------------------------------------
  // Runs
  // ---------------------------------------------------------------------------

  datatype Op = Received(m: Message) | Asked(q: Query)

  /** The ring, with all that was ever put into it and what became of the messages that left it. */
  datatype History = History(window: Window, received: seq<Message>, returned: seq<Message>, destroyed: seq<Message>)

  function Log(log: seq<Message>, m: Option<Message>): seq<Message> {
    log + Listed(m)
  }

  function Step(h: History, op: Op): History {
    match op
    case Received(m) =>
      var (w, d) := PutInto(h.window, m);
      History(w, h.received + [m], h.returned, Log(h.destroyed, d))
    case Asked(q) =>
      var (w, r) := TakeFrom(h.window, q);
      History(w, h.received, Log(h.returned, r), h.destroyed)
  }

  function Run(ops: seq<Op>): History {
    if ops == [] then History([], [], [], []) else Step(Run(ops[..|ops| - 1]), ops[|ops| - 1])
  }

  /** The slots belong to the most recently received messages, in the order they came. */
  predicate Aligned(h: History) {
    |h.window| < QUEUE_LEN && |h.window| <= |h.received| &&
    forall i :: 0 <= i < |h.window| ==>
      h.window[i] == None || h.window[i] == Some(h.received[|h.received| - |h.window| + i])
  }

  predicate Conserved(h: History) {
    multiset(h.received) == multiset(h.returned) + multiset(h.destroyed) + multiset(Contents(h.window))
  }

  lemma ContentsEnds(w: Window, m: Message)
    ensures Contents(w + [Some(m)]) == Contents(w) + [m]
    ensures w != [] ==> Contents(w) == Listed(w[0]) + Contents(w[1..])
  {
    hide Contents;
    ContentsSplit(w, [Some(m)]);
    ContentsOfOne(Some(m));
    if w != [] {
      ContentsSplit([w[0]], w[1..]);
      ContentsOfOne(w[0]);
      assert w == [w[0]] + w[1..];
    }
  }

  lemma PutConserves(w: Window, m: Message)
    ensures var (w', d) := PutInto(w, m);
            multiset(Contents(w)) + multiset([m]) == multiset(Listed(d)) + multiset(Contents(w'))
  {
    hide Contents;
    ContentsEnds(w, m);
    if w != [] { ContentsEnds(w[1..], m); }
  }

  lemma TakeConserves(w: Window, q: Query)
    ensures var (w', r) := TakeFrom(w, q);
            multiset(Contents(w)) == multiset(Listed(r)) + multiset(Contents(w'))
  {
    hide Contents, First, Matches, Without;
    var i := First(w, q, 0);
    if i < |w| {
      ContentsAround(w, i);
      WithoutRemoves(w, i);
    }
  }

  lemma StepConserves(h: History, op: Op)
    requires Conserved(h)
    ensures Conserved(Step(h, op))
  {
    hide Contents, PutInto, TakeFrom;
    match op
    case Received(m) =>
      PutConserves(h.window, m);
      var (w, d) := PutInto(h.window, m);
      var h' := Step(h, op);
      assert h'.window == w;
      calc {
        multiset(h'.received);
        multiset(h.received) + multiset([m]);
        multiset(h.returned) + multiset(h.destroyed) + (multiset(Contents(h.window)) + multiset([m]));
        multiset(h.returned) + (multiset(h.destroyed) + multiset(Listed(d))) + multiset(Contents(w));
        multiset(h'.returned) + multiset(h'.destroyed) + multiset(Contents(w));
      }
    case Asked(q) =>
      TakeConserves(h.window, q);
  }

  lemma StepAligns(h: History, op: Op)
    requires Aligned(h)
    ensures Aligned(Step(h, op))
  {
    hide Matches, Contents, First;
  }

  /** Every message received is waiting, was returned or was destroyed, and only one of these if no
      message is received twice; the waiting ones are in order of arrival. */
  lemma {:induction false} RunAccounts(ops: seq<Op>)
    ensures Aligned(Run(ops)) && Conserved(Run(ops))
    decreases |ops|
  {
    hide Step;
    if ops != [] {
      RunAccounts(ops[..|ops| - 1]);
      StepAligns(Run(ops[..|ops| - 1]), ops[|ops| - 1]);
      StepConserves(Run(ops[..|ops| - 1]), ops[|ops| - 1]);
    }
  }

  predicate Distinct(s: seq<Message>) {
    forall i, j :: 0 <= i < j < |s| ==> s[i] != s[j]
  }

  lemma {:induction false} OnceInDistinct(s: seq<Message>, m: Message)
    requires Distinct(s)
    ensures multiset(s)[m] <= 1
    decreases |s|
  {
    if s != [] {
      var t := s[..|s| - 1];
      assert s == t + [s[|s| - 1]];
      OnceInDistinct(t, m);
      if m == s[|s| - 1] { assert m !in t; }
    }
  }

  /** No message is both returned and destroyed, returned twice, destroyed twice, or gone and waiting. */
  lemma NoDoubleFate(ops: seq<Op>, m: Message)
    requires Distinct(Run(ops).received)
    ensures var h := Run(ops);
            multiset(h.returned)[m] + multiset(h.destroyed)[m] + multiset(Contents(h.window))[m] <= 1
  {
    RunAccounts(ops);
    OnceInDistinct(Run(ops).received, m);
  }

  /** Message number k is still waiting. */
  predicate Waiting(h: History, k: nat) {
    k < |h.received| && k + |h.window| >= |h.received| && h.window[k + |h.window| - |h.received|].Some?
  }

  /** When a message is received, one is destroyed exactly when the message received 1023 messages before it
      (one less than the ring has slots) is still waiting; and it is that one, the oldest of all. */
  lemma PutDestroysTheUnclaimed(ops: seq<Op>, m: Message)
    ensures var h := Run(ops);
            var d := PutInto(h.window, m).1;
            var k := |h.received| - 1023;
            (d.Some? <==> k >= 0 && Waiting(h, k)) &&
            (d.Some? ==> d.value == h.received[k] && [d.value] <= Contents(h.window))
  {
    hide Contents, Conserved, Run;
    RunAccounts(ops);
    var w := Run(ops).window;
    if |w| + 1 == QUEUE_LEN {
      ContentsEnds(w, m);
    }
  }

  // ---------------------------------------------------------------------------
  // The ring destroys a message although it has room
  // ---------------------------------------------------------------------------

  function Holes(n: nat): Window { seq(n, _ => None) }

  /** One message that nobody asks for, then n others, each taken as soon as it comes. */
  function Churn(unread: Message, other: Message, q: Query, n: nat): seq<Op> {
    if n == 0 then [Received(unread)] else Churn(unread, other, q, n - 1) + [Received(other), Asked(q)]
  }

  lemma {:induction false} ChurnLeavesHoles(unread: Message, other: Message, q: Query, n: nat)
    requires Matches(q, other) && !Matches(q, unread) && n < QUEUE_LEN - 1
    ensures Run(Churn(unread, other, q, n)).window == [Some(unread)] + Holes(n)
  {
    hide Step;
    var ops := Churn(unread, other, q, n);
    if n == 0 {
      assert ops[..0] == [];
      assert Run(ops) == Step(Run([]), ops[0]);
      FirstPut(unread);
    } else {
      var before := Churn(unread, other, q, n - 1);
      ChurnLeavesHoles(unread, other, q, n - 1);
      assert ops[..|ops| - 1] == before + [Received(other)];
      assert (before + [Received(other)])[..|before|] == before;
      PutAndTake(Run(before), unread, other, q, n - 1);
    }
  }

  lemma FirstPut(m: Message)
    ensures Step(Run([]), Received(m)).window == [Some(m)] + Holes(0)
  {
  }

  lemma PutAndTake(h: History, unread: Message, other: Message, q: Query, n: nat)
    requires Matches(q, other) && !Matches(q, unread) && n + 2 < QUEUE_LEN && h.window == [Some(unread)] + Holes(n)
    ensures Step(Step(h, Received(other)), Asked(q)).window == [Some(unread)] + Holes(n + 1)
  {
    hide Matches;
    var w := h.window + [Some(other)];
    assert Step(h, Received(other)).window == w;
    assert First(w, q, 0) == n + 1 by {
      assert forall i :: 0 <= i < n + 1 ==> !Answers(w, q, i);
      assert Answers(w, q, n + 1);
    }
    assert w[n + 1 := None] == [Some(unread)] + Holes(n + 1);
  }

  /** A message can be destroyed while it is the only one waiting. */
  lemma DestroysTheOnlyMessage(unread: Message, other: Message, q: Query)
    requires Matches(q, other) && !Matches(q, unread)
    ensures exists ops: seq<Op> ::
              Contents(Run(ops).window) == [unread] && PutInto(Run(ops).window, other).1 == Some(unread)
  {
    var ops := Churn(unread, other, q, QUEUE_LEN - 2);
    ChurnLeavesHoles(unread, other, q, QUEUE_LEN - 2);
    ContentsSplit([Some(unread)], Holes(QUEUE_LEN - 2));
    HolesAreEmpty(QUEUE_LEN - 2);
    ContentsOfOne(Some(unread));
    assert Contents(Run(ops).window) == [unread] && PutInto(Run(ops).window, other).1 == Some(unread);
  }

  lemma {:induction false} HolesAreEmpty(n: nat)
    ensures Contents(Holes(n)) == []
  {
    if n > 0 {
      assert Holes(n)[..n - 1] == Holes(n - 1);
      HolesAreEmpty(n - 1);
    }
  }

  // ---------------------------------------------------------------------------
  // The ring itself
  // ---------------------------------------------------------------------------

  /** The slots in use, from the tail up to the head and around the end of the array. */
  function Slots(q: Window, head: nat, tail: nat): Window
    requires head < QUEUE_LEN == |q| && tail < QUEUE_LEN
  {
    if tail <= head then q[tail..head] else q[tail..] + q[..head]
  }

  /** Every other slot is empty. */
  predicate Tidy(q: Window, head: nat, tail: nat) {
    head < QUEUE_LEN == |q| && tail < QUEUE_LEN &&
    forall i :: 0 <= i < QUEUE_LEN && !(if tail <= head then tail <= i < head else tail <= i || i < head) ==>
                q[i] == None
  }

  /** Slot i is k places after the tail. */
  predicate At(i: int, k: nat, tail: nat) {
    0 <= i < QUEUE_LEN && i == Index(k, tail)
  }

  /** The index of the slot k places after the tail. */
  function Index(k: nat, tail: nat): nat { if tail + k < QUEUE_LEN then tail + k else tail + k - QUEUE_LEN }

  function Span(head: nat, tail: nat): nat
    requires tail < QUEUE_LEN
  {
    if tail <= head then head - tail else QUEUE_LEN - tail + head
  }

  lemma SlotsLength(q: Window, head: nat, tail: nat)
    requires head < QUEUE_LEN == |q| && tail < QUEUE_LEN
    ensures |Slots(q, head, tail)| == Span(head, tail)
  {
  }

  lemma SlotAt(q: Window, head: nat, tail: nat, k: nat)
    requires head < QUEUE_LEN == |q| && tail < QUEUE_LEN && k < Span(head, tail)
    ensures |Slots(q, head, tail)| == Span(head, tail) && Slots(q, head, tail)[k] == q[Index(k, tail)]
  {
  }

  /** What Slots lists is determined slot by slot. */
  lemma SlotsAre(q: Window, head: nat, tail: nat, w: Window)
    requires head < QUEUE_LEN == |q| && tail < QUEUE_LEN && |w| == Span(head, tail)
    requires forall k :: 0 <= k < |w| ==> w[k] == q[Index(k, tail)]
    ensures Slots(q, head, tail) == w
  {
    hide Slots, Index;
    SlotsLength(q, head, tail);
    forall k | 0 <= k < |w| ensures Slots(q, head, tail)[k] == w[k] { SlotAt(q, head, tail, k); }
  }

  lemma PutSlots(q: Window, head: nat, tail: nat, x: Option<Message>)
    requires Tidy(q, head, tail) && (head + 1) % QUEUE_LEN != tail
    ensures var q', head' := q[head := x], (head + 1) % QUEUE_LEN;
            Tidy(q', head', tail) && Slots(q', head', tail) == Slots(q, head, tail) + [x]
    ensures |Slots(q, head, tail)| < QUEUE_LEN - 1
  {
    hide Slots;
    var w := Slots(q, head, tail) + [x];
    SlotsLength(q, head, tail);
    forall k | 0 <= k < |w| ensures w[k] == q[head := x][Index(k, tail)] {
      if k < |w| - 1 { SlotAt(q, head, tail, k); }
    }
    SlotsAre(q[head := x], (head + 1) % QUEUE_LEN, tail, w);
  }

  lemma PutSlotsFull(q: Window, head: nat, tail: nat, x: Option<Message>)
    requires Tidy(q, head, tail) && (head + 1) % QUEUE_LEN == tail
    ensures var q' := q[head := x][tail := None];
            Tidy(q', tail, (tail + 1) % QUEUE_LEN) && |Slots(q, head, tail)| == QUEUE_LEN - 1 &&
            Slots(q', tail, (tail + 1) % QUEUE_LEN) == Slots(q, head, tail)[1..] + [x] &&
            q[head := x][tail] == Slots(q, head, tail)[0]
  {
    hide Slots;
    SlotAt(q, head, tail, 0);
    var w := Slots(q, head, tail)[1..] + [x];
    var q', tail' := q[head := x][tail := None], (tail + 1) % QUEUE_LEN;
    forall k | 0 <= k < |w| ensures w[k] == q'[Index(k, tail')] {
      if k < |w| - 1 { SlotAt(q, head, tail, k + 1); }
    }
    SlotsAre(q', tail, tail', w);
  }

  lemma RemoveSlot(q: Window, head: nat, tail: nat, i: nat, k: nat)
    requires Tidy(q, head, tail) && At(i, k, tail) && k < |Slots(q, head, tail)|
    ensures q[i] == Slots(q, head, tail)[k]
    ensures var q' := q[i := None];
            var tail' := if k == 0 then (tail + 1) % QUEUE_LEN else tail;
            Tidy(q', head, tail') && Slots(q', head, tail') == Without(Slots(q, head, tail), k)
    ensures i == tail <==> k == 0
  {
    hide Slots;
    SlotsLength(q, head, tail);
    SlotAt(q, head, tail, k);
    var w := Without(Slots(q, head, tail), k);
    var q', tail' := q[i := None], if k == 0 then (tail + 1) % QUEUE_LEN else tail;
    forall l | 0 <= l < |w| ensures w[l] == q'[Index(l, tail')] {
      SlotAt(q, head, tail, if k == 0 then l + 1 else l);
    }
    SlotsAre(q', head, tail', w);
  }

  lemma NextSlot(q: Window, head: nat, tail: nat, i: int, k: nat)
    requires Tidy(q, head, tail) && At(i, k, tail) && k <= |Slots(q, head, tail)|
    ensures i != head <==> k < |Slots(q, head, tail)|
    ensures k < |Slots(q, head, tail)| ==> Slots(q, head, tail)[k] == q[i] && At((i + 1) % QUEUE_LEN, k + 1, tail)
  {
    hide Slots;
    SlotsLength(q, head, tail);
    if k < Span(head, tail) { SlotAt(q, head, tail, k); }
  }

  class Ring {
    var mqueue: array<Option<Message>>
    var head: nat
    var tail: nat

    ghost predicate Valid()
      reads this, mqueue
    {
      Tidy(mqueue[..], head, tail)
    }

    ghost function View(): Window
      reads this, mqueue
      requires Valid()
    {
      Slots(mqueue[..], head, tail)
    }

    constructor ()
      ensures Valid() && View() == [] && fresh(mqueue)
    {
      mqueue := new Option<Message>[QUEUE_LEN](_ => None);
      head, tail := 0, 0;
    }

    /** mqueue_put; what it destroys is the result. */
    method Put(m: Message) returns (destroyed: Option<Message>)
      requires Valid()
      modifies this`head, this`tail, mqueue
      ensures Valid() && (View(), destroyed) == PutInto(old(View()), m)
    {
      hide Slots;
      ghost var q := mqueue[..];
      if (head + 1) % QUEUE_LEN == tail {
        PutSlotsFull(q, head, tail, Some(m));
      } else {
        PutSlots(q, head, tail, Some(m));
      }
      destroyed := None;
      mqueue[head] := Some(m);
      head := (head + 1) % QUEUE_LEN;
      assert mqueue[..] == q[old(head) := Some(m)];
      if head == tail {
        tail := (tail + 1) % QUEUE_LEN;
        destroyed := mqueue[head];
        mqueue[head] := None;
        assert mqueue[..] == q[old(head) := Some(m)][head := None];
      }
    }

    /** What both of the searches do with the slot they stop at. */
    method Remove(i: nat, ghost k: nat) returns (m: Option<Message>)
      requires Valid() && k < |View()| && At(i, k, tail)
      modifies this`tail, mqueue
      ensures Valid() && View() == Without(old(View()), k) && m == old(View())[k]
    {
      hide Slots, Without;
      RemoveSlot(mqueue[..], head, tail, i, k);
      m := mqueue[i];
      mqueue[i] := None;
      assert mqueue[..] == old(mqueue[..])[i := None];
      if i == tail { tail := (tail + 1) % QUEUE_LEN; }
    }

    /** mqueue_get */
    method Get(clazz: Option<string>, id: Option<string>) returns (msg: Option<Message>)
      requires Valid()
      modifies this`tail, mqueue
      ensures Valid() && (View(), msg) == TakeFrom(old(View()), Reply(clazz, id))
      ensures var c := Contents(old(View()));
              if msg.None? then
                View() == old(View()) && forall m :: m in c ==> !IsReply(m, clazz, id)
              else
                exists j :: 0 <= j < |c| && Some(c[j]) == msg && Contents(View()) == c[..j] + c[j + 1..] &&
                            IsReply(c[j], clazz, id) && forall k :: 0 <= k < j ==> !IsReply(c[k], clazz, id)
    {
      TakeByReply(View(), clazz, id);
      hide Contents, Matches, Without, Slots, First;
      ghost var w, q := View(), Reply(clazz, id);
      ghost var k := 0;
      var i := tail;
      NextSlot(mqueue[..], head, tail, i, 0);
      msg := None;
      while i != head && msg.None?
        invariant Valid()
        invariant k <= |w|
        invariant msg.None? ==> View() == w && First(w, q, 0) == First(w, q, k) &&
                                  At(i, k, tail) && (i != head <==> k < |w|)
        invariant msg.Some? ==> (View(), msg) == TakeFrom(w, q)
        decreases msg.None?, |w| - k
      {
        NextSlot(mqueue[..], head, tail, i, k);
        SkipStep(w, q, k);
        var m := mqueue[i];
        if m.Some? {
          MatchReply(clazz, id, m.value);
          if (clazz.None? || (m.value.clazz.Some? && m.value.clazz.value == clazz.value)) &&
             (id.None? || (m.value.inReplyTo.Some? && m.value.inReplyTo.value == id.value)) {
            msg := Remove(i, k);
          }
        }
        i := (i + 1) % QUEUE_LEN;
        k := k + 1;
        if msg.None? { NextSlot(mqueue[..], head, tail, i, k); }
      }
    }

    /** mqueue_get_any */
    method GetAny(clazzes: seq<string>) returns (msg: Option<Message>)
      requires Valid()
      modifies this`tail, mqueue
      ensures Valid() && (View(), msg) == TakeFrom(old(View()), AnyOf(clazzes))
      ensures var c := Contents(old(View()));
              if msg.None? then
                View() == old(View()) && forall m, i :: m in c && 0 <= i < |clazzes| ==> m.clazz != Some(clazzes[i])
              else
                exists j :: 0 <= j < |c| && Some(c[j]) == msg && Contents(View()) == c[..j] + c[j + 1..] &&
                            (exists i :: 0 <= i < |clazzes| && c[j].clazz == Some(clazzes[i])) &&
                            forall k, i :: 0 <= k < j && 0 <= i < |clazzes| ==> c[k].clazz != Some(clazzes[i])
    {
      TakeByClass(View(), clazzes);
      hide Contents, Without, Slots, First;
      ghost var w, q := View(), AnyOf(clazzes);
      ghost var k := 0;
      msg := None;
      if |clazzes| < 1 { return; }
      var i := tail;
      NextSlot(mqueue[..], head, tail, i, 0);
      while i != head && msg.None?
        invariant Valid()
        invariant k <= |w|
        invariant msg.None? ==> View() == w && First(w, q, 0) == First(w, q, k) &&
                                  At(i, k, tail) && (i != head <==> k < |w|)
        invariant msg.Some? ==> (View(), msg) == TakeFrom(w, q)
        decreases msg.None?, |w| - k
      {
        NextSlot(mqueue[..], head, tail, i, k);
        SkipStep(w, q, k);
        var m := mqueue[i];
        if m.Some? && m.value.clazz.Some? {
          var any := CompareAny(m.value.clazz.value, clazzes);
          if any { msg := Remove(i, k); }
        }
        i := (i + 1) % QUEUE_LEN;
        k := k + 1;
        if msg.None? { NextSlot(mqueue[..], head, tail, i, k); }
      }
    }
  }

  lemma SkipStep(w: Window, q: Query, k: nat)
    requires k < |w|
    ensures First(w, q, k) == if Answers(w, q, k) then k else First(w, q, k + 1)
  {
  }

  lemma MatchReply(clazz: Option<string>, id: Option<string>, m: Message)
    ensures Matches(Reply(clazz, id), m) <==>
            (clazz.None? || (m.clazz.Some? && m.clazz.value == clazz.value)) &&
            (id.None? || (m.inReplyTo.Some? && m.inReplyTo.value == id.value))
  {
  }

  method CompareAny(clazz: string, clazzes: seq<string>) returns (found: bool)
    ensures found <==> clazz in clazzes
  {
    for i := 0 to |clazzes|
      invariant clazz !in clazzes[..i]
    {
      if clazzes[i] == clazz { return true; }
    }
    return false;
  }
}
