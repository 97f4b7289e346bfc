/**
 What the child counts of jsmn mean on any text at all: the tokens are the preorder of a forest, whatever
 the order of keys, colons and commas.  So json_get, which walks by the counts alone, stays inside any
 complete token array that is not empty.
 */
module JsmnForest {
  import opened JsmnScan
  import opened JsmnParser
  import opened JsonText
  import opened JsonGet

  predicate Counts(toks: seq<Token>) { forall i :: 0 <= i < |toks| ==> toks[i].size >= 0 }

  // ---------------------------------------------------------------------------
  // Skipping by counts
  // ---------------------------------------------------------------------------

  /** Skipping a + b subtrees is skipping a, then b. */
  lemma {:induction false} SpanAdd(toks: seq<Token>, i: nat, a: nat, b: nat)
    requires Counts(toks) && Span(toks, i, a) != -1
    ensures i <= Span(toks, i, a) && Span(toks, i, a + b) == Span(toks, Span(toks, i, a), b)
    decreases |toks| - i
  {
    if a > 0 { SpanAdd(toks, i + 1, a - 1 + toks[i].size, b); }
  }

  lemma {:induction false} SpanBounds(toks: seq<Token>, i: nat, n: int)
    requires Span(toks, i, n) != -1
    ensures i <= Span(toks, i, n) && (i <= |toks| ==> Span(toks, i, n) <= |toks|)
    decreases |toks| - i
  {
    if n > 0 { SpanBounds(toks, i + 1, n - 1 + toks[i].size); }
  }

  /** Only the counts between the start and the result matter. */
  lemma {:induction false} SpanReads(s: seq<Token>, t: seq<Token>, i: nat, n: int)
    requires Span(s, i, n) != -1 && Span(s, i, n) <= |t|
    requires forall k :: i <= k < Span(s, i, n) && k < |s| ==> k < |t| && t[k].size == s[k].size
    ensures Span(t, i, n) == Span(s, i, n)
    decreases |s| - i
  {
    if n > 0 {
      SpanBounds(s, i + 1, n - 1 + s[i].size);
      SpanReads(s, t, i + 1, n - 1 + s[i].size);
    }
  }

  // ---------------------------------------------------------------------------
  // The forest as it grows
  // ---------------------------------------------------------------------------

  /** Token q is the last child of token p. */
  predicate LastChild(toks: seq<Token>, p: nat, q: nat) {
    p < |toks| && toks[p].size > 0 && Span(toks, p + 1, toks[p].size - 1) == q
  }

  lemma LastChildReads(s: seq<Token>, t: seq<Token>, p: nat, q: nat)
    requires LastChild(s, p, q) && p < q <= |s| && q <= |t|
    requires forall i :: p <= i < q ==> t[i].size == s[i].size
    ensures LastChild(t, p, q)
  {
    SpanReads(s, t, p + 1, s[p].size - 1);
  }

  /** From a root to the token added last, each the last child of the one before. */
  ghost predicate RightmostPath(toks: seq<Token>, path: seq<nat>) {
    path != [] && path[|path| - 1] == |toks| - 1 && toks[|toks| - 1].size == 0 &&
    (forall k :: 0 <= k < |path| ==> path[k] < |toks|) &&
    (forall j, k :: 0 <= j < k < |path| ==> path[j] < path[k]) &&
    (forall j, k :: 0 <= j < k < |path| && k == j + 1 ==> LastChild(toks, path[j], path[k]))
  }

  /** The first tree is the one that still grows, or is complete before it. */
  ghost predicate FirstTree(toks: seq<Token>, root: nat) {
    toks != [] && (root == 0 || (Span(toks, 1, toks[0].size) != -1 && Span(toks, 1, toks[0].size) <= root))
  }

  /** The superior token is on the path, at or below every open token. */
  ghost predicate Grows(st: State, path: seq<nat>) {
    Counts(st.toks) && (st.super == -1 || (st.super >= 0 && st.super in path)) &&
    (forall i :: 0 <= i < |st.toks| && IsOpen(st.toks[i]) ==> i in path && i <= st.super) &&
    (st.toks != [] ==> RightmostPath(st.toks, path) && FirstTree(st.toks, path[0])) &&
    (st.toks == [] ==> path == [])
  }

  /** Everything on the path is complete so far: its subtrees end where the array ends. */
  lemma {:induction false} PathSpans(toks: seq<Token>, path: seq<nat>, k: nat)
    requires Counts(toks) && RightmostPath(toks, path) && k < |path|
    ensures Span(toks, path[k] + 1, toks[path[k]].size) == |toks|
    decreases |path| - k
  {
    if k + 1 < |path| {
      assert LastChild(toks, path[k], path[k + 1]);
      PathSpans(toks, path, k + 1);
      SpanAdd(toks, path[k] + 1, toks[path[k]].size - 1, 1);
    }
  }

  lemma NewRoot(toks: seq<Token>, path: seq<nat>, t: Token)
    requires Counts(toks) && t.size == 0 && (toks != [] ==> RightmostPath(toks, path) && FirstTree(toks, path[0]))
    ensures RightmostPath(toks + [t], [|toks|]) && FirstTree(toks + [t], |toks|)
  {
    if toks != [] {
      if path[0] == 0 { PathSpans(toks, path, 0); }
      SpanReads(toks, toks + [t], 1, toks[0].size);
    }
  }

  lemma NewChild(toks: seq<Token>, path: seq<nat>, k: nat, t: Token, r: seq<Token>)
    requires Counts(toks) && t.size == 0 && RightmostPath(toks, path) && FirstTree(toks, path[0]) && k < |path|
    requires r == Bump(toks, path[k]) + [t]
    ensures RightmostPath(r, path[..k + 1] + [|toks|]) && FirstTree(r, path[0])
  {
    var p := path[k];
    var path' := path[..k + 1] + [|toks|];
    PathSpans(toks, path, k);
    SpanReads(toks, r, p + 1, toks[p].size);
    assert LastChild(r, p, |toks|);
    forall i, j | 0 <= i < j < |path'| && j == i + 1 ensures LastChild(r, path'[i], path'[j]) {
      if j <= k {
        assert path'[i] == path[i] && path'[j] == path[j] && path[j] <= p;
        LastChildReads(toks, r, path[i], path[j]);
      }
    }
    if path[0] != 0 { SpanReads(toks, r, 1, toks[0].size); }
  }

  /** A token is added below the superior one. */
  lemma AddGrows(st: State, path: seq<nat>, t: Token) returns (path': seq<nat>)
    requires Sound(st) && Grows(st, path) && t.size == 0
    ensures var r := Bump(st.toks, st.super) + [t];
            RightmostPath(r, path') && FirstTree(r, path'[0]) && Counts(r) && (st.super != -1 ==> st.super in path') &&
            forall i :: 0 <= i < |st.toks| && IsOpen(st.toks[i]) ==> i in path' && i <= st.super && IsOpen(r[i])
  {
    hide RightmostPath, FirstTree;
    if st.super == -1 {
      NewRoot(st.toks, path, t);
      path' := [|st.toks|];
    } else {
      var k :| 0 <= k < |path| && path[k] == st.super;
      NewChild(st.toks, path, k, t, Bump(st.toks, st.super) + [t]);
      path' := path[..k + 1] + [|st.toks|];
      PrefixOfPath(st.toks, path, k);
      assert path'[k] == st.super && path'[0] == path[0];
      forall i | 0 <= i < |st.toks| && IsOpen(st.toks[i]) ensures i in path' {
        var l :| 0 <= l < |path| && path[l] == i;
        assert path'[l] == i;
      }
    }
  }

  lemma PrefixOfPath(toks: seq<Token>, path: seq<nat>, k: nat)
    requires RightmostPath(toks, path) && k < |path|
    ensures forall l :: 0 <= l < |path| && path[l] <= path[k] ==> l <= k
  {
  }

  lemma PathKeeps(s: seq<Token>, t: seq<Token>, path: seq<nat>)
    requires RightmostPath(s, path) && FirstTree(s, path[0])
    requires |s| == |t| && forall i :: 0 <= i < |s| ==> t[i].size == s[i].size
    ensures RightmostPath(t, path) && FirstTree(t, path[0])
  {
    forall j, k | 0 <= j < k < |path| && k == j + 1 ensures LastChild(t, path[j], path[k]) {
      LastChildReads(s, t, path[j], path[k]);
    }
    if path[0] != 0 { SpanReads(s, t, 1, s[0].size); }
  }

  lemma CloseGrows(st: State, path: seq<nat>, i: nat, end: nat)
    requires Sound(st) && Grows(st, path) && i < |st.toks|
    ensures var r := st.toks[i := st.toks[i].(end := end)]; Grows(State(r, Innermost(r, |r|)), path)
  {
    hide RightmostPath, FirstTree;
    PathKeeps(st.toks, st.toks[i := st.toks[i].(end := end)], path);
  }

  lemma LastIsOnPath(toks: seq<Token>, path: seq<nat>)
    requires RightmostPath(toks, path)
    ensures |toks| > 0 && |toks| - 1 in path
  {
    assert path[|path| - 1] == |toks| - 1;
  }

  lemma ApplyGrows(lex: Lexeme, at: nat, st: State, room: nat, path: seq<nat>) returns (path': seq<nat>)
    requires Sound(st) && Grows(st, path) && (lex.Text? ==> !IsContainer(lex.kind) && lex.end >= 0)
    requires lex.Open? ==> IsContainer(lex.kind)
    ensures var a := Apply(lex, at, st, room); a.Next? ==> Grows(a.st, path')
  {
    hide RightmostPath, FirstTree;
    path' := path;
    match lex
    case Open(kind) =>
      path' := AddGrows(st, path, Token(kind, at, -1, 0));
      LastIsOnPath(Bump(st.toks, st.super) + [Token(kind, at, -1, 0)], path');
      OldOpen(st, Token(kind, at, -1, 0));
    case Text(kind, start, end) =>
      path' := AddGrows(st, path, Token(kind, start, end, 0));
      OldOpen(st, Token(kind, start, end, 0));
    case Close(kind) =>
      var i := Innermost(st.toks, |st.toks|);
      if i != -1 { CloseGrows(st, path, i, at + 1); }
    case Colon => if st.toks != [] { LastIsOnPath(st.toks, path); }
    case _ =>
  }

  lemma OldOpen(st: State, t: Token)
    requires Sound(st)
    ensures var r := Bump(st.toks, st.super) + [t];
            forall i :: 0 <= i < |st.toks| ==> IsOpen(r[i]) == IsOpen(st.toks[i])
  {
  }

  lemma {:induction false} RunGrows(js: string, p: nat, st: State, room: nat, path: seq<nat>) returns (path': seq<nat>)
    requires Sound(st) && Grows(st, path)
    ensures Grows(Run(js, p, st, room).st, path')
    decreases |js| - p
  {
    hide Grows, ScanAt, Apply;
    path' := path;
    if !AtEnd(js, p) && ScanAt(js, p).Lexed? {
      ScanShape(js, p);
      var s := ScanAt(js, p);
      var a := Apply(s.lexeme, p, st, room);
      path' := ApplyGrows(s.lexeme, p, st, room, path);
      if a.Next? { path' := RunGrows(js, s.next, a.st, room, path'); } else { path' := path; }
    }
  }

  lemma StartGrows()
    ensures Grows(START, [])
  {
  }

  /** On any text at all, the counts of the first token lead over its children and no further than the
      end of the array. */
  lemma FirstTreeIsInRange(js: string, room: nat)
    ensures var toks := Run(js, 0, START, room).st.toks;
            Counts(toks) &&
            (toks != [] ==> 1 <= Span(toks, 1, toks[0].size) <= |toks| && toks[|toks| - 1].size == 0)
  {
    hide Run;
    StartGrows();
    var path := RunGrows(js, 0, START, room, []);
    var toks := Run(js, 0, START, room).st.toks;
    if toks != [] {
      if path[0] == 0 { PathSpans(toks, path, 0); }
      SpanBounds(toks, 1, toks[0].size);
    }
  }

  // ---------------------------------------------------------------------------
  // json_get on any complete token array
  // ---------------------------------------------------------------------------

  datatype Answer = Index(index: nat) | Missing | OutOfRange

  /** The loop of json_get; hits are the tokens whose text equals the key. */
  function Walk(toks: seq<Token>, hits: set<nat>, i: nat, n: int): Answer
    decreases n
  {
    if n <= 0 then Missing
    else if i >= |toks| then OutOfRange
    else if i in hits then Index(i + 1)
    else if Span(toks, i, 1) < 0 then OutOfRange
    else Walk(toks, hits, Span(toks, i, 1), n - 1)
  }

  /** json_get: it reads the first token before anything else. */
  function LookUp(toks: seq<Token>, hits: set<nat>): Answer {
    if toks == [] then OutOfRange else Walk(toks, hits, 1, toks[0].size)
  }

  lemma {:induction false} WalkStays(toks: seq<Token>, hits: set<nat>, i: nat, n: nat)
    requires Counts(toks) && i <= |toks| && Span(toks, i, n) != -1
    ensures var a := Walk(toks, hits, i, n);
            !a.OutOfRange? && (a.Index? ==> i < a.index <= |toks| && a.index - 1 in hits)
    decreases n
  {
    if n > 0 {
      SpanBounds(toks, i + 1, n - 1 + toks[i].size);
      SpanBounds(toks, i, n);
      if Span(toks, i, 1) == -1 {
        SpanFails(toks, i, 1, n - 1);
      } else {
        SpanAdd(toks, i, 1, n - 1);
        SpanBounds(toks, i, 1);
        WalkStays(toks, hits, Span(toks, i, 1), n - 1);
      }
    }
  }

  lemma {:induction false} SpanFails(toks: seq<Token>, i: nat, a: nat, b: nat)
    requires Counts(toks) && Span(toks, i, a) == -1
    ensures Span(toks, i, a + b) == -1
    decreases |toks| - i
  {
    if a > 0 && i < |toks| { SpanFails(toks, i + 1, a - 1 + toks[i].size, b); }
  }

  /**
   On the complete token array of any text, whether or not it is JSON, json_get reads outside the array
   if and only if the array is empty.  The index it returns follows that of a hit; so it is one past
   the end exactly when the hit is the last token of all, which never has a value, and json_gets then
   reads past the array.
   */
  lemma LookupStaysInRange(js: string, room: nat, hits: set<nat>)
    requires Run(js, 0, START, room).code >= 0
    ensures var toks := Run(js, 0, START, room).st.toks;
            var a := LookUp(toks, hits);
            (a == OutOfRange <==> toks == []) &&
            (a.Index? ==> a.index - 1 in hits && 1 < a.index <= |toks| &&
                          (toks[a.index - 1].size > 0 ==> a.index < |toks|))
  {
    hide Run, Span;
    FirstTreeIsInRange(js, room);
    var toks := Run(js, 0, START, room).st.toks;
    if toks != [] { WalkStays(toks, hits, 1, toks[0].size); }
  }

  /** The text {"a"} has two tokens in either pass; looking up a returns 2, which is past the array. */
  lemma KeyWithoutValue() returns (js: string)
    ensures js == "{\"a\"}" && CountRun(js, 0, 0) == 2 && Run(js, 0, START, 2).code == 2
    ensures LookUp(Run(js, 0, START, 2).st.toks, {1}) == Index(2)
  {
    js := "{\"a\"}";
    KeyWithoutValueScans(js);
    KeyWithoutValueRun(js);
    assert Span([Token(Object, 0, 5, 1), Token(String, 2, 3, 0)], 1, 1) == 2;
  }

  lemma KeyWithoutValueRun(js: string)
    requires |js| == 5 && AtEnd(js, 5) && !AtEnd(js, 0) && !AtEnd(js, 1) && !AtEnd(js, 4)
    requires ScanAt(js, 0) == Lexed(Open(Object), 1) && ScanAt(js, 1) == Lexed(Text(String, 2, 3), 4)
    requires ScanAt(js, 4) == Lexed(Close(Object), 5)
    ensures CountRun(js, 0, 0) == 2
    ensures Run(js, 0, START, 2) == Outcome(2, 5, State([Token(Object, 0, 5, 1), Token(String, 2, 3, 0)], -1))
  {
    hide ScanAt, AtEnd;
    var st1 := State([Token(Object, 0, -1, 0)], 0);
    var st2 := State([Token(Object, 0, -1, 1), Token(String, 2, 3, 0)], 0);
    var st3 := State([Token(Object, 0, 5, 1), Token(String, 2, 3, 0)], -1);
    RunEnds(js, st3);
    Round(js, 2, 4, st2, Close(Object), 5, st3);
    Round(js, 2, 1, st1, Text(String, 2, 3), 4, st2);
    Round(js, 2, 0, START, Open(Object), 1, st1);
    CountStep(js, 5, 2);
    CountStep(js, 4, 2);
    CountStep(js, 1, 1);
    CountStep(js, 0, 0);
  }

  lemma RunEnds(js: string, st: State)
    requires |js| == 5 && AtEnd(js, 5) && st == State([Token(Object, 0, 5, 1), Token(String, 2, 3, 0)], -1)
    ensures Run(js, 5, st, 2) == Outcome(2, 5, st)
  {
  }

  lemma CountStep(js: string, p: nat, n: nat)
    ensures AtEnd(js, p) ==> CountRun(js, p, n) == n
    ensures !AtEnd(js, p) && ScanAt(js, p).Lexed? ==>
              CountRun(js, p, n) == CountRun(js, ScanAt(js, p).next, n + Weight(ScanAt(js, p).lexeme))
  {
    hide ScanAt;
  }

  lemma KeyWithoutValueScans(js: string)
    requires js == "{\"a\"}"
    ensures |js| == 5 && AtEnd(js, 5) && !AtEnd(js, 0) && !AtEnd(js, 1) && !AtEnd(js, 4)
    ensures ScanAt(js, 0) == Lexed(Open(Object), 1) && ScanAt(js, 1) == Lexed(Text(String, 2, 3), 4)
    ensures ScanAt(js, 4) == Lexed(Close(Object), 5)
  {
    assert StringEnd(js, 3) == Search.Found(3);
    assert StringEnd(js, 2) == Search.Found(3);
  }

  // ---------------------------------------------------------------------------
  // The same lookup on the tokens of an object
  // ---------------------------------------------------------------------------

  /** Of the keys of these members, whose tokens start at i, those and only those equal to key are hits. */
  predicate HitsAre(hits: set<nat>, members: Members, key: string, i: nat) {
    members.Member? ==>
      (i in hits <==> members.key == key) && HitsAre(hits, members.rest, key, i + |MemberTokens(members, 0)|)
  }

  /** On a parsed object this is the lookup that `JsonGet.Find` performs. */
  lemma {:induction false} WalkIsLookup(toks: seq<Token>, members: Members, key: string, hits: set<nat>, i: nat, p: nat)
    requires Slice(toks, i, PreorderMembers(members, p)) && HitsAre(hits, members, key, i)
    ensures Walk(toks, hits, i, MemberCount(members)) ==
            var r := Lookup(members, key, i); if r < 0 then Missing else Index(r)
    decreases members
  {
    if members.Member? {
      var next := ValueAt(members, p) + |Print(members.value)| + |members.post| + 1;
      PreorderFirst(members, p);
      PreorderShift(members.value, ValueAt(members, 0), ValueAt(members, p));
      SliceSplit(toks, i, MemberTokens(members, p), PreorderMembers(members.rest, next));
      SkipMember(toks, i, members, p, 0);
      WalkIsLookup(toks, members.rest, key, hits, i + |MemberTokens(members, p)|, next);
    }
  }
}
