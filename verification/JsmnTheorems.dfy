/**
 What holds of the tokenizer on every text, however malformed: the tokens it reports are
 nested intervals, its backward scan is a bracket stack, and its two passes agree.
 */
module JsmnTheorems {
  import opened JsonGrammar
  import opened JsmnScan
  import opened JsmnParser

  function Opener(k: Kind): char { if k == Object then '{' else '[' }
  function Closer(k: Kind): char { if k == Object then '}' else ']' }

  // ---------------------------------------------------------------------------
  // Nested intervals
  // ---------------------------------------------------------------------------

  /** A token by itself, once the text before p has been read: inside that text, and
      delimited by the marks of its own kind. */
  predicate Delimited(js: string, p: nat, t: Token)
    requires p <= |js|
  {
    0 <= t.start < p && -1 <= t.end <= p &&
    if IsContainer(t.kind) then
      js[t.start] == Opener(t.kind) &&
      (t.end != -1 ==> t.start + 1 < t.end && js[t.end - 1] == Closer(t.kind))
    else if t.kind == String then
      0 < t.start <= t.end < p && js[t.start - 1] == '"' && js[t.end] == '"' && IsBody(js[t.start..t.end])
    else
      t.start < t.end && IsBare(js[t.start..t.end]) && (AtEnd(js, t.end) || IsStop(js[t.end]))
  }

  /** Two tokens, t allocated before u: starts increase, and the intervals are disjoint or
      the second lies strictly inside the first.  A leaf has nothing inside and a gap after. */
  predicate Nested(t: Token, u: Token) {
    t.start < u.start &&
    if IsContainer(t.kind)
    then t.end != -1 ==> t.end <= u.start || (u.end != -1 && u.end < t.end)
    else t.end < u.start
  }

  ghost predicate Laminar(js: string, p: nat, toks: seq<Token>) {
    p <= |js| &&
    (forall i :: 0 <= i < |toks| ==> Delimited(js, p, toks[i])) &&
    (forall i, j :: 0 <= i < j < |toks| ==> Nested(toks[i], toks[j]))
  }

  lemma BumpKeeps(toks: seq<Token>, super: int)
    requires -1 <= super < |toks|
    ensures forall i :: 0 <= i < |toks| ==> Bump(toks, super)[i] == toks[i].(size := Bump(toks, super)[i].size)
  {
  }

  lemma LaminarBump(js: string, p: nat, toks: seq<Token>, super: int)
    requires Laminar(js, p, toks) && -1 <= super < |toks|
    ensures Laminar(js, p, Bump(toks, super))
  {
    BumpKeeps(toks, super);
  }

  lemma LaminarGrows(js: string, p: nat, q: nat, toks: seq<Token>)
    requires Laminar(js, p, toks) && p <= q <= |js|
    ensures Laminar(js, q, toks)
  {
  }

  /** A token that starts at or after p, on no delimiter, can follow everything read before p. */
  lemma LaminarAppends(js: string, p: nat, q: nat, toks: seq<Token>, t: Token)
    requires Laminar(js, p, toks) && p < q <= |js| && Delimited(js, q, t)
    requires forall i :: 0 <= i < |toks| && !IsContainer(toks[i].kind) ==> toks[i].end != -1
    requires p <= t.start && (t.kind != String ==> !AtEnd(js, t.start) && !IsStop(js[t.start]))
    requires t.kind == String ==> p < t.start
    ensures Laminar(js, q, toks + [t])
  {
    LaminarGrows(js, p, q, toks);
  }

  /** Closing the innermost open container at p encloses what came after it, and nothing else. */
  lemma LaminarCloses(js: string, p: nat, toks: seq<Token>, i: nat)
    requires Laminar(js, p, toks) && p < |js| && i == Innermost(toks, |toks|)
    requires IsContainer(toks[i].kind) && js[p] == Closer(toks[i].kind)
    ensures Laminar(js, p + 1, toks[i := toks[i].(end := p + 1)])
  {
    hide Delimited;
    var r := toks[i := toks[i].(end := p + 1)];
    DelimitedCloses(js, p, toks, i, r);
    forall a, b | 0 <= a < b < |r| ensures Nested(r[a], r[b]) {
      assert Nested(toks[a], toks[b]);
      if a == i {
        assert !IsOpen(toks[b]) && Delimited(js, p, toks[b]);
        DelimitedBounds(js, p, toks[b]);
      }
    }
  }

  lemma DelimitedBounds(js: string, p: nat, t: Token)
    requires p <= |js| && Delimited(js, p, t)
    ensures 0 <= t.start < p && -1 <= t.end <= p && (t.end != -1 && !IsContainer(t.kind) ==> t.start <= t.end)
  {
    hide IsBody, IsBare;
  }

  lemma DelimitedCloses(js: string, p: nat, toks: seq<Token>, i: nat, r: seq<Token>)
    requires p < |js| && (forall k :: 0 <= k < |toks| ==> Delimited(js, p, toks[k]))
    requires i < |toks| && IsContainer(toks[i].kind) && js[p] == Closer(toks[i].kind)
    requires r == toks[i := toks[i].(end := p + 1)]
    ensures forall k :: 0 <= k < |r| ==> Delimited(js, p + 1, r[k])
  {
    hide IsBody, IsBare;
  }

  lemma OpenIsLaminar(js: string, p: nat, st: State, kind: Kind)
    requires Sound(st) && Laminar(js, p, st.toks) && !AtEnd(js, p) && IsContainer(kind) && js[p] == Opener(kind)
    ensures Laminar(js, p + 1, Bump(st.toks, st.super) + [Token(kind, p, -1, 0)])
  {
    hide IsBody, IsBare;
    LaminarBump(js, p, st.toks, st.super);
    LaminarAppends(js, p, p + 1, Bump(st.toks, st.super), Token(kind, p, -1, 0));
  }

  lemma TextIsLaminar(js: string, p: nat, st: State, kind: Kind, start: nat, end: nat, next: nat)
    requires Sound(st) && Laminar(js, p, st.toks) && !AtEnd(js, p)
    requires ScanAt(js, p) == Lexed(Text(kind, start, end), next)
    ensures !IsContainer(kind) && Laminar(js, next, Bump(st.toks, st.super) + [Token(kind, start, end, 0)])
  {
    hide IsBody, IsBare;
    LaminarBump(js, p, st.toks, st.super);
    if kind == String {
      StringScanIsExact(js, p + 1, end);
    } else {
      PrimitiveScanIsExact(js, p, end);
    }
    LaminarAppends(js, p, next, Bump(st.toks, st.super), Token(kind, start, end, 0));
  }

  lemma ScanOfBrackets(js: string, p: nat)
    requires !AtEnd(js, p) && ScanAt(js, p).Lexed?
    ensures var s := ScanAt(js, p);
            (s.lexeme.Text? ==> s.lexeme.start >= 0 && s.lexeme.end >= 0) && p < s.next <= |js| &&
            (s.lexeme.Open? ==> IsContainer(s.lexeme.kind) && js[p] == Opener(s.lexeme.kind) && s.next == p + 1) &&
            (s.lexeme.Close? ==> IsContainer(s.lexeme.kind) && js[p] == Closer(s.lexeme.kind) && s.next == p + 1)
  {
  }

  lemma StepIsLaminar(js: string, p: nat, st: State, room: nat)
    requires Sound(st) && !AtEnd(js, p) && Laminar(js, p, st.toks) && ScanAt(js, p).Lexed?
    ensures var s := ScanAt(js, p);
            (s.lexeme.Text? ==> !IsContainer(s.lexeme.kind)) && (s.lexeme.Open? ==> IsContainer(s.lexeme.kind)) &&
            var a := Apply(s.lexeme, p, st, room);
            a.Next? ==> Laminar(js, s.next, a.st.toks)
  {
    hide ScanAt, Laminar;
    ScanOfBrackets(js, p);
    var s := ScanAt(js, p);
    match s.lexeme
    case Open(kind) => OpenIsLaminar(js, p, st, kind);
    case Close(kind) =>
      var i := Innermost(st.toks, |st.toks|);
      if i != -1 && st.toks[i].kind == kind { LaminarCloses(js, p, st.toks, i); }
    case Text(kind, start, end) => TextIsLaminar(js, p, st, kind, start, end, s.next);
    case _ => LaminarGrows(js, p, s.next, st.toks);
  }

  /** Every run keeps its tokens nested, whatever it returns. */
  lemma {:induction false} RunIsLaminar(js: string, p: nat, st: State, room: nat)
    requires Sound(st) && Laminar(js, p, st.toks)
    ensures var o := Run(js, p, st, room); p <= o.pos && Laminar(js, o.pos, o.st.toks)
    decreases |js| - p
  {
    if !AtEnd(js, p) && ScanAt(js, p).Lexed? {
      StepIsLaminar(js, p, st, room);
      var s := ScanAt(js, p);
      var a := Apply(s.lexeme, p, st, room);
      if a.Next? { RunIsLaminar(js, s.next, a.st, room); }
    }
  }

  /** What a non-negative return value promises about the tokens, for any text at all. */
  lemma TokensAreNested(js: string, room: nat)
    ensures var o := Run(js, 0, START, room);
            o.code >= 0 ==>
              |o.st.toks| == o.code &&
              (forall i :: 0 <= i < o.code ==> !IsOpen(o.st.toks[i]) && Delimited(js, |js|, o.st.toks[i])) &&
              (forall i, j :: 0 <= i < j < o.code ==> Nested(o.st.toks[i], o.st.toks[j])) &&
              -1 <= o.st.super < o.code
  {
    RunIsLaminar(js, 0, START, room);
    var o := Run(js, 0, START, room);
    if o.code >= 0 {
      RunEndsClosed(js, 0, START, room);
      LaminarGrows(js, o.pos, |js|, o.st.toks);
    }
  }

  lemma {:induction false} RunEndsClosed(js: string, p: nat, st: State, room: nat)
    requires Sound(st)
    ensures var o := Run(js, p, st, room);
            o.code >= 0 ==> forall i :: 0 <= i < |o.st.toks| ==> !IsOpen(o.st.toks[i])
    decreases |js| - p
  {
    if !AtEnd(js, p) && ScanAt(js, p).Lexed? {
      ScanShape(js, p);
      var s := ScanAt(js, p);
      var a := Apply(s.lexeme, p, st, room);
      if a.Next? { RunEndsClosed(js, s.next, a.st, room); }
    }
  }

  // ---------------------------------------------------------------------------
  // The backward scan as a bracket stack
  // ---------------------------------------------------------------------------

  datatype Stacked = Held(n: nat, stack: seq<Kind>) | Refused(code: int)

  /** Effect of a lexeme on a count of tokens and an explicit stack of open brackets. */
  function StackApply(lex: Lexeme, n: nat, stack: seq<Kind>, room: nat): Stacked {
    match lex
    case Open(kind) => if n >= room then Refused(NOMEM) else Held(n + 1, stack + [kind])
    case Close(kind) =>
      if stack == [] || stack[|stack| - 1] != kind then Refused(INVAL) else Held(n, stack[..|stack| - 1])
    case Text(_, _, _) => if n >= room then Refused(NOMEM) else Held(n + 1, stack)
    case _ => Held(n, stack)
  }

  /** The filling pass with a stack of open brackets in place of the token array. */
  function StackRun(js: string, p: nat, n: nat, stack: seq<Kind>, room: nat): int
    decreases |js| - p
  {
    if AtEnd(js, p) then if stack == [] then n else PART
    else
      match ScanAt(js, p)
      case Bad(code) => code
      case Lexed(lex, next) =>
        match StackApply(lex, n, stack, room)
        case Refused(code) => code
        case Held(n', stack') => StackRun(js, next, n', stack', room)
  }

  /** The kinds of the open tokens, outermost first. */
  function OpenKinds(toks: seq<Token>): seq<Kind> {
    if toks == [] then []
    else
      var t := toks[|toks| - 1];
      OpenKinds(toks[..|toks| - 1]) + if IsOpen(t) then [t.kind] else []
  }

  lemma OpenKindsAppend(toks: seq<Token>, t: Token)
    ensures OpenKinds(toks + [t]) == OpenKinds(toks) + if IsOpen(t) then [t.kind] else []
  {
    assert (toks + [t])[..|toks|] == toks;
  }

  lemma {:induction false} OpenKindsSame(a: seq<Token>, b: seq<Token>)
    requires |a| == |b|
    requires forall i :: 0 <= i < |a| ==> a[i].kind == b[i].kind && IsOpen(a[i]) == IsOpen(b[i])
    ensures OpenKinds(a) == OpenKinds(b)
  {
    if a != [] { OpenKindsSame(a[..|a| - 1], b[..|b| - 1]); }
  }

  lemma {:induction false} NoneOpen(toks: seq<Token>)
    requires forall i :: 0 <= i < |toks| ==> !IsOpen(toks[i])
    ensures OpenKinds(toks) == []
  {
    if toks != [] { NoneOpen(toks[..|toks| - 1]); }
  }

  /** The token found by the backward scan is the top of the stack, and closing it pops. */
  lemma {:induction false} ScanFindsTop(toks: seq<Token>, end: int)
    requires end > 0
    ensures var i := Innermost(toks, |toks|);
            var stack := OpenKinds(toks);
            (i == -1 <==> stack == []) &&
            (i != -1 ==> toks[i].kind == stack[|stack| - 1] &&
                         OpenKinds(toks[i := toks[i].(end := end)]) == stack[..|stack| - 1])
  {
    if toks != [] {
      var last, front := toks[|toks| - 1], toks[..|toks| - 1];
      var i := Innermost(toks, |toks|);
      if IsOpen(last) {
        assert toks[i := toks[i].(end := end)] == front + [last.(end := end)];
        OpenKindsAppend(front, last.(end := end));
      } else {
        InnermostPrefix(toks, |front|);
        ScanFindsTop(front, end);
        if i != -1 {
          assert toks[i := toks[i].(end := end)] == front[i := front[i].(end := end)] + [last];
          OpenKindsAppend(front[i := front[i].(end := end)], last);
        }
      }
    }
  }

  lemma BumpSameStack(toks: seq<Token>, super: int)
    requires -1 <= super < |toks|
    ensures OpenKinds(Bump(toks, super)) == OpenKinds(toks)
  {
    BumpKeeps(toks, super);
    OpenKindsSame(Bump(toks, super), toks);
  }

  lemma StepIsAStack(lex: Lexeme, p: nat, st: State, room: nat)
    requires Sound(st)
    requires (lex.Text? ==> !IsContainer(lex.kind) && lex.end as int != -1) && (lex.Open? ==> IsContainer(lex.kind))
    ensures StackApply(lex, |st.toks|, OpenKinds(st.toks), room) ==
            match Apply(lex, p, st, room)
            case Next(st') => Held(|st'.toks|, OpenKinds(st'.toks))
            case Stop(code) => Refused(code)
  {
    match lex {
      case Open(kind) =>
        BumpSameStack(st.toks, st.super);
        OpenKindsAppend(Bump(st.toks, st.super), Token(kind, p, -1, 0));
      case Close(kind) =>
        ScanFindsTop(st.toks, p + 1);
      case Text(kind, start, end) =>
        BumpSameStack(st.toks, st.super);
        OpenKindsAppend(Bump(st.toks, st.super), Token(kind, start, end, 0));
      case _ =>
    }
  }

  /** Scanning backwards for the open token decides every text as a bracket stack would. */
  lemma {:induction false} ScanIsAStack(js: string, p: nat, st: State, room: nat)
    requires Sound(st)
    ensures Run(js, p, st, room).code == StackRun(js, p, |st.toks|, OpenKinds(st.toks), room)
    decreases |js| - p
  {
    if AtEnd(js, p) {
      ScanFindsTop(st.toks, 1);
    } else if ScanAt(js, p).Lexed? {
      ScanShape(js, p);
      var s := ScanAt(js, p);
      StepIsAStack(s.lexeme, p, st, room);
      var a := Apply(s.lexeme, p, st, room);
      if a.Next? { ScanIsAStack(js, s.next, a.st, room); }
    }
  }

  // ---------------------------------------------------------------------------
  // The counting pass and the filling pass
  // ---------------------------------------------------------------------------

  /** The brackets the tokenizer sees from p on (those inside strings and primitives it does not). */
  function Brackets(js: string, p: nat): seq<Lexeme>
    decreases |js| - p
  {
    if AtEnd(js, p) || ScanAt(js, p).Bad? then []
    else
      var s := ScanAt(js, p);
      (if s.lexeme.Open? || s.lexeme.Close? then [s.lexeme] else []) + Brackets(js, s.next)
  }

  /** 0 when the brackets match; otherwise the error the first failure is reported with. */
  function Matching(bs: seq<Lexeme>, stack: seq<Kind>): int
    requires forall i :: 0 <= i < |bs| ==> bs[i].Open? || bs[i].Close?
  {
    if bs == [] then if stack == [] then 0 else PART
    else match bs[0]
      case Open(kind) => Matching(bs[1..], stack + [kind])
      case Close(kind) =>
        if stack == [] || stack[|stack| - 1] != kind then INVAL else Matching(bs[1..], stack[..|stack| - 1])
  }

  lemma {:induction false} BracketsOnly(js: string, p: nat)
    ensures forall i :: 0 <= i < |Brackets(js, p)| ==> Brackets(js, p)[i].Open? || Brackets(js, p)[i].Close?
    decreases |js| - p
  {
    if !AtEnd(js, p) && ScanAt(js, p).Lexed? { BracketsOnly(js, ScanAt(js, p).next); }
  }

  lemma BracketsNext(js: string, p: nat)
    requires !AtEnd(js, p) && ScanAt(js, p).Lexed?
    ensures var s := ScanAt(js, p);
            Brackets(js, p) == (if s.lexeme.Open? || s.lexeme.Close? then [s.lexeme] else []) + Brackets(js, s.next)
  {
    hide ScanAt;
  }

  lemma MatchingNext(lex: Lexeme, rest: seq<Lexeme>, stack: seq<Kind>)
    requires (lex.Open? || lex.Close?) && forall i :: 0 <= i < |rest| ==> rest[i].Open? || rest[i].Close?
    ensures forall i :: 0 <= i < |[lex] + rest| ==> ([lex] + rest)[i].Open? || ([lex] + rest)[i].Close?
    ensures lex.Open? ==> Matching([lex] + rest, stack) == Matching(rest, stack + [lex.kind])
    ensures lex.Close? ==>
              Matching([lex] + rest, stack) ==
              if stack == [] || stack[|stack| - 1] != lex.kind then INVAL else Matching(rest, stack[..|stack| - 1])
  {
    assert ([lex] + rest)[1..] == rest;
  }

  lemma {:induction false} StackRunAgrees(js: string, p: nat, n: nat, stack: seq<Kind>, room: nat)
    requires 0 <= CountRun(js, p, n) <= room
    requires forall i :: 0 <= i < |Brackets(js, p)| ==> Brackets(js, p)[i].Open? || Brackets(js, p)[i].Close?
    ensures StackRun(js, p, n, stack, room) ==
            var m := Matching(Brackets(js, p), stack); if m == 0 then CountRun(js, p, n) else m
    decreases |js| - p
  {
    hide ScanAt, Brackets, Matching;
    if AtEnd(js, p) {
      NoBrackets(js, p, stack);
    } else {
      var s := ScanAt(js, p);
      BracketsOnly(js, s.next);
      BracketsNext(js, p);
      var rest := Brackets(js, s.next);
      match s.lexeme
      case Open(kind) =>
        MatchingNext(s.lexeme, rest, stack);
        StackRunAgrees(js, s.next, n + 1, stack + [kind], room);
      case Close(kind) =>
        MatchingNext(s.lexeme, rest, stack);
        if stack != [] && stack[|stack| - 1] == kind {
          StackRunAgrees(js, s.next, n, stack[..|stack| - 1], room);
        }
      case Text(_, _, _) =>
        assert [] + rest == rest;
        StackRunAgrees(js, s.next, n + 1, stack, room);
      case _ =>
        assert [] + rest == rest;
        StackRunAgrees(js, s.next, n, stack, room);
    }
  }

  lemma NoBrackets(js: string, p: nat, stack: seq<Kind>)
    requires AtEnd(js, p)
    ensures Brackets(js, p) == [] && Matching([], stack) == if stack == [] then 0 else PART
  {
  }

  /**
   The two passes of json_parse.  When the counting pass returns n, the filling pass given
   room for n tokens or more never runs out; it succeeds exactly when the brackets match, and
   then returns n with n tokens allocated.  Otherwise it reports the bracket error, which the
   counting pass cannot see.
   */
  lemma PassesAgree(js: string, room: nat)
    requires 0 <= CountRun(js, 0, 0) <= room
    ensures var o := Run(js, 0, START, room);
            BracketsMatch(js) == (o.code >= 0) &&
            (o.code >= 0 ==> o.code == CountRun(js, 0, 0) == |o.st.toks|) &&
            (o.code < 0 ==> o.code == INVAL || o.code == PART)
  {
    ScanIsAStack(js, 0, START, room);
    BracketsOnly(js, 0);
    StackRunAgrees(js, 0, 0, [], room);
    MatchingCodes(Brackets(js, 0), []);
  }

  /** A filling pass that succeeds returns what the counting pass returns. */
  lemma {:induction false} FilledIsCounted(js: string, p: nat, st: State, room: nat)
    requires Sound(st) && Run(js, p, st, room).code >= 0
    ensures CountRun(js, p, |st.toks|) == Run(js, p, st, room).code
    decreases |js| - p
  {
    hide ScanAt;
    if !AtEnd(js, p) {
      ScanShape(js, p);
      var s := ScanAt(js, p);
      FilledIsCounted(js, s.next, Apply(s.lexeme, p, st, room).st, room);
    }
  }

  predicate BracketsMatch(js: string) {
    BracketsOnly(js, 0);
    Matching(Brackets(js, 0), []) == 0
  }

  lemma {:induction false} MatchingCodes(bs: seq<Lexeme>, stack: seq<Kind>)
    requires forall i :: 0 <= i < |bs| ==> bs[i].Open? || bs[i].Close?
    ensures Matching(bs, stack) in {0, INVAL, PART}
  {
    if bs != [] {
      match bs[0] {
        case Open(kind) => MatchingCodes(bs[1..], stack + [kind]);
        case Close(kind) => if stack != [] { MatchingCodes(bs[1..], stack[..|stack| - 1]); }
      }
    }
  }

  /** A text the counting pass accepts and the filling pass refuses. */
  lemma CountMissesBrackets() returns (js: string)
    ensures |js| == 2 && js[0] == '[' && js[1] == '}'
    ensures CountRun(js, 0, 0) == 1
    ensures Run(js, 0, START, 1).code == INVAL
  {
    js := "[" + "}";
    assert ScanAt(js, 0) == Lexed(Open(Array), 1) && ScanAt(js, 1) == Lexed(Close(Object), 2);
    assert CountRun(js, 2, 1) == 1 && CountRun(js, 1, 1) == 1;
    var st := State([Token(Array, 0, -1, 0)], 0);
    assert Apply(Open(Array), 0, START, 1) == Next(st);
    assert Apply(Close(Object), 1, st, 1) == Stop(INVAL);
  }

  // ---------------------------------------------------------------------------
  // Resuming after running out of tokens
  // ---------------------------------------------------------------------------

  /** A pass that ran out of tokens can be resumed where it stopped with more of them,
      and ends as if there had been enough from the start. */
  lemma {:induction false} ResumeAfterNoMemory(js: string, p: nat, st: State, room: nat, more: nat)
    requires Sound(st) && room <= more && Run(js, p, st, room).code == NOMEM
    ensures var o := Run(js, p, st, room);
            Run(js, o.pos, o.st, more) == Run(js, p, st, more) && |o.st.toks| >= room
    decreases |js| - p
  {
    if !AtEnd(js, p) && ScanAt(js, p).Lexed? {
      ScanShape(js, p);
      var s := ScanAt(js, p);
      var a := Apply(s.lexeme, p, st, room);
      if a.Next? { ResumeAfterNoMemory(js, s.next, a.st, room, more); }
    }
  }
}
