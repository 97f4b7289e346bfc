/**
 The token half of the jsmn tokenizer: what each lexeme does to the token array, the whole
 run as a function, and the in-place parser of gateways/c/jsmn.c proved against it.
 */
module JsmnParser {
  import opened JsmnScan

  /** `jsmntok_t`: end == -1 marks a container that is still open. */
  datatype Token = Token(kind: Kind, start: int, end: int, size: int)

  predicate IsOpen(t: Token) { t.start != -1 && t.end == -1 }

  /** The tokens allocated so far, and the index of the token whose size the next value bumps. */
  datatype State = State(toks: seq<Token>, super: int)

  const START := State([], -1)

  /** The only tokens ever left open are containers, and `super` names a token or none. */
  predicate Sound(st: State) {
    -1 <= st.super < |st.toks| &&
    forall i :: 0 <= i < |st.toks| && IsOpen(st.toks[i]) ==> IsContainer(st.toks[i].kind)
  }

  /** Greatest index below n of an open token, or -1: the backward scan. */
  function Innermost(toks: seq<Token>, n: nat): (i: int)
    requires n <= |toks|
    ensures -1 <= i < n
    ensures i >= 0 ==> IsOpen(toks[i])
    ensures forall k :: i < k < n ==> !IsOpen(toks[k])
  {
    if n == 0 then -1
    else if IsOpen(toks[n - 1]) then n - 1
    else Innermost(toks, n - 1)
  }

  function Bump(toks: seq<Token>, super: int): (r: seq<Token>)
    requires -1 <= super < |toks|
    ensures |r| == |toks|
  {
    if super == -1 then toks else toks[super := toks[super].(size := toks[super].size + 1)]
  }

  datatype Applied = Next(st: State) | Stop(code: int)

  /** Effect of the lexeme read at `at`, with room for `room` tokens. */
  function Apply(lex: Lexeme, at: nat, st: State, room: nat): (r: Applied)
    requires Sound(st)
    requires lex.Text? ==> !IsContainer(lex.kind)
    requires lex.Open? ==> IsContainer(lex.kind)
    ensures r.Next? ==> Sound(r.st)
    ensures r.Stop? ==> r.code == NOMEM || r.code == INVAL
  {
    match lex
    case Blank => Next(st)
    case Open(kind) =>
      if |st.toks| >= room then Stop(NOMEM)
      else Next(State(Bump(st.toks, st.super) + [Token(kind, at, -1, 0)], |st.toks|))
    case Close(kind) =>
      var i := Innermost(st.toks, |st.toks|);
      if i == -1 || st.toks[i].kind != kind then Stop(INVAL)
      else
        var toks := st.toks[i := st.toks[i].(end := at + 1)];
        Next(State(toks, Innermost(toks, |toks|)))
    case Text(kind, start, end) =>
      if |st.toks| >= room then Stop(NOMEM)
      else Next(State(Bump(st.toks, st.super) + [Token(kind, start, end, 0)], st.super))
    case Colon => Next(State(st.toks, |st.toks| - 1))
    case Comma =>
      if st.super == -1 || IsContainer(st.toks[st.super].kind) then Next(st)
      else
        var i := Innermost(st.toks, |st.toks|);
        Next(if i == -1 then st else State(st.toks, i))
  }

  lemma ScanShape(js: string, p: nat)
    requires !AtEnd(js, p)
    ensures var s := ScanAt(js, p);
            s.Lexed? ==>
              (s.lexeme.Text? ==> !IsContainer(s.lexeme.kind) && p <= s.lexeme.start <= s.lexeme.end <= s.next) &&
                         (s.lexeme.Open? ==> IsContainer(s.lexeme.kind))
  {
  }

  /** Result of a run: the value returned, the position reached and the tokens left behind. */
  datatype Outcome = Outcome(code: int, pos: nat, st: State)

  /** The pass that fills tokens, from position p on. */
  function Run(js: string, p: nat, st: State, room: nat): (o: Outcome)
    requires Sound(st)
    ensures Sound(o.st)
    ensures o.code >= 0 ==> o.code == |o.st.toks|
    ensures |st.toks| <= room ==> |o.st.toks| <= room
    decreases |js| - p
  {
    if AtEnd(js, p) then
      Outcome(if Innermost(st.toks, |st.toks|) != -1 then PART else |st.toks|, p, st)
    else
      ScanShape(js, p);
      match ScanAt(js, p)
      case Bad(code) => Outcome(code, p, st)
      case Lexed(lex, next) =>
        match Apply(lex, p, st, room)
        case Stop(code) => Outcome(code, p, st)
        case Next(st') => Run(js, next, st', room)
  }

  function Weight(lex: Lexeme): nat { if lex.Open? || lex.Text? then 1 else 0 }

  /** The pass without a token array: it only counts. */
  function CountRun(js: string, p: nat, n: nat): (code: int)
    ensures code >= 0 ==> code >= n
    decreases |js| - p
  {
    if AtEnd(js, p) then n
    else
      match ScanAt(js, p)
      case Bad(code) => code
      case Lexed(lex, next) => CountRun(js, next, n + Weight(lex))
  }

  // ---------------------------------------------------------------------------
  // The parser object
  // ---------------------------------------------------------------------------

  class Parser {
    var pos: nat
    var toknext: nat
    var toksuper: int

    /** jsmn_init */
    constructor ()
      ensures pos == 0 && toknext == 0 && toksuper == -1
    {
      pos, toknext, toksuper := 0, 0, -1;
    }

    /** The parser and its token array as one abstract state. */
    ghost function View(tokens: array<Token>): State
      requires toknext <= tokens.Length
      reads this, tokens
    {
      State(tokens[..toknext], toksuper)
    }

    ghost predicate Ready(tokens: array<Token>, room: nat)
      reads this, tokens
    {
      toknext <= room <= tokens.Length && Sound(View(tokens))
    }

    /** jsmn_alloc_token and jsmn_fill_token: the next free token, or no token at all. */
    method FillToken(tokens: array<Token>, room: nat, kind: Kind, start: int, end: int) returns (ok: bool)
      requires toknext <= room <= tokens.Length
      modifies this`toknext, tokens
      ensures ok == (old(toknext) < room)
      ensures !ok ==> toknext == old(toknext) && tokens[..] == old(tokens[..])
      ensures ok ==> toknext == old(toknext) + 1
      ensures ok ==> tokens[..] == old(tokens[..])[old(toknext) := Token(kind, start, end, 0)]
    {
      if toknext >= room { return false; }
      tokens[toknext] := Token(kind, start, end, 0);
      toknext := toknext + 1;
      return true;
    }

    /** jsmn_parse_primitive */
    method ParsePrimitive(js: string, tokens: array?<Token>, room: nat) returns (r: int)
      requires !AtEnd(js, pos) && !IsDelimiter(js[pos])
      requires tokens != null ==> toknext <= room <= tokens.Length
      modifies this`pos, this`toknext, tokens
      ensures r == 0 || r == NOMEM || r == INVAL
      ensures tokens == null ==> toknext == old(toknext)
      ensures var s := PrimitiveEnd(js, old(pos));
              if s.Failed? then r == s.code && pos == old(pos)
              else if tokens != null && old(toknext) >= room then r == NOMEM && pos == old(pos)
              else r == 0 && pos + 1 == s.at
      ensures tokens != null && r < 0 ==> toknext == old(toknext) && tokens[..] == old(tokens[..])
      ensures tokens != null && r == 0 ==>
                toknext == old(toknext) + 1 <= room &&
                tokens[..] == old(tokens[..])[old(toknext) := Token(Primitive, old(pos), pos + 1, 0)]
    {
      var start := pos;
      while pos < |js| && js[pos] != '\0'
        modifies this`pos
        invariant start <= pos <= |js|
        invariant PrimitiveEnd(js, start) == PrimitiveEnd(js, pos)
      {
        if IsDelimiter(js[pos]) { break; }
        if !IsPrintable(js[pos]) {
          pos := start;
          return INVAL;
        }
        pos := pos + 1;
      }
      if tokens == null {
        pos := pos - 1;
        return 0;
      }
      var ok := FillToken(tokens, room, Primitive, start, pos);
      if !ok {
        pos := start;
        return NOMEM;
      }
      pos := pos - 1;
      return 0;
    }

    /** jsmn_parse_string: on success the position is left on the closing quote. */
    method ParseString(js: string, tokens: array?<Token>, room: nat) returns (r: int)
      requires pos < |js| && js[pos] == '"'
      requires tokens != null ==> toknext <= room <= tokens.Length
      modifies this`pos, this`toknext, tokens
      ensures r == 0 || r == NOMEM || r == INVAL || r == PART
      ensures tokens == null ==> toknext == old(toknext)
      ensures var s := StringEnd(js, old(pos) + 1);
              if s.Failed? then r == s.code && pos == old(pos)
              else if tokens != null && old(toknext) >= room then r == NOMEM && pos == old(pos)
              else r == 0 && pos == s.at
      ensures tokens != null && r < 0 ==> toknext == old(toknext) && tokens[..] == old(tokens[..])
      ensures tokens != null && r == 0 ==>
                toknext == old(toknext) + 1 <= room &&
                tokens[..] == old(tokens[..])[old(toknext) := Token(String, old(pos) + 1, pos, 0)]
    {
      var start := pos;
      r := SkipString(js);
      if r < 0 || tokens == null { return; }
      var ok := FillToken(tokens, room, String, start + 1, pos);
      if !ok {
        pos := start;
        return NOMEM;
      }
    }

    /** The loop over four digits after a u; it ends on the last of them. */
    method SkipHex(js: string) returns (ok: bool)
      requires pos < |js|
      modifies this`pos
      ensures var s := HexEnd(js, old(pos) + 1, 4);
              if ok then s == Found(pos + 1) && pos >= old(pos) else s == Failed(INVAL)
    {
      pos := pos + 1;
      ghost var digits := pos;
      var i := 0;
      while i < 4 && pos < |js| && js[pos] != '\0'
        invariant 0 <= i <= 4 && pos == digits + i
        invariant forall k :: digits <= k < pos ==> !AtEnd(js, k) && IsHex(js[k])
      {
        if !IsHex(js[pos]) {
          HexScan(js, digits, pos, 4);
          return false;
        }
        pos := pos + 1;
        i := i + 1;
      }
      HexScan(js, digits, pos, 4);
      pos := pos - 1;
      return true;
    }

    /** The loop of jsmn_parse_string: moves the position to the closing quote, or back. */
    method SkipString(js: string) returns (r: int)
      requires pos < |js| && js[pos] == '"'
      modifies this`pos
      ensures var s := StringEnd(js, old(pos) + 1);
              if s.Failed? then r == s.code && pos == old(pos) else r == 0 && pos == s.at
    {
      var start := pos;
      pos := pos + 1;
      while pos < |js| && js[pos] != '\0'
        invariant start < pos
        invariant StringEnd(js, start + 1) == StringEnd(js, pos)
        decreases |js| - pos
      {
        var c := js[pos];
        if c == '"' { return 0; }
        if c == '\\' && pos + 1 < |js| {
          pos := pos + 1;
          if IsEscape(js[pos]) {
          } else if js[pos] == 'u' {
            var ok := SkipHex(js);
            if !ok {
              pos := start;
              return INVAL;
            }
          } else {
            pos := start;
            return INVAL;
          }
        }
        pos := pos + 1;
      }
      pos := start;
      return PART;
    }

    /** The backward scan for an open token. */
    method FindOpen(tokens: array<Token>, from: nat) returns (i: int)
      requires from <= tokens.Length
      ensures i == Innermost(tokens[..], from)
    {
      i := from - 1;
      while i >= 0
        invariant -1 <= i < from
        invariant Innermost(tokens[..], from) == Innermost(tokens[..], i + 1)
      {
        if tokens[i].start != -1 && tokens[i].end == -1 { return; }
        i := i - 1;
      }
    }

    /** `tokens[parser->toksuper].size++`, when there is a superior token. */
    method BumpSuper(tokens: array<Token>)
      requires -1 <= toksuper < toknext <= tokens.Length
      modifies tokens
      ensures tokens[..] == Bump(old(tokens[..]), toksuper)
    {
      if toksuper != -1 {
        tokens[toksuper] := tokens[toksuper].(size := tokens[toksuper].size + 1);
      }
    }

    /** The branch of the main loop for `{` and `[`. */
    method OpenContainer(kind: Kind, tokens: array<Token>, room: nat) returns (ok: bool)
      requires IsContainer(kind) && Ready(tokens, room)
      modifies this, tokens
      ensures pos == old(pos) && toknext <= room
      ensures var a := Apply(Open(kind), old(pos), old(View(tokens)), room);
              ok == a.Next? && View(tokens) == (if ok then a.st else old(View(tokens)))
      ensures Untouched(tokens, toknext)
    {
      ghost var before := tokens[..];
      ok := FillToken(tokens, room, kind, pos, -1);
      if !ok { return; }
      BumpSuper(tokens);
      toksuper := toknext - 1;
      assert tokens[..toknext] == Bump(before[..toknext - 1], old(toksuper)) + [Token(kind, pos, -1, 0)];
    }

    /** The branch of the main loop for `}` and `]`. */
    method CloseContainer(kind: Kind, tokens: array<Token>, room: nat) returns (ok: bool)
      requires Ready(tokens, room)
      modifies this`toksuper, tokens
      ensures var a := Apply(Close(kind), pos, old(View(tokens)), room);
              ok == a.Next? && View(tokens) == (if ok then a.st else old(View(tokens)))
      ensures Untouched(tokens, toknext)
    {
      ghost var toks := tokens[..toknext];
      var i := FindOpen(tokens, toknext);
      InnermostPrefix(tokens[..], toknext);
      if i == -1 || tokens[i].kind != kind { return false; }
      tokens[i] := tokens[i].(end := pos + 1);
      assert tokens[..toknext] == toks[i := toks[i].(end := pos + 1)];
      toksuper := FindOpen(tokens, i + 1);
      InnermostPrefix(tokens[..], toknext);
      InnermostSkips(tokens[..], i + 1, toknext);
      return true;
    }

    /** The branch of the main loop for `,`. */
    method AfterComma(tokens: array<Token>, room: nat)
      requires Ready(tokens, room)
      modifies this`toksuper
      ensures Next(View(tokens)) == Apply(Comma, pos, old(View(tokens)), room)
    {
      if toksuper != -1 && !IsContainer(tokens[toksuper].kind) {
        var i := FindOpen(tokens, toknext);
        InnermostPrefix(tokens[..], toknext);
        if i != -1 { toksuper := i; }
      }
    }

    /** The branches of the main loop for strings and primitives. */
    method ParseText(js: string, tokens: array?<Token>, room: nat) returns (r: int)
      requires !AtEnd(js, pos) && (js[pos] == '"' || !IsDelimiter(js[pos]))
      requires js[pos] != '{' && js[pos] != '['
      requires tokens != null ==> Ready(tokens, room)
      modifies this`pos, this`toknext, tokens
      ensures var s := ScanAt(js, old(pos));
              if s.Bad? then r == s.code && pos == old(pos)
              else s.lexeme.Text? && !IsContainer(s.lexeme.kind) &&
                   if tokens != null && Apply(s.lexeme, old(pos), old(View(tokens)), room).Stop?
                   then r == NOMEM && pos == old(pos)
                   else r == 0 && pos + 1 == s.next
      ensures tokens == null ==> toknext == old(toknext)
      ensures tokens != null ==> toknext <= room && Untouched(tokens, toknext)
      ensures tokens != null && r < 0 ==> View(tokens) == old(View(tokens))
      ensures tokens != null && r == 0 ==>
                Next(View(tokens)) == Apply(ScanAt(js, old(pos)).lexeme, old(pos), old(View(tokens)), room)
    {
      if js[pos] == '"' {
        r := ParseString(js, tokens, room);
      } else {
        r := ParsePrimitive(js, tokens, room);
      }
      if r < 0 {
        if tokens != null { assert tokens[..toknext] == old(tokens[..toknext]); }
        return;
      }
      if tokens != null {
        ghost var before := tokens[..];
        assert before[..toknext - 1] == old(tokens[..toknext]);
        BumpSuper(tokens);
        assert tokens[..toknext] == Bump(before[..toknext - 1], toksuper) + [before[toknext - 1]];
      }
    }

    /** One round of the main loop of jsmn_parse, and what it adds to the token count. */
    method Round(js: string, tokens: array?<Token>, room: nat) returns (r: int, counted: nat)
      requires !AtEnd(js, pos)
      requires tokens != null ==> Ready(tokens, room)
      modifies this, tokens
      ensures tokens == null ==> toknext == old(toknext)
      ensures tokens != null ==> Ready(tokens, room) && Untouched(tokens, toknext)
      ensures r == 0 ==> ScanAt(js, old(pos)).Lexed? && pos + 1 == ScanAt(js, old(pos)).next
      ensures r == 0 ==> counted == Weight(ScanAt(js, old(pos)).lexeme)
      ensures r == 0 && tokens != null ==>
                Next(View(tokens)) == Apply(ScanAt(js, old(pos)).lexeme, old(pos), old(View(tokens)), room) &&
                toknext == old(toknext) + counted
      ensures r != 0 ==> r < 0 && pos == old(pos)
      ensures r != 0 && tokens == null ==> ScanAt(js, old(pos)) == Bad(r)
      ensures r != 0 && tokens != null ==>
                View(tokens) == old(View(tokens)) &&
                (ScanAt(js, old(pos)) == Bad(r) ||
                 (ScanAt(js, old(pos)).Lexed? &&
                  Apply(ScanAt(js, old(pos)).lexeme, old(pos), old(View(tokens)), room) == Stop(r)))
    {
      r, counted := 0, 0;
      var c := js[pos];
      if c == '{' || c == '[' {
        counted := 1;
        if tokens != null {
          var ok := OpenContainer(if c == '{' then Object else Array, tokens, room);
          if !ok { return NOMEM, 0; }
        }
      } else if c == '}' || c == ']' {
        if tokens != null {
          var ok := CloseContainer(if c == '}' then Object else Array, tokens, room);
          if !ok { return INVAL, 0; }
        }
      } else if c == '"' {
        r := ParseText(js, tokens, room);
        counted := 1;
      } else if IsBlank(c) {
      } else if c == ':' {
        toksuper := toknext - 1;
      } else if c == ',' {
        if tokens != null { AfterComma(tokens, room); }
      } else {
        r := ParseText(js, tokens, room);
        counted := 1;
      }
    }

    /** What is still to come: the rest of the filling pass, or of the counting pass. */
    ghost function Rest(js: string, tokens: array?<Token>, room: nat, count: nat): Outcome
      requires tokens != null ==> Ready(tokens, room)
      reads this, tokens
    {
      if tokens == null then Outcome(CountRun(js, pos, count), 0, START)
      else Run(js, pos, View(tokens), room)
    }

    /**
     jsmn_parse.  With an array it fills tokens and leaves exactly what `Run` says;
     without one it only counts.
     */
    method Parse(js: string, tokens: array?<Token>, room: nat) returns (r: int)
      requires tokens != null ==> Ready(tokens, room)
      modifies this, tokens
      ensures tokens == null ==> r == CountRun(js, old(pos), old(toknext)) && toknext == old(toknext)
      ensures tokens != null ==>
                toknext <= room && Untouched(tokens, toknext) &&
                Outcome(r, pos, View(tokens)) == Run(js, old(pos), old(View(tokens)), room)
    {
      var count := toknext;
      while pos < |js| && js[pos] != '\0'
        invariant tokens == null ==> toknext == old(toknext)
        invariant tokens != null ==> Ready(tokens, room) && count == toknext && Untouched(tokens, toknext)
        invariant Rest(js, tokens, room, count) == old(Rest(js, tokens, room, toknext))
        decreases |js| - pos
      {
        ghost var rest := Rest(js, tokens, room, count);
        var counted;
        r, counted := Round(js, tokens, room);
        if r < 0 { return; }
        count := count + counted;
        pos := pos + 1;
        assert Rest(js, tokens, room, count) == rest;
      }
      if tokens != null {
        var i := FindOpen(tokens, toknext);
        InnermostPrefix(tokens[..], toknext);
        if i != -1 { return PART; }
      }
      return count;
    }
  }

  /** The tokens from index n on are as they were. */
  twostate predicate Untouched(tokens: array<Token>, n: nat)
    reads tokens
  {
    forall k :: n <= k < tokens.Length ==> tokens[k] == old(tokens[k])
  }

  lemma InnermostPrefix(toks: seq<Token>, n: nat)
    requires n <= |toks|
    ensures Innermost(toks, n) == Innermost(toks[..n], n)
  {
  }

  /** The backward scan may start anywhere above the last open token. */
  lemma InnermostSkips(toks: seq<Token>, lo: nat, hi: nat)
    requires lo <= hi <= |toks|
    requires forall k :: lo <= k < hi ==> !IsOpen(toks[k])
    ensures Innermost(toks, hi) == Innermost(toks, lo)
  {
  }
}
