/**
 JSON texts as trees (sections 2 to 7 of RFC 8259), with any legal white space, and the
 proof that tokenizing a printed tree gives exactly its preorder array of tokens.
 */
module JsonText {
  import opened JsonGrammar
  import opened JsmnScan
  import opened JsmnParser
  import JsmnTheorems

  /** A concrete syntax tree: `pad`, `pre`, `mid` and `post` are the white space around things. */
  datatype Json =
    | Prim(text: string)
    | Str(raw: string)
    | Arr(pad: string, items: Items)
    | Obj(pad: string, members: Members)

  datatype Items =
    | NoItems
    | Item(pre: string, value: Json, post: string, rest: Items)

  datatype Members =
    | NoMembers
    | Member(pre: string, key: string, mid: string, gap: string, value: Json, post: string, rest: Members)

  function Quoted(raw: string): string { "\"" + raw + "\"" }

  function Print(v: Json): string {
    match v
    case Prim(text) => text
    case Str(raw) => Quoted(raw)
    case Arr(pad, items) => "[" + (pad + (PrintItems(items) + "]"))
    case Obj(pad, members) => "{" + (pad + (PrintMembers(members) + "}"))
  }

  function PrintItems(items: Items): string {
    match items
    case NoItems => ""
    case Item(pre, value, post, rest) =>
      pre + (Print(value) + (post + if rest.NoItems? then "" else "," + PrintItems(rest)))
  }

  function PrintMembers(members: Members): string {
    match members
    case NoMembers => ""
    case Member(pre, key, mid, gap, value, post, rest) =>
      pre + (Quoted(key) + (mid + (":" + (gap + (Print(value) +
      (post + if rest.NoMembers? then "" else "," + PrintMembers(rest)))))))
  }

  /** A primitive: bare characters, the first of which does not open something else.
      Numbers and the three literal names are of this form (see `NumbersAreBare`). */
  predicate IsPrimitive(text: string) {
    text != "" && IsBare(text) && text[0] != '{' && text[0] != '[' && text[0] != '"'
  }

  predicate Legal(v: Json) {
    match v
    case Prim(text) => IsPrimitive(text)
    case Str(raw) => IsBody(raw)
    case Arr(pad, items) => IsSpace(pad) && LegalItems(items)
    case Obj(pad, members) => IsSpace(pad) && LegalMembers(members)
  }

  predicate LegalItems(items: Items) {
    items.NoItems? ||
    (IsSpace(items.pre) && Legal(items.value) && IsSpace(items.post) && LegalItems(items.rest))
  }

  predicate LegalMembers(members: Members) {
    members.NoMembers? ||
    (IsSpace(members.pre) && IsBody(members.key) && IsSpace(members.mid) && IsSpace(members.gap) &&
     Legal(members.value) && IsSpace(members.post) && LegalMembers(members.rest))
  }

  function ItemCount(items: Items): nat { if items.NoItems? then 0 else 1 + ItemCount(items.rest) }
  function MemberCount(members: Members): nat { if members.NoMembers? then 0 else 1 + MemberCount(members.rest) }

  /** The tokens of v when its text starts at `at`: the node, then its children in order. */
  function Preorder(v: Json, at: nat): (toks: seq<Token>)
    ensures |toks| > 0
  {
    match v
    case Prim(text) => [Token(Primitive, at, at + |text|, 0)]
    case Str(raw) => [Token(String, at + 1, at + 1 + |raw|, 0)]
    case Arr(pad, items) =>
      [Token(Array, at, at + |Print(v)|, ItemCount(items))] + PreorderItems(items, at + 1 + |pad|)
    case Obj(pad, members) =>
      [Token(Object, at, at + |Print(v)|, MemberCount(members))] + PreorderMembers(members, at + 1 + |pad|)
  }

  function PreorderItems(items: Items, at: nat): seq<Token> {
    match items
    case NoItems => []
    case Item(pre, value, post, rest) =>
      var v := at + |pre|;
      Preorder(value, v) + PreorderItems(rest, v + |Print(value)| + |post| + 1)
  }

  function PreorderMembers(members: Members, at: nat): seq<Token> {
    match members
    case NoMembers => []
    case Member(pre, key, mid, gap, value, post, rest) =>
      var k := at + |pre|;
      var v := k + |key| + 2 + |mid| + 1 + |gap|;
      [Token(String, k + 1, k + 1 + |key|, 1)] +
      (Preorder(value, v) + PreorderMembers(rest, v + |Print(value)| + |post| + 1))
  }

  // ---------------------------------------------------------------------------
  // Reading a piece of text
  // ---------------------------------------------------------------------------

  /** The text holds w at position p. */
  predicate At(js: string, p: nat, w: string) {
    p + |w| <= |js| && forall k :: 0 <= k < |w| ==> js[p + k] == w[k]
  }

  lemma AtSplit(js: string, p: nat, a: string, b: string)
    requires At(js, p, a + b)
    ensures At(js, p, a) && At(js, p + |a|, b)
  {
    forall k | 0 <= k < |a| ensures js[p + k] == a[k] { assert (a + b)[k] == a[k]; }
    forall k | 0 <= k < |b| ensures js[p + |a| + k] == b[k] { assert (a + b)[|a| + k] == b[k]; }
  }

  lemma AtChar(js: string, p: nat, c: char)
    requires At(js, p, [c])
    ensures p < |js| && js[p] == c
  {
    assert [c][0] == c;
  }

  /** Reading from p in state st comes down to reading from q in state st'. */
  ghost predicate Leads(js: string, room: nat, p: nat, st: State, q: nat, st': State) {
    Sound(st) && Sound(st') && Run(js, p, st, room) == Run(js, q, st', room)
  }

  lemma Then(js: string, room: nat, p: nat, st: State, q: nat, st1: State, r: nat, st2: State)
    requires Leads(js, room, p, st, q, st1) && Leads(js, room, q, st1, r, st2)
    ensures Leads(js, room, p, st, r, st2)
  {
    hide Run;
  }

  /** One round of the loop. */
  lemma Round(js: string, room: nat, p: nat, st: State, lex: Lexeme, next: nat, st': State)
    requires !AtEnd(js, p) && ScanAt(js, p) == Lexed(lex, next) && Sound(st)
    requires (lex.Text? ==> !IsContainer(lex.kind)) && (lex.Open? ==> IsContainer(lex.kind))
    requires Apply(lex, p, st, room) == Next(st')
    ensures Leads(js, room, p, st, next, st')
  {
  }

  lemma StaysPut(js: string, room: nat, p: nat, st: State)
    requires Sound(st)
    ensures Leads(js, room, p, st, p, st)
  {
    hide Run;
  }

  lemma FirstBlank(js: string, p: nat, w: string)
    requires At(js, p, w) && IsSpace(w) && w != ""
    ensures !AtEnd(js, p) && ScanAt(js, p) == Lexed(Blank, p + 1) && At(js, p + 1, w[1..]) && IsSpace(w[1..])
  {
    assert js[p + 0] == w[0] && IsWhite(w[0]);
    assert w == [w[0]] + w[1..];
    AtSplit(js, p, [w[0]], w[1..]);
  }

  lemma {:induction false} ReadSpace(js: string, room: nat, p: nat, w: string, st: State)
    requires At(js, p, w) && IsSpace(w) && Sound(st)
    ensures Leads(js, room, p, st, p + |w|, st)
    decreases |w|
  {
    hide ScanAt, Run, At, IsSpace;
    if w == "" {
      StaysPut(js, room, p, st);
    } else {
      FirstBlank(js, p, w);
      Round(js, room, p, st, Blank, p + 1, st);
      ReadSpace(js, room, p + 1, w[1..], st);
      Then(js, room, p, st, p + 1, st, p + |w|, st);
    }
  }

  lemma ReadMark(js: string, room: nat, p: nat, c: char, st: State, lex: Lexeme, st': State)
    requires At(js, p, [c]) && Sound(st)
    requires (c == ':' && lex == Colon) || (c == ',' && lex == Comma) ||
             (c == '{' && lex == Open(Object)) || (c == '[' && lex == Open(Array)) ||
             (c == '}' && lex == Close(Object)) || (c == ']' && lex == Close(Array))
    requires Apply(lex, p, st, room) == Next(st')
    ensures Leads(js, room, p, st, p + 1, st')
  {
    AtChar(js, p, c);
    Round(js, room, p, st, lex, p + 1, st');
  }

  /** What must follow a value: after a primitive the text ends or a delimiter comes. */
  predicate Follows(js: string, p: nat, v: Json) {
    v.Prim? ==> AtEnd(js, p) || IsStop(js[p])
  }

  lemma ScanString(js: string, p: nat, raw: string)
    requires IsBody(raw) && At(js, p, Quoted(raw))
    ensures !AtEnd(js, p) && ScanAt(js, p) == Lexed(Text(String, p + 1, p + 1 + |raw|), p + 2 + |raw|)
  {
    hide IsBody;
    var w := Quoted(raw);
    var q := p + 1 + |raw|;
    assert js[p + 0] == w[0] && js[p + (|raw| + 1)] == w[|raw| + 1];
    forall k | 0 <= k < |raw| ensures js[p + 1..q][k] == raw[k] { assert js[p + (k + 1)] == w[k + 1]; }
    assert js[p + 1..q] == raw;
    StringScanIsExact(js, p + 1, q);
  }

  lemma ScanBare(js: string, p: nat, text: string)
    requires IsPrimitive(text) && At(js, p, text) && (AtEnd(js, p + |text|) || IsStop(js[p + |text|]))
    ensures !AtEnd(js, p) && ScanAt(js, p) == Lexed(Text(Primitive, p, p + |text|), p + |text|)
  {
    assert js[p + 0] == text[0];
    assert js[p..p + |text|] == text;
    PrimitiveScanIsExact(js, p, p + |text|);
  }

  lemma ScanLeaf(js: string, p: nat, v: Json)
    requires (v.Prim? || v.Str?) && Legal(v) && At(js, p, Print(v)) && Follows(js, p + |Print(v)|, v)
    ensures !AtEnd(js, p)
    ensures var t := Preorder(v, p)[0];
            ScanAt(js, p) == Lexed(Text(t.kind, t.start, t.end), p + |Print(v)|)
  {
    hide ScanAt, AtEnd, At, IsBody, IsPrimitive, IsStop, Quoted;
    if v.Str? {
      QuotedLength(v.raw);
      ScanString(js, p, v.raw);
    } else {
      ScanBare(js, p, v.text);
    }
  }

  lemma QuotedLength(raw: string)
    ensures |Quoted(raw)| == |raw| + 2
  {
  }

  lemma ReadLeaf(js: string, room: nat, p: nat, v: Json, st: State)
    requires (v.Prim? || v.Str?) && Legal(v) && At(js, p, Print(v)) && Follows(js, p + |Print(v)|, v)
    requires Sound(st) && |st.toks| < room
    ensures Leads(js, room, p, st, p + |Print(v)|, State(Bump(st.toks, st.super) + Preorder(v, p), st.super))
  {
    ScanLeaf(js, p, v);
    var t := Preorder(v, p)[0];
    Round(js, room, p, st, Text(t.kind, t.start, t.end), p + |Print(v)|,
          State(Bump(st.toks, st.super) + Preorder(v, p), st.super));
  }

  // ---------------------------------------------------------------------------
  // Open and closed tokens
  // ---------------------------------------------------------------------------

  ghost predicate AllClosed(toks: seq<Token>) { forall i :: 0 <= i < |toks| ==> !IsOpen(toks[i]) }

  lemma PreorderClosed(v: Json, at: nat)
    ensures AllClosed(Preorder(v, at))
    decreases v
  {
    match v
    case Arr(pad, items) => ItemsClosed(items, at + 1 + |pad|);
    case Obj(pad, members) => MembersClosed(members, at + 1 + |pad|);
    case _ =>
  }

  lemma ItemsClosed(items: Items, at: nat)
    ensures AllClosed(PreorderItems(items, at))
    decreases items
  {
    if items.Item? {
      var v := at + |items.pre|;
      PreorderClosed(items.value, v);
      ItemsClosed(items.rest, v + |Print(items.value)| + |items.post| + 1);
    }
  }

  lemma MembersClosed(members: Members, at: nat)
    ensures AllClosed(PreorderMembers(members, at))
    decreases members
  {
    if members.Member? {
      var v := at + |members.pre| + |members.key| + 2 + |members.mid| + 1 + |members.gap|;
      PreorderClosed(members.value, v);
      MembersClosed(members.rest, v + |Print(members.value)| + |members.post| + 1);
    }
  }

  /** Closed tokens at the end do not change what the backward scan finds. */
  lemma InnermostOver(toks: seq<Token>, more: seq<Token>)
    requires AllClosed(more)
    ensures Innermost(toks + more, |toks + more|) == Innermost(toks, |toks|)
  {
    var all := toks + more;
    forall k | |toks| <= k < |all| ensures !IsOpen(all[k]) { assert all[k] == more[k - |toks|]; }
    InnermostSkips(all, |toks|, |all|);
    InnermostPrefix(all, |toks|);
    assert all[..|toks|] == toks;
  }

  lemma {:induction false} InnermostBump(toks: seq<Token>, super: int)
    requires -1 <= super < |toks|
    ensures Innermost(Bump(toks, super), |toks|) == Innermost(toks, |toks|)
  {
    var i, j := Innermost(Bump(toks, super), |toks|), Innermost(toks, |toks|);
    if i > j { assert IsOpen(Bump(toks, super)[i]) && !IsOpen(toks[i]); }
    if i < j { assert IsOpen(toks[j]) && !IsOpen(Bump(toks, super)[j]); }
  }

  /** In the middle of a container: token c is the innermost open one. */
  ghost predicate Inside(toks: seq<Token>, c: int, kind: Kind) {
    0 <= c < |toks| && Innermost(toks, |toks|) == c && toks[c].kind == kind
  }

  lemma InsideGrows(toks: seq<Token>, c: int, kind: Kind, super: int, more: seq<Token>)
    requires Inside(toks, c, kind) && -1 <= super < |toks| && AllClosed(more)
    ensures Inside(Bump(toks, super) + more, c, kind)
  {
    InnermostBump(toks, super);
    InnermostOver(Bump(toks, super), more);
  }

  // ---------------------------------------------------------------------------
  // Tokenizing a printed tree
  // ---------------------------------------------------------------------------

  /** The state once v has been read: v's preorder tokens appended, one more child for the
      superior token, and `super` the new superior token. */
  function After(st: State, v: Json, p: nat, super: int): State
    requires -1 <= st.super < |st.toks|
  {
    State(Bump(st.toks, st.super) + Preorder(v, p), super)
  }

  /** The superior token stays, unless v was a container: then it is the innermost open token. */
  predicate SuperAfter(st: State, super: int) {
    super == st.super || super == Innermost(st.toks, |st.toks|)
  }

  /** Tokens of a container's contents: `count` more children for token c, and `more` appended. */
  function Extended(toks: seq<Token>, c: int, count: nat, more: seq<Token>): seq<Token>
    requires 0 <= c < |toks|
  {
    toks[c := toks[c].(size := toks[c].size + count)] + more
  }

  lemma {:induction false} ReadValue(js: string, room: nat, p: nat, v: Json, st: State) returns (super: int)
    requires Legal(v) && At(js, p, Print(v)) && Follows(js, p + |Print(v)|, v)
    requires Sound(st) && |st.toks| + |Preorder(v, p)| <= room
    ensures SuperAfter(st, super)
    ensures Leads(js, room, p, st, p + |Print(v)|, After(st, v, p, super)) && Sound(After(st, v, p, super))
    decreases v, 1
  {
    hide Leads, At;
    match v
    case Arr(pad, items) => super := ReadArray(js, room, p, v, st);
    case Obj(pad, members) => super := ReadObject(js, room, p, v, st);
    case _ =>
      ReadLeaf(js, room, p, v, st);
      super := st.super;
  }

  /** The pieces of an array, in its text and among its tokens. */
  lemma ArrayParts(js: string, p: nat, pad: string, items: Items)
    requires At(js, p, Print(Arr(pad, items)))
    ensures var v := Arr(pad, items);
            var b := p + 1 + |pad|;
            var e := b + |PrintItems(items)|;
            At(js, p, "[") && At(js, p + 1, pad) && At(js, b, PrintItems(items)) && At(js, e, "]") &&
            |Print(v)| == e + 1 - p &&
            Preorder(v, p) == [Token(Array, p, e + 1, ItemCount(items))] + PreorderItems(items, b)
  {
    hide At;
    AtSplit(js, p, "[", pad + (PrintItems(items) + "]"));
    AtSplit(js, p + 1, pad, PrintItems(items) + "]");
    AtSplit(js, p + 1 + |pad|, PrintItems(items), "]");
  }

  lemma {:induction false} ReadArray(js: string, room: nat, p: nat, v: Json, st: State) returns (super: int)
    requires v.Arr? && Legal(v) && At(js, p, Print(v))
    requires Sound(st) && |st.toks| + |Preorder(v, p)| <= room
    ensures super == Innermost(st.toks, |st.toks|)
    ensures Leads(js, room, p, st, p + |Print(v)|, After(st, v, p, super)) && Sound(After(st, v, p, super))
    decreases v, 0
  {
    hide Leads, At, Run, Print, Preorder, Apply;
    var Arr(pad, items) := v;
    var b := p + 1 + |pad|;
    var e := b + |PrintItems(items)|;
    ArrayParts(js, p, pad, items);
    var st0 := OpenAt(js, room, p, Array, pad, st);
    var st1 := ReadItems(js, room, b, items, st0);
    ItemsClosed(items, b);
    super := CloseAt(js, room, p, e, Array, st, st0, st1, ItemCount(items), PreorderItems(items, b));
    Then(js, room, p, st, b, st0, e, st1);
    Then(js, room, p, st, e, st1, e + 1, After(st, v, p, super));
  }

  /** The pieces of an object, in its text and among its tokens. */
  lemma ObjectParts(js: string, p: nat, pad: string, members: Members)
    requires At(js, p, Print(Obj(pad, members)))
    ensures var v := Obj(pad, members);
            var b := p + 1 + |pad|;
            var e := b + |PrintMembers(members)|;
            At(js, p, "{") && At(js, p + 1, pad) && At(js, b, PrintMembers(members)) && At(js, e, "}") &&
            |Print(v)| == e + 1 - p &&
            Preorder(v, p) == [Token(Object, p, e + 1, MemberCount(members))] + PreorderMembers(members, b)
  {
    hide At;
    AtSplit(js, p, "{", pad + (PrintMembers(members) + "}"));
    AtSplit(js, p + 1, pad, PrintMembers(members) + "}");
    AtSplit(js, p + 1 + |pad|, PrintMembers(members), "}");
  }

  lemma {:induction false} ReadObject(js: string, room: nat, p: nat, v: Json, st: State) returns (super: int)
    requires v.Obj? && Legal(v) && At(js, p, Print(v))
    requires Sound(st) && |st.toks| + |Preorder(v, p)| <= room
    ensures super == Innermost(st.toks, |st.toks|)
    ensures Leads(js, room, p, st, p + |Print(v)|, After(st, v, p, super)) && Sound(After(st, v, p, super))
    decreases v, 0
  {
    hide Leads, At, Run, Print, Preorder, Apply;
    var Obj(pad, members) := v;
    var b := p + 1 + |pad|;
    var e := b + |PrintMembers(members)|;
    ObjectParts(js, p, pad, members);
    var st0 := OpenAt(js, room, p, Object, pad, st);
    var st1 := ReadMembers(js, room, b, members, st0);
    MembersClosed(members, b);
    super := CloseAt(js, room, p, e, Object, st, st0, st1, MemberCount(members), PreorderMembers(members, b));
    Then(js, room, p, st, b, st0, e, st1);
    Then(js, room, p, st, e, st1, e + 1, After(st, v, p, super));
  }

  lemma OpenSound(st: State, p: nat, kind: Kind)
    requires Sound(st) && IsContainer(kind)
    ensures var st0 := State(Bump(st.toks, st.super) + [Token(kind, p, -1, 0)], |st.toks|);
            Sound(st0) && Inside(st0.toks, st0.super, kind)
  {
  }

  lemma OpenAt(js: string, room: nat, p: nat, kind: Kind, pad: string, st: State) returns (st0: State)
    requires Sound(st) && |st.toks| < room && IsContainer(kind)
    requires At(js, p, if kind == Object then "{" else "[") && At(js, p + 1, pad) && IsSpace(pad)
    ensures st0 == State(Bump(st.toks, st.super) + [Token(kind, p, -1, 0)], |st.toks|)
    ensures Inside(st0.toks, st0.super, kind)
    ensures Leads(js, room, p, st, p + 1 + |pad|, st0)
  {
    hide Leads, At, Run;
    st0 := State(Bump(st.toks, st.super) + [Token(kind, p, -1, 0)], |st.toks|);
    OpenSound(st, p, kind);
    ReadMark(js, room, p, if kind == Object then '{' else '[', st, Open(kind), st0);
    ReadSpace(js, room, p + 1, pad, st0);
    Then(js, room, p, st, p + 1, st0, p + 1 + |pad|, st0);
  }

  lemma CloseAt(js: string, room: nat, p: nat, q: nat, kind: Kind, st: State, st0: State, st1: State,
                size: nat, inner: seq<Token>)
    returns (super: int)
    requires Sound(st) && Sound(st1) && IsContainer(kind) && AllClosed(inner)
    requires At(js, q, if kind == Object then "}" else "]")
    requires st0 == State(Bump(st.toks, st.super) + [Token(kind, p, -1, 0)], |st.toks|)
    requires st1.toks == Extended(st0.toks, st0.super, size, inner)
    ensures super == Innermost(st.toks, |st.toks|)
    ensures Leads(js, room, q, st1, q + 1,
                  State(Bump(st.toks, st.super) + ([Token(kind, p, q + 1, size)] + inner), super))
  {
    hide Leads, At, Run;
    var base := Bump(st.toks, st.super);
    var c := |base|;
    assert st1.toks == (base + [Token(kind, p, -1, size)]) + inner;
    InnermostOver(base + [Token(kind, p, -1, size)], inner);
    var closed := st1.toks[c := st1.toks[c].(end := q + 1)];
    assert closed == base + ([Token(kind, p, q + 1, size)] + inner);
    InnermostOver(base, [Token(kind, p, q + 1, size)] + inner);
    InnermostBump(st.toks, st.super);
    super := Innermost(closed, |closed|);
    ReadMark(js, room, q, if kind == Object then '}' else ']', st1, Close(kind), State(closed, super));
  }

  /** A value with white space around it. */
  lemma {:induction false} ReadPadded(js: string, room: nat, p: nat, pre: string, v: Json, post: string, st: State)
    returns (super: int)
    requires IsSpace(pre) && Legal(v) && IsSpace(post)
    requires At(js, p, pre) && At(js, p + |pre|, Print(v)) && At(js, p + |pre| + |Print(v)|, post)
    requires Follows(js, p + |pre| + |Print(v)|, v)
    requires Sound(st) && |st.toks| + |Preorder(v, p + |pre|)| <= room
    ensures SuperAfter(st, super)
    ensures Leads(js, room, p, st, p + |pre| + |Print(v)| + |post|, After(st, v, p + |pre|, super)) &&
            Sound(After(st, v, p + |pre|, super))
    decreases v, 2
  {
    hide Leads, At;
    var q := p + |pre|;
    var r := q + |Print(v)|;
    ReadSpace(js, room, p, pre, st);
    super := ReadValue(js, room, q, v, st);
    var st' := After(st, v, q, super);
    ReadSpace(js, room, r, post, st');
    Then(js, room, p, st, q, st, r, st');
    Then(js, room, p, st, r, st', r + |post|, st');
  }

  /** After white space come a comma or the closing bracket, so a value is followed by a delimiter. */
  lemma SpaceFollows(js: string, w: nat, post: string, c: char, v: Json)
    requires At(js, w, post) && IsSpace(post) && At(js, w + |post|, [c])
    requires c == ',' || c == ']' || c == '}'
    ensures w < |js| && IsStop(js[w]) && Follows(js, w, v)
  {
    if post != "" { assert js[w + 0] == post[0]; } else { AtChar(js, w, c); }
  }

  /** The pieces of the first item. */
  lemma SplitItem(js: string, p: nat, items: Items)
    requires items.Item? && At(js, p, PrintItems(items)) && At(js, p + |PrintItems(items)|, "]")
    ensures var Item(pre, value, post, rest) := items;
            var v := p + |pre|;
            var x := v + |Print(value)| + |post|;
            At(js, p, pre) && At(js, v, Print(value)) && At(js, v + |Print(value)|, post) &&
            if rest.NoItems? then At(js, x, "]") && x == p + |PrintItems(items)|
            else At(js, x, ",") && At(js, x + 1, PrintItems(rest)) &&
                 x + 1 + |PrintItems(rest)| == p + |PrintItems(items)|
  {
    hide At, Print;
    var Item(pre, value, post, rest) := items;
    var tail := if rest.NoItems? then "" else "," + PrintItems(rest);
    AtSplit(js, p, pre, Print(value) + (post + tail));
    AtSplit(js, p + |pre|, Print(value), post + tail);
    AtSplit(js, p + |pre| + |Print(value)|, post, tail);
    if rest.Item? { AtSplit(js, p + |PrintItems(items)| - |tail|, ",", PrintItems(rest)); }
  }

  lemma {:induction false} ReadItems(js: string, room: nat, p: nat, items: Items, st: State) returns (st': State)
    requires LegalItems(items) && At(js, p, PrintItems(items)) && At(js, p + |PrintItems(items)|, "]")
    requires Sound(st) && Inside(st.toks, st.super, Array)
    requires |st.toks| + |PreorderItems(items, p)| <= room
    ensures st'.toks == Extended(st.toks, st.super, ItemCount(items), PreorderItems(items, p))
    ensures Leads(js, room, p, st, p + |PrintItems(items)|, st') && Sound(st')
    decreases items, 3
  {
    hide Leads, At, Print, Run, Legal, After, Extended, PreorderItems, ItemCount;
    ItemsFirst(items, p);
    st' := st;
    if items.NoItems? {
      StaysPut(js, room, p, st);
      ExtendNone(st.toks, st.super);
    } else {
      var Item(pre, value, post, rest) := items;
      var v := p + |pre|;
      var w := v + |Print(value)|;
      var x := w + |post|;
      SplitItem(js, p, items);
      SpaceFollows(js, w, post, if rest.NoItems? then ']' else ',', value);
      var super := ReadPadded(js, room, p, pre, value, post, st);
      assert super == st.super;
      OneMoreItem(st, value, v);
      var st1 := After(st, value, v, super);
      ItemsFirst(rest, x + 1);
      if rest.NoItems? {
        assert Preorder(value, v) + [] == Preorder(value, v);
        st' := st1;
      } else {
        ReadMark(js, room, x, ',', st1, Comma, st1);
        st' := ReadItems(js, room, x + 1, rest, st1);
        ExtendTwice(st.toks, st.super, Preorder(value, v), ItemCount(rest), PreorderItems(rest, x + 1));
        Then(js, room, p, st, x, st1, x + 1, st1);
        Then(js, room, p, st, x + 1, st1, p + |PrintItems(items)|, st');
      }
    }
  }

  lemma ItemsFirst(items: Items, p: nat)
    ensures match items
            case NoItems => PreorderItems(items, p) == [] && ItemCount(items) == 0
            case Item(pre, value, post, rest) =>
              var v := p + |pre|;
              PreorderItems(items, p) == Preorder(value, v) + PreorderItems(rest, v + |Print(value)| + |post| + 1) &&
              ItemCount(items) == 1 + ItemCount(rest)
  {
  }

  /** The array's state after one more item. */
  lemma OneMoreItem(st: State, value: Json, v: nat)
    requires Sound(st) && Inside(st.toks, st.super, Array)
    ensures var st1 := After(st, value, v, st.super);
            Inside(st1.toks, st1.super, Array) && st1.super == st.super &&
            |st1.toks| == |st.toks| + |Preorder(value, v)| &&
            st1.toks == Extended(st.toks, st.super, 1, Preorder(value, v))
  {
    hide Inside;
    PreorderClosed(value, v);
    InsideGrows(st.toks, st.super, Array, st.super, Preorder(value, v));
  }

  lemma ExtendNone(toks: seq<Token>, c: int)
    requires 0 <= c < |toks|
    ensures Extended(toks, c, 0, []) == toks
  {
  }

  lemma ExtendLength(toks: seq<Token>, c: int, count: nat, more: seq<Token>)
    requires 0 <= c < |toks|
    ensures |Extended(toks, c, count, more)| == |toks| + |more|
  {
  }

  lemma ExtendTwice(toks: seq<Token>, c: int, first: seq<Token>, count: nat, more: seq<Token>)
    requires 0 <= c < |toks|
    ensures Extended(Extended(toks, c, 1, first), c, count, more) == Extended(toks, c, 1 + count, first + more)
  {
  }

  lemma {:induction false} ReadMembers(js: string, room: nat, p: nat, members: Members, st: State) returns (st': State)
    requires LegalMembers(members) && At(js, p, PrintMembers(members)) && At(js, p + |PrintMembers(members)|, "}")
    requires Sound(st) && Inside(st.toks, st.super, Object)
    requires |st.toks| + |PreorderMembers(members, p)| <= room
    ensures st'.toks == Extended(st.toks, st.super, MemberCount(members), PreorderMembers(members, p))
    ensures Leads(js, room, p, st, p + |PrintMembers(members)|, st') && Sound(st')
    decreases members, 4
  {
    hide Leads, At, IsSpace, IsBody, Innermost, Apply, Legal, Bump, Print, Preorder, MemberTokens, Run, ScanAt;
    hide Extended;
    ExtendNone(st.toks, st.super);
    st' := st;
    if members.NoMembers? {
      StaysPut(js, room, p, st);
    } else {
      SplitMember(js, p, members);
      PreorderFirst(members, p);
      var st2 := ReadMember(js, room, p, members, st);
      ExtendLength(st.toks, st.super, 1, MemberTokens(members, p));
      if members.rest.NoMembers? {
        assert MemberTokens(members, p) + [] == MemberTokens(members, p);
        st' := st2;
      } else {
        var x := ValueAt(members, p) + |Print(members.value)| + |members.post|;
        var st3 := State(st2.toks, st.super);
        CommaReturns(js, room, x, st2, st.super);
        st' := ReadMembers(js, room, x + 1, members.rest, st3);
        ExtendTwice(st.toks, st.super, MemberTokens(members, p), MemberCount(members.rest),
                    PreorderMembers(members.rest, x + 1));
        Then(js, room, p, st, x, st2, x + 1, st3);
        Then(js, room, p, st, x + 1, st3, p + |PrintMembers(members)|, st');
      }
    }
  }

  /** Where the value of the first member starts. */
  function ValueAt(members: Members, p: nat): nat
    requires members.Member?
  {
    p + |members.pre| + |members.key| + 2 + |members.mid| + 1 + |members.gap|
  }

  /** The tokens of the first member. */
  function MemberTokens(members: Members, p: nat): seq<Token>
    requires members.Member?
  {
    var k := p + |members.pre|;
    [Token(String, k + 1, k + 1 + |members.key|, 1)] + Preorder(members.value, ValueAt(members, p))
  }

  lemma PreorderFirst(members: Members, p: nat)
    requires members.Member?
    ensures PreorderMembers(members, p) ==
            MemberTokens(members, p) +
            PreorderMembers(members.rest, ValueAt(members, p) + |Print(members.value)| + |members.post| + 1)
  {
  }

  /** The first member, up to the comma or the closing brace. */
  lemma {:induction false} ReadMember(js: string, room: nat, p: nat, members: Members, st: State) returns (st2: State)
    requires members.Member? && LegalMembers(members)
    requires At(js, p, PrintMembers(members)) && At(js, p + |PrintMembers(members)|, "}")
    requires Sound(st) && Inside(st.toks, st.super, Object)
    requires |st.toks| + |PreorderMembers(members, p)| <= room
    ensures Sound(st2) && st2.toks == Extended(st.toks, st.super, 1, MemberTokens(members, p))
    ensures Inside(st2.toks, st.super, Object)
    ensures st2.super == st.super || (st2.super >= 0 && !IsContainer(st2.toks[st2.super].kind))
    ensures Leads(js, room, p, st, ValueAt(members, p) + |Print(members.value)| + |members.post|, st2)
    decreases members, 3
  {
    hide Leads, At, IsSpace, IsBody, Innermost, Apply, Print, Preorder, PrintMembers, PreorderMembers, IsOpen;
    var Member(pre, key, mid, gap, value, post, rest) := members;
    var k := p + |pre|;
    var v := ValueAt(members, p);
    SplitMember(js, p, members);
    PreorderFirst(members, p);
    var st1 := ReadKey(js, room, p, pre, key, mid, st);
    SpaceFollows(js, v + |Print(value)|, post, if rest.NoMembers? then '}' else ',', value);
    var super := ReadPadded(js, room, v - |gap|, gap, value, post, st1);
    st2 := After(st1, value, v, super);
    Then(js, room, p, st, v - |gap|, st1, v + |Print(value)| + |post|, st2);
    KeyThenValue(st, st1, k, key, Preorder(value, v));
    PreorderClosed(value, v);
    InsideGrows(st1.toks, st.super, Object, st1.super, Preorder(value, v));
  }

  /** The pieces of the first member. */
  lemma SplitMember(js: string, p: nat, members: Members)
    requires members.Member? && At(js, p, PrintMembers(members)) && At(js, p + |PrintMembers(members)|, "}")
    ensures var Member(pre, key, mid, gap, value, post, rest) := members;
            var k := p + |pre|;
            var c := k + |key| + 2 + |mid|;
            var v := c + 1 + |gap|;
            var x := v + |Print(value)| + |post|;
            At(js, p, pre) && At(js, k, Quoted(key)) && At(js, k + |key| + 2, mid) && At(js, c, ":") &&
            At(js, c + 1, gap) && At(js, v, Print(value)) && At(js, v + |Print(value)|, post) &&
            if rest.NoMembers? then At(js, x, "}") && x == p + |PrintMembers(members)|
            else At(js, x, ",") && At(js, x + 1, PrintMembers(rest)) &&
                 x + 1 + |PrintMembers(rest)| == p + |PrintMembers(members)|
  {
    hide At, Print;
    var Member(pre, key, mid, gap, value, post, rest) := members;
    var tail := if rest.NoMembers? then "" else "," + PrintMembers(rest);
    var k := p + |pre|;
    var afterKey := mid + (":" + (gap + (Print(value) + (post + tail))));
    AtSplit(js, p, pre, Quoted(key) + afterKey);
    AtSplit(js, k, Quoted(key), afterKey);
    AtSplit(js, k + |key| + 2, mid, ":" + (gap + (Print(value) + (post + tail))));
    AtSplitValue(js, k + |key| + 2 + |mid|, gap, Print(value), post, tail);
    if rest.Member? { AtSplit(js, p + |PrintMembers(members)| - |tail|, ",", PrintMembers(rest)); }
  }

  lemma AtSplitValue(js: string, c: nat, gap: string, value: string, post: string, tail: string)
    requires At(js, c, ":" + (gap + (value + (post + tail))))
    ensures At(js, c, ":") && At(js, c + 1, gap) && At(js, c + 1 + |gap|, value)
    ensures At(js, c + 1 + |gap| + |value|, post) && At(js, c + 1 + |gap| + |value| + |post|, tail)
  {
    hide At;
    AtSplit(js, c, ":", gap + (value + (post + tail)));
    AtSplit(js, c + 1, gap, value + (post + tail));
    AtSplit(js, c + 1 + |gap|, value, post + tail);
    AtSplit(js, c + 1 + |gap| + |value|, post, tail);
  }

  /** White space, a key, white space and the colon: the key becomes the superior token. */
  lemma ReadKey(js: string, room: nat, p: nat, pre: string, key: string, mid: string, st: State) returns (st1: State)
    requires IsSpace(pre) && IsBody(key) && IsSpace(mid)
    requires At(js, p, pre) && At(js, p + |pre|, Quoted(key)) && At(js, p + |pre| + |key| + 2, mid)
    requires At(js, p + |pre| + |key| + 2 + |mid|, ":")
    requires Sound(st) && Inside(st.toks, st.super, Object) && |st.toks| < room
    ensures var k := p + |pre|;
            st1 == State(Bump(st.toks, st.super) + [Token(String, k + 1, k + 1 + |key|, 0)], |st.toks|)
    ensures Inside(st1.toks, st.super, Object)
    ensures Leads(js, room, p, st, p + |pre| + |key| + 2 + |mid| + 1, st1)
  {
    hide Leads, At;
    var k := p + |pre|;
    var c := k + |key| + 2 + |mid|;
    var st0 := After(st, Str(key), k, st.super);
    ReadSpace(js, room, p, pre, st);
    ReadLeaf(js, room, k, Str(key), st);
    ReadSpace(js, room, k + |key| + 2, mid, st0);
    Then(js, room, p, st, k, st, k + |key| + 2, st0);
    Then(js, room, p, st, k + |key| + 2, st0, c, st0);
    PreorderClosed(Str(key), k);
    InsideGrows(st.toks, st.super, Object, st.super, Preorder(Str(key), k));
    st1 := State(st0.toks, |st.toks|);
    ReadMark(js, room, c, ':', st0, Colon, st1);
    Then(js, room, p, st, c, st0, c + 1, st1);
  }

  lemma KeyThenValue(st: State, st1: State, k: nat, key: string, value: seq<Token>)
    requires Sound(st) && st.super >= 0
    requires st1 == State(Bump(st.toks, st.super) + [Token(String, k + 1, k + 1 + |key|, 0)], |st.toks|)
    ensures Bump(st1.toks, st1.super) + value ==
            Extended(st.toks, st.super, 1, [Token(String, k + 1, k + 1 + |key|, 1)] + value)
  {
  }

  /** After a member, whichever token was superior, a comma makes it the object again. */
  lemma CommaReturns(js: string, room: nat, x: nat, st: State, c: int)
    requires Sound(st) && At(js, x, ",") && Inside(st.toks, c, Object)
    requires st.super == c || (st.super >= 0 && !IsContainer(st.toks[st.super].kind))
    ensures Leads(js, room, x, st, x + 1, State(st.toks, c))
  {
    ReadMark(js, room, x, ',', st, Comma, State(st.toks, c));
  }

  /** A whole text: a value with white space around it. */
  function Document(lead: string, v: Json, trail: string): string { lead + (Print(v) + trail) }

  lemma DocumentAt(lead: string, v: Json, trail: string)
    ensures var js := Document(lead, v, trail);
            At(js, 0, lead) && At(js, |lead|, Print(v)) && At(js, |lead| + |Print(v)|, trail)
  {
    hide Print;
    var js := Document(lead, v, trail);
    assert At(js, 0, js);
    AtSplit(js, 0, lead, Print(v) + trail);
    AtSplit(js, |lead|, Print(v), trail);
  }

  /**
   Tokenizing the printed text of any tree, with any legal white space and escapes, succeeds
   whenever there is room, and yields exactly the tree's preorder array: kinds, extents and
   child counts.  The counting pass returns the same number of tokens.
   */
  lemma RoundTrip(lead: string, v: Json, trail: string, room: nat)
    requires IsSpace(lead) && Legal(v) && IsSpace(trail)
    requires |Preorder(v, |lead|)| <= room
    ensures var js := Document(lead, v, trail);
            var o := Run(js, 0, START, room);
            o.code == |Preorder(v, |lead|)| == CountRun(js, 0, 0) &&
            o.pos == |js| && o.st.toks == Preorder(v, |lead|)
  {
    hide At, Leads, IsSpace, Preorder, Print;
    var js := Document(lead, v, trail);
    var toks := Preorder(v, |lead|);
    DocumentAt(lead, v, trail);
    DocumentFollows(lead, v, trail);
    var super := ReadPadded(js, room, 0, lead, v, trail, START);
    PreorderClosed(v, |lead|);
    LeadsToEnd(js, room, After(START, v, |lead|, super), toks);
    JsmnTheorems.FilledIsCounted(js, 0, START, room);
  }

  lemma DocumentFollows(lead: string, v: Json, trail: string)
    requires IsSpace(trail)
    ensures Follows(Document(lead, v, trail), |lead| + |Print(v)|, v)
  {
    var js := Document(lead, v, trail);
    if trail != "" { assert js[|lead| + |Print(v)|] == trail[0]; }
  }

  lemma LeadsToEnd(js: string, room: nat, st: State, toks: seq<Token>)
    requires Leads(js, room, 0, START, |js|, st) && st.toks == toks && AllClosed(toks)
    ensures Run(js, 0, START, room) == Outcome(|toks|, |js|, st)
  {
  }

  // ---------------------------------------------------------------------------
  // Numbers and literal names (sections 3 and 6 of RFC 8259) are primitives
  // ---------------------------------------------------------------------------

  predicate IsDigits(s: string) { s != "" && forall k :: 0 <= k < |s| ==> '0' <= s[k] <= '9' }

  /** [ minus ] int [ frac ] [ exp ], with int, frac digits and exp digits given. */
  predicate IsNumber(minus: string, whole: string, frac: string, exp: string) {
    (minus == "" || minus == "-") &&
    IsDigits(whole) && (|whole| > 1 ==> whole[0] != '0') &&
    (frac == "" || (frac[0] == '.' && IsDigits(frac[1..]))) &&
    (exp == "" || (|exp| > 1 && (exp[0] == 'e' || exp[0] == 'E') &&
                   (IsDigits(exp[1..]) || ((exp[1] == '+' || exp[1] == '-') && IsDigits(exp[2..])))))
  }

  predicate IsNumberChar(c: char) {
    '0' <= c <= '9' || c == '-' || c == '+' || c == '.' || c == 'e' || c == 'E'
  }

  lemma NumbersAreBare(minus: string, whole: string, frac: string, exp: string)
    requires IsNumber(minus, whole, frac, exp)
    ensures IsPrimitive(minus + whole + frac + exp)
    ensures IsPrimitive("true") && IsPrimitive("false") && IsPrimitive("null")
  {
    forall k | 0 <= k < |frac| ensures IsNumberChar(frac[k]) { if k > 0 { assert frac[k] == frac[1..][k - 1]; } }
    forall k | 0 <= k < |exp| ensures IsNumberChar(exp[k]) {
      if k > 0 { assert exp[k] == exp[1..][k - 1]; }
      if k > 1 { assert exp[k] == exp[2..][k - 2]; }
    }
    var all := minus + whole + frac + exp;
    forall k | 0 <= k < |all| ensures IsNumberChar(all[k]) {}
  }

  // ---------------------------------------------------------------------------
  // An example
  // ---------------------------------------------------------------------------

  function Pair(): Items { Item("", Prim("1"), "", Item(" ", Prim("true"), "", NoItems)) }

  function SecondMember(): Members { Member(" ", "b", "", "", Arr("", Pair()), "", NoMembers) }

  function BothMembers(): Members { Member("", "a", "", " ", Str("\\n"), "", SecondMember()) }

  function Example(): Json { Obj("", BothMembers()) }

  lemma PairPrints()
    ensures PrintItems(Pair()) == "1, true" && LegalItems(Pair()) && ItemCount(Pair()) == 2
    ensures PrintItems(Pair().rest) == " true"
  {
    var last := Pair().rest;
    assert Print(Prim("1")) == "1" && Print(Prim("true")) == "true";
    assert last == Item(" ", Prim("true"), "", NoItems) && PrintItems(NoItems) == "";
    assert IsSpace("") && IsSpace(" ") && IsPrimitive("1") && IsPrimitive("true");
    assert LegalItems(last);
  }

  lemma PairTokens()
    ensures PreorderItems(Pair(), 17) == [Token(Primitive, 17, 18, 0), Token(Primitive, 20, 24, 0)]
  {
    hide PrintItems;
    var last := Pair().rest;
    assert Print(Prim("1")) == "1" && Print(Prim("true")) == "true";
    assert PreorderItems(NoItems, 25) == [];
    assert PreorderItems(last, 19) == [Token(Primitive, 20, 24, 0)];
    assert Preorder(Prim("1"), 17) == [Token(Primitive, 17, 18, 0)];
  }

  lemma ExamplePair()
    ensures Print(Arr("", Pair())) == "[1, true]" && Legal(Arr("", Pair()))
    ensures Preorder(Arr("", Pair()), 16) ==
            [Token(Array, 16, 25, 2), Token(Primitive, 17, 18, 0), Token(Primitive, 20, 24, 0)]
  {
    hide PrintItems, LegalItems, ItemCount, PreorderItems;
    PairPrints();
    PairTokens();
    assert IsSpace("");
  }

  lemma ExampleMember()
    ensures PrintMembers(SecondMember()) == " \"b\":[1, true]" && LegalMembers(SecondMember())
    ensures PreorderMembers(SecondMember(), 11) ==
            [Token(String, 13, 14, 1), Token(Array, 16, 25, 2),
             Token(Primitive, 17, 18, 0), Token(Primitive, 20, 24, 0)]
  {
    hide Print, Preorder, Legal;
    ExamplePair();
    assert IsSpace("") && IsSpace(" ");
    assert "b"[1..] == "" && IsBody("") && IsBody("b");
    assert PreorderMembers(NoMembers, 26) == [];
  }

  /** A text, its tree and its tokens, spelt out. */
  lemma ExampleText(room: nat)
    requires room >= 7
    ensures Run("{\"a\": \"\\n\", \"b\":[1, true]}", 0, START, room).st.toks ==
            [Token(Object, 0, 26, 2), Token(String, 2, 3, 1), Token(String, 7, 9, 0), Token(String, 13, 14, 1),
             Token(Array, 16, 25, 2), Token(Primitive, 17, 18, 0), Token(Primitive, 20, 24, 0)]
  {
    hide Run;
    ExampleTree();
    RoundTrip("", Example(), "", room);
    assert Document("", Example(), "") == Print(Example());
  }

  lemma ExampleTree()
    ensures Print(Example()) == "{\"a\": \"\\n\", \"b\":[1, true]}" && Legal(Example())
    ensures Preorder(Example(), 0) ==
            [Token(Object, 0, 26, 2), Token(String, 2, 3, 1), Token(String, 7, 9, 0), Token(String, 13, 14, 1),
             Token(Array, 16, 25, 2), Token(Primitive, 17, 18, 0), Token(Primitive, 20, 24, 0)]
  {
    hide PrintMembers, PreorderMembers, LegalMembers, MemberCount;
    ExampleBoth();
    ExampleTokens();
    assert IsSpace("");
  }

  lemma ExampleUnfolds()
    ensures PrintMembers(BothMembers()) ==
            "" + (Quoted("a") + ("" + (":" + (" " + (Print(Str("\\n")) +
            ("" + ("," + PrintMembers(SecondMember()))))))))
  {
    hide Print, Quoted;
  }

  lemma ExampleConcatenates()
    ensures "" + ("\"a\"" + ("" + (":" + (" " + ("\"\\n\"" + ("" + ("," + " \"b\":[1, true]"))))))) ==
            "\"a\": \"\\n\", \"b\":[1, true]"
  {
  }

  lemma ExampleBoth()
    ensures PrintMembers(BothMembers()) == "\"a\": \"\\n\", \"b\":[1, true]" && LegalMembers(BothMembers())
    ensures MemberCount(BothMembers()) == 2
  {
    ExampleLegal();
    hide PrintMembers, PreorderMembers, Print, Preorder, Legal, LegalMembers, MemberCount, IsBody, IsSpace;
    ExampleUnfolds();
    ExampleMember();
    ExampleFirst();
    ExampleConcatenates();
    assert Quoted("a") == "\"a\"";
  }

  lemma ExampleLegal()
    ensures LegalMembers(BothMembers()) && MemberCount(BothMembers()) == 2
  {
    hide PreorderMembers, PrintMembers, Print, Legal, IsBody, IsSpace;
    ExampleMember();
    ExampleFirst();
    assert MemberCount(NoMembers) == 0 && MemberCount(SecondMember()) == 1;
  }

  lemma ExampleTokens()
    ensures PreorderMembers(BothMembers(), 1) ==
            [Token(String, 2, 3, 1), Token(String, 7, 9, 0), Token(String, 13, 14, 1),
             Token(Array, 16, 25, 2), Token(Primitive, 17, 18, 0), Token(Primitive, 20, 24, 0)]
  {
    hide PrintMembers, Print, Preorder, LegalMembers, Legal, IsBody, IsSpace;
    ExampleMember();
    ExampleFirst();
  }

  lemma ExampleFirst()
    ensures IsBody("a") && IsBody("\\n") && IsSpace("") && IsSpace(" ") && Legal(Str("\\n"))
    ensures Print(Str("\\n")) == "\"\\n\"" && Preorder(Str("\\n"), 6) == [Token(String, 7, 9, 0)]
  {
    assert "a"[1..] == "" && "\\n"[2..] == "" && IsBody("");
  }
}
