/**
 json_parse, json_get and json_gets of gateways/c/fjage.c: finding the value of a top-level
 key in the flat token array, using nothing but the child counts to skip over values, while
 writing terminating NULs into the text that is being searched.
 */
module JsonGet {
  import opened JsonGrammar
  import opened JsmnScan
  import opened JsmnParser
  import opened JsonText
  import opened JsmnTheorems

  // ---------------------------------------------------------------------------
  // Skipping a subtree by its counts
  // ---------------------------------------------------------------------------

  /** Index just past n sibling subtrees that start at index i, found from the sizes alone;
      -1 when the array ends first. */
  function Span(toks: seq<Token>, i: nat, n: int): int
    decreases |toks| - i
  {
    if n <= 0 then i
    else if i >= |toks| then -1
    else Span(toks, i + 1, n - 1 + toks[i].size)
  }

  ghost predicate Slice(toks: seq<Token>, i: nat, part: seq<Token>) {
    i + |part| <= |toks| && forall k :: 0 <= k < |part| ==> toks[i + k] == part[k]
  }

  lemma SliceSplit(toks: seq<Token>, i: nat, a: seq<Token>, b: seq<Token>)
    requires Slice(toks, i, a + b)
    ensures Slice(toks, i, a) && Slice(toks, i + |a|, b)
  {
    forall k | 0 <= k < |a| ensures toks[i + k] == a[k] { assert (a + b)[k] == a[k]; }
    forall k | 0 <= k < |b| ensures toks[i + |a| + k] == b[k] { assert (a + b)[|a| + k] == b[k]; }
  }

  /** The counts of a preorder array lead exactly one past the subtree of any value in it. */
  lemma {:induction false} SkipValue(toks: seq<Token>, i: nat, v: Json, at: nat, n: nat)
    requires Slice(toks, i, Preorder(v, at))
    ensures Span(toks, i, n + 1) == Span(toks, i + |Preorder(v, at)|, n)
    decreases v
  {
    hide PreorderItems, PreorderMembers, ItemCount, MemberCount, Print;
    assert toks[i + 0] == Preorder(v, at)[0];
    match v
    case Arr(pad, items) =>
      SliceSplit(toks, i, [Preorder(v, at)[0]], PreorderItems(items, at + 1 + |pad|));
      SkipItems(toks, i + 1, items, at + 1 + |pad|, n);
    case Obj(pad, members) =>
      SliceSplit(toks, i, [Preorder(v, at)[0]], PreorderMembers(members, at + 1 + |pad|));
      SkipMembers(toks, i + 1, members, at + 1 + |pad|, n);
    case _ =>
  }

  lemma {:induction false} SkipItems(toks: seq<Token>, i: nat, items: Items, at: nat, n: nat)
    requires Slice(toks, i, PreorderItems(items, at))
    ensures Span(toks, i, n + ItemCount(items)) == Span(toks, i + |PreorderItems(items, at)|, n)
    decreases items
  {
    if items.Item? {
      var v := at + |items.pre|;
      var next := v + |Print(items.value)| + |items.post| + 1;
      SliceSplit(toks, i, Preorder(items.value, v), PreorderItems(items.rest, next));
      SkipValue(toks, i, items.value, v, n + ItemCount(items.rest));
      SkipItems(toks, i + |Preorder(items.value, v)|, items.rest, next, n);
    }
  }

  lemma {:induction false} SkipMembers(toks: seq<Token>, i: nat, members: Members, at: nat, n: nat)
    requires Slice(toks, i, PreorderMembers(members, at))
    ensures Span(toks, i, n + MemberCount(members)) == Span(toks, i + |PreorderMembers(members, at)|, n)
    decreases members
  {
    if members.Member? {
      var next := ValueAt(members, at) + |Print(members.value)| + |members.post| + 1;
      PreorderFirst(members, at);
      SliceSplit(toks, i, MemberTokens(members, at), PreorderMembers(members.rest, next));
      SkipMember(toks, i, members, at, n + MemberCount(members.rest));
      SkipMembers(toks, i + |MemberTokens(members, at)|, members.rest, next, n);
    }
  }

  lemma {:induction false} SkipMember(toks: seq<Token>, i: nat, members: Members, at: nat, n: nat)
    requires members.Member? && Slice(toks, i, MemberTokens(members, at))
    ensures toks[i].size == 1
    ensures Span(toks, i + 1, n + 1) == Span(toks, i + |MemberTokens(members, at)|, n)
    ensures Span(toks, i, n + 1) == Span(toks, i + 1, n + 1)
    decreases members, 0
  {
    var value := Preorder(members.value, ValueAt(members, at));
    assert toks[i + 0] == MemberTokens(members, at)[0];
    SliceSplit(toks, i, [MemberTokens(members, at)[0]], value);
    SkipValue(toks, i + 1, members.value, ValueAt(members, at), n);
  }

  // ---------------------------------------------------------------------------
  // The text, and the NULs written into it
  // ---------------------------------------------------------------------------

  /** The C string at position p of a buffer. */
  function CString(text: seq<char>, p: nat): string
    decreases |text| - p
  {
    if p >= |text| || text[p] == '\0' then "" else [text[p]] + CString(text, p + 1)
  }

  lemma {:induction false} CStringIs(text: seq<char>, p: nat, e: nat)
    requires p <= e < |text| && text[e] == '\0' && forall k :: p <= k < e ==> text[k] != '\0'
    ensures CString(text, p) == text[p..e]
    decreases e - p
  {
    if p < e {
      CStringIs(text, p + 1, e);
      assert text[p..e] == [text[p]] + text[p + 1..e];
    }
  }

  lemma {:induction false} BodyHasNoNul(raw: string)
    requires IsBody(raw)
    ensures '\0' !in raw
    decreases |raw|
  {
    if raw != "" {
      if raw[0] == '\\' {
        if raw[1] == 'u' {
          assert raw == raw[..6] + raw[6..];
          BodyHasNoNul(raw[6..]);
        } else {
          assert raw == raw[..2] + raw[2..];
          BodyHasNoNul(raw[2..]);
        }
      } else {
        assert raw == [raw[0]] + raw[1..];
        BodyHasNoNul(raw[1..]);
      }
    }
  }

  /** A buffer that still spells every leaf of the token array as the text did when parsed
      (the characters between the leaves may have been overwritten with NULs). */
  ghost predicate Spells(text: seq<char>, js: string, toks: seq<Token>) {
    |text| == |js| + 1 &&
    forall i, k :: 0 <= i < |toks| && !IsContainer(toks[i].kind) && toks[i].start <= k < toks[i].end ==>
      0 <= k < |js| && text[k] == js[k]
  }

  /** Writing at the end of a token never spoils the spelling of a leaf, as long as nothing
      starts right at that end. */
  lemma EndIsOutside(text: seq<char>, js: string, toks: seq<Token>, i: nat)
    requires Spells(text, js, toks) && i < |toks| && 0 <= toks[i].end <= |js|
    requires forall a, b :: 0 <= a < b < |toks| ==> Nested(toks[a], toks[b])
    requires forall a :: 0 <= a < |toks| ==> Delimited(js, |js|, toks[a])
    requires forall b :: i < b < |toks| ==> toks[b].start != toks[i].end
    ensures Spells(text[toks[i].end := '\0'], js, toks)
  {
    var e := toks[i].end;
    forall j, k | 0 <= j < |toks| && !IsContainer(toks[j].kind) && toks[j].start <= k < toks[j].end
      ensures text[e := '\0'][k] == text[k]
    {
      if j < i { assert Nested(toks[j], toks[i]); }
      if i < j { assert Nested(toks[i], toks[j]); }
    }
  }

  // ---------------------------------------------------------------------------
  // json_get
  // ---------------------------------------------------------------------------

  /** Index of the value of the first member named key, when the members' tokens start at i. */
  function Lookup(members: Members, key: string, i: nat): int {
    if members.NoMembers? then -1
    else if members.key == key then i + 1
    else Lookup(members.rest, key, i + |MemberTokens(members, 0)|)
  }

  datatype Located = Nowhere | Located(value: Json, at: nat)

  /** The first member named key in a printed object, and where in the text its value is. */
  function Locate(members: Members, key: string, p: nat): Located {
    if members.NoMembers? then Nowhere
    else if members.key == key then Located(members.value, ValueAt(members, p))
    else Locate(members.rest, key, ValueAt(members, p) + |Print(members.value)| + |members.post| + 1)
  }

  /** The keys of an object and its values, in order. */
  function Keys(members: Members): seq<string> {
    if members.NoMembers? then [] else [members.key] + Keys(members.rest)
  }

  function Values(members: Members): (r: seq<Json>)
    ensures |r| == |Keys(members)|
  {
    if members.NoMembers? then [] else [members.value] + Values(members.rest)
  }

  /** What is located is the value of the first member with that key, and nothing only if no member has it. */
  lemma {:induction false} LocatesFirstKey(members: Members, key: string, p: nat)
    ensures var found := Locate(members, key, p);
            if found.Nowhere? then key !in Keys(members)
            else exists i :: 0 <= i < |Keys(members)| && Keys(members)[i] == key && key !in Keys(members)[..i] &&
                             Values(members)[i] == found.value
    decreases members
  {
    if members.Member? {
      var keys, rest := Keys(members), Keys(members.rest);
      if members.key == key {
        assert keys[0] == key && keys[..0] == [] && Values(members)[0] == members.value;
      } else {
        var next := ValueAt(members, p) + |Print(members.value)| + |members.post| + 1;
        LocatesFirstKey(members.rest, key, next);
        var found := Locate(members.rest, key, next);
        if found.Located? {
          var i :| 0 <= i < |rest| && rest[i] == key && key !in rest[..i] && Values(members.rest)[i] == found.value;
          assert keys[i + 1] == key && keys[..i + 1] == [members.key] + rest[..i];
          assert Values(members)[i + 1] == found.value;
        }
      }
    }
  }

  predicate HasKey(members: Members, key: string) {
    members.Member? && (members.key == key || HasKey(members.rest, key))
  }

  /** The number of tokens of a value does not depend on where its text starts. */
  lemma {:induction false} PreorderShift(v: Json, a: nat, b: nat)
    ensures |Preorder(v, a)| == |Preorder(v, b)|
    decreases v
  {
    match v
    case Arr(pad, items) => ItemsShift(items, a + 1 + |pad|, b + 1 + |pad|);
    case Obj(pad, members) => MembersShift(members, a + 1 + |pad|, b + 1 + |pad|);
    case _ =>
  }

  lemma {:induction false} ItemsShift(items: Items, a: nat, b: nat)
    ensures |PreorderItems(items, a)| == |PreorderItems(items, b)|
    decreases items
  {
    if items.Item? {
      var d := |Print(items.value)| + |items.post| + 1;
      PreorderShift(items.value, a + |items.pre|, b + |items.pre|);
      ItemsShift(items.rest, a + |items.pre| + d, b + |items.pre| + d);
    }
  }

  lemma {:induction false} MembersShift(members: Members, a: nat, b: nat)
    ensures |PreorderMembers(members, a)| == |PreorderMembers(members, b)|
    decreases members
  {
    if members.Member? {
      var d := |Print(members.value)| + |members.post| + 1;
      PreorderFirst(members, a);
      PreorderFirst(members, b);
      PreorderShift(members.value, ValueAt(members, a), ValueAt(members, b));
      MembersShift(members.rest, ValueAt(members, a) + d, ValueAt(members, b) + d);
    }
  }

  /** The index found belongs to the first member with that key: the tokens from there on are
      that member's value, nothing nested is ever taken for a top-level key, and the answer is
      -1 exactly when no top-level member has the key. */
  lemma {:induction false} LookupIsFirst(toks: seq<Token>, members: Members, key: string, i: nat, p: nat)
    requires Slice(toks, i, PreorderMembers(members, p))
    ensures var r := Lookup(members, key, i);
            match Locate(members, key, p)
            case Nowhere => r == -1 && !HasKey(members, key)
            case Located(value, at) => HasKey(members, key) && i < r < |toks| && Slice(toks, r, Preorder(value, at))
    decreases members
  {
    if members.Member? {
      var next := ValueAt(members, p) + |Print(members.value)| + |members.post| + 1;
      PreorderFirst(members, p);
      PreorderShift(members.value, 0, ValueAt(members, p));
      PreorderShift(members.value, 0, ValueAt(members, 0));
      SliceSplit(toks, i, MemberTokens(members, p), PreorderMembers(members.rest, next));
      SliceSplit(toks, i, [MemberTokens(members, p)[0]], Preorder(members.value, ValueAt(members, p)));
      LookupIsFirst(toks, members.rest, key, i + |MemberTokens(members, p)|, next);
    }
  }

  /** What json_get may rely on: the tokens of a parsed object text, and a buffer that still
      spells its leaves. */
  ghost predicate Parsed(lead: string, pad: string, members: Members, trail: string, toks: seq<Token>) {
    IsSpace(lead) && IsSpace(trail) && Legal(Obj(pad, members)) && toks == Preorder(Obj(pad, members), |lead|)
  }

  lemma ParsedIsNested(lead: string, pad: string, members: Members, trail: string, toks: seq<Token>)
    requires Parsed(lead, pad, members, trail, toks)
    ensures var js := Document(lead, Obj(pad, members), trail);
            (forall a, b :: 0 <= a < b < |toks| ==> Nested(toks[a], toks[b])) &&
            (forall a :: 0 <= a < |toks| ==> Delimited(js, |js|, toks[a]) && !IsOpen(toks[a]))
  {
    hide Preorder, Print, Delimited;
    RoundTrip(lead, Obj(pad, members), trail, |toks|);
    TokensAreNested(Document(lead, Obj(pad, members), trail), |toks|);
  }

  /** The loop state of json_get: `rest` are the members not looked at yet, printed at p. */
  ghost predicate Remaining(js: string, toks: seq<Token>, rest: Members, i: nat, p: nat) {
    LegalMembers(rest) && At(js, p, PrintMembers(rest)) && At(js, p + |PrintMembers(rest)|, "}") &&
    Slice(toks, i, PreorderMembers(rest, p)) && i + |PreorderMembers(rest, p)| == |toks|
  }

  lemma AllRemaining(lead: string, pad: string, members: Members, trail: string, toks: seq<Token>)
    requires Parsed(lead, pad, members, trail, toks)
    ensures Remaining(Document(lead, Obj(pad, members), trail), toks, members, 1, |lead| + 1 + |pad|)
    ensures |toks| > 0 && toks[0].size == MemberCount(members)
  {
    hide At, Print, PrintMembers, PreorderMembers, LegalMembers, Document;
    var v := Obj(pad, members);
    var js := Document(lead, v, trail);
    DocumentAt(lead, v, trail);
    ObjectParts(js, |lead|, pad, members);
  }

  /** What is left after the first member has been skipped. */
  lemma RemainingTail(js: string, toks: seq<Token>, rest: Members, i: nat, p: nat)
    requires rest.Member? && Remaining(js, toks, rest, i, p)
    ensures var next := ValueAt(rest, p) + |Print(rest.value)| + |rest.post| + 1;
            var i' := i + |MemberTokens(rest, p)|;
            |MemberTokens(rest, 0)| == |MemberTokens(rest, p)| &&
            i + 1 < i' <= |toks| && Slice(toks, i, MemberTokens(rest, p)) &&
            Slice(toks, i + 1, Preorder(rest.value, ValueAt(rest, p))) &&
            (rest.rest.Member? ==> Remaining(js, toks, rest.rest, i', next)) &&
            (rest.rest.NoMembers? ==> i' == |toks|)
  {
    hide At;
    var next := ValueAt(rest, p) + |Print(rest.value)| + |rest.post| + 1;
    PreorderFirst(rest, p);
    SplitMember(js, p, rest);
    SliceSplit(toks, i, MemberTokens(rest, p), PreorderMembers(rest.rest, next));
    SliceSplit(toks, i, [MemberTokens(rest, p)[0]], Preorder(rest.value, ValueAt(rest, p)));
    PreorderShift(rest.value, ValueAt(rest, 0), ValueAt(rest, p));
  }

  /** With a NUL at its end, the token of a leaf reads as the leaf. */
  lemma TokenReadsBack(js: string, toks: seq<Token>, text: seq<char>, i: nat, leaf: string)
    requires Spells(text, js, toks) && i < |toks| && !IsContainer(toks[i].kind)
    requires 0 <= toks[i].start && toks[i].end == toks[i].start + |leaf| && At(js, toks[i].start, leaf)
    requires '\0' !in leaf && text[toks[i].end] == '\0'
    ensures CString(text, toks[i].start) == leaf
  {
    var s, e := toks[i].start, toks[i].end;
    forall j | 0 <= j < |leaf| ensures text[s + j] == leaf[j] && text[s + j] != '\0' {
      assert text[s + j] == js[s + j];
      assert leaf[j] in leaf;
    }
    assert text[s..e] == leaf;
    forall j | s <= j < e ensures text[j] != '\0' { assert text[s + (j - s)] != '\0'; }
    CStringIs(text, s, e);
  }

  lemma InQuotes(js: string, at: nat, raw: string)
    requires At(js, at, Quoted(raw))
    ensures At(js, at + 1, raw) && at + 1 + |raw| < |js|
  {
    forall k | 0 <= k < |raw| ensures js[at + 1 + k] == raw[k] { assert js[at + (k + 1)] == Quoted(raw)[k + 1]; }
  }

  lemma KeyReadsBack(js: string, toks: seq<Token>, rest: Members, i: nat, p: nat, text: seq<char>)
    requires rest.Member? && Remaining(js, toks, rest, i, p) && Spells(text, js, toks)
    ensures i < |toks| && 0 <= toks[i].start <= toks[i].end < |text| && toks[i].kind == String
    ensures text[toks[i].end] == '\0' ==> CString(text, toks[i].start) == rest.key
  {
    hide Spells, At, Preorder, PreorderMembers, Print, PrintMembers, CString, Legal;
    RemainingTail(js, toks, rest, i, p);
    SplitMember(js, p, rest);
    InQuotes(js, p + |rest.pre|, rest.key);
    SpellsLength(text, js, toks);
    assert toks[i + 0] == MemberTokens(rest, p)[0];
    if text[toks[i].end] == '\0' {
      BodyHasNoNul(rest.key);
      TokenReadsBack(js, toks, text, i, rest.key);
    }
  }

  /** The end of a value's token: a string's is its closing quote. */
  function ValueEnd(v: Json, at: nat): nat { if v.Str? then at + 1 + |v.raw| else at + |Print(v)| }

  /** Where json_get and json_gets write: at the ends of the keys and values of the object itself. */
  function Marks(members: Members, p: nat): set<nat> {
    if members.NoMembers? then {}
    else {p + |members.pre| + 1 + |members.key|, ValueEnd(members.value, ValueAt(members, p))} +
         Marks(members.rest, ValueAt(members, p) + |Print(members.value)| + |members.post| + 1)
  }

  /** A buffer that differs from the text parsed only by NULs in such places, and ends with one. */
  ghost predicate Marked(text: seq<char>, js: string, marks: set<nat>) {
    |text| == |js| + 1 && text[|js|] == '\0' &&
    forall k :: 0 <= k < |js| ==> text[k] == js[k] || (text[k] == '\0' && k in marks)
  }

  lemma MarkedMore(text: seq<char>, js: string, marks: set<nat>, e: nat)
    requires e in marks && e < |text|
    ensures Marked(text, js, marks) ==> Marked(text[e := '\0'], js, marks)
  {
  }

  lemma {:induction false} LocatedMark(members: Members, key: string, p: nat)
    ensures var found := Locate(members, key, p);
            found.Located? ==> ValueEnd(found.value, found.at) in Marks(members, p)
    decreases members
  {
    if members.Member? && members.key != key {
      LocatedMark(members.rest, key, ValueAt(members, p) + |Print(members.value)| + |members.post| + 1);
    }
  }

  lemma FirstTokenEnd(v: Json, at: nat)
    ensures Preorder(v, at)[0].end == ValueEnd(v, at)
  {
    hide PreorderItems, PreorderMembers, PrintItems, PrintMembers;
  }

  /** Nothing but NULs has been written to a text. */
  predicate Nulled(before: seq<char>, after: seq<char>) {
    |before| == |after| && forall k :: 0 <= k < |after| ==> after[k] == before[k] || after[k] == '\0'
  }

  /**
   json_get.  On the tokens of any parsed object text, whatever NULs earlier calls have left
   between the leaves, it returns the index of the value of the first top-level member with
   that key, or -1; it stays in range, and leaves every leaf as spelt.
   */
  method Find(json: array<char>, tokens: array?<Token>, key: string,
              ghost lead: string, ghost pad: string, ghost members: Members, ghost trail: string)
    returns (r: int)
    requires '\0' !in key
    requires tokens != null ==> Parsed(lead, pad, members, trail, tokens[..]) &&
                                Spells(json[..], Document(lead, Obj(pad, members), trail), tokens[..])
    modifies json
    ensures tokens == null ==> r == -1 && json[..] == old(json[..])
    ensures tokens != null ==>
              r == Lookup(members, key, 1) && tokens[..] == old(tokens[..]) &&
              Spells(json[..], Document(lead, Obj(pad, members), trail), tokens[..])
    ensures Nulled(old(json[..]), json[..])
    ensures var js, marks := Document(lead, Obj(pad, members), trail), Marks(members, |lead| + 1 + |pad|);
            Marked(old(json[..]), js, marks) ==> Marked(json[..], js, marks)
  {
    hide At, Preorder, Print, PrintMembers, PreorderMembers, Parsed, Delimited, Spells, Remaining, LegalMembers, Nested;
    hide Lookup, Document, MemberTokens, Slice, Marked;
    if tokens == null { return -1; }
    ghost var js := Document(lead, Obj(pad, members), trail);
    ghost var toks := tokens[..];
    ghost var marks := Marks(members, |lead| + 1 + |pad|);
    ghost var rest: Members, p: nat := members, |lead| + 1 + |pad|;
    AllRemaining(lead, pad, members, trail, toks);
    ParsedIsNested(lead, pad, members, trail, toks);
    var n := tokens[0].size;
    var i: nat := 1;
    while n > 0
      invariant n == MemberCount(rest) && tokens[..] == toks
      invariant rest.Member? ==> Remaining(js, toks, rest, i, p)
      invariant Lookup(rest, key, i) == Lookup(members, key, 1)
      invariant Spells(json[..], js, toks) && Nulled(old(json[..]), json[..])
      invariant Marks(rest, p) <= marks && (Marked(old(json[..]), js, marks) ==> Marked(json[..], js, marks))
    {
      ghost var text := json[..];
      RemainingTail(js, toks, rest, i, p);
      LookupStep(rest, key, i);
      var found := IsKey(json, tokens, i, key, js, rest, p);
      MarkedMore(text, js, marks, p + |rest.pre| + 1 + |rest.key|);
      if found { return i + 1; }
      i := SkipOne(tokens, i, rest, p);
      n := n - 1;
      rest, p := rest.rest, ValueAt(rest, p) + |Print(rest.value)| + |rest.post| + 1;
    }
    LookupNone(rest, key, i);
    return -1;
  }

  lemma LookupStep(members: Members, key: string, i: nat)
    requires members.Member?
    ensures Lookup(members, key, i) ==
            if members.key == key then i + 1 else Lookup(members.rest, key, i + |MemberTokens(members, 0)|)
  {
  }

  lemma LookupNone(members: Members, key: string, i: nat)
    requires MemberCount(members) == 0
    ensures Lookup(members, key, i) == -1
  {
  }

  /** Terminate the text of token i and compare it with the key. */
  method IsKey(json: array<char>, tokens: array<Token>, i: nat, key: string,
               ghost js: string, ghost rest: Members, ghost p: nat)
    returns (found: bool)
    requires rest.Member? && Remaining(js, tokens[..], rest, i, p) && Spells(json[..], js, tokens[..])
    requires forall a, b :: 0 <= a < b < tokens.Length ==> Nested(tokens[..][a], tokens[..][b])
    requires forall a :: 0 <= a < tokens.Length ==> Delimited(js, |js|, tokens[..][a])
    modifies json
    ensures tokens[..] == old(tokens[..]) && Spells(json[..], js, tokens[..]) && Nulled(old(json[..]), json[..])
    ensures var e := p + |rest.pre| + 1 + |rest.key|; e < json.Length && json[..] == old(json[..])[e := '\0']
    ensures found == (rest.key == key)
  {
    hide At, Preorder, Print, PrintMembers, PreorderMembers, Delimited, Spells, Remaining, LegalMembers, Nested;
    KeyReadsBack(js, tokens[..], rest, i, p, json[..]);
    KeyEnds(js, tokens[..], rest, i, p);
    WriteAtLeafEnd(js, tokens[..], i, json[..]);
    ghost var text := json[..];
    json[tokens[i].end] := '\0';
    assert json[..] == text[tokens[i].end := '\0'];
    KeyReadsBack(js, tokens[..], rest, i, p, json[..]);
    return CString(json[..], tokens[i].start) == key;
  }

  lemma KeyEnds(js: string, toks: seq<Token>, rest: Members, i: nat, p: nat)
    requires rest.Member? && Remaining(js, toks, rest, i, p) && i < |toks|
    ensures toks[i].end == p + |rest.pre| + 1 + |rest.key|
  {
    hide At, Preorder, Print, PrintMembers, PreorderMembers, LegalMembers;
    RemainingTail(js, toks, rest, i, p);
    assert toks[i + 0] == MemberTokens(rest, p)[0];
  }

  lemma WriteAtLeafEnd(js: string, toks: seq<Token>, i: nat, text: seq<char>)
    requires Spells(text, js, toks) && i < |toks| && 0 <= toks[i].end < |text| && !IsContainer(toks[i].kind)
    requires forall a, b :: 0 <= a < b < |toks| ==> Nested(toks[a], toks[b])
    requires forall a :: 0 <= a < |toks| ==> Delimited(js, |js|, toks[a])
    ensures Spells(text[toks[i].end := '\0'], js, toks)
  {
    assert forall b :: i < b < |toks| ==> Nested(toks[i], toks[b]);
    EndIsOutside(text, js, toks, i);
  }

  /** The inner loop of json_get: from a key to the token after its value. */
  method SkipOne(tokens: array<Token>, key: nat, ghost rest: Members, ghost p: nat) returns (i: nat)
    requires rest.Member? && Slice(tokens[..], key, MemberTokens(rest, p))
    ensures i == key + |MemberTokens(rest, p)|
  {
    i := key;
    SkipMember(tokens[..], key, rest, p, 0);
    var skip := tokens[i].size;
    while skip > 0
      invariant key <= i < tokens.Length
      invariant Span(tokens[..], i + 1, skip) == key + |MemberTokens(rest, p)|
      decreases tokens.Length - i
    {
      i := i + 1;
      skip := skip + tokens[i].size - 1;
    }
    i := i + 1;
  }

  // ---------------------------------------------------------------------------
  // json_gets
  // ---------------------------------------------------------------------------

  /** No token starts where a delimiter stands, unless that is right after an opening quote. */
  lemma NothingStartsAt(js: string, e: nat, t: Token)
    requires Delimited(js, |js|, t) && 0 < e < |js| && IsStop(js[e]) && js[e - 1] != '"'
    ensures t.start != e
  {
    if t.kind == Primitive { assert js[t.start..t.end][0] == js[t.start]; }
  }

  /** The value found for a key is followed by a character at which no token starts. */
  lemma {:induction false} ValueEndIsFree(js: string, toks: seq<Token>, rest: Members, key: string, i: nat, p: nat)
    requires rest.Member? ==> Remaining(js, toks, rest, i, p)
    requires forall a, b :: 0 <= a < b < |toks| ==> Nested(toks[a], toks[b])
    requires forall a :: 0 <= a < |toks| ==> Delimited(js, |js|, toks[a]) && !IsOpen(toks[a])
    ensures var r := Lookup(rest, key, i);
            r != -1 ==> 0 <= r < |toks| && 0 <= toks[r].start <= toks[r].end <= |js| &&
                        forall b :: r < b < |toks| ==> toks[b].start != toks[r].end
    decreases rest
  {
    hide At, Delimited, Preorder, Remaining, PrintMembers, PreorderMembers, Nested;
    if rest.Member? {
      RemainingTail(js, toks, rest, i, p);
      if rest.key == key {
        FirstValueEnd(js, toks, rest, i, p);
      } else {
        ValueEndIsFree(js, toks, rest.rest, key, i + |MemberTokens(rest, p)|,
                       ValueAt(rest, p) + |Print(rest.value)| + |rest.post| + 1);
      }
    }
  }

  lemma FirstValueEnd(js: string, toks: seq<Token>, rest: Members, i: nat, p: nat)
    requires rest.Member? && Remaining(js, toks, rest, i, p) && i + 1 < |toks|
    requires Slice(toks, i + 1, Preorder(rest.value, ValueAt(rest, p)))
    requires forall a, b :: 0 <= a < b < |toks| ==> Nested(toks[a], toks[b])
    requires forall a :: 0 <= a < |toks| ==> Delimited(js, |js|, toks[a]) && !IsOpen(toks[a])
    ensures var t := toks[i + 1];
            0 <= t.start <= t.end <= |js| && forall b :: i + 1 < b < |toks| ==> toks[b].start != t.end
  {
    hide At, PrintMembers, PreorderMembers;
    var v := ValueAt(rest, p);
    var e := v + |Print(rest.value)|;
    SplitMember(js, p, rest);
    SpaceFollows(js, e, rest.post, if rest.rest.NoMembers? then '}' else ',', rest.value);
    var t := toks[i + 1];
    assert t == toks[i + 1 + 0] == Preorder(rest.value, v)[0];
    forall b | i + 1 < b < |toks| ensures toks[b].start != t.end {
      assert Nested(t, toks[b]);
      if IsContainer(t.kind) { NothingStartsAt(js, e, toks[b]); }
    }
  }

  /**
   json_gets.  Position in the buffer of the value's text, as a C string, or -1.  When the
   value is a string or a primitive, what is read there is exactly its text.
   */
  method FindText(json: array<char>, tokens: array?<Token>, key: string,
                  ghost lead: string, ghost pad: string, ghost members: Members, ghost trail: string)
    returns (at: int)
    requires '\0' !in key
    requires tokens != null ==> Parsed(lead, pad, members, trail, tokens[..]) &&
                                Spells(json[..], Document(lead, Obj(pad, members), trail), tokens[..])
    modifies json
    ensures tokens == null ==> at == -1
    ensures tokens != null ==>
              tokens[..] == old(tokens[..]) &&
              Spells(json[..], Document(lead, Obj(pad, members), trail), tokens[..]) &&
              match Locate(members, key, |lead| + 1 + |pad|)
              case Nowhere => at == -1
              case Located(value, start) =>
                at == start + (if value.Str? then 1 else 0) &&
                (value.Str? ==> CString(json[..], at) == value.raw) &&
                (value.Prim? ==> CString(json[..], at) == value.text) &&
                ValueEnd(value, start) < json.Length && json[ValueEnd(value, start)] == '\0'
    ensures Nulled(old(json[..]), json[..])
    ensures var js, marks := Document(lead, Obj(pad, members), trail), Marks(members, |lead| + 1 + |pad|);
            Marked(old(json[..]), js, marks) ==> Marked(json[..], js, marks)
  {
    hide Delimited, Print, PrintMembers, PreorderMembers, Parsed, Spells, Lookup, Locate, CString, Marked, Marks;
    hide Document;
    var i := Find(json, tokens, key, lead, pad, members, trail);
    if tokens == null { return -1; }
    LocatedMark(members, key, |lead| + 1 + |pad|);
    ValueReadsBack(lead, pad, members, trail, tokens[..], json[..], key);
    if i < 0 { return -1; }
    ghost var text := json[..];
    json[tokens[i].end] := '\0';
    assert json[..] == text[tokens[i].end := '\0'];
    MarkedMore(text, Document(lead, Obj(pad, members), trail), Marks(members, |lead| + 1 + |pad|), tokens[i].end);
    return tokens[i].start;
  }

  /** What writing a NUL after the value found, and reading it as a C string, amounts to. */
  lemma ValueReadsBack(lead: string, pad: string, members: Members, trail: string,
                       toks: seq<Token>, text: seq<char>, key: string)
    requires Parsed(lead, pad, members, trail, toks)
    requires Spells(text, Document(lead, Obj(pad, members), trail), toks)
    ensures var r := Lookup(members, key, 1);
            match Locate(members, key, |lead| + 1 + |pad|)
            case Nowhere => r == -1
            case Located(value, start) =>
              0 < r < |toks| && 0 <= toks[r].end < |text| &&
              toks[r].start == start + (if value.Str? then 1 else 0) && toks[r].end == ValueEnd(value, start) &&
              var text' := text[toks[r].end := '\0'];
              Spells(text', Document(lead, Obj(pad, members), trail), toks) &&
              (value.Str? ==> CString(text', toks[r].start) == value.raw) &&
              (value.Prim? ==> CString(text', toks[r].start) == value.text)
  {
    hide At, Delimited, Print, PrintMembers, PreorderMembers, Parsed, Nested, Remaining, LegalMembers, Spells;
    hide Slice, Lookup, Locate, CString, Legal, Preorder, Document, HasKey, IsOpen;
    var js := Document(lead, Obj(pad, members), trail);
    var p := |lead| + 1 + |pad|;
    AllRemaining(lead, pad, members, trail, toks);
    RemainingSlice(js, toks, members, 1, p);
    LegalLocated(js, members, key, p);
    LookupIsFirst(toks, members, key, 1, p);
    var found := Locate(members, key, p);
    if found.Located? { LocatedReadsBack(lead, pad, members, trail, toks, text, key, found); }
  }

  lemma LocatedReadsBack(lead: string, pad: string, members: Members, trail: string,
                         toks: seq<Token>, text: seq<char>, key: string, found: Located)
    requires Parsed(lead, pad, members, trail, toks)
    requires Spells(text, Document(lead, Obj(pad, members), trail), toks)
    requires found.Located? && found == Locate(members, key, |lead| + 1 + |pad|) && HasKey(members, key)
    requires Remaining(Document(lead, Obj(pad, members), trail), toks, members, 1, |lead| + 1 + |pad|)
    requires Legal(found.value) && At(Document(lead, Obj(pad, members), trail), found.at, Print(found.value))
    requires var r := Lookup(members, key, 1);
             1 < r < |toks| && Slice(toks, r, Preorder(found.value, found.at))
    ensures var r := Lookup(members, key, 1);
            0 <= toks[r].end < |text| && toks[r].start == found.at + (if found.value.Str? then 1 else 0) &&
            toks[r].end == ValueEnd(found.value, found.at) &&
            var text' := text[toks[r].end := '\0'];
            Spells(text', Document(lead, Obj(pad, members), trail), toks) &&
            (found.value.Str? ==> CString(text', toks[r].start) == found.value.raw) &&
            (found.value.Prim? ==> CString(text', toks[r].start) == found.value.text)
  {
    hide At, Delimited, Print, PrintMembers, PreorderMembers, Parsed, Nested, Remaining, LegalMembers, Spells;
    hide Slice, Lookup, Locate, CString, Legal, Preorder, Document, HasKey, IsOpen;
    var js := Document(lead, Obj(pad, members), trail);
    var r := Lookup(members, key, 1);
    ParsedIsNested(lead, pad, members, trail, toks);
    ValueEndIsFree(js, toks, members, key, 1, |lead| + 1 + |pad|);
    SpellsLength(text, js, toks);
    EndIsOutside(text, js, toks, r);
    LeafReadsBack(js, toks, r, text[toks[r].end := '\0'], found.value, found.at);
  }

  lemma RemainingSlice(js: string, toks: seq<Token>, rest: Members, i: nat, p: nat)
    requires Remaining(js, toks, rest, i, p)
    ensures LegalMembers(rest) && At(js, p, PrintMembers(rest)) && At(js, p + |PrintMembers(rest)|, "}")
    ensures Slice(toks, i, PreorderMembers(rest, p))
  {
  }

  lemma SpellsLength(text: seq<char>, js: string, toks: seq<Token>)
    requires Spells(text, js, toks)
    ensures |text| == |js| + 1
  {
  }

  /** A located value is legal, and its text is where it is said to be. */
  lemma {:induction false} LegalLocated(js: string, members: Members, key: string, p: nat)
    requires LegalMembers(members)
    requires At(js, p, PrintMembers(members)) && At(js, p + |PrintMembers(members)|, "}")
    ensures match Locate(members, key, p)
            case Nowhere => true
            case Located(value, at) => Legal(value) && At(js, at, Print(value))
    decreases members
  {
    hide At;
    if members.Member? {
      SplitMember(js, p, members);
      if members.key != key && members.rest.Member? {
        LegalLocated(js, members.rest, key, ValueAt(members, p) + |Print(members.value)| + |members.post| + 1);
      }
    }
  }

  /** The first token of a value starts at the value, after the quote of a string; and with a
      NUL at its end a leaf reads as its own text. */
  lemma LeafReadsBack(js: string, toks: seq<Token>, i: nat, text: seq<char>, v: Json, at: nat)
    requires i < |toks| && Legal(v) && At(js, at, Print(v)) && Slice(toks, i, Preorder(v, at))
    requires Spells(text, js, toks) && 0 <= toks[i].end < |text| && text[toks[i].end] == '\0'
    ensures toks[i].end == ValueEnd(v, at)
    ensures toks[i].start == at + (if v.Str? then 1 else 0)
    ensures v.Str? ==> CString(text, toks[i].start) == v.raw
    ensures v.Prim? ==> CString(text, toks[i].start) == v.text
  {
    hide Spells, At, CString, PreorderMembers, PrintMembers, PreorderItems, PrintItems;
    assert toks[i + 0] == Preorder(v, at)[0];
    FirstTokenEnd(v, at);
    if v.Str? {
      InQuotes(js, at, v.raw);
      BodyHasNoNul(v.raw);
      TokenReadsBack(js, toks, text, i, v.raw);
    } else if v.Prim? {
      BareHasNoNul(v.text);
      TokenReadsBack(js, toks, text, i, v.text);
    }
  }

  lemma BareHasNoNul(text: string)
    requires IsPrimitive(text)
    ensures '\0' !in text
  {
  }

  // ---------------------------------------------------------------------------
  // json_parse
  // ---------------------------------------------------------------------------

  /**
   json_parse.  It counts, makes room for exactly that many tokens, and fills them; it never
   looks at the result of the second pass, so the array is complete only if the brackets match.
   */
  method ParseText(json: string) returns (tokens: array?<Token>)
    ensures var n := CountRun(json, 0, 0);
            if n < 0 then tokens == null
            else tokens != null && fresh(tokens) && tokens.Length == n &&
                 var o := Run(json, 0, START, n);
                 tokens[..|o.st.toks|] == o.st.toks && (BracketsMatch(json) <==> o.code == n)
  {
    var parser := new Parser();
    var n := parser.Parse(json, null, 0);
    if n < 0 { return null; }
    tokens := new Token[n];
    parser := new Parser();
    assert tokens[..0] == [];
    var r := parser.Parse(json, tokens, n);
    PassesAgree(json, n);
  }
}
