/**
 json_process as far as it reads a line: it parses the raw text once and asks for one field after another,
 each request writing NULs into the text, and keeps the pointers it is given.
 */
module JsonFields {
  import opened JsonGrammar
  import opened JsmnScan
  import opened JsmnParser
  import opened JsmnTheorems
  import opened JsonText
  import opened JsonGet

  /** Where json_gets finds a field: -1, or where its text starts. */
  function Position(found: Located): int {
    if found.Nowhere? then -1 else found.at + if found.value.Str? then 1 else 0
  }

  /** What the value of a field reads as: a string without its quotes, anything else as it was printed. */
  function Plain(v: Json): string { if v.Str? then v.raw else Print(v) }

  /** A pointer that json_gets returned for a field, read now. */
  predicate Reads(text: seq<char>, at: int, found: Located) {
    at == Position(found) &&
    (found.Located? ==> 0 <= at < |text| && CString(text, at) == Plain(found.value))
  }

  /** The value of a field has been terminated. */
  predicate Ended(text: seq<char>, found: Located) {
    found.Located? ==>
      ValueEnd(found.value, found.at) < |text| && text[ValueEnd(found.value, found.at)] == '\0'
  }

  // ---------------------------------------------------------------------------
  // No NUL falls inside a value
  // ---------------------------------------------------------------------------

  lemma {:induction false} MarksFollow(members: Members, p: nat)
    ensures forall k :: k in Marks(members, p) ==> p < k
    decreases members
  {
    if members.Member? {
      MarksFollow(members.rest, ValueAt(members, p) + |Print(members.value)| + |members.post| + 1);
    }
  }

  /** The places where NULs are written lie outside the values that are found. */
  lemma {:induction false} MarksOutside(members: Members, key: string, p: nat)
    ensures var found := Locate(members, key, p);
            found.Located? ==>
              p < found.at &&
              forall k :: k in Marks(members, p) ==> k < found.at || ValueEnd(found.value, found.at) <= k
    decreases members
  {
    if members.Member? {
      var next := ValueAt(members, p) + |Print(members.value)| + |members.post| + 1;
      MarksFollow(members.rest, next);
      if members.key != key { MarksOutside(members.rest, key, next); }
    }
  }

  lemma SpaceHasNoNul(w: string)
    requires IsSpace(w)
    ensures '\0' !in w
  {
  }

  lemma {:induction false} PrintHasNoNul(v: Json)
    requires Legal(v)
    ensures '\0' !in Print(v)
    decreases v
  {
    match v
    case Prim(text) => BareHasNoNul(text);
    case Str(raw) => BodyHasNoNul(raw);
    case Arr(pad, items) => SpaceHasNoNul(pad); ItemsHaveNoNul(items);
    case Obj(pad, members) => SpaceHasNoNul(pad); MembersHaveNoNul(members);
  }

  lemma {:induction false} ItemsHaveNoNul(items: Items)
    requires LegalItems(items)
    ensures '\0' !in PrintItems(items)
    decreases items
  {
    if items.Item? {
      SpaceHasNoNul(items.pre);
      PrintHasNoNul(items.value);
      SpaceHasNoNul(items.post);
      ItemsHaveNoNul(items.rest);
    }
  }

  lemma {:induction false} MembersHaveNoNul(members: Members)
    requires LegalMembers(members)
    ensures '\0' !in PrintMembers(members)
    decreases members
  {
    if members.Member? {
      SpaceHasNoNul(members.pre);
      BodyHasNoNul(members.key);
      SpaceHasNoNul(members.mid);
      SpaceHasNoNul(members.gap);
      PrintHasNoNul(members.value);
      SpaceHasNoNul(members.post);
      MembersHaveNoNul(members.rest);
    }
  }

  lemma PlainIsThere(js: string, v: Json, at: nat)
    requires Legal(v) && At(js, at, Print(v))
    ensures var a := if v.Str? then at + 1 else at;
            '\0' !in Plain(v) && ValueEnd(v, at) == a + |Plain(v)| <= |js| && At(js, a, Plain(v))
  {
    hide At;
    PrintHasNoNul(v);
    AtBounds(js, at, Print(v));
    if v.Str? {
      BodyHasNoNul(v.raw);
      InQuotes(js, at, v.raw);
    }
  }

  lemma AtBounds(js: string, p: nat, w: string)
    requires At(js, p, w)
    ensures p + |w| <= |js|
  {
  }

  lemma FieldIsThere(lead: string, pad: string, members: Members, trail: string, key: string)
    requires IsSpace(lead) && IsSpace(trail) && Legal(Obj(pad, members))
    ensures var found := Locate(members, key, |lead| + 1 + |pad|);
            found.Located? ==>
              Legal(found.value) && At(Document(lead, Obj(pad, members), trail), found.at, Print(found.value))
  {
    hide At, Print, PrintMembers, PreorderMembers, Preorder, Document, Locate, Remaining;
    var v, js := Obj(pad, members), Document(lead, Obj(pad, members), trail);
    AllRemaining(lead, pad, members, trail, Preorder(v, |lead|));
    RemainingSlice(js, Preorder(v, |lead|), members, 1, |lead| + 1 + |pad|);
    LegalLocated(js, members, key, |lead| + 1 + |pad|);
  }

  /** A field that has been terminated reads as its own text, nested objects and arrays included, whatever
      else has been terminated. */
  lemma EndedReads(lead: string, pad: string, members: Members, trail: string, text: seq<char>, key: string)
    requires IsSpace(lead) && IsSpace(trail) && Legal(Obj(pad, members))
    requires Marked(text, Document(lead, Obj(pad, members), trail), Marks(members, |lead| + 1 + |pad|))
    requires Ended(text, Locate(members, key, |lead| + 1 + |pad|))
    ensures var found := Locate(members, key, |lead| + 1 + |pad|); Reads(text, Position(found), found)
  {
    hide IsSpace, Legal, Locate, CString, Document, Marks, Print;
    var js, p := Document(lead, Obj(pad, members), trail), |lead| + 1 + |pad|;
    var found := Locate(members, key, p);
    if found.Located? {
      FieldIsThere(lead, pad, members, trail, key);
      MarksOutside(members, key, p);
      PlainIsThere(js, found.value, found.at);
      TextIsThere(js, text, Marks(members, p), Position(found), Plain(found.value));
    }
  }

  lemma TextIsThere(js: string, text: seq<char>, marks: set<nat>, a: nat, w: string)
    requires Marked(text, js, marks) && At(js, a, w) && '\0' !in w && a + |w| < |text| && text[a + |w|] == '\0'
    requires forall k :: k in marks ==> k < a || a + |w| <= k
    ensures CString(text, a) == w
  {
    forall k | a <= k < a + |w| ensures text[k] == w[k - a] != '\0' {
      assert js[a + (k - a)] == w[k - a] && w[k - a] in w;
    }
    CStringIs(text, a, a + |w|);
    assert text[a..a + |w|] == w;
  }

  /** So a nested value can be parsed again, where it stands, and gives its own tree. */
  lemma ParsesAgain(text: seq<char>, at: nat, found: Located, n: nat)
    requires Reads(text, at, found) && found.Located? && !found.value.Str? && Legal(found.value)
    requires n == |Preorder(found.value, 0)|
    ensures var js := CString(text, at);
            CountRun(js, 0, 0) == n && Run(js, 0, START, n).code == n &&
            Run(js, 0, START, n).st.toks == Preorder(found.value, 0)
  {
    hide CString, Legal, Preorder;
    RoundTrip("", found.value, "", n);
    assert Document("", found.value, "") == Print(found.value);
  }

  /** The second pass fills the array with the tokens of the tree. */
  lemma ParsedText(lead: string, pad: string, members: Members, trail: string, n: nat)
    requires IsSpace(lead) && IsSpace(trail) && Legal(Obj(pad, members))
    requires n == |Preorder(Obj(pad, members), |lead|)|
    ensures var js := Document(lead, Obj(pad, members), trail);
            var toks := Run(js, 0, START, n).st.toks;
            CountRun(js, 0, 0) == n == |toks| && Parsed(lead, pad, members, trail, toks)
  {
    hide IsSpace, Legal, Preorder, Document;
    RoundTrip(lead, Obj(pad, members), trail, n);
  }

  lemma SpelledAtFirst(js: string, text: seq<char>, toks: seq<Token>, marks: set<nat>)
    requires text == js + "\0" && forall a :: 0 <= a < |toks| ==> Delimited(js, |js|, toks[a]) && !IsOpen(toks[a])
    ensures Spells(text, js, toks) && Marked(text, js, marks)
  {
  }

  lemma StaysEnded(before: seq<char>, after: seq<char>, found: Located)
    requires Ended(before, found) && Nulled(before, after)
    ensures Ended(after, found)
  {
  }

  /**
   Parsing the raw text of an object and then asking for any fields, in any order and any number of times.
   Afterwards every pointer returned is right, and what all of them read is the text of their own fields,
   nested objects and arrays included: no NUL written for one field has spoilt another.
   */
  method ReadFields(json: array<char>, keys: seq<string>,
                    ghost lead: string, ghost pad: string, ghost members: Members, ghost trail: string)
    returns (at: seq<int>)
    requires IsSpace(lead) && IsSpace(trail) && Legal(Obj(pad, members))
    requires json[..] == Document(lead, Obj(pad, members), trail) + "\0"
    requires forall k :: 0 <= k < |keys| ==> '\0' !in keys[k]
    modifies json
    ensures |at| == |keys|
    ensures forall k :: 0 <= k < |keys| ==> Reads(json[..], at[k], Locate(members, keys[k], |lead| + 1 + |pad|))
  {
    hide IsSpace, Legal, Document, Parsed, Spells, Locate, CString, Ended, Nulled, Marked, Marks, Print;
    ghost var js, p0 := Document(lead, Obj(pad, members), trail), |lead| + 1 + |pad|;
    var n := json.Length - 1;
    assert json[..n] == js;
    ParsedText(lead, pad, members, trail, |Preorder(Obj(pad, members), |lead|)|);
    var tokens := ParseText(json[..n]);
    ghost var toks := tokens[..];
    assert toks == Run(js, 0, START, tokens.Length).st.toks;
    ParsedIsNested(lead, pad, members, trail, toks);
    SpelledAtFirst(js, json[..], toks, Marks(members, p0));
    at := [];
    for k := 0 to |keys|
      invariant |at| == k && tokens[..] == toks && Spells(json[..], js, toks)
      invariant Marked(json[..], js, Marks(members, p0))
      invariant forall j :: 0 <= j < k ==>
                  at[j] == Position(Locate(members, keys[j], p0)) && Ended(json[..], Locate(members, keys[j], p0))
    {
      ghost var before := json[..];
      var p := FindText(json, tokens, keys[k], lead, pad, members, trail);
      forall j | 0 <= j < k ensures Ended(json[..], Locate(members, keys[j], p0)) {
        StaysEnded(before, json[..], Locate(members, keys[j], p0));
      }
      IsEnded(json[..], Locate(members, keys[k], p0));
      at := at + [p];
    }
    forall j | 0 <= j < |keys| ensures Reads(json[..], at[j], Locate(members, keys[j], p0)) {
      EndedReads(lead, pad, members, trail, json[..], keys[j]);
    }
  }

  lemma IsEnded(text: seq<char>, found: Located)
    requires found.Located? ==>
               ValueEnd(found.value, found.at) < |text| && text[ValueEnd(found.value, found.at)] == '\0'
    ensures Ended(text, found)
  {
  }
}
