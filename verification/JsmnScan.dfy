/**
 The lexical half of the jsmn tokenizer (gateways/c/jsmn.c): what one round of the
 main loop consumes at a position, as a function of the text alone.  The build modelled
 is the one the gateway compiles: not strict, and without parent links.

 Characters of the C string are bytes; any `char` outside 32..126 is refused in a
 primitive, which is what the C comparison does for signed and unsigned `char` alike.
 */
module JsmnScan {
  import opened JsonGrammar

  const NOMEM := -1
  const INVAL := -2
  const PART := -3

  datatype Kind = Object | Array | String | Primitive

  predicate IsContainer(k: Kind) { k == Object || k == Array }

  /** What one round of the main loop has recognised. */
  datatype Lexeme =
    | Blank
    | Open(kind: Kind)
    | Close(kind: Kind)
    | Text(kind: Kind, start: nat, end: nat)
    | Colon
    | Comma

  datatype Scan = Lexed(lexeme: Lexeme, next: nat) | Bad(code: int)

  datatype Search = Found(at: nat) | Failed(code: int)

  predicate AtEnd(js: string, p: nat) { p >= |js| || js[p] == '\0' }

  predicate IsBlank(c: char) { c == '\t' || c == '\r' || c == '\n' || c == ' ' }

  /** The characters that end a primitive. */
  predicate IsDelimiter(c: char) { c == ':' || IsBlank(c) || c == ',' || c == ']' || c == '}' }

  predicate IsPrintable(c: char) { 32 <= c as int < 127 }

  predicate IsHex(c: char) { '0' <= c <= '9' || 'A' <= c <= 'F' || 'a' <= c <= 'f' }

  predicate IsEscape(c: char) {
    c == '"' || c == '/' || c == '\\' || c == 'b' || c == 'f' || c == 'r' || c == 'n' || c == 't'
  }

  /** Position after at most n hexadecimal digits; fails on any other character. */
  function HexEnd(js: string, p: nat, n: nat): (s: Search)
    ensures s.Found? ==> p <= s.at <= p + n
    ensures s.Failed? ==> s.code == INVAL
    ensures s.Found? && p <= |js| ==> s.at <= |js|
    ensures s.Found? ==> s.at == p + n || AtEnd(js, s.at)
    ensures s.Found? ==> forall k :: p <= k < s.at ==> k < |js| && IsHex(js[k])
    decreases n, p
  {
    if n == 0 || AtEnd(js, p) then Found(p)
    else if IsHex(js[p]) then HexEnd(js, p + 1, n - 1)
    else Failed(INVAL)
  }

  /** Position of the quote that closes a string whose body starts at p. */
  function StringEnd(js: string, p: nat): (s: Search)
    ensures s.Found? ==> p <= s.at < |js| && js[s.at] == '"'
    ensures s.Failed? ==> s.code == INVAL || s.code == PART
    decreases |js| - p
  {
    if AtEnd(js, p) then Failed(PART)
    else if js[p] == '"' then Found(p)
    else if js[p] == '\\' && p + 1 < |js| then
      if IsEscape(js[p + 1]) then StringEnd(js, p + 2)
      else if js[p + 1] == 'u' then
        match HexEnd(js, p + 2, 4)
        case Found(e) => StringEnd(js, e)
        case Failed(code) => Failed(code)
      else Failed(INVAL)
    else StringEnd(js, p + 1)
  }

  /** Position of the delimiter (or end of text) that ends a primitive read from p on. */
  function PrimitiveEnd(js: string, p: nat): (s: Search)
    requires p <= |js|
    ensures s.Found? ==> p <= s.at <= |js|
    ensures s.Failed? ==> s.code == INVAL
    decreases |js| - p
  {
    if AtEnd(js, p) || IsDelimiter(js[p]) then Found(p)
    else if !IsPrintable(js[p]) then Failed(INVAL)
    else PrimitiveEnd(js, p + 1)
  }

  /** One round of the main loop, before any token is touched. */
  function ScanAt(js: string, p: nat): (s: Scan)
    requires !AtEnd(js, p)
    ensures s.Lexed? ==> p < s.next <= |js|
    ensures s.Bad? ==> s.code == INVAL || s.code == PART
  {
    var c := js[p];
    if c == '{' then Lexed(Open(Object), p + 1)
    else if c == '[' then Lexed(Open(Array), p + 1)
    else if c == '}' then Lexed(Close(Object), p + 1)
    else if c == ']' then Lexed(Close(Array), p + 1)
    else if c == '"' then
      match StringEnd(js, p + 1)
      case Found(q) => Lexed(Text(String, p + 1, q), q + 1)
      case Failed(code) => Bad(code)
    else if IsBlank(c) then Lexed(Blank, p + 1)
    else if c == ':' then Lexed(Colon, p + 1)
    else if c == ',' then Lexed(Comma, p + 1)
    else
      match PrimitiveEnd(js, p)
      case Found(e) => Lexed(Text(Primitive, p, e), e)
      case Failed(code) => Bad(code)
  }

  // ---------------------------------------------------------------------------
  // The string scanner against the grammar of section 7 of RFC 8259
  // ---------------------------------------------------------------------------

  /** Where the digit scan stops, given the digits up to e. */
  lemma {:induction false} HexScan(js: string, p: nat, e: nat, n: nat)
    requires p <= e <= p + n
    requires forall k :: p <= k < e ==> !AtEnd(js, k) && IsHex(js[k])
    ensures e == p + n || AtEnd(js, e) ==> HexEnd(js, p, n) == Found(e)
    ensures e < p + n && !AtEnd(js, e) && !IsHex(js[e]) ==> HexEnd(js, p, n) == Failed(INVAL)
    decreases n
  {
    if p < e { HexScan(js, p + 1, e, n - 1); }
  }

  /** A well-formed body followed by a quote is closed by exactly that quote. */
  lemma {:induction false} BodyIsScanned(js: string, p: nat, q: nat)
    requires p <= q < |js| && js[q] == '"' && IsBody(js[p..q])
    ensures StringEnd(js, p) == Found(q)
    decreases q - p
  {
    var raw := js[p..q];
    if p < q {
      assert raw[0] == js[p];
      if js[p] == '\\' {
        assert raw[1] == js[p + 1];
        if js[p + 1] == 'u' {
          assert raw[2] == js[p + 2] && raw[3] == js[p + 3] && raw[4] == js[p + 4] && raw[5] == js[p + 5];
          assert raw[6..] == js[p + 6..q];
          HexScan(js, p + 2, p + 6, 4);
          BodyIsScanned(js, p + 6, q);
        } else {
          assert raw[2..] == js[p + 2..q];
          BodyIsScanned(js, p + 2, q);
        }
      } else {
        assert raw[1..] == js[p + 1..q];
        BodyIsScanned(js, p + 1, q);
      }
    }
  }

  /** Whatever the scanner accepts as a string is a well-formed body. */
  lemma {:induction false} ScannedIsBody(js: string, p: nat, q: nat)
    requires StringEnd(js, p) == Found(q)
    ensures p <= q < |js| && js[q] == '"' && IsBody(js[p..q])
    decreases |js| - p
  {
    var raw := js[p..q];
    if p < q {
      assert raw[0] == js[p];
      if js[p] == '\\' {
        if IsEscape(js[p + 1]) {
          ScannedIsBody(js, p + 2, q);
          assert raw[1] == js[p + 1] && raw[2..] == js[p + 2..q];
        } else {
          var e := HexEnd(js, p + 2, 4).at;
          ScannedIsBody(js, e, q);
          assert e == p + 6;
          assert raw[1] == js[p + 1] && raw[2] == js[p + 2] && raw[3] == js[p + 3];
          assert raw[4] == js[p + 4] && raw[5] == js[p + 5] && raw[6..] == js[p + 6..q];
        }
      } else {
        ScannedIsBody(js, p + 1, q);
        assert raw[1..] == js[p + 1..q];
      }
    }
  }

  /** The string scanner recognises exactly the grammar: it stops at q just when the text
      from p to q is a well-formed body and q holds the closing quote. */
  lemma StringScanIsExact(js: string, p: nat, q: nat)
    ensures StringEnd(js, p) == Found(q) <==> p <= q < |js| && js[q] == '"' && IsBody(js[p..q])
  {
    if StringEnd(js, p) == Found(q) {
      ScannedIsBody(js, p, q);
    } else if p <= q < |js| && js[q] == '"' && IsBody(js[p..q]) {
      BodyIsScanned(js, p, q);
    }
  }

  predicate WrongDigit(js: string, p: nat) { p < |js| && js[p] != '\0' && !IsHexDigit(js[p]) }

  predicate RightDigit(js: string, p: nat) { p < |js| && IsHexDigit(js[p]) }

  /** An escape that section 7 does not have starts at q: a wrong letter, or a wrong character among the four
      digits after a u. */
  predicate BadEscape(js: string, q: nat) {
    q + 1 < |js| && js[q] == '\\' &&
    if js[q + 1] == 'u' then
      WrongDigit(js, q + 2) || (RightDigit(js, q + 2) && (WrongDigit(js, q + 3) || (RightDigit(js, q + 3) &&
      (WrongDigit(js, q + 4) || (RightDigit(js, q + 4) && WrongDigit(js, q + 5))))))
    else !IsEscapeLetter(js[q + 1])
  }

  lemma HexFails(js: string, p: nat)
    requires 0 < p < |js| && js[p] == 'u' && js[p - 1] == '\\'
    ensures HexEnd(js, p + 1, 4) == Failed(-2) <==> BadEscape(js, p - 1)
  {
    assert HexEnd(js, p + 4, 1) == Failed(-2) <==> WrongDigit(js, p + 4);
    assert HexEnd(js, p + 3, 2) == Failed(-2) <==>
           WrongDigit(js, p + 3) || (RightDigit(js, p + 3) && WrongDigit(js, p + 4));
  }

  /** A well-formed body that leads up to a bad escape makes a string invalid. */
  lemma {:induction false} BadEscapeIsFound(js: string, p: nat, q: nat)
    requires p <= q < |js| && IsBody(js[p..q]) && BadEscape(js, q)
    ensures StringEnd(js, p) == Failed(-2)
    decreases q - p
  {
    var raw := js[p..q];
    if p == q {
      if js[p + 1] == 'u' { HexFails(js, p + 1); }
    } else {
      assert raw[0] == js[p];
      if js[p] == '\\' {
        assert raw[1] == js[p + 1];
        if js[p + 1] == 'u' {
          assert raw[2] == js[p + 2] && raw[3] == js[p + 3] && raw[4] == js[p + 4] && raw[5] == js[p + 5];
          assert raw[6..] == js[p + 6..q];
          HexScan(js, p + 2, p + 6, 4);
          BadEscapeIsFound(js, p + 6, q);
        } else {
          assert raw[2..] == js[p + 2..q];
          BadEscapeIsFound(js, p + 2, q);
        }
      } else {
        assert raw[1..] == js[p + 1..q];
        BadEscapeIsFound(js, p + 1, q);
      }
    }
  }

  /** And nothing else does: a string that fails otherwise could be completed by more text. */
  lemma {:induction false} InvalidIsBadEscape(js: string, p: nat) returns (q: nat)
    requires StringEnd(js, p).Failed? && StringEnd(js, p) != Failed(-3)
    ensures p <= q < |js| && IsBody(js[p..q]) && BadEscape(js, q)
    decreases |js| - p
  {
    if js[p] == '\\' && p + 1 < |js| {
      if IsEscape(js[p + 1]) {
        q := InvalidIsBadEscape(js, p + 2);
        assert js[p..q][0] == js[p] && js[p..q][1] == js[p + 1] && js[p..q][2..] == js[p + 2..q];
      } else if js[p + 1] == 'u' {
        HexFails(js, p + 1);
        if HexEnd(js, p + 2, 4).Failed? {
          q := p;
        } else {
          var e := HexEnd(js, p + 2, 4).at;
          assert e == p + 6;
          q := InvalidIsBadEscape(js, e);
          var raw := js[p..q];
          assert raw[0] == js[p] && raw[1] == js[p + 1] && raw[2] == js[p + 2] && raw[3] == js[p + 3];
          assert raw[4] == js[p + 4] && raw[5] == js[p + 5] && raw[6..] == js[p + 6..q];
        }
      } else {
        q := p;
      }
    } else {
      q := InvalidIsBadEscape(js, p + 1);
      assert js[p..q][0] == js[p] && js[p..q][1..] == js[p + 1..q];
    }
  }

  /** The primitive scanner stops at e just when everything before e is bare and e is the end
      of the text or holds a delimiter. */
  lemma {:induction false} PrimitiveScanIsExact(js: string, p: nat, e: nat)
    requires p <= |js|
    ensures PrimitiveEnd(js, p) == Found(e) <==>
            p <= e <= |js| && IsBare(js[p..e]) && (e == |js| || js[e] == '\0' || IsStop(js[e]))
    decreases |js| - p
  {
    if AtEnd(js, p) || IsDelimiter(js[p]) {
      if p < e <= |js| { assert js[p..e][0] == js[p]; }
    } else if !IsPrintable(js[p]) {
      if p < e <= |js| { assert js[p..e][0] == js[p]; }
    } else {
      PrimitiveScanIsExact(js, p + 1, e);
      if p < e <= |js| {
        assert js[p..e] == [js[p]] + js[p + 1..e];
      }
    }
  }
}
