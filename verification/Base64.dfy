/**
 Base64 as in section 4 of RFC 4648, stated on streams of bits.  An octet is eight bits and a
 symbol of the alphabet stands for six, most significant first.
 */
module Base64 {

  type byte = bv8

  predicate Bit(x: byte, mask: byte) { x & mask != 0 }

  function Octet(x: byte): (r: seq<bool>)
    ensures |r| == 8
  {
    [Bit(x, 0x80), Bit(x, 0x40), Bit(x, 0x20), Bit(x, 0x10), Bit(x, 8), Bit(x, 4), Bit(x, 2), Bit(x, 1)]
  }

  function Sextet(x: byte): (r: seq<bool>)
    ensures |r| == 6
  {
    [Bit(x, 0x20), Bit(x, 0x10), Bit(x, 8), Bit(x, 4), Bit(x, 2), Bit(x, 1)]
  }

  function Octets(s: seq<byte>): (r: seq<bool>)
    ensures |r| == 8 * |s|
  {
    if s == [] then [] else Octets(s[..|s| - 1]) + Octet(s[|s| - 1])
  }

  function Sextets(s: seq<byte>): (r: seq<bool>)
    ensures |r| == 6 * |s|
  {
    if s == [] then [] else Sextets(s[..|s| - 1]) + Sextet(s[|s| - 1])
  }

  function Zeros(n: nat): seq<bool> { seq(n, _ => false) }

  // ---------------------------------------------------------------------------
  // The alphabet (Table 1 of RFC 4648), as character codes
  // ---------------------------------------------------------------------------

  const PAD: byte := 61  // '='

  /** The entry of the index table for a digit: A-Z, a-z, 0-9, + and /. */
  function Symbol(d: byte): byte {
    if d < 26 then 65 + d
    else if d < 52 then 97 + (d - 26)
    else if d < 62 then 48 + (d - 52)
    else if d == 62 then 43
    else 47
  }

  predicate IsSymbol(c: byte) {
    65 <= c <= 90 || 97 <= c <= 122 || 48 <= c <= 57 || c == 43 || c == 47
  }

  function Digit(c: byte): byte {
    if 65 <= c <= 90 then c - 65
    else if 97 <= c <= 122 then c - 97 + 26
    else if 48 <= c <= 57 then c - 48 + 52
    else if c == 43 then 62
    else 63
  }

  lemma SymbolsAndDigits(d: byte, c: byte)
    ensures d < 64 ==> IsSymbol(Symbol(d)) && Digit(Symbol(d)) == d
    ensures IsSymbol(c) ==> Digit(c) < 64 && Symbol(Digit(c)) == c
    ensures !IsSymbol(PAD)
  {
  }

  function Digits(text: seq<byte>): (r: seq<byte>)
    ensures |r| == |text|
  {
    seq(|text|, i requires 0 <= i < |text| => Digit(text[i]))
  }

  // ---------------------------------------------------------------------------
  // What an encoding and a decoding are
  // ---------------------------------------------------------------------------

  function Padding(n: nat): nat { (3 - n % 3) % 3 }

  /** Whole groups of four characters: symbols that spell the bits of src, filled up with zero bits
      to a whole symbol, and then the padding. */
  predicate IsEncoding(src: seq<byte>, text: seq<byte>) {
    |text| == 4 * ((|src| + 2) / 3) &&
    var n := |text| - Padding(|src|);
    (forall i :: 0 <= i < n ==> IsSymbol(text[i])) &&
    (forall i :: n <= i < |text| ==> text[i] == PAD) &&
    Sextets(Digits(text[..n])) == Octets(src) + Zeros(2 * Padding(|src|))
  }

  /** The length of the longest prefix of symbols. */
  function Symbols(text: seq<byte>): (n: nat)
    ensures n <= |text| && (forall i :: 0 <= i < n ==> IsSymbol(text[i])) && (n < |text| ==> !IsSymbol(text[n]))
  {
    if text == [] || !IsSymbol(text[0]) then 0 else 1 + Symbols(text[1..])
  }

  /** As many whole octets as the symbols in front spell out; anything after them is ignored. */
  predicate IsDecoding(text: seq<byte>, dec: seq<byte>) {
    var n := Symbols(text);
    |dec| == 6 * n / 8 && Octets(dec) == Sextets(Digits(text[..n]))[..8 * |dec|]
  }

  // ---------------------------------------------------------------------------
  // Bits determine what they spell
  // ---------------------------------------------------------------------------

  lemma OctetIsInjective(x: byte, y: byte)
    requires Octet(x) == Octet(y)
    ensures x == y
  {
    assert Octet(x)[0] == Octet(y)[0] && Octet(x)[1] == Octet(y)[1] && Octet(x)[2] == Octet(y)[2] &&
           Octet(x)[3] == Octet(y)[3] && Octet(x)[4] == Octet(y)[4] && Octet(x)[5] == Octet(y)[5] &&
           Octet(x)[6] == Octet(y)[6] && Octet(x)[7] == Octet(y)[7];
  }

  lemma SextetIsInjective(x: byte, y: byte)
    requires Sextet(x) == Sextet(y) && x < 64 && y < 64
    ensures x == y
  {
    assert Sextet(x)[0] == Sextet(y)[0] && Sextet(x)[1] == Sextet(y)[1] && Sextet(x)[2] == Sextet(y)[2] &&
           Sextet(x)[3] == Sextet(y)[3] && Sextet(x)[4] == Sextet(y)[4] && Sextet(x)[5] == Sextet(y)[5];
  }

  lemma {:induction false} OctetsAreInjective(s: seq<byte>, t: seq<byte>)
    requires Octets(s) == Octets(t)
    ensures s == t
    decreases |s|
  {
    hide Octet;
    if s != [] {
      var n := |s| - 1;
      assert Octets(s[..n]) == Octets(s)[..8 * n] && Octets(t[..n]) == Octets(t)[..8 * n];
      assert Octet(s[n]) == Octets(s)[8 * n..] && Octet(t[n]) == Octets(t)[8 * n..];
      OctetIsInjective(s[n], t[n]);
      OctetsAreInjective(s[..n], t[..n]);
      assert s == s[..n] + [s[n]] && t == t[..n] + [t[n]];
    }
  }

  lemma {:induction false} SextetsAreInjective(s: seq<byte>, t: seq<byte>)
    requires Sextets(s) == Sextets(t) && forall i :: 0 <= i < |s| ==> s[i] < 64
    requires forall i :: 0 <= i < |t| ==> t[i] < 64
    ensures s == t
    decreases |s|
  {
    hide Sextet;
    if s != [] {
      var n := |s| - 1;
      assert Sextets(s[..n]) == Sextets(s)[..6 * n] && Sextets(t[..n]) == Sextets(t)[..6 * n];
      assert Sextet(s[n]) == Sextets(s)[6 * n..] && Sextet(t[n]) == Sextets(t)[6 * n..];
      SextetIsInjective(s[n], t[n]);
      SextetsAreInjective(s[..n], t[..n]);
      assert s == s[..n] + [s[n]] && t == t[..n] + [t[n]];
    }
  }

  /** A byte string has one encoding only. */
  lemma EncodingIsUnique(src: seq<byte>, text: seq<byte>, text': seq<byte>)
    requires IsEncoding(src, text) && IsEncoding(src, text')
    ensures text == text'
  {
    hide Symbol, Digit, IsSymbol;
    var n := |text| - Padding(|src|);
    forall i | 0 <= i < n ensures Digits(text[..n])[i] < 64 && Digits(text'[..n])[i] < 64 {
      SymbolsAndDigits(0, text[i]);
      SymbolsAndDigits(0, text'[i]);
    }
    SextetsAreInjective(Digits(text[..n]), Digits(text'[..n]));
    forall i | 0 <= i < n ensures text[i] == text'[i] {
      SymbolsAndDigits(0, text[i]);
      SymbolsAndDigits(0, text'[i]);
      assert Digits(text[..n])[i] == Digits(text'[..n])[i];
    }
  }

  /** A text has one decoding only. */
  lemma DecodingIsUnique(text: seq<byte>, dec: seq<byte>, dec': seq<byte>)
    requires IsDecoding(text, dec) && IsDecoding(text, dec')
    ensures dec == dec'
  {
    OctetsAreInjective(dec, dec');
  }

  lemma SymbolsIs(src: seq<byte>, j: nat)
    requires j <= |src| && (forall l :: 0 <= l < j ==> IsSymbol(src[l])) && (j < |src| ==> !IsSymbol(src[j]))
    ensures Symbols(src) == j
  {
    hide IsSymbol;
    if Symbols(src) < j { assert false; }
  }

  /** Decoding an encoding gives the bytes back, and their number. */
  lemma RoundTrip(src: seq<byte>, text: seq<byte>, dec: seq<byte>)
    requires IsEncoding(src, text) && IsDecoding(text, dec)
    ensures dec == src
  {
    hide IsSymbol, Digit, Digits, Octets, Sextets;
    var n := |text| - Padding(|src|);
    SymbolsAndDigits(0, 0);
    assert n < |text| ==> !IsSymbol(text[n]);
    SymbolsIs(text, n);
    assert 6 * n == 8 * |src| + 2 * Padding(|src|);
    assert (Octets(src) + Zeros(2 * Padding(|src|)))[..8 * |src|] == Octets(src);
    OctetsAreInjective(dec, src);
  }

  // ---------------------------------------------------------------------------
  // Table 1 and the test vectors of sections 4 and 10 of RFC 4648
  // ---------------------------------------------------------------------------

  /** The character of a code. */
  function Char(c: byte): char { c as int as char }

  /** Table 1: 0 to 25 are A to Z, 26 to 51 are a to z, 52 to 61 are 0 to 9, then plus and slash; nothing else
      is a symbol, and the padding is an equals sign. */
  lemma AlphabetIsTable1(d: int, c: byte)
    requires 0 <= d < 64
    ensures Char(Symbol(d as byte)) ==
            if d < 26 then 'A' + d as char else if d < 52 then 'a' + (d - 26) as char
            else if d < 62 then '0' + (d - 52) as char else if d == 62 then '+' else '/'
    ensures IsSymbol(c) <==>
            'A' <= Char(c) <= 'Z' || 'a' <= Char(c) <= 'z' || '0' <= Char(c) <= '9' || Char(c) == '+' || Char(c) == '/'
    ensures IsSymbol(c) ==> Symbol(Digit(c)) == c
    ensures Char(PAD) == '='
  {
    hide Symbol, IsSymbol, Digit;
    SymbolChar(d as byte);
    IsSymbolChar(c);
    SymbolsAndDigits(0, c);
  }

  lemma SymbolChar(d: byte)
    requires d < 64
    ensures Char(Symbol(d)) ==
            if d < 26 then 'A' + d as int as char else if d < 52 then 'a' + (d as int - 26) as char
            else if d < 62 then '0' + (d as int - 52) as char else if d == 62 then '+' else '/'
  {
  }

  lemma IsSymbolChar(c: byte)
    ensures IsSymbol(c) <==>
            'A' <= Char(c) <= 'Z' || 'a' <= Char(c) <= 'z' || '0' <= Char(c) <= '9' || Char(c) == '+' || Char(c) == '/'
  {
  }

  lemma OneOctet(a: byte)
    ensures Octets([a]) == Octet(a)
  {
    hide Octet;
    assert [a][..0] == [] && Octets([]) == [];
  }

  lemma TwoSextets(a: byte, b: byte)
    ensures Sextets([a, b]) == Sextet(a) + Sextet(b)
  {
    hide Sextet;
    assert [a, b][..1] == [a] && [a][..0] == [] && Sextets([]) == [];
    assert Sextets([a]) == Sextet(a);
  }

  /** "f" is "Zg==", and the octet 0xFB is "+w==". */
  lemma TestVectors()
    ensures IsEncoding([0x66], [90, 103, 61, 61])
    ensures IsEncoding([0xFB], [43, 119, 61, 61])
  {
    OneOctetText(0x66, 90, 103);
    OneOctetText(0xFB, 43, 119);
  }

  /** The text of one octet: its first six bits, its last two with four zeros, and two equals signs. */
  lemma OneOctetText(x: byte, c: byte, d: byte)
    requires IsSymbol(c) && IsSymbol(d)
    requires Sextet(Digit(c)) + Sextet(Digit(d)) == Octet(x) + [false, false, false, false]
    ensures IsEncoding([x], [c, d, 61, 61])
  {
    hide Octet, Sextet, IsSymbol, Digit;
    var text := [c, d, PAD, PAD];
    OneOctet(x);
    TwoSextets(Digit(c), Digit(d));
    assert text[..2] == [c, d] && Digits([c, d]) == [Digit(c), Digit(d)];
    assert Zeros(4) == [false, false, false, false];
  }

  // ---------------------------------------------------------------------------
  // Regrouping the bits
  // ---------------------------------------------------------------------------

  function Split(a: byte, b: byte, c: byte): (byte, byte, byte, byte) {
    ((a & 0xfc) >> 2, ((a & 0x03) << 4) + ((b & 0xf0) >> 4), ((b & 0x0f) << 2) + ((c & 0xc0) >> 6), c & 0x3f)
  }

  function Join(d0: byte, d1: byte, d2: byte, d3: byte): (byte, byte, byte) {
    ((d0 << 2) + ((d1 & 0x30) >> 4), ((d1 & 0xf) << 4) + ((d2 & 0x3c) >> 2), ((d2 & 0x3) << 6) + d3)
  }

  /** Where the bits of the four digits come from. */
  lemma SplitBits(a: byte, b: byte, c: byte)
    ensures var (d0, d1, d2, d3) := Split(a, b, c);
            d0 < 64 && d1 < 64 && d2 < 64 && d3 < 64 &&
            Bit(d0, 0x20) == Bit(a, 0x80) && Bit(d0, 0x10) == Bit(a, 0x40) && Bit(d0, 8) == Bit(a, 0x20) &&
            Bit(d0, 4) == Bit(a, 0x10) && Bit(d0, 2) == Bit(a, 8) && Bit(d0, 1) == Bit(a, 4) &&
            Bit(d1, 0x20) == Bit(a, 2) && Bit(d1, 0x10) == Bit(a, 1) && Bit(d1, 8) == Bit(b, 0x80) &&
            Bit(d1, 4) == Bit(b, 0x40) && Bit(d1, 2) == Bit(b, 0x20) && Bit(d1, 1) == Bit(b, 0x10) &&
            Bit(d2, 0x20) == Bit(b, 8) && Bit(d2, 0x10) == Bit(b, 4) && Bit(d2, 8) == Bit(b, 2) &&
            Bit(d2, 4) == Bit(b, 1) && Bit(d2, 2) == Bit(c, 0x80) && Bit(d2, 1) == Bit(c, 0x40) &&
            Bit(d3, 0x20) == Bit(c, 0x20) && Bit(d3, 0x10) == Bit(c, 0x10) && Bit(d3, 8) == Bit(c, 8) &&
            Bit(d3, 4) == Bit(c, 4) && Bit(d3, 2) == Bit(c, 2) && Bit(d3, 1) == Bit(c, 1)
  {
  }

  lemma JoinUndoesSplit(d0: byte, d1: byte, d2: byte, d3: byte)
    requires d0 < 64 && d1 < 64 && d2 < 64 && d3 < 64
    ensures var (a, b, c) := Join(d0, d1, d2, d3); Split(a, b, c) == (d0, d1, d2, d3)
  {
  }

  lemma Cat24(a: bool, b: bool, c: bool, d: bool, e: bool, f: bool)
    ensures [a, b] + [c, d, e, f] == [a, b, c, d, e, f] == [a, b, c, d] + [e, f]
  {
  }

  lemma OctetParts(x: byte)
    ensures Octet(x)[..6] == [Bit(x, 0x80), Bit(x, 0x40), Bit(x, 0x20), Bit(x, 0x10), Bit(x, 8), Bit(x, 4)]
    ensures Octet(x)[6..] == [Bit(x, 2), Bit(x, 1)]
    ensures Octet(x)[..4] == [Bit(x, 0x80), Bit(x, 0x40), Bit(x, 0x20), Bit(x, 0x10)]
    ensures Octet(x)[4..] == [Bit(x, 8), Bit(x, 4), Bit(x, 2), Bit(x, 1)]
    ensures Octet(x)[..2] == [Bit(x, 0x80), Bit(x, 0x40)]
    ensures Octet(x)[2..] == [Bit(x, 0x20), Bit(x, 0x10), Bit(x, 8), Bit(x, 4), Bit(x, 2), Bit(x, 1)]
  {
    hide Bit, Octet;
    OctetSplit(x, 6);
    OctetSplit(x, 4);
    OctetSplit(x, 2);
  }

  lemma OctetSplit(x: byte, n: nat)
    requires n == 2 || n == 4 || n == 6
    ensures n == 6 ==>
              Octet(x)[..6] == [Bit(x, 0x80), Bit(x, 0x40), Bit(x, 0x20), Bit(x, 0x10), Bit(x, 8), Bit(x, 4)] &&
              Octet(x)[6..] == [Bit(x, 2), Bit(x, 1)]
    ensures n == 4 ==>
              Octet(x)[..4] == [Bit(x, 0x80), Bit(x, 0x40), Bit(x, 0x20), Bit(x, 0x10)] &&
              Octet(x)[4..] == [Bit(x, 8), Bit(x, 4), Bit(x, 2), Bit(x, 1)]
    ensures n == 2 ==>
              Octet(x)[..2] == [Bit(x, 0x80), Bit(x, 0x40)] &&
              Octet(x)[2..] == [Bit(x, 0x20), Bit(x, 0x10), Bit(x, 8), Bit(x, 4), Bit(x, 2), Bit(x, 1)]
  {
    hide Bit;
  }

  lemma Regroup(x: seq<bool>, y: seq<bool>, z: seq<bool>)
    requires |x| == |y| == |z| == 8
    ensures x[..6] + (x[6..] + y[..4]) + (y[4..] + z[..2]) + z[2..] == x + y + z
  {
  }

  lemma MiddleBits(a: byte, b: byte, c: byte)
    ensures var (d0, d1, d2, d3) := Split(a, b, c);
            Sextet(d1) == Octet(a)[6..] + Octet(b)[..4] && Sextet(d2) == Octet(b)[4..] + Octet(c)[..2]
  {
    hide Bit, Split, Octet;
    SplitBits(a, b, c);
    OctetParts(a);
    OctetParts(b);
    OctetParts(c);
    Cat24(Bit(a, 2), Bit(a, 1), Bit(b, 0x80), Bit(b, 0x40), Bit(b, 0x20), Bit(b, 0x10));
    Cat24(Bit(b, 8), Bit(b, 4), Bit(b, 2), Bit(b, 1), Bit(c, 0x80), Bit(c, 0x40));
  }

  lemma OuterBits(a: byte, b: byte, c: byte)
    ensures var (d0, d1, d2, d3) := Split(a, b, c);
            Sextet(d0) == Octet(a)[..6] && Sextet(d3) == Octet(c)[2..]
  {
    hide Bit, Split, Octet;
    SplitBits(a, b, c);
    OctetParts(a);
    OctetParts(c);
  }

  /** Three octets are the same bits as the four digits they are split into. */
  lemma GroupBits(a: byte, b: byte, c: byte)
    ensures var (d0, d1, d2, d3) := Split(a, b, c);
            Sextet(d0) + Sextet(d1) + Sextet(d2) + Sextet(d3) == Octet(a) + Octet(b) + Octet(c)
  {
    hide Split, Octet, Sextet;
    OuterBits(a, b, c);
    MiddleBits(a, b, c);
    Regroup(Octet(a), Octet(b), Octet(c));
  }
}
