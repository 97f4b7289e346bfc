/**
 The base64 encoder and decoder of the C gateway (encode.c, decode.c), proved to produce what
 `Base64` says an encoding and a decoding are.
 */
module Base64Codec {
  import opened Base64

  // ---------------------------------------------------------------------------
  // Bits of concatenations
  // ---------------------------------------------------------------------------

  lemma OctetsSnoc(s: seq<byte>, x: byte)
    ensures Octets(s + [x]) == Octets(s) + Octet(x)
  {
    assert (s + [x])[..|s|] == s;
  }

  lemma SextetsSnoc(s: seq<byte>, x: byte)
    ensures Sextets(s + [x]) == Sextets(s) + Sextet(x)
  {
    assert (s + [x])[..|s|] == s;
  }

  lemma {:induction false} OctetsCat(s: seq<byte>, t: seq<byte>)
    ensures Octets(s + t) == Octets(s) + Octets(t)
    decreases |t|
  {
    hide Octets, Octet;
    if t == [] {
      assert s + t == s && Octets(t) == [];
    } else {
      var n := |t| - 1;
      OctetsCat(s, t[..n]);
      OctetsSnoc(s + t[..n], t[n]);
      OctetsSnoc(t[..n], t[n]);
      assert s + t == s + t[..n] + [t[n]] && t == t[..n] + [t[n]];
    }
  }

  lemma {:induction false} SextetsCat(s: seq<byte>, t: seq<byte>)
    ensures Sextets(s + t) == Sextets(s) + Sextets(t)
    decreases |t|
  {
    hide Sextets, Sextet;
    if t == [] {
      assert s + t == s && Sextets(t) == [];
    } else {
      var n := |t| - 1;
      SextetsCat(s, t[..n]);
      SextetsSnoc(s + t[..n], t[n]);
      SextetsSnoc(t[..n], t[n]);
      assert s + t == s + t[..n] + [t[n]] && t == t[..n] + [t[n]];
    }
  }

  lemma Triple(t: seq<byte>)
    requires |t| == 3
    ensures Octets(t) == Octet(t[0]) + Octet(t[1]) + Octet(t[2])
  {
    hide Octets, Octet;
    OctetsSnoc([], t[0]);
    OctetsSnoc([t[0]], t[1]);
    OctetsSnoc([t[0], t[1]], t[2]);
    assert [] + [t[0]] == [t[0]] && [t[0]] + [t[1]] == [t[0], t[1]] && [t[0], t[1]] + [t[2]] == t;
    assert Octets([]) == [];
  }

  lemma Quadruple(d: seq<byte>)
    requires |d| == 4
    ensures Sextets(d) == Sextet(d[0]) + Sextet(d[1]) + Sextet(d[2]) + Sextet(d[3])
  {
    hide Sextets, Sextet;
    SextetsSnoc([], d[0]);
    SextetsSnoc([d[0]], d[1]);
    SextetsSnoc([d[0], d[1]], d[2]);
    SextetsSnoc([d[0], d[1], d[2]], d[3]);
    assert [] + [d[0]] == [d[0]] && [d[0]] + [d[1]] == [d[0], d[1]] && [d[0], d[1]] + [d[2]] == [d[0], d[1], d[2]] &&
           [d[0], d[1], d[2]] + [d[3]] == d;
    assert Sextets([]) == [];
  }

  /** A group of three bytes and the four digits it is split into are the same bits. */
  lemma SameBits(t: seq<byte>, d: seq<byte>)
    requires |t| == 3 && |d| == 4 && Split(t[0], t[1], t[2]) == (d[0], d[1], d[2], d[3])
    ensures Octets(t) == Sextets(d) && forall i :: 0 <= i < 4 ==> d[i] < 64
  {
    hide Octets, Sextets, Split, Octet, Sextet, Bit;
    SplitBits(t[0], t[1], t[2]);
    Triple(t);
    Quadruple(d);
    GroupBits(t[0], t[1], t[2]);
  }

  lemma JoinedBits(d: seq<byte>, t: seq<byte>)
    requires |t| == 3 && |d| == 4 && forall i :: 0 <= i < 4 ==> d[i] < 64
    requires Join(d[0], d[1], d[2], d[3]) == (t[0], t[1], t[2])
    ensures Octets(t) == Sextets(d)
  {
    hide Octets, Sextets, Split, Join, Octet, Sextet;
    JoinUndoesSplit(d[0], d[1], d[2], d[3]);
    SameBits(t, d);
  }

  // ---------------------------------------------------------------------------
  // Encoding
  // ---------------------------------------------------------------------------

  /** A text of symbols that stands for these bits. */
  predicate Spells(text: seq<byte>, bits: seq<bool>) {
    (forall i :: 0 <= i < |text| ==> IsSymbol(text[i])) && Sextets(Digits(text)) == bits
  }

  lemma SpellsMore(text: seq<byte>, bits: seq<bool>, d: byte)
    requires Spells(text, bits) && d < 64
    ensures Spells(text + [Symbol(d)], bits + Sextet(d))
  {
    hide Symbol, IsSymbol, Digit, Sextets, Sextet;
    SymbolsAndDigits(d, 0);
    assert Digits(text + [Symbol(d)]) == Digits(text) + [d];
    SextetsSnoc(Digits(text), d);
  }

  method SplitGroup(tmp: array<byte>, buf: array<byte>)
    requires tmp.Length == 3 && buf.Length == 4 && tmp != buf
    modifies buf
    ensures Sextets(buf[..]) == Octets(tmp[..]) && forall i :: 0 <= i < 4 ==> buf[i] < 64
  {
    hide Octets, Sextets;
    buf[0] := (tmp[0] & 0xfc) >> 2;
    buf[1] := ((tmp[0] & 0x03) << 4) + ((tmp[1] & 0xf0) >> 4);
    buf[2] := ((tmp[1] & 0x0f) << 2) + ((tmp[2] & 0xc0) >> 6);
    buf[3] := tmp[2] & 0x3f;
    assert Split(tmp[0], tmp[1], tmp[2]) == (buf[0], buf[1], buf[2], buf[3]);
    SameBits(tmp[..], buf[..]);
  }

  /** Append the symbols of the first n digits. */
  method Emit(enc: seq<byte>, buf: array<byte>, n: nat, ghost bits: seq<bool>) returns (r: seq<byte>)
    requires n <= buf.Length && Spells(enc, bits) && forall i :: 0 <= i < buf.Length ==> buf[i] < 64
    ensures Spells(r, bits + Sextets(buf[..n])) && |r| == |enc| + n
  {
    hide Spells, Sextets, Symbol;
    r := enc;
    assert Sextets([]) == [] && bits + [] == bits && buf[..0] == [];
    for j := 0 to n
      invariant Spells(r, bits + Sextets(buf[..j])) && |r| == |enc| + j
    {
      SpellsMore(r, bits + Sextets(buf[..j]), buf[j]);
      r := r + [Symbol(buf[j])];
      SextetsSnoc(buf[..j], buf[j]);
      assert buf[..j] + [buf[j]] == buf[..j + 1];
      assert bits + Sextets(buf[..j]) + Sextet(buf[j]) == bits + Sextets(buf[..j + 1]);
    }
  }

  /** b64_encode, without the NUL that ends the text. */
  method Encode(src: seq<byte>) returns (enc: seq<byte>)
    ensures IsEncoding(src, enc)
  {
    hide Octets, Sextets, Spells, Octet;
    var buf, tmp := new byte[4](_ => 0), new byte[3](_ => 0);
    var i, k := 0, 0;
    enc := [];
    NothingSpelled();
    while k < |src|
      invariant 0 <= i < 3 && i <= k <= |src| && (k - i) % 3 == 0
      invariant |enc| == 4 * ((k - i) / 3) && forall l :: 0 <= l < i ==> tmp[l] == src[k - i + l]
      invariant Spells(enc, Octets(src[..k - i]))
    {
      tmp[i] := src[k];
      i, k := i + 1, k + 1;
      if i == 3 {
        enc := EncodeGroup(src, enc, tmp, buf, k);
        i := 0;
      }
    }
    if i > 0 {
      enc := EncodeRest(src, enc, tmp, buf, i);
    } else {
      assert src[..k] == src;
      WholeGroups(src, enc);
    }
  }

  /** Three bytes make four characters. */
  method EncodeGroup(src: seq<byte>, enc: seq<byte>, tmp: array<byte>, buf: array<byte>, ghost k: nat)
    returns (r: seq<byte>)
    requires tmp.Length == 3 && buf.Length == 4 && tmp != buf && 3 <= k <= |src|
    requires (forall l :: 0 <= l < 3 ==> tmp[l] == src[k - 3 + l]) && Spells(enc, Octets(src[..k - 3]))
    modifies buf
    ensures Spells(r, Octets(src[..k])) && |r| == |enc| + 4
  {
    hide Octets, Sextets, Spells;
    SplitGroup(tmp, buf);
    r := Emit(enc, buf, 4, Octets(src[..k - 3]));
    assert tmp[..] == src[k - 3..k] && buf[..4] == buf[..] && src[..k] == src[..k - 3] + src[k - 3..k];
    OctetsCat(src[..k - 3], src[k - 3..k]);
  }

  /** The last one or two bytes, and the padding. */
  method EncodeRest(src: seq<byte>, enc: seq<byte>, tmp: array<byte>, buf: array<byte>, i0: nat) returns (r: seq<byte>)
    requires tmp.Length == 3 && buf.Length == 4 && tmp != buf && 0 < i0 < 3 && i0 <= |src| && (|src| - i0) % 3 == 0
    requires |enc| == 4 * ((|src| - i0) / 3) && forall l :: 0 <= l < i0 ==> tmp[l] == src[|src| - i0 + l]
    requires Spells(enc, Octets(src[..|src| - i0]))
    modifies tmp, buf
    ensures IsEncoding(src, r)
  {
    hide Octets, Sextets, Spells, IsEncoding;
    var i := i0;
    for j := i to 3
      invariant forall l :: 0 <= l < i ==> tmp[l] == src[|src| - i + l]
      invariant forall l :: i <= l < j ==> tmp[l] == 0
    {
      tmp[j] := 0;
    }
    SplitGroup(tmp, buf);
    ghost var bits := Octets(src[..|src| - i]);
    r := Emit(enc, buf, i + 1, bits);
    TailBits(src[..|src| - i], tmp[..i], tmp[..], buf[..]);
    assert tmp[..i] == src[|src| - i..];
    assert src == src[..|src| - i] + tmp[..i];
    ghost var symbols := r;
    while i < 3
      invariant i0 <= i <= 3 && |r| == |symbols| + i - i0 && r[..|symbols|] == symbols
      invariant forall l :: |symbols| <= l < |r| ==> r[l] == PAD
    {
      r := r + [PAD];
      i := i + 1;
    }
    Padded(src, symbols, r);
  }

  lemma NothingSpelled()
    ensures Spells([], Octets([]))
  {
  }

  lemma WholeGroups(src: seq<byte>, text: seq<byte>)
    requires |src| % 3 == 0 && |text| == 4 * (|src| / 3) && Spells(text, Octets(src))
    ensures IsEncoding(src, text)
  {
    hide Octets, Sextets, IsSymbol;
    assert text[..|text|] == text && Octets(src) + Zeros(0) == Octets(src);
  }

  lemma Padded(src: seq<byte>, symbols: seq<byte>, text: seq<byte>)
    requires |text| == 4 * ((|src| + 2) / 3) && |symbols| == |text| - Padding(|src|) && text[..|symbols|] == symbols
    requires forall l :: |symbols| <= l < |text| ==> text[l] == PAD
    requires Spells(symbols, Octets(src) + Zeros(2 * Padding(|src|)))
    ensures IsEncoding(src, text)
  {
    hide Octets, Sextets, IsSymbol;
  }

  lemma CutZeros(p: seq<bool>, q: seq<bool>, all: seq<bool>, i: nat)
    requires |q| == 8 * i && 0 < i < 3 && all == q + Zeros(8 * (3 - i))
    ensures p + all[..6 * (i + 1)] == p + q + Zeros(2 * (3 - i))
  {
    var n := 6 * (i + 1);
    assert all[..n] == q + Zeros(2 * (3 - i));
  }

  /** The bits of the last symbols are those of the last bytes and zeros. */
  lemma TailBits(head: seq<byte>, tail: seq<byte>, t: seq<byte>, d: seq<byte>)
    requires |t| == 3 && |d| == 4 && Sextets(d) == Octets(t) && 0 < |tail| < 3
    requires t[..|tail|] == tail && forall l :: |tail| <= l < 3 ==> t[l] == 0
    ensures Octets(head) + Sextets(d[..|tail| + 1]) == Octets(head + tail) + Zeros(2 * (3 - |tail|))
  {
    hide Octets, Sextets, Octet, Zeros;
    PaddedGroup(t, |tail|);
    SextetsOfPrefix(d, |tail| + 1);
    OctetsCat(head, tail);
    CutZeros(Octets(head), Octets(tail), Sextets(d), |tail|);
  }

  lemma PaddedGroup(t: seq<byte>, i: nat)
    requires |t| == 3 && i < 3 && forall l :: i <= l < 3 ==> t[l] == 0
    ensures Octets(t) == Octets(t[..i]) + Zeros(8 * (3 - i))
  {
    hide Octets, Octet, Zeros;
    assert t == t[..i] + t[i..];
    OctetsCat(t[..i], t[i..]);
    ZeroBits(t[i..]);
  }

  lemma SextetsOfPrefix(d: seq<byte>, n: nat)
    requires n <= |d|
    ensures Sextets(d[..n]) == Sextets(d)[..6 * n]
  {
    hide Sextets;
    assert d == d[..n] + d[n..];
    SextetsCat(d[..n], d[n..]);
  }

  lemma {:induction false} ZeroBits(t: seq<byte>)
    requires forall l :: 0 <= l < |t| ==> t[l] == 0
    ensures Octets(t) == Zeros(8 * |t|)
    decreases |t|
  {
    if t != [] {
      ZeroBits(t[..|t| - 1]);
      assert Octet(0) == Zeros(8);
    }
  }

  // ---------------------------------------------------------------------------
  // Decoding
  // ---------------------------------------------------------------------------

  /** Each character is looked up in the table, and left as it is if it is not there. */
  method Translate(tmp: array<byte>)
    requires tmp.Length == 4
    modifies tmp
    ensures forall k :: 0 <= k < 4 ==> tmp[k] == if IsSymbol(old(tmp[k])) then Digit(old(tmp[k])) else old(tmp[k])
  {
    hide Symbol, Digit, IsSymbol;
    for i := 0 to 4
      invariant forall k :: i <= k < 4 ==> tmp[k] == old(tmp[k])
      invariant forall k :: 0 <= k < i ==> tmp[k] == if IsSymbol(old(tmp[k])) then Digit(old(tmp[k])) else old(tmp[k])
    {
      ghost var c := tmp[i];
      SymbolsAndDigits(0, c);
      var l: byte := 0;
      while l < 64
        invariant l <= 64 && (IsSymbol(c) ==> l <= Digit(c))
        invariant forall k :: 0 <= k < 4 && k != i ==> tmp[k] == old(tmp[k]) || k < i
        invariant forall k :: 0 <= k < i ==> tmp[k] == if IsSymbol(old(tmp[k])) then Digit(old(tmp[k])) else old(tmp[k])
        invariant tmp[i] == c
        decreases 64 - l
      {
        SymbolsAndDigits(l, c);
        if tmp[i] == Symbol(l) {
          tmp[i] := l;
          break;
        }
        l := l + 1;
      }
    }
  }

  method JoinGroup(tmp: array<byte>, buf: array<byte>)
    requires tmp.Length == 4 && buf.Length == 3 && tmp != buf && forall i :: 0 <= i < 4 ==> tmp[i] < 64
    modifies buf
    ensures Octets(buf[..]) == Sextets(tmp[..])
  {
    hide Octets, Sextets;
    buf[0] := (tmp[0] << 2) + ((tmp[1] & 0x30) >> 4);
    buf[1] := ((tmp[1] & 0xf) << 4) + ((tmp[2] & 0x3c) >> 2);
    buf[2] := ((tmp[2] & 0x3) << 6) + tmp[3];
    JoinedBits(tmp[..], buf[..]);
  }

  /** The first n symbols, in groups of four, are decoded. */
  ghost predicate Decoded(src: seq<byte>, dec: seq<byte>, n: int) {
    0 <= n <= |src| && n % 4 == 0 && |dec| == 3 * (n / 4) && Octets(dec) == Sextets(Digits(src[..n]))
  }

  /** b64_decode_ex, without the NUL that ends the bytes; the size is that of the result. */
  method Decode(src: seq<byte>) returns (dec: seq<byte>)
    ensures IsDecoding(src, dec)
  {
    hide Octets, Sextets, IsSymbol, Digit, Digits, IsDecoding, Decoded;
    var buf, tmp := new byte[3](_ => 0), new byte[4](_ => 0);
    var i, j := 0, 0;
    dec := [];
    SymbolsAndDigits(0, 0);
    NothingDecoded(src);
    while j < |src|
      invariant 0 <= i < 4 && i <= j <= |src|
      invariant (forall k :: 0 <= k < i ==> tmp[k] == src[j - i + k]) && forall l :: 0 <= l < j ==> IsSymbol(src[l])
      invariant Decoded(src, dec, j - i)
      invariant !IsSymbol(PAD)
    {
      if src[j] == PAD { break; }
      var known := IsTableChar(src[j]);
      if !known { break; }
      tmp[i] := src[j];
      i, j := i + 1, j + 1;
      if i == 4 {
        dec := DecodeGroup(src, dec, tmp, buf, j);
        i := 0;
      }
    }
    SymbolsIs(src, j);
    if i > 0 {
      dec := DecodeRest(src, dec, tmp, buf, i, j);
    } else {
      WholeOctets(src, dec, j);
    }
  }

  lemma NothingDecoded(src: seq<byte>)
    ensures Decoded(src, [], 0)
  {
  }

  /** isalnum(c), a plus or a slash. */
  method IsTableChar(c: byte) returns (r: bool)
    ensures r == IsSymbol(c)
  {
    r := 48 <= c <= 57 || 65 <= c <= 90 || 97 <= c <= 122 || c == 43 || c == 47;
  }

  /** Four characters make three bytes. */
  method DecodeGroup(src: seq<byte>, dec: seq<byte>, tmp: array<byte>, buf: array<byte>, ghost j: nat)
    returns (r: seq<byte>)
    requires tmp.Length == 4 && buf.Length == 3 && tmp != buf && 4 <= j <= |src|
    requires forall k :: 0 <= k < 4 ==> tmp[k] == src[j - 4 + k]
    requires forall l :: 0 <= l < j ==> IsSymbol(src[l])
    requires Decoded(src, dec, j - 4)
    modifies tmp, buf
    ensures Decoded(src, r, j)
  {
    hide Octets, Sextets, Digit, IsSymbol;
    forall k | 0 <= k < 4 ensures IsSymbol(tmp[k]) && Digit(tmp[k]) < 64 {
      SymbolsAndDigits(0, tmp[k]);
    }
    Translate(tmp);
    assert tmp[..] == Digits(src[j - 4..j]);
    JoinGroup(tmp, buf);
    r := dec;
    for i := 0 to 3
      invariant r == dec + buf[..i]
    {
      r := r + [buf[i]];
    }
    assert buf[..3] == buf[..] && Digits(src[..j]) == Digits(src[..j - 4]) + Digits(src[j - 4..j]);
    OctetsCat(dec, buf[..]);
    SextetsCat(Digits(src[..j - 4]), Digits(src[j - 4..j]));
  }

  lemma WholeOctets(src: seq<byte>, dec: seq<byte>, j: nat)
    requires j == Symbols(src) && Decoded(src, dec, j)
    ensures IsDecoding(src, dec)
  {
    hide Octets, Sextets;
    assert 8 * |dec| == 6 * j;
  }

  /** The last i symbols, as if zeros followed; one byte less than there are symbols. */
  method DecodeRest(src: seq<byte>, dec: seq<byte>, tmp: array<byte>, buf: array<byte>, i: nat, ghost n: nat)
    returns (r: seq<byte>)
    requires tmp.Length == 4 && buf.Length == 3 && tmp != buf && 0 < i < 4 && i <= n && n == Symbols(src)
    requires (forall k :: 0 <= k < i ==> tmp[k] == src[n - i + k]) && Decoded(src, dec, n - i)
    modifies tmp, buf
    ensures IsDecoding(src, r)
  {
    hide Octets, Sextets, Digit, IsSymbol, IsDecoding;
    for j := i to 4
      invariant forall k :: 0 <= k < i ==> tmp[k] == src[n - i + k]
      invariant forall k :: i <= k < j ==> tmp[k] == 0
    {
      tmp[j] := 0;
    }
    SymbolsAndDigits(0, 0);
    forall k | 0 <= k < i ensures IsSymbol(tmp[k]) && Digit(tmp[k]) < 64 {
      SymbolsAndDigits(0, tmp[k]);
    }
    NulIsNoSymbol();
    Translate(tmp);
    JoinGroup(tmp, buf);
    r := dec;
    for j := 0 to i - 1
      invariant r == dec + buf[..j]
    {
      r := r + [buf[j]];
    }
    assert tmp[..i] == Digits(src[n - i..n]);
    RestBits(src, dec, tmp[..], buf[..], i, n);
  }

  lemma NulIsNoSymbol()
    ensures !IsSymbol(0)
  {
  }

  lemma CutBits(p: seq<bool>, q: seq<bool>, all: seq<bool>, m: nat)
    requires m <= |q| <= |all| && all[..|q|] == q
    ensures p + all[..m] == (p + q)[..|p| + m]
  {
  }

  lemma RestBits(src: seq<byte>, dec: seq<byte>, d: seq<byte>, t: seq<byte>, i: nat, n: nat)
    requires |d| == 4 && |t| == 3 && 0 < i < 4 && i <= n && n == Symbols(src)
    requires d[..i] == Digits(src[n - i..n]) && Octets(t) == Sextets(d)
    requires Decoded(src, dec, n - i)
    ensures IsDecoding(src, dec + t[..i - 1])
  {
    hide Octets, Sextets, Digits, IsSymbol;
    RestSize(n, i, |dec|);
    OctetsCat(dec, t[..i - 1]);
    OctetsOfPrefix(t, i - 1);
    SextetsOfPrefix(d, i);
    DigitsCat(src[..n - i], src[n - i..n]);
    assert src[..n] == src[..n - i] + src[n - i..n];
    SextetsCat(Digits(src[..n - i]), d[..i]);
    CutBits(Octets(dec), Sextets(d[..i]), Sextets(d), 8 * (i - 1));
  }

  lemma RestSize(n: nat, i: nat, size: nat)
    requires 0 < i < 4 && i <= n && (n - i) % 4 == 0 && size == 3 * ((n - i) / 4)
    ensures size + i - 1 == 6 * n / 8
  {
  }

  lemma OctetsOfPrefix(t: seq<byte>, n: nat)
    requires n <= |t|
    ensures Octets(t[..n]) == Octets(t)[..8 * n]
  {
    hide Octets;
    assert t == t[..n] + t[n..];
    OctetsCat(t[..n], t[n..]);
  }

  lemma DigitsCat(s: seq<byte>, t: seq<byte>)
    ensures Digits(s + t) == Digits(s) + Digits(t)
  {
  }
}
