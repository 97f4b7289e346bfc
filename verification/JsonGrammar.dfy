/**
 The characters and strings of JSON as RFC 8259 lists them, apart from any tokenizer.
 */
module JsonGrammar {

  /** White space: section 2 of RFC 8259. */
  predicate IsWhite(c: char) { c == ' ' || c == '\t' || c == '\n' || c == '\r' }

  predicate IsSpace(w: string) { forall k :: 0 <= k < |w| ==> IsWhite(w[k]) }

  /** HEXDIG of section 7, in either case. */
  predicate IsHexDigit(c: char) { ('0' <= c && c <= '9') || ('a' <= c && c <= 'f') || ('A' <= c && c <= 'F') }

  /** The two-character escapes of section 7. */
  predicate IsEscapeLetter(c: char) {
    c == '\"' || c == '\\' || c == '/' || c == 'b' || c == 'f' || c == 'n' || c == 'r' || c == 't'
  }

  /** The body of a string: unescaped characters, two-character escapes and \uXXXX.  (The control
      characters that the RFC wants escaped are let through, all but NUL.) */
  predicate IsBody(raw: string) {
    if raw == "" then true
    else if raw[0] == '\\' then
      |raw| >= 2 &&
      if raw[1] == 'u' then
        |raw| >= 6 && IsHexDigit(raw[2]) && IsHexDigit(raw[3]) && IsHexDigit(raw[4]) && IsHexDigit(raw[5]) &&
        IsBody(raw[6..])
      else IsEscapeLetter(raw[1]) && IsBody(raw[2..])
    else raw[0] != '\"' && raw[0] != '\0' && IsBody(raw[1..])
  }

  /** The characters after which a number or a literal name has ended: white space, the two separators, and
      the closing brackets. */
  predicate IsStop(c: char) { IsWhite(c) || c == ':' || c == ',' || c == ']' || c == '}' }

  /** Visible ASCII characters other than those. */
  predicate IsBare(text: string) {
    forall k :: 0 <= k < |text| ==> '!' <= text[k] <= '~' && !IsStop(text[k])
  }
}
