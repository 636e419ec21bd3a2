/**
 * `JSON.stringify` on a string, in its well-formed variant: a surrogate pair stays as it is, a lone
 * surrogate is escaped. Section 7 of RFC 8259 gives the grammar of the result.
 */
module JsonString {
  import opened Text16

  function HexDigit(d: nat): CodeUnit
    requires d < 16
  {
    if d < 10 then 0x30 + d else 0x61 + (d - 10)
  }

  function HexValue(u: CodeUnit): nat {
    if 0x30 <= u <= 0x39 then u - 0x30 else if 0x61 <= u <= 0x66 then u - 0x61 + 10 else 0
  }

  function UnicodeEscape(u: CodeUnit): Text {
    [BACKSLASH, LETTER_U, HexDigit(u / 4096), HexDigit(u / 256 % 16), HexDigit(u / 16 % 16), HexDigit(u % 16)]
  }

  /** The letter after the backslash of a two-character escape. */
  function ShortEscape(u: CodeUnit): (letter: CodeUnit)
  {
    if u == 0x08 then 0x62
    else if u == 0x09 then 0x74
    else if u == 0x0A then 0x6E
    else if u == 0x0C then 0x66
    else if u == 0x0D then 0x72
    else if u == QUOTE || u == BACKSLASH then u
    else 0
  }

  function ShortEscapeValue(letter: CodeUnit): CodeUnit {
    if letter == 0x62 then 0x08
    else if letter == 0x74 then 0x09
    else if letter == 0x6E then 0x0A
    else if letter == 0x66 then 0x0C
    else if letter == 0x72 then 0x0D
    else letter
  }

  predicate StartsPair(s: Text) {
    |s| >= 2 && IsHighSurrogate(s[0]) && IsLowSurrogate(s[1])
  }

  /** How `s[0]` is written; `inPair` says it is the second half of a surrogate pair. */
  function Token(s: Text, inPair: bool): Text
    requires s != []
  {
    var u := s[0];
    if inPair || StartsPair(s) then [u]
    else if ShortEscape(u) != 0 then [BACKSLASH, ShortEscape(u)]
    else if u < 0x20 || IsHighSurrogate(u) || IsLowSurrogate(u) then UnicodeEscape(u)
    else [u]
  }

  function Escape(s: Text, inPair: bool): Text {
    if s == [] then [] else Token(s, inPair) + Escape(s[1..], !inPair && StartsPair(s))
  }

  function Quote(s: Text): Text {
    [QUOTE] + Escape(s, false) + [QUOTE]
  }

  /** Only the second half of a pair may be announced as one. */
  predicate Announced(s: Text, inPair: bool) {
    inPair ==> s != [] && IsLowSurrogate(s[0])
  }

  function FromHex(digits: Text): nat
    requires |digits| == 4
  {
    HexValue(digits[0]) * 4096 + HexValue(digits[1]) * 256 + HexValue(digits[2]) * 16 + HexValue(digits[3])
  }

  /** What a reader makes of the next token: the unit it stands for and the token's length. */
  function ReadToken(t: Text): (nat, nat) {
    if t == [] then (0, 0)
    else if t[0] != BACKSLASH then (t[0], 1)
    else if |t| >= 2 && t[1] != LETTER_U then (ShortEscapeValue(t[1]), 2)
    else if |t| >= 6 then (FromHex(t[2..6]), 6)
    else (0, 0)
  }

  lemma {:induction false} HexRoundTrip(u: CodeUnit)
    ensures FromHex(UnicodeEscape(u)[2..6]) == u
  {
    var (a, b, c, d) := (u / 4096, u / 256 % 16, u / 16 % 16, u % 16);
    assert u == u / 16 * 16 + d;
    assert u / 16 == u / 256 * 16 + c;
    assert u / 256 == a * 16 + b;
    assert UnicodeEscape(u)[2..6] == [HexDigit(a), HexDigit(b), HexDigit(c), HexDigit(d)];
  }

  lemma {:induction false} UnicodeEscapeReadsBack(u: CodeUnit, rest: Text)
    ensures ReadToken(UnicodeEscape(u) + rest) == (u, 6)
  {
    HexRoundTrip(u);
    assert (UnicodeEscape(u) + rest)[2..6] == UnicodeEscape(u)[2..6];
  }

  /** A token can be read back whatever follows it, and never looks like the closing quote. */
  lemma {:induction false} TokenReadsBack(s: Text, inPair: bool, rest: Text)
    requires s != [] && Announced(s, inPair)
    ensures ReadToken(Token(s, inPair) + rest) == (s[0], |Token(s, inPair)|)
    ensures Token(s, inPair) != [] && Token(s, inPair)[0] != QUOTE
  {
    var u := s[0];
    if inPair || StartsPair(s) {
    } else if ShortEscape(u) != 0 {
    } else if u < 0x20 || IsHighSurrogate(u) || IsLowSurrogate(u) {
      UnicodeEscapeReadsBack(u, rest);
    }
  }

  lemma EscapeUnfolds(s: Text, inPair: bool, rest: Text)
    requires s != []
    ensures Escape(s, inPair) + [QUOTE] + rest ==
            Token(s, inPair) + (Escape(s[1..], !inPair && StartsPair(s)) + [QUOTE] + rest)
  {
  }

  lemma {:induction false} EqualTokens(s: Text, p: bool, t: Text, q: bool, x: Text, y: Text)
    requires s != [] && Announced(s, p) && t != [] && Announced(t, q)
    requires Token(s, p) + x == Token(t, q) + y
    ensures s[0] == t[0] && x == y
  {
    TokenReadsBack(s, p, x);
    TokenReadsBack(t, q, y);
    assert x == (Token(s, p) + x)[|Token(s, p)|..];
    assert y == (Token(t, q) + y)[|Token(t, q)|..];
  }

  lemma {:induction false} ClosingQuoteDiffers(s: Text, p: bool, rest: Text, closed: Text)
    requires s != [] && Announced(s, p)
    ensures Escape(s, p) + [QUOTE] + rest != [QUOTE] + closed
  {
    EscapeUnfolds(s, p, rest);
    TokenReadsBack(s, p, []);
    assert (Escape(s, p) + [QUOTE] + rest)[0] == Token(s, p)[0];
  }

  lemma {:induction false} EscapeIsSelfDelimiting(s: Text, p: bool, t: Text, q: bool, x: Text, y: Text)
    requires Announced(s, p) && Announced(t, q)
    requires Escape(s, p) + [QUOTE] + x == Escape(t, q) + [QUOTE] + y
    ensures s == t && x == y
  {
    if s == [] && t == [] {
      assert x == (Escape(s, p) + [QUOTE] + x)[1..];
      assert y == (Escape(t, q) + [QUOTE] + y)[1..];
    } else if s == [] {
      ClosingQuoteDiffers(t, q, y, x);
    } else if t == [] {
      ClosingQuoteDiffers(s, p, x, y);
    } else {
      var (p', q') := (!p && StartsPair(s), !q && StartsPair(t));
      EscapeUnfolds(s, p, x);
      EscapeUnfolds(t, q, y);
      EqualTokens(s, p, t, q, Escape(s[1..], p') + [QUOTE] + x, Escape(t[1..], q') + [QUOTE] + y);
      EscapeIsSelfDelimiting(s[1..], p', t[1..], q', x, y);
      assert s == [s[0]] + s[1..] && t == [t[0]] + t[1..];
    }
  }

  /** A quoted string ends itself: no text can follow it that would let another string be read. */
  lemma {:induction false} QuoteIsSelfDelimiting(s: Text, t: Text, x: Text, y: Text)
    requires Quote(s) + x == Quote(t) + y
    ensures s == t && x == y
  {
    var whole := Quote(s) + x;
    assert whole[1..] == Escape(s, false) + [QUOTE] + x;
    assert whole[1..] == Escape(t, false) + [QUOTE] + y;
    EscapeIsSelfDelimiting(s, false, t, false, x, y);
  }

  // ---------------------------------------------------------------------------------------------
  // Well-formed text
  // ---------------------------------------------------------------------------------------------

  predicate IsSurrogate(u: CodeUnit) {
    IsHighSurrogate(u) || IsLowSurrogate(u)
  }

  /** Surrogates come in pairs only, as UTF-8 can write them. */
  predicate Paired(t: Text)
    decreases |t|
  {
    if t == [] then true
    else if StartsPair(t) then Paired(t[2..])
    else !IsSurrogate(t[0]) && Paired(t[1..])
  }

  predicate NoControl(t: Text) {
    forall i | 0 <= i < |t| :: t[i] >= 0x20
  }

  /**
   * A unit stands for itself unless it is a control, a quote, a backslash or half a pair alone; the seven
   * that have a two-character escape are written so, and only they.
   */
  lemma TokenIsItselfIff(s: Text, inPair: bool)
    requires s != [] && Announced(s, inPair)
    ensures |Token(s, inPair)| == 2 <==> s[0] in {0x08, 0x09, 0x0A, 0x0C, 0x0D, QUOTE, BACKSLASH}
    ensures Token(s, inPair) == [s[0]] <==>
            s[0] >= 0x20 && s[0] != QUOTE && s[0] != BACKSLASH && (IsSurrogate(s[0]) ==> inPair || StartsPair(s))
  {
  }

  lemma {:induction false} TokenIsPlain(s: Text, inPair: bool)
    requires s != [] && Announced(s, inPair)
    ensures NoControl(Token(s, inPair))
    ensures Token(s, inPair) != [s[0]] ==> forall i | 0 <= i < |Token(s, inPair)| :: Token(s, inPair)[i] < 0x80
  {
  }

  lemma {:induction false} PlainBefore(a: Text, b: Text)
    requires Paired(b) && forall i | 0 <= i < |a| :: !IsSurrogate(a[i])
    ensures Paired(a + b)
  {
    if a == [] {
      assert a + b == b;
    } else {
      assert (a + b)[1..] == a[1..] + b;
      PlainBefore(a[1..], b);
    }
  }

  /** Whatever the string, its text holds no control characters and no half of a surrogate pair alone. */
  lemma {:induction false} EscapeIsWellFormed(s: Text, inPair: bool)
    requires Announced(s, inPair)
    ensures NoControl(Escape(s, inPair))
    ensures if inPair then Escape(s, inPair)[..1] == [s[0]] && Paired(Escape(s, inPair)[1..])
            else Paired(Escape(s, inPair))
  {
    if s != [] {
      var (token, next) := (Token(s, inPair), !inPair && StartsPair(s));
      EscapeIsWellFormed(s[1..], next);
      TokenIsPlain(s, inPair);
      TokenIsItselfIff(s, inPair);
      var rest := Escape(s[1..], next);
      if inPair {
        assert (token + rest)[1..] == rest;
      } else if StartsPair(s) {
        assert rest[0] == s[1];
        assert StartsPair(token + rest) && (token + rest)[2..] == rest[1..];
      } else {
        PlainBefore(token, rest);
      }
    }
  }

  lemma {:induction false} QuoteIsWellFormed(s: Text)
    ensures NoControl(Quote(s)) && Paired(Quote(s))
  {
    EscapeIsWellFormed(s, false);
    assert forall i | 0 <= i < |Quote(s)| :: Quote(s)[i] == QUOTE || (0 < i && Quote(s)[i] == Escape(s, false)[i - 1]);
    PairedBefore(Escape(s, false), [QUOTE]);
    PlainBefore([QUOTE], Escape(s, false) + [QUOTE]);
    assert [QUOTE] + (Escape(s, false) + [QUOTE]) == Quote(s);
  }

  lemma {:induction false} PairedBefore(a: Text, b: Text)
    requires Paired(a) && Paired(b)
    ensures Paired(a + b)
    decreases |a|
  {
    if a == [] {
      assert a + b == b;
    } else if StartsPair(a) {
      assert (a + b)[2..] == a[2..] + b;
      PairedBefore(a[2..], b);
    } else {
      assert (a + b)[1..] == a[1..] + b;
      PairedBefore(a[1..], b);
    }
  }
}
