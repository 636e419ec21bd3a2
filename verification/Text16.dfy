/** Text as JavaScript holds it: a sequence of UTF-16 code units, lone surrogates included. */
module Text16 {
  type CodeUnit = u: nat | u < 0x1_0000
  type Text = seq<CodeUnit>

  const COMMA: CodeUnit := 0x2C
  const COLON: CodeUnit := 0x3A
  const QUOTE: CodeUnit := 0x22
  const BACKSLASH: CodeUnit := 0x5C
  const LETTER_U: CodeUnit := 0x75
  const OPEN_BRACKET: CodeUnit := 0x5B
  const CLOSE_BRACKET: CodeUnit := 0x5D
  const OPEN_BRACE: CodeUnit := 0x7B
  const CLOSE_BRACE: CodeUnit := 0x7D

  predicate IsHighSurrogate(u: CodeUnit) { 0xD800 <= u <= 0xDBFF }

  predicate IsLowSurrogate(u: CodeUnit) { 0xDC00 <= u <= 0xDFFF }

  /** The order of `Array.prototype.sort` on strings: code unit by code unit, a proper prefix first. */
  predicate Less(a: Text, b: Text) {
    if b == [] then false
    else if a == [] then true
    else a[0] < b[0] || (a[0] == b[0] && Less(a[1..], b[1..]))
  }

  lemma LessIsIrreflexive(a: Text)
    ensures !Less(a, a)
  {
  }

  lemma LessIsTransitive(a: Text, b: Text, c: Text)
    requires Less(a, b) && Less(b, c)
    ensures Less(a, c)
  {
  }

  lemma {:induction false} LessIsTotal(a: Text, b: Text)
    ensures Less(a, b) || Less(b, a) || a == b
  {
    if a != [] && b != [] && a[0] == b[0] {
      LessIsTotal(a[1..], b[1..]);
      assert a == [a[0]] + a[1..] && b == [b[0]] + b[1..];
    }
  }
}
