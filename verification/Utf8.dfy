/**
 * UTF-8 as section 3 of RFC 3629 defines it, and the decoder that replaces what is not UTF-8: each
 * maximal ill-formed part becomes one replacement character.
 */
module Utf8 {
  import DecimalInt

  type Byte = b: nat | b < 256
  type Bytes = seq<Byte>
  type Scalar = c: nat | c < 0xD800 || 0xE000 <= c < 0x11_0000

  const LINE_FEED: Byte := 0x0A
  const REPLACEMENT: Scalar := 0xFFFD

  predicate IsContinuation(b: Byte) { 0x80 <= b <= 0xBF }

  function EncodeOne(c: Scalar): (e: Bytes)
    ensures 1 <= |e| <= 4
  {
    if c < 0x80 then [c]
    else if c < 0x800 then [0xC0 + c / 64, 0x80 + c % 64]
    else if c < 0x1_0000 then [0xE0 + c / 4096, 0x80 + c / 64 % 64, 0x80 + c % 64]
    else [0xF0 + c / 262144, 0x80 + c / 4096 % 64, 0x80 + c / 64 % 64, 0x80 + c % 64]
  }

  function Encode(t: seq<Scalar>): Bytes {
    if t == [] then [] else EncodeOne(t[0]) + Encode(t[1..])
  }

  /** The range allowed for the byte after `lead`, for the lead bytes of two, three and four bytes. */
  predicate SecondFits(lead: Byte, b: Byte) {
    if lead == 0xE0 then 0xA0 <= b <= 0xBF
    else if lead == 0xED then 0x80 <= b <= 0x9F
    else if lead == 0xF0 then 0x90 <= b <= 0xBF
    else if lead == 0xF4 then 0x80 <= b <= 0x8F
    else IsContinuation(b)
  }

  /** The six bits a continuation byte carries. */
  function Six(b: Byte): nat
    requires b >= 0x80
  {
    b - 0x80
  }

  /** The next character and the number of bytes it takes. */
  function DecodeOne(s: Bytes): (r: (Scalar, nat))
    requires s != []
    ensures 1 <= r.1 <= |s|
  {
    var b: nat := s[0];
    if b < 0x80 then (b, 1)
    else if b < 0xC2 || b > 0xF4 then (REPLACEMENT, 1)
    else if |s| < 2 || !SecondFits(b, s[1]) then (REPLACEMENT, 1)
    else if b < 0xE0 then ((b - 0xC0) * 64 + Six(s[1]), 2)
    else if |s| < 3 || !IsContinuation(s[2]) then (REPLACEMENT, 2)
    else if b < 0xF0 then ((b - 0xE0) * 4096 + Six(s[1]) * 64 + Six(s[2]), 3)
    else if |s| < 4 || !IsContinuation(s[3]) then (REPLACEMENT, 3)
    else ((b - 0xF0) * 262144 + Six(s[1]) * 4096 + Six(s[2]) * 64 + Six(s[3]), 4)
  }

  /** `Buffer.toString("utf8")`. */
  function Decode(s: Bytes): seq<Scalar> {
    if s == [] then [] else var (c, n) := DecodeOne(s); [c] + Decode(s[n..])
  }

  lemma {:induction false} DecodeOneOfEncoding(c: Scalar, rest: Bytes)
    ensures DecodeOne(EncodeOne(c) + rest) == (c, |EncodeOne(c)|)
  {
    var s := EncodeOne(c) + rest;
    if c < 0x80 {
    } else if c < 0x800 {
      assert s[0] == 0xC0 + c / 64 && s[1] == 0x80 + c % 64;
    } else if c < 0x1_0000 {
      assert s[0] == 0xE0 + c / 4096 && s[1] == 0x80 + c / 64 % 64 && s[2] == 0x80 + c % 64;
      assert c / 64 == c / 4096 * 64 + c / 64 % 64;
    } else {
      FourBytes(c, s);
    }
  }

  lemma {:induction false} FourBytes(c: Scalar, s: Bytes)
    requires c >= 0x1_0000 && EncodeOne(c) <= s
    ensures DecodeOne(s) == (c, 4)
  {
    assert s[0] == 0xF0 + c / 262144 && s[1] == 0x80 + c / 4096 % 64;
    assert s[2] == 0x80 + c / 64 % 64 && s[3] == 0x80 + c % 64;
    assert c / 64 == c / 4096 * 64 + c / 64 % 64;
    assert c / 4096 == c / 262144 * 64 + c / 4096 % 64;
  }

  /** Decoding undoes encoding, and what follows is decoded as if it stood alone. */
  lemma {:induction false} DecodeOfEncoding(t: seq<Scalar>, rest: Bytes)
    ensures Decode(Encode(t) + rest) == t + Decode(rest)
  {
    if t == [] {
      assert Encode(t) + rest == rest;
    } else {
      assert Encode(t) + rest == EncodeOne(t[0]) + (Encode(t[1..]) + rest);
      DecodeStep(t[0], Encode(t[1..]) + rest);
      DecodeOfEncoding(t[1..], rest);
    }
  }

  lemma {:induction false} DecodeStep(c: Scalar, rest: Bytes)
    ensures Decode(EncodeOne(c) + rest) == [c] + Decode(rest)
  {
    DecodeOneOfEncoding(c, rest);
    assert (EncodeOne(c) + rest)[|EncodeOne(c)|..] == rest;
  }

  lemma {:induction false} DecodeUndoesEncode(t: seq<Scalar>)
    ensures Decode(Encode(t)) == t
  {
    DecodeOfEncoding(t, []);
    assert Encode(t) + [] == Encode(t);
  }

  lemma {:induction false} EncodeOfConcat(a: seq<Scalar>, b: seq<Scalar>)
    ensures Encode(a + b) == Encode(a) + Encode(b)
  {
    if a == [] {
      assert a + b == b;
    } else {
      assert (a + b)[1..] == a[1..] + b;
      EncodeOfConcat(a[1..], b);
    }
  }

  /** A line feed byte is always the character, never part of another one. */
  lemma LineFeedIsItself(c: Scalar)
    ensures LINE_FEED in EncodeOne(c) <==> c == LINE_FEED
    ensures c == LINE_FEED ==> EncodeOne(c) == [LINE_FEED]
  {
  }

  /** A character is a lead byte, which is no continuation, and continuation bytes. */
  lemma EncodingShape(c: Scalar)
    ensures var e := EncodeOne(c);
            && !IsContinuation(e[0]) && (forall i | 0 < i < |e| :: IsContinuation(e[i]))
            && (|e| == 1 <==> e[0] < 0x80)
            && (|e| == 2 <==> 0xC0 <= e[0] <= 0xDF)
            && (|e| == 3 <==> 0xE0 <= e[0] <= 0xEF)
            && (|e| == 4 <==> 0xF0 <= e[0] <= 0xF7)
  {
  }

  // ---------------------------------------------------------------------------------------------
  // What is not UTF-8
  // ---------------------------------------------------------------------------------------------

  /** These bytes begin the encoding of some character, or are all of it. */
  ghost predicate Begins(part: Bytes) {
    exists c :: part <= EncodeOne(c)
  }

  lemma {:induction false} TwoBytesFit(c: Scalar)
    requires 0x80 <= c < 0x800
    ensures EncodeOne(c)[0] == 0xC0 + c / 64 >= 0xC2 && EncodeOne(c)[0] < 0xE0 && IsContinuation(EncodeOne(c)[1])
  {
  }

  lemma {:induction false} ThreeBytesFit(c: Scalar)
    requires 0x800 <= c < 0x1_0000
    ensures 0xE0 <= EncodeOne(c)[0] < 0xF0 && SecondFits(EncodeOne(c)[0], EncodeOne(c)[1])
  {
    var (lead, second) := (c / 4096, c / 64 % 64);
    assert c / 64 == lead * 64 + second && c >= (lead * 64 + second) * 64;
    if lead == 0 { assert c / 64 >= 0x20; }
    if lead == 0xD { assert c < 0xD800 && c / 64 < 0xD * 64 + 0x20; }
  }

  lemma {:induction false} FourBytesFit(c: Scalar)
    requires c >= 0x1_0000
    ensures 0xF0 <= EncodeOne(c)[0] <= 0xF4 && SecondFits(EncodeOne(c)[0], EncodeOne(c)[1])
  {
    var (lead, second) := (c / 262144, c / 4096 % 64);
    assert c / 4096 == lead * 64 + second;
    if lead == 0 { assert c / 4096 >= 0x10; }
    if lead == 4 { assert c / 4096 < 4 * 64 + 0x10; }
  }

  /** The first two bytes of a character are among those the table of well-formed sequences allows. */
  lemma {:induction false} EncodingFits(c: Scalar)
    ensures var e := EncodeOne(c);
            && (|e| == 1 <==> c < 0x80) && (|e| == 1 ==> e[0] < 0x80)
            && (|e| > 1 ==> 0xC2 <= e[0] <= 0xF4 && SecondFits(e[0], e[1]))
            && (|e| > 2 ==> e[0] >= 0xE0) && (|e| > 3 ==> e[0] >= 0xF0)
            && (|e| == 2 ==> e[0] < 0xE0) && (|e| == 3 ==> e[0] < 0xF0)
  {
    LengthOf(c);
    hide EncodeOne;
    if c < 0x80 { Ascii(c); }
    else if c < 0x800 { TwoBytesFit(c); }
    else if c < 0x1_0000 { ThreeBytesFit(c); }
    else { FourBytesFit(c); }
  }

  lemma LengthOf(c: Scalar)
    ensures |EncodeOne(c)| == if c < 0x80 then 1 else if c < 0x800 then 2 else if c < 0x1_0000 then 3 else 4
  {
  }

  /** Division by a power of two of a number given in parts. */
  lemma {:induction false} Parts(c: nat, d: nat, q: nat, r: nat)
    requires d >= 1 && c == d * q + r && r < d
    ensures c / d == q && c % d == r
  {
    DecimalInt.QuotientIsUnique(c, d, q, r);
    assert c == d * (c / d) + c % d;
  }

  lemma {:induction false} SomeBeginning(b: Byte, d: Byte)
    requires 0xE0 <= b <= 0xF4 && SecondFits(b, d)
    ensures Begins([b, d])
  {
    if b < 0xF0 {
      var c: nat := (b - 0xE0) * 4096 + Six(d) * 64;
      Parts(c, 4096, b - 0xE0, Six(d) * 64);
      Parts(c, 64, (b - 0xE0) * 64 + Six(d), 0);
      assert 0x800 <= c < 0x1_0000;
      assert [b, d] <= EncodeOne(c);
    } else {
      LongBeginning(b, d, 0x80);
      var c :| [b, d, 0x80] <= EncodeOne(c);
      assert [b, d, 0x80][..2] == [b, d];
      assert [b, d] <= EncodeOne(c);
    }
  }

  lemma {:induction false} LongBeginning(b: Byte, d: Byte, f: Byte)
    requires 0xF0 <= b <= 0xF4 && SecondFits(b, d) && IsContinuation(f)
    ensures Begins([b, d, f])
  {
    LongShapeIsEncoding([b, d, f, 0x80]);
    var c: nat := (b - 0xF0) * 262144 + Six(d) * 4096 + Six(f) * 64;
    assert EncodeOne(c) == [b, d, f, 0x80];
    assert [b, d, f] <= EncodeOne(c);
  }

  /** Bytes with the shape of a character's encoding are one. */
  lemma {:induction false} ShapeIsEncoding(s: Bytes)
    ensures |s| == 2 && 0xC2 <= s[0] < 0xE0 && IsContinuation(s[1]) ==>
              EncodeOne((s[0] - 0xC0) * 64 + Six(s[1])) == s
    ensures |s| == 3 && 0xE0 <= s[0] < 0xF0 && SecondFits(s[0], s[1]) && IsContinuation(s[2]) ==>
              EncodeOne((s[0] - 0xE0) * 4096 + Six(s[1]) * 64 + Six(s[2])) == s
  {
    if |s| == 2 && 0xC2 <= s[0] < 0xE0 && IsContinuation(s[1]) {
      Parts((s[0] - 0xC0) * 64 + Six(s[1]), 64, s[0] - 0xC0, Six(s[1]));
    }
    if |s| == 3 && 0xE0 <= s[0] < 0xF0 && SecondFits(s[0], s[1]) && IsContinuation(s[2]) {
      var (c, x) := ((s[0] - 0xE0) * 4096 + Six(s[1]) * 64 + Six(s[2]), (s[0] - 0xE0) * 64 + Six(s[1]));
      Parts(c, 64, x, Six(s[2]));
      Parts(c, 4096, s[0] - 0xE0, Six(s[1]) * 64 + Six(s[2]));
      Parts(x, 64, s[0] - 0xE0, Six(s[1]));
      assert 0x800 <= c < 0x1_0000;
    }
  }

  lemma {:induction false} LongShapeIsEncoding(s: Bytes)
    requires |s| == 4 && 0xF0 <= s[0] <= 0xF4 && SecondFits(s[0], s[1]) && IsContinuation(s[2]) && IsContinuation(s[3])
    ensures EncodeOne((s[0] - 0xF0) * 262144 + Six(s[1]) * 4096 + Six(s[2]) * 64 + Six(s[3])) == s
  {
    var c: nat := (s[0] - 0xF0) * 262144 + Six(s[1]) * 4096 + Six(s[2]) * 64 + Six(s[3]);
    var (x, y, z) := ((s[0] - 0xF0) * 4096 + Six(s[1]) * 64 + Six(s[2]), (s[0] - 0xF0) * 64 + Six(s[1]), s[0] - 0xF0);
    Parts(c, 64, x, Six(s[3]));
    Parts(c, 4096, y, Six(s[2]) * 64 + Six(s[3]));
    Parts(c, 262144, z, Six(s[1]) * 4096 + Six(s[2]) * 64 + Six(s[3]));
    Parts(x, 64, y, Six(s[2]));
    Parts(y, 64, z, Six(s[1]));
    assert 0x1_0000 <= c < 0x11_0000;
  }

  /** Nothing that begins a character is longer than what the decoder takes at once. */
  lemma {:induction false} TakenIsMaximal(s: Bytes, c: Scalar, m: nat)
    requires s != [] && DecodeOne(s).1 < m <= |s|
    ensures !(s[..m] <= EncodeOne(c))
  {
    EncodingFits(c);
    EncodingShape(c);
    var e := EncodeOne(c);
    hide EncodeOne;
    if s[..m] <= e { assert forall i | 0 <= i < m :: s[..m][i] == s[i] && s[i] == e[i]; }
  }

  /** The decoder has rejected the bytes it took. */
  predicate Rejects(s: Bytes)
    requires s != []
  {
    DecodeOne(s).0 == REPLACEMENT && !(EncodeOne(REPLACEMENT) <= s)
  }

  lemma {:induction false} TakenIsEncoding(s: Bytes)
    requires s != []
    ensures var (c, n) := DecodeOne(s);
            if Rejects(s) then n == 1 || Begins(s[..n]) else EncodeOne(c) <= s && n == |EncodeOne(c)|
  {
    var (c, n) := DecodeOne(s);
    hide EncodeOne;
    if n >= 2 { ShapeIsEncoding(s[..2]); }
    if n >= 3 { ShapeIsEncoding(s[..3]); }
    if n == 4 { LongShapeIsEncoding(s[..4]); }
    if s[0] < 0x80 { Ascii(s[0]); }
    if n == 2 && s[0] >= 0xE0 {
      SomeBeginning(s[0], s[1]);
      assert s[..2] == [s[0], s[1]];
    }
    if n == 3 && s[0] >= 0xF0 {
      LongBeginning(s[0], s[1], s[2]);
      assert s[..3] == [s[0], s[1], s[2]];
    }
  }

  lemma Ascii(b: Byte)
    requires b < 0x80
    ensures EncodeOne(b) == [b]
  {
  }

  /**
   * What the decoder takes at once: the character that the bytes begin with, if there is one. Otherwise one
   * replacement stands for the longest part that could still have become a character, or for one byte.
   */
  lemma {:induction false} DecodesMaximalPart(s: Bytes)
    requires s != []
    ensures var (c, n) := DecodeOne(s);
            && (forall m | n < m <= |s| :: !Begins(s[..m]))
            && if exists d :: EncodeOne(d) <= s then EncodeOne(c) <= s && n == |EncodeOne(c)|
               else c == REPLACEMENT && (n == 1 || Begins(s[..n]))
  {
    var (c, n) := DecodeOne(s);
    hide EncodeOne, DecodeOne;
    TakenIsEncoding(s);
    forall m | n < m <= |s| ensures !Begins(s[..m]) {
      forall d ensures !(s[..m] <= EncodeOne(d)) { TakenIsMaximal(s, d, m); }
    }
    forall d | EncodeOne(d) <= s ensures c == d && EncodeOne(c) <= s {
      DecodeOneOfEncoding(d, s[|EncodeOne(d)|..]);
      assert EncodeOne(d) + s[|EncodeOne(d)|..] == s;
    }
  }
}
