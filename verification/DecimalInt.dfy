/** Decimal text: how naturals are written, read back and compared without ever becoming a double. */
module DecimalInt {
  import opened Options

  const MAX_SAFE_INTEGER := 0x1F_FFFF_FFFF_FFFF
  const TWO_TO_THE_53 := 0x20_0000_0000_0000

  predicate IsDigit(c: char) { '0' <= c <= '9' }

  predicate AllDigits(s: string) {
    forall i | 0 <= i < |s| :: IsDigit(s[i])
  }

  /** The text `0`, or digits that do not start with a zero. */
  predicate IsCanonical(s: string) {
    s != [] && AllDigits(s) && (s[0] == '0' ==> |s| == 1)
  }

  function DigitValue(c: char): nat
    requires IsDigit(c)
  {
    c as int - '0' as int
  }

  function DigitChar(d: nat): char
    requires d < 10
  {
    '0' + d as char
  }

  /** The natural number that a string of digits denotes. */
  function Value(s: string): nat
    requires AllDigits(s)
  {
    if s == [] then 0 else 10 * Value(s[..|s| - 1]) + DigitValue(s[|s| - 1])
  }

  /** `String(n)`. */
  function Print(n: nat): (s: string)
    ensures IsCanonical(s) && Value(s) == n
  {
    if n < 10 then [DigitChar(n)]
    else
      var s := Print(n / 10);
      assert (s + [DigitChar(n % 10)])[..|s|] == s;
      s + [DigitChar(n % 10)]
  }

  function Pow10(k: nat): nat {
    if k == 0 then 1 else 10 * Pow10(k - 1)
  }

  lemma {:induction false} ValueBounds(s: string)
    requires AllDigits(s)
    ensures Value(s) < Pow10(|s|)
    ensures s != [] && s[0] != '0' ==> Value(s) >= Pow10(|s| - 1)
  {
    if |s| > 0 {
      var t := s[..|s| - 1];
      ValueBounds(t);
      if t != [] { assert t[0] == s[0]; }
    }
  }

  lemma {:induction false} Pow10IsMonotone(j: nat, k: nat)
    requires j <= k
    ensures Pow10(j) <= Pow10(k)
    decreases k
  {
    if j < k { Pow10IsMonotone(j, k - 1); }
  }

  /** Canonical texts are what printing produces: there is no second spelling of a number. */
  lemma {:induction false} PrintOfValue(s: string)
    requires IsCanonical(s)
    ensures Print(Value(s)) == s
  {
    var t := s[..|s| - 1];
    if |s| > 1 {
      PrintOfValue(t);
      ValueBounds(t);
      Pow10IsMonotone(0, |t| - 1);
      var d := DigitValue(s[|s| - 1]);
      assert Value(s) == 10 * Value(t) + d;
      TensAndOnes(Value(t), d);
      assert Value(t) >= 1;
      assert s == t + [s[|s| - 1]];
    }
  }

  lemma TensAndOnes(a: nat, d: nat)
    requires d < 10
    ensures (10 * a + d) / 10 == a && (10 * a + d) % 10 == d
  {
  }

  lemma {:induction false} PrintIsInjective(m: nat, n: nat)
    requires Print(m) == Print(n)
    ensures m == n
  {
    assert Value(Print(m)) == m && Value(Print(n)) == n;
  }

  // ---------------------------------------------------------------------------------------------
  // Number(text): the nearest double
  // ---------------------------------------------------------------------------------------------

  /** The spacing of doubles around `v`: the power of two that leaves 53 significant bits. */
  function Spacing(v: nat): (u: nat)
    ensures u >= 1
    ensures v < TWO_TO_THE_53 ==> u == 1
    ensures v >= TWO_TO_THE_53 ==> u >= 2 && u % 2 == 0 && v / u >= TWO_TO_THE_53 / 2
    ensures v / u < TWO_TO_THE_53
  {
    if v < TWO_TO_THE_53 then 1 else
      assert v / (2 * Spacing(v / 2)) == v / 2 / Spacing(v / 2) by { HalvesCompose(v, Spacing(v / 2)); }
      2 * Spacing(v / 2)
  }

  lemma {:induction false} HalvesCompose(v: nat, u: nat)
    requires u >= 1
    ensures v / (2 * u) == v / 2 / u
  {
    var q := v / 2 / u;
    assert v / 2 == q * u + v / 2 % u;
    assert v == 2 * (v / 2) + v % 2;
    assert v == (2 * u) * q + (2 * (v / 2 % u) + v % 2);
    QuotientIsUnique(v, 2 * u, q, 2 * (v / 2 % u) + v % 2);
  }

  lemma {:induction false} QuotientIsUnique(v: nat, d: nat, q: nat, r: nat)
    requires d >= 1 && v == d * q + r && r < d
    ensures v / d == q
  {
    var q' := v / d;
    assert v == d * q' + v % d;
    if q' < q {
      LargerQuotient(d, q, r, q', v % d);
    } else if q < q' {
      LargerQuotient(d, q', v % d, q, r);
    }
  }

  lemma {:induction false} LargerQuotient(d: nat, p: nat, r: nat, q: nat, s: nat)
    requires p > q && s < d
    ensures d * p + r > d * q + s
  {
    assert d * p >= d * (q + 1) == d * q + d;
  }

  /** Rounding to the nearest double, ties to even; the exponent's upper limit plays no part here. */
  function NearestDouble(v: nat): nat {
    var u := Spacing(v);
    var (q, r) := (v / u, v % u);
    if 2 * r < u || (2 * r == u && q % 2 == 0) then q * u else (q + 1) * u
  }

  /** A double of 53 significant bits, as near as there is one at this size, and of two as near the even one. */
  lemma {:induction false} NearestDoubleIsNearest(v: nat)
    ensures var (n, u) := (NearestDouble(v), Spacing(v));
            && n % u == 0 && n / u <= TWO_TO_THE_53
            && 2 * n <= 2 * v + u && 2 * v <= 2 * n + u
            && (2 * n == 2 * v + u || 2 * v == 2 * n + u ==> n / u % 2 == 0)
  {
    hide Spacing, NearestDouble;
    var u := Spacing(v);
    NearestDoubleIs(v, u);
    RoundedIsNearest(v, u, NearestDouble(v));
  }

  predicate RoundsDown(v: nat, u: nat)
    requires u >= 1
  {
    2 * (v % u) < u || (2 * (v % u) == u && v / u % 2 == 0)
  }

  lemma NearestDoubleIs(v: nat, u: nat)
    requires u == Spacing(v)
    ensures NearestDouble(v) == if RoundsDown(v, u) then v / u * u else (v / u + 1) * u
  {
  }

  lemma {:induction false} RoundedIsNearest(v: nat, u: nat, n: nat)
    requires u >= 1 && v / u < TWO_TO_THE_53
    requires n == if RoundsDown(v, u) then v / u * u else (v / u + 1) * u
    ensures n % u == 0 && n / u <= TWO_TO_THE_53
    ensures 2 * n <= 2 * v + u && 2 * v <= 2 * n + u
    ensures 2 * n == 2 * v + u || 2 * v == 2 * n + u ==> n / u % 2 == 0
  {
    var (q, r) := (v / u, v % u);
    var k := if RoundsDown(v, u) then q else q + 1;
    Whole(v, u);
    Multiple(k, u);
    Halfway(q * u, u, q, r);
    Next(q, u);
  }

  lemma Next(q: nat, u: nat)
    ensures (q + 1) * u == q * u + u
  {
  }

  lemma {:induction false} Multiple(k: nat, u: nat)
    requires u >= 1
    ensures k * u / u == k && k * u % u == 0
  {
    QuotientIsUnique(k * u, u, k, 0);
    RemainderIsZero(k, u);
  }

  lemma Whole(v: nat, u: nat)
    requires u >= 1
    ensures v == v / u * u + v % u
  {
  }

  /** The arithmetic of rounding `p + r` to `p` or `p + u`. */
  lemma Halfway(p: nat, u: nat, q: nat, r: nat)
    requires r < u
    ensures var down := 2 * r < u || (2 * r == u && q % 2 == 0);
            var (v, n, k) := (p + r, if down then p else p + u, if down then q else q + 1);
            && 2 * n <= 2 * v + u && 2 * v <= 2 * n + u
            && (2 * n == 2 * v + u || 2 * v == 2 * n + u ==> k % 2 == 0)
  {
  }

  lemma {:induction false} RemainderIsZero(q: nat, u: nat)
    requires u >= 1
    ensures q * u % u == 0
  {
    QuotientIsUnique(q * u, u, q, 0);
    assert q * u == u * (q * u / u) + q * u % u;
  }

  lemma {:induction false} NearestDoubleOfSafe(v: nat)
    ensures v < TWO_TO_THE_53 ==> NearestDouble(v) == v
    ensures v >= TWO_TO_THE_53 ==> NearestDouble(v) >= TWO_TO_THE_53
  {
    var u := Spacing(v);
    if v >= TWO_TO_THE_53 {
      assert v / u * u >= TWO_TO_THE_53 / 2 * 2 by { ProductIsMonotone(v / u, TWO_TO_THE_53 / 2, u, 2); }
      assert (v / u + 1) * u == v / u * u + u;
    }
  }

  lemma {:induction false} ProductIsMonotone(a: nat, b: nat, c: nat, d: nat)
    requires a >= b && c >= d
    ensures a * c >= b * d
  {
    assert a * c >= b * c >= b * d;
  }

  // ---------------------------------------------------------------------------------------------
  // The two questions asked of a text
  // ---------------------------------------------------------------------------------------------

  function ParseCanonicalInt(raw: string): Option<nat> {
    if !IsCanonical(raw) then None
    else
      var n := NearestDouble(Value(raw));
      if n <= MAX_SAFE_INTEGER then Some(n) else None
  }

  function StripZeros(s: string): string {
    if s != [] && s[0] == '0' then StripZeros(s[1..]) else s
  }

  /** The order of JavaScript's `>` on texts, here between texts of digits. */
  predicate TextGreater(a: string, b: string) {
    if a == [] then false
    else if b == [] then true
    else a[0] > b[0] || (a[0] == b[0] && TextGreater(a[1..], b[1..]))
  }

  function DecimalIntExceeds(raw: string, limit: int): bool {
    if raw == [] || !AllDigits(raw) then false
    else
      var stripped := StripZeros(raw);
      var digits := if stripped == [] then "0" else stripped;
      if limit < 0 || limit > MAX_SAFE_INTEGER then false
      else
        var cap := Print(limit);
        if |digits| != |cap| then |digits| > |cap| else TextGreater(digits, cap)
  }

  /** Parsing succeeds exactly on the printed safe integers and undoes printing. */
  lemma {:induction false} ParsingUndoesPrinting(raw: string, n: nat)
    ensures ParseCanonicalInt(raw) == Some(n) <==> n <= MAX_SAFE_INTEGER && raw == Print(n)
  {
    if IsCanonical(raw) {
      PrintOfValue(raw);
      NearestDoubleOfSafe(Value(raw));
    }
  }

  lemma {:induction false} StripZerosKeepsValue(s: string)
    requires AllDigits(s)
    ensures AllDigits(StripZeros(s)) && Value(StripZeros(s)) == Value(s)
    ensures StripZeros(s) != [] ==> StripZeros(s)[0] != '0'
  {
    if s != [] && s[0] == '0' {
      LeadingZeroAddsNothing(s);
      StripZerosKeepsValue(s[1..]);
    }
  }

  lemma {:induction false} LeadingZeroAddsNothing(s: string)
    requires AllDigits(s) && s != [] && s[0] == '0'
    ensures Value(s) == Value(s[1..])
  {
    if |s| > 1 {
      LeadingZeroAddsNothing(s[..|s| - 1]);
      assert s[..|s| - 1][1..] == s[1..][..|s| - 2];
    } else {
      assert s[..0] == [] == s[1..];
    }
  }

  lemma {:induction false} ValueFromTheFront(s: string)
    requires AllDigits(s) && s != []
    ensures Value(s) == DigitValue(s[0]) * Pow10(|s| - 1) + Value(s[1..])
  {
    if |s| > 1 {
      var t := s[..|s| - 1];
      ValueFromTheFront(t);
      assert t[1..] == s[1..][..|s| - 2];
      assert 10 * (DigitValue(s[0]) * Pow10(|t| - 1)) == DigitValue(s[0]) * Pow10(|s| - 1);
    } else {
      assert s[..0] == [] == s[1..];
    }
  }

  /** Texts of equal length compare as the numbers they denote. */
  lemma {:induction false} EqualLengthsCompare(a: string, b: string)
    requires AllDigits(a) && AllDigits(b) && |a| == |b|
    ensures TextGreater(a, b) <==> Value(a) > Value(b)
  {
    if a != [] {
      ValueFromTheFront(a);
      ValueFromTheFront(b);
      ValueBounds(a[1..]);
      ValueBounds(b[1..]);
      EqualLengthsCompare(a[1..], b[1..]);
      LeadingDigitDecides(DigitValue(a[0]), DigitValue(b[0]), Pow10(|a| - 1), Value(a[1..]), Value(b[1..]));
    }
  }

  lemma {:induction false} LeadingDigitDecides(c: nat, d: nat, p: nat, v: nat, w: nat)
    requires v < p && w < p
    ensures c > d ==> c * p + v > d * p + w
    ensures c == d ==> (c * p + v > d * p + w <==> v > w)
    ensures c < d ==> c * p + v < d * p + w
  {
    if c > d { LargerQuotient(p, c, v, d, w); }
    if c < d { LargerQuotient(p, d, w, c, v); }
  }

  /** The longer of two texts without leading zeros denotes the larger number. */
  lemma {:induction false} LongerIsGreater(a: string, b: string)
    requires AllDigits(a) && AllDigits(b) && a != [] && a[0] != '0' && |a| > |b|
    ensures Value(a) > Value(b)
  {
    ValueBounds(a);
    ValueBounds(b);
    Pow10IsMonotone(|b|, |a| - 1);
  }

  /**
   * For digits of any length, with any leading zeros, the comparison as text decides exactly whether
   * the number exceeds the limit; every other spelling and every unsafe limit answers no.
   */
  lemma {:induction false} ComparisonIsNumeric(raw: string, limit: int)
    ensures DecimalIntExceeds(raw, limit) <==>
            raw != [] && AllDigits(raw) && 0 <= limit <= MAX_SAFE_INTEGER && Value(raw) > limit
  {
    if raw != [] && AllDigits(raw) && 0 <= limit <= MAX_SAFE_INTEGER {
      StripZerosKeepsValue(raw);
      var digits := if StripZeros(raw) == [] then "0" else StripZeros(raw);
      var cap := Print(limit);
      assert Value("0") == 0 && Value("") == 0;
      assert Value(digits) == Value(raw);
      if |digits| == |cap| {
        EqualLengthsCompare(digits, cap);
      } else if |digits| > |cap| {
        LongerIsGreater(digits, cap);
      } else {
        LongerIsGreater(cap, digits);
      }
    }
  }

  /** Why the texts are compared and not the doubles: these two numbers have the same double. */
  lemma {:induction false} DoublesCannotDecide()
    ensures NearestDouble(TWO_TO_THE_53 + 1) == NearestDouble(TWO_TO_THE_53)
    ensures ParseCanonicalInt(Print(TWO_TO_THE_53 + 1)) == None
    ensures DecimalIntExceeds(Print(TWO_TO_THE_53 + 1), MAX_SAFE_INTEGER)
  {
    assert Spacing(TWO_TO_THE_53) == 2 && Spacing(TWO_TO_THE_53 + 1) == 2;
    ParsingUndoesPrinting(Print(TWO_TO_THE_53 + 1), TWO_TO_THE_53 + 1);
    NearestDoubleOfSafe(TWO_TO_THE_53 + 1);
    ComparisonIsNumeric(Print(TWO_TO_THE_53 + 1), MAX_SAFE_INTEGER);
  }
}
