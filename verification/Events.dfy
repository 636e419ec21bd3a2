/** The events of one execution and what they weigh as JSON text. */
module Events {
  import opened Text16
  import opened JsonString
  import Utf8

  const BUFFER_CAP := 32 * 1024 * 1024

  datatype ErrorKind = ProtocolViolation | DriverError

  datatype Body =
    | Started
    | Delta(text: Text)
    | Preview(text: Text)              // output.snapshot
    | Activity(summary: string)
    | Usage
    | Completed(output: Text, finalSeq: nat)
    | Failed(error: ErrorKind)
    | Interrupted

  datatype Event = Event(seqNo: nat, body: Body)

  /** What a driver hands over; `Malformed` stands for anything the event schema rejects. */
  datatype Proto = WellFormed(body: Body) | Malformed

  datatype ExecutionState = Running | Done | Broken | Stopped

  datatype Disposition = Committed | Discarded

  predicate IsPreview(e: Event) { e.body.Delta? || e.body.Preview? }

  predicate IsTerminal(e: Event) { e.body.Completed? || e.body.Failed? || e.body.Interrupted? }

  // ---------------------------------------------------------------------------------------------
  // Sizes
  // ---------------------------------------------------------------------------------------------

  /** Bytes in UTF-8; the two halves of a surrogate pair take two each. */
  function UnitBytes(u: CodeUnit): nat {
    if u < 0x80 then 1
    else if u < 0x800 || IsHighSurrogate(u) || IsLowSurrogate(u) then 2
    else 3
  }

  function TextBytes(t: Text): nat {
    if t == [] then 0 else UnitBytes(t[0]) + TextBytes(t[1..])
  }

  /** Sizes the log cannot see: the fields around a preview's text, and every other event as a whole. */
  datatype Sizes = Sizes(envelope: nat -> nat, other: Event -> nat)

  const DELTA_TAG := |"output.delta"|
  const PREVIEW_TAG := |"output.snapshot"|

  /** The length of the event's JSON text in bytes. */
  function EventBytes(z: Sizes, e: Event): nat {
    match e.body
    case Delta(text) => z.envelope(e.seqNo) + DELTA_TAG + TextBytes(Quote(text))
    case Preview(text) => z.envelope(e.seqNo) + PREVIEW_TAG + TextBytes(Quote(text))
    case _ => z.other(e)
  }

  function TotalBytes(z: Sizes, events: seq<Event>): nat {
    if events == [] then 0 else EventBytes(z, events[0]) + TotalBytes(z, events[1..])
  }

  lemma {:induction false} TotalOfConcat(z: Sizes, a: seq<Event>, b: seq<Event>)
    ensures TotalBytes(z, a + b) == TotalBytes(z, a) + TotalBytes(z, b)
  {
    if a == [] {
      assert a + b == b;
    } else {
      assert (a + b)[1..] == a[1..] + b;
      TotalOfConcat(z, a[1..], b);
    }
  }

  lemma {:induction false} TextBytesOfConcat(a: Text, b: Text)
    ensures TextBytes(a + b) == TextBytes(a) + TextBytes(b)
  {
    if a == [] {
      assert a + b == b;
    } else {
      assert (a + b)[1..] == a[1..] + b;
      TextBytesOfConcat(a[1..], b);
    }
  }

  lemma {:induction false} TokenBytesAtLeast(s: Text)
    requires s != []
    ensures !StartsPair(s) && (IsHighSurrogate(s[0]) || IsLowSurrogate(s[0])) ==> TextBytes(Token(s, false)) == 6
    ensures StartsPair(s) ==> TextBytes(Token(s, false)) == 2
    ensures TextBytes(Token(s, true)) == UnitBytes(s[0])
  {
    if !StartsPair(s) && (IsHighSurrogate(s[0]) || IsLowSurrogate(s[0])) {
      assert Token(s, false) == UnicodeEscape(s[0]);
      SixPlainUnits(UnicodeEscape(s[0]));
    }
  }

  lemma {:induction false} SixPlainUnits(t: Text)
    requires |t| == 6 && forall i | 0 <= i < 6 :: t[i] < 0x80
    ensures TextBytes(t) == 6
  {
    assert t[1..][1..] == t[2..] && t[2..][1..] == t[3..] && t[3..][1..] == t[4..];
    assert t[4..][1..] == t[5..] && t[5..][1..] == [];
    assert TextBytes(t[5..]) == 1;
    assert TextBytes(t[4..]) == 2;
    assert TextBytes(t[3..]) == 3;
    assert TextBytes(t[2..]) == 4;
    assert TextBytes(t[1..]) == 5;
  }

  /** Escaping a concatenation takes no more bytes: at most two lone surrogates become a pair. */
  lemma {:induction false} EscapeOfConcat(a: Text, inPair: bool, b: Text)
    requires Announced(a, inPair)
    ensures TextBytes(Escape(a + b, inPair)) <= TextBytes(Escape(a, inPair)) + TextBytes(Escape(b, false))
  {
    if a == [] {
      assert a + b == b;
    } else {
      var whole := a + b;
      assert whole[1..] == a[1..] + b && whole[0] == a[0];
      TextBytesOfConcat(Token(whole, inPair), Escape(whole[1..], !inPair && StartsPair(whole)));
      TextBytesOfConcat(Token(a, inPair), Escape(a[1..], !inPair && StartsPair(a)));
      if |a| == 1 && !inPair && StartsPair(whole) {
        assert a[1..] == [] && whole[1..] == b && !StartsPair(a);
        PairSavesBytes(whole, a, b);
      } else {
        assert StartsPair(whole) && !inPair ==> StartsPair(a);
        assert StartsPair(a) ==> StartsPair(whole);
        assert Token(whole, inPair) == Token(a, inPair);
        EscapeOfConcat(a[1..], !inPair && StartsPair(a), b);
      }
    }
  }

  lemma {:induction false} PairSavesBytes(whole: Text, a: Text, b: Text)
    requires |a| == 1 && whole == a + b && StartsPair(whole)
    ensures TextBytes(Token(whole, false)) + TextBytes(Escape(b, true)) <=
            TextBytes(Token(a, false)) + TextBytes(Escape([], false)) + TextBytes(Escape(b, false))
  {
    assert whole[0] == a[0] && whole[1] == b[0] && IsLowSurrogate(b[0]) && !StartsPair(b);
    TokenBytesAtLeast(whole);
    TokenBytesAtLeast(a);
    TokenBytesAtLeast(b);
    TextBytesOfConcat(Token(b, true), Escape(b[1..], false));
    TextBytesOfConcat(Token(b, false), Escape(b[1..], false));
  }

  /** Merging two preview texts does not grow their encoding. */
  lemma {:induction false} MergingDoesNotGrow(a: Text, b: Text)
    ensures TextBytes(Quote(a + b)) + 2 <= TextBytes(Quote(a)) + TextBytes(Quote(b))
  {
    QuotedBytes(a);
    QuotedBytes(b);
    QuotedBytes(a + b);
    EscapeOfConcat(a, false, b);
  }

  lemma {:induction false} QuotedBytes(t: Text)
    ensures TextBytes(Quote(t)) == TextBytes(Escape(t, false)) + 2
  {
    TextBytesOfConcat([QUOTE], Escape(t, false));
    TextBytesOfConcat([QUOTE] + Escape(t, false), [QUOTE]);
    assert TextBytes([QUOTE]) == 1;
  }

  // ---------------------------------------------------------------------------------------------
  // Bytes in UTF-8
  // ---------------------------------------------------------------------------------------------

  /** The characters of a text whose surrogates come in pairs. */
  function Characters(t: Text): seq<Utf8.Scalar>
    requires Paired(t)
    decreases |t|
  {
    if t == [] then []
    else if StartsPair(t) then
      var (high: int, low: int) := (t[0], t[1]);
      [0x1_0000 + (high - 0xD800) * 0x400 + (low - 0xDC00)] + Characters(t[2..])
    else [t[0]] + Characters(t[1..])
  }

  lemma {:induction false} BytesOfPaired(t: Text)
    requires Paired(t)
    ensures TextBytes(t) == |Utf8.Encode(Characters(t))|
    decreases |t|
  {
    hide Utf8.EncodeOne;
    if t != [] {
      if StartsPair(t) {
        assert t[1..][1..] == t[2..];
        BytesOfPaired(t[2..]);
      } else {
        BytesOfPaired(t[1..]);
      }
      FirstCharacterBytes(t);
      assert Characters(t)[1..] == Characters(if StartsPair(t) then t[2..] else t[1..]);
    }
  }

  lemma {:induction false} FirstCharacterBytes(t: Text)
    requires t != [] && Paired(t)
    ensures |Utf8.EncodeOne(Characters(t)[0])| ==
            if StartsPair(t) then UnitBytes(t[0]) + UnitBytes(t[1]) else UnitBytes(t[0])
  {
  }

  /** The size of a preview is that of its JSON text in UTF-8, for every text, well-formed or not. */
  lemma {:induction false} QuotedBytesAreUtf8(t: Text)
    ensures Paired(Quote(t)) && TextBytes(Quote(t)) == |Utf8.Encode(Characters(Quote(t)))|
  {
    QuoteIsWellFormed(t);
    BytesOfPaired(Quote(t));
  }
}
