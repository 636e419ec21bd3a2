/** Reading one long line of the source in pieces of a fixed size, without cutting a character. */
module SourceDetail {
  import opened Chunks
  import opened Options
  import opened Utf8
  import opened Lines
  import opened SourcePage

  // ---------------------------------------------------------------------------------------------
  // The bytes of a character that a piece may end with
  // ---------------------------------------------------------------------------------------------

  /** How many continuation bytes, up to `most`, the bytes end with. */
  function ContinuationRun(s: Bytes, most: nat): (n: nat)
    ensures n <= most && n <= |s|
    decreases most
  {
    if most == 0 || s == [] || !IsContinuation(s[|s| - 1]) then 0
    else 1 + ContinuationRun(s[..|s| - 1], most - 1)
  }

  /** The number of bytes a lead byte announces; 0 if it is none. */
  function Needed(lead: Byte): nat {
    if 0xC0 <= lead <= 0xDF then 2
    else if 0xE0 <= lead <= 0xEF then 3
    else if 0xF0 <= lead <= 0xF7 then 4
    else 0
  }

  /** The length of the incomplete character at the end. */
  function IncompleteTail(s: Bytes): (n: nat)
    ensures n <= 3 && n <= |s|
  {
    var run := ContinuationRun(s, 3);
    if run == |s| then 0
    else
      var have := run + 1;
      if have < Needed(s[|s| - have]) then have else 0
  }

  method IncompleteUtf8Tail(buf: Bytes) returns (n: nat)
    ensures n == IncompleteTail(buf)
  {
    var i, cont := |buf| - 1, 0;
    while i >= 0 && cont < 3 && IsContinuation(buf[i])
      invariant -1 <= i < |buf| && 0 <= cont <= 3 && i + cont == |buf| - 1
      invariant ContinuationRun(buf, 3) == cont + ContinuationRun(buf[..i + 1], 3 - cont)
    {
      assert buf[..i + 1][..i] == buf[..i];
      i, cont := i - 1, cont + 1;
    }
    if i < 0 { return 0; }
    var need := Needed(buf[i]);
    var have := |buf| - i;
    return if have < need then have else 0;
  }

  // ---------------------------------------------------------------------------------------------
  // Pieces
  // ---------------------------------------------------------------------------------------------

  function Min(a: nat, b: nat): nat {
    if a < b then a else b
  }

  /** Where a line that begins at `at` is cut off at the latest. */
  function LineLimit(file: Bytes, at: nat): nat {
    Min(|file|, at + LINE_ISOLATE)
  }

  /** The bytes of the line that begins at `at`, without its feed and up to the cap. */
  function LineBytes(file: Bytes, at: nat): Bytes {
    if at >= LineLimit(file, at) then []
    else
      var rest := file[at..LineLimit(file, at)];
      var i := IndexOf<Byte>(rest, LINE_FEED, 0);
      if i == -1 then rest else rest[..i]
  }

  /** One answer: the bytes of its body and the cursor of the next one. */
  datatype Piece = Piece(bytes: Bytes, next: Option<nat>)

  function PieceAt(file: Bytes, at: nat, cursor: nat, chunkSize: nat): Piece {
    var (start, stop) := (at + cursor, LineLimit(file, at));
    if start >= stop then Piece([], None)
    else
      var slice := file[start..start + Min(chunkSize, stop - start)];
      var nl := IndexOf<Byte>(slice, LINE_FEED, 0);
      if nl != -1 then Piece(slice[..nl], None)
      else if start + |slice| >= stop then Piece(slice, None)
      else
        var held := IncompleteTail(slice);
        var consumed := if 0 < held < |slice| then |slice| - held else |slice|;
        Piece(slice[..consumed], Some(cursor + consumed))
  }

  lemma {:induction false} AnswerIsPiece(
    file: Bytes, at: nat, cursor: nat, chunkSize: nat, slice: Bytes, nl: int, more: bool, held: nat, consumed: nat)
    requires at + cursor < LineLimit(file, at)
    requires slice == file[at + cursor..][..Min(chunkSize, LineLimit(file, at) - (at + cursor))]
    requires nl == IndexOf<Byte>(slice, LINE_FEED, 0)
    requires more <==> nl == -1 && at + cursor + |slice| < LineLimit(file, at)
    requires more ==> held == IncompleteTail(slice)
    requires more ==> consumed == if 0 < held < |slice| then |slice| - held else |slice|
    requires !more ==> consumed == if nl == -1 then |slice| else nl
    ensures consumed <= |slice|
    ensures PieceAt(file, at, cursor, chunkSize) ==
            Piece(slice[..consumed], if more then Some(cursor + consumed) else None)
  {
    hide IndexOf, IncompleteTail;
    var (start, size) := (at + cursor, Min(chunkSize, LineLimit(file, at) - (at + cursor)));
    assert file[start..][..size] == file[start..start + size];
    assert slice[..|slice|] == slice;
  }

  method ReadDetailChunk(file: Bytes, byteOffset: nat, cursorOffset: int, chunkSize: nat)
    returns (body: seq<Scalar>, nextCursor: Option<nat>, truncated: bool)
    ensures var piece := PieceAt(file, byteOffset, if cursorOffset > 0 then cursorOffset else 0, chunkSize);
            body == Decode(piece.bytes) && nextCursor == piece.next && truncated == piece.next.Some?
  {
    hide IndexOf, IncompleteTail;
    assert Decode([]) == [];
    hide Decode;
    var cursor: nat := if cursorOffset > 0 then cursorOffset else 0;
    var start := byteOffset + cursor;
    var lineEndLimit := byteOffset + LINE_ISOLATE;
    if start >= |file| || start >= lineEndLimit {
      return [], None, false;
    }
    var size := Min(chunkSize, Min(|file| - start, lineEndLimit - start));
    var slice := file[start..start + size];
    assert file[start..][..size] == slice && slice[..|slice|] == slice;
    var nl := IndexOf<Byte>(slice, LINE_FEED, 0);
    var lineEnd := if nl == -1 then |slice| else nl;
    var more := nl == -1 && start + |slice| < Min(|file|, lineEndLimit);
    var held := 0;
    if more { held := IncompleteUtf8Tail(slice[..lineEnd]); }
    var consumed := if held > 0 && held < lineEnd then lineEnd - held else lineEnd;
    AnswerIsPiece(file, byteOffset, cursor, chunkSize, slice, nl, more, held, consumed);
    hide PieceAt;
    return Decode(slice[..consumed]), if more then Some(cursor + consumed) else None, more;
  }

  // ---------------------------------------------------------------------------------------------
  // Following the cursors
  // ---------------------------------------------------------------------------------------------

  /** The bodies from a cursor on, in bytes. */
  function Pieces(file: Bytes, at: nat, cursor: nat, chunkSize: nat): seq<Bytes>
    requires chunkSize >= 1
    decreases |file| - cursor
  {
    var piece := PieceAt(file, at, cursor, chunkSize);
    if piece.next.None? || piece.next.value <= cursor || piece.next.value > |file| then [piece.bytes]
    else [piece.bytes] + Pieces(file, at, piece.next.value, chunkSize)
  }

  lemma LineShape(file: Bytes, at: nat)
    ensures var (line, stop) := (LineBytes(file, at), LineLimit(file, at));
            if at >= stop then line == []
            else
              var rest := file[at..stop];
              var i := IndexOf<Byte>(rest, LINE_FEED, 0);
              line <= rest && |line| == if i == -1 then |rest| else i
  {
  }

  /** The line runs from its offset to its feed, to the end of the file or to the cap of one mebibyte. */
  lemma {:induction false} LineIsUpToFeed(file: Bytes, at: nat)
    requires at <= |file|
    ensures var n := |LineBytes(file, at)|;
            && at + n <= |file| && LineBytes(file, at) == file[at..at + n] && LINE_FEED !in LineBytes(file, at)
            && n <= 1_048_576
            && (at + n < |file| ==> file[at + n] == LINE_FEED || n == 1_048_576)
  {
    if at < LineLimit(file, at) {
      var rest := file[at..LineLimit(file, at)];
      IndexOfIsFirst<Byte>(rest, LINE_FEED, 0);
      var n := |LineBytes(file, at)|;
      assert file[at..at + n] == rest[..n];
    }
    hide IndexOf;
  }

  /** A piece is a part of the line, and its cursor stands right behind it. */
  lemma {:induction false} PieceIsPart(file: Bytes, at: nat, cursor: nat, chunkSize: nat)
    requires chunkSize >= 1 && cursor <= |LineBytes(file, at)|
    ensures var (piece, line) := (PieceAt(file, at, cursor, chunkSize), LineBytes(file, at));
            && cursor + |piece.bytes| <= |line| && piece.bytes == line[cursor..cursor + |piece.bytes|]
            && (piece.next.None? ==> cursor + |piece.bytes| == |line|)
            && (piece.next.Some? ==> piece.next.value == cursor + |piece.bytes| && piece.bytes != [])
  {
    LineShape(file, at);
    hide IndexOf, IncompleteTail, LineBytes;
    var (line, start, stop) := (LineBytes(file, at), at + cursor, LineLimit(file, at));
    if at < stop {
      var rest := file[at..stop];
      if start < stop {
        var n := Min(chunkSize, stop - start);
        var slice := file[start..start + n];
        Slice<Byte>(file, at, stop, cursor, cursor + n);
        FeedInSlice(rest, slice, cursor);
        PartOfLine(rest, line, slice, cursor, |PieceAt(file, at, cursor, chunkSize).bytes|);
      }
    }
  }

  lemma {:induction false} PartOfLine(rest: Bytes, line: Bytes, slice: Bytes, cursor: nat, n: nat)
    requires line <= rest && n <= |slice| && cursor + n <= |line| && cursor + |slice| <= |rest|
    requires slice == rest[cursor..cursor + |slice|]
    ensures slice[..n] == line[cursor..cursor + n]
  {
    assert forall k | 0 <= k < n :: slice[k] == rest[cursor + k] && rest[cursor + k] == line[cursor + k];
  }

  /** The feed of a slice that begins within the line is the one that ends the line. */
  lemma {:induction false} FeedInSlice(rest: Bytes, slice: Bytes, cursor: nat)
    requires cursor + |slice| <= |rest| && slice == rest[cursor..cursor + |slice|]
    requires var i := IndexOf<Byte>(rest, LINE_FEED, 0); i == -1 || cursor <= i
    ensures var (i, nl) := (IndexOf<Byte>(rest, LINE_FEED, 0), IndexOf<Byte>(slice, LINE_FEED, 0));
            if nl != -1 then i == cursor + nl else i == -1 || i >= cursor + |slice|
  {
    IndexOfIsFirst<Byte>(rest, LINE_FEED, 0);
    IndexOfIsFirst<Byte>(slice, LINE_FEED, 0);
    var nl := IndexOf<Byte>(slice, LINE_FEED, 0);
    assert forall k | 0 <= k < |slice| :: slice[k] == rest[cursor + k];
    if nl != -1 { assert rest[cursor + nl] == LINE_FEED; }
  }

  /** Following the cursors covers the line, up to its feed or the cap, exactly once, and ends. */
  lemma {:induction false} PiecesCoverLine(file: Bytes, at: nat, cursor: nat, chunkSize: nat)
    requires chunkSize >= 1 && cursor <= |LineBytes(file, at)|
    ensures Flatten(Pieces(file, at, cursor, chunkSize)) == LineBytes(file, at)[cursor..]
    decreases |LineBytes(file, at)| - cursor
  {
    LineIsInFile(file, at);
    hide PieceAt, LineBytes;
    var (piece, line) := (PieceAt(file, at, cursor, chunkSize), LineBytes(file, at));
    PieceIsPart(file, at, cursor, chunkSize);
    if piece.next.Some? {
      PiecesCoverLine(file, at, piece.next.value, chunkSize);
      var tail := Pieces(file, at, piece.next.value, chunkSize);
      assert ([piece.bytes] + tail)[1..] == tail;
      assert line[cursor..] == piece.bytes + line[piece.next.value..];
    } else {
      assert [piece.bytes][1..] == [] && piece.bytes + [] == piece.bytes;
      assert line[cursor..] == piece.bytes;
    }
  }

  // ---------------------------------------------------------------------------------------------
  // Text
  // ---------------------------------------------------------------------------------------------

  /** Bytes that end `part` of a character after whole ones, or right behind a whole one. */
  ghost predicate EndsWith(s: Bytes, t: seq<Scalar>, k: nat, part: Bytes) {
    && k <= |t| && s == Encode(t[..k]) + part
    && (part != [] ==> k < |t| && |part| < |EncodeOne(t[k])| && part == EncodeOne(t[k])[..|part|])
  }

  /** Every prefix of an encoded text is whole characters and perhaps part of the next one. */
  lemma {:induction false} PrefixEnds(s: Bytes, t: seq<Scalar>) returns (k: nat, part: Bytes)
    requires s <= Encode(t)
    ensures EndsWith(s, t, k, part)
  {
    if t == [] {
      k, part := 0, [];
    } else {
      var e := EncodeOne(t[0]);
      if |s| < |e| {
        k, part := 0, s;
        assert t[..0] == [] && s == Encode(t)[..|s|] == e[..|s|];
      } else {
        PrefixBehind(e, s[|e|..], Encode(t[1..]));
        var k', part' := PrefixEnds(s[|e|..], t[1..]);
        k, part := k' + 1, part';
        hide Encode, EncodeOne, EndsWith;
        CharacterBefore(s, t, k', part');
      }
    }
  }

  lemma {:induction false} PrefixBehind(a: Bytes, rest: Bytes, b: Bytes)
    requires a + rest <= a + b
    ensures rest <= b
  {
    assert forall k | 0 <= k < |rest| :: (a + rest)[|a| + k] == rest[k] && (a + b)[|a| + k] == b[k];
  }

  /** One more whole character in front. */
  lemma {:induction false} CharacterBefore(s: Bytes, t: seq<Scalar>, k: nat, part: Bytes)
    requires t != [] && EncodeOne(t[0]) <= s && EndsWith(s[|EncodeOne(t[0])|..], t[1..], k, part)
    ensures EndsWith(s, t, k + 1, part)
  {
    EncodeOfCons(t, k);
    hide Encode, EncodeOne;
    var e := EncodeOne(t[0]);
    assert s == e + s[|e|..];
    assert e + (Encode(t[1..][..k]) + part) == e + Encode(t[1..][..k]) + part;
  }

  lemma {:induction false} EncodeOfCons(t: seq<Scalar>, k: nat)
    requires k + 1 <= |t|
    ensures Encode(t[..k + 1]) == EncodeOne(t[0]) + Encode(t[1..][..k])
  {
    hide EncodeOne;
    assert t[..k + 1][1..] == t[1..][..k];
  }

  /** Continuation bytes at the end count on to what precedes them. */
  lemma {:induction false} RunOverContinuations(s: Bytes, tail: Bytes, most: nat)
    requires |tail| <= most && forall i | 0 <= i < |tail| :: IsContinuation(tail[i])
    ensures ContinuationRun(s + tail, most) == |tail| + ContinuationRun(s, most - |tail|)
    decreases |tail|
  {
    if tail == [] {
      assert s + tail == s;
    } else {
      var n := |tail| - 1;
      assert (s + tail)[..|s + tail| - 1] == s + tail[..n];
      RunOverContinuations(s, tail[..n], most - 1);
    }
  }

  /** After a lead byte and continuation bytes, the tail is what the lead byte makes of it. */
  lemma {:induction false} TailAfterLead(s: Bytes, lead: Byte, tail: Bytes)
    requires !IsContinuation(lead) && |tail| <= 3 && forall i | 0 <= i < |tail| :: IsContinuation(tail[i])
    ensures IncompleteTail(s + [lead] + tail) == if |tail| + 1 < Needed(lead) then |tail| + 1 else 0
  {
    RunOverContinuations(s + [lead], tail, 3);
    assert (s + [lead] + tail)[|s|] == lead;
  }

  /** The held-back bytes are exactly the part of a character that was cut. */
  lemma {:induction false} TailIsPart(s: Bytes, t: seq<Scalar>, k: nat, part: Bytes)
    requires EndsWith(s, t, k, part)
    ensures IncompleteTail(s) == |part|
  {
    hide Encode, ContinuationRun;
    if part != [] {
      TailOfCut(Encode(t[..k]), t[k], |part|);
    } else {
      assert s == Encode(t[..k]);
      TailOfWhole(t[..k]);
    }
  }

  lemma {:induction false} TailOfCut(before: Bytes, c: Scalar, n: nat)
    requires 0 < n < |EncodeOne(c)|
    ensures IncompleteTail(before + EncodeOne(c)[..n]) == n
  {
    hide EncodeOne, IncompleteTail;
    var e := EncodeOne(c);
    var part := e[..n];
    EncodingShape(c);
    assert part[0] == e[0] && forall i | 0 <= i < n - 1 :: part[1..][i] == e[i + 1];
    TailAfterLead(before, part[0], part[1..]);
    assert before + part == before + [part[0]] + part[1..];
  }

  lemma {:induction false} TailOfWhole(t: seq<Scalar>)
    ensures IncompleteTail(Encode(t)) == 0
  {
    if t == [] {
      NoTailOfNothing();
    } else {
      hide Encode, EncodeOne, IncompleteTail, ContinuationRun;
      var (before, c) := (t[..|t| - 1], t[|t| - 1]);
      var e := EncodeOne(c);
      EncodingShape(c);
      EncodeOfOneMore(before, c);
      assert t == before + [c];
      TailAfterLead(Encode(before), e[0], e[1..]);
      assert Encode(before) + e == Encode(before) + [e[0]] + e[1..];
    }
  }

  lemma {:induction false} NoTailOfNothing()
    ensures IncompleteTail(Encode([])) == 0
  {
  }

  lemma {:induction false} EncodeOfOneMore(t: seq<Scalar>, c: Scalar)
    ensures Encode(t + [c]) == Encode(t) + EncodeOne(c)
  {
    EncodeOfConcat(t, [c]);
    assert [c][1..] == [] && Encode([c]) == EncodeOne(c) + Encode([]);
  }

  /** A piece with a successor is taken from a slice of full size inside the line. */
  lemma {:induction false} SliceIsPart(file: Bytes, at: nat, cursor: nat, chunkSize: nat)
    requires chunkSize >= 1 && cursor <= |LineBytes(file, at)| && PieceAt(file, at, cursor, chunkSize).next.Some?
    ensures var (piece, line) := (PieceAt(file, at, cursor, chunkSize), LineBytes(file, at));
            && cursor + chunkSize <= |line|
            && var slice := line[cursor..cursor + chunkSize];
            var held := IncompleteTail(slice);
            piece.bytes == slice[..if 0 < held < |slice| then |slice| - held else |slice|]
  {
    hide IndexOf, IncompleteTail;
    var (start, stop) := (at + cursor, LineLimit(file, at));
    var rest := file[at..stop];
    IndexOfIsFirst<Byte>(rest, LINE_FEED, 0);
    var slice := file[start..start + chunkSize];
    IndexOfIsFirst<Byte>(slice, LINE_FEED, 0);
    Slice<Byte>(file, at, stop, cursor, cursor + chunkSize);
    FeedInSlice(rest, slice, cursor);
    assert slice == LineBytes(file, at)[cursor..cursor + chunkSize];
  }

  /** No piece with a successor ends inside a character. */
  lemma {:induction false} PieceEndsOnCharacter(file: Bytes, at: nat, cursor: nat, chunkSize: nat, t: seq<Scalar>)
    returns (k: nat)
    requires chunkSize >= 4 && cursor <= |LineBytes(file, at)| && LineBytes(file, at)[cursor..] <= Encode(t)
    requires PieceAt(file, at, cursor, chunkSize).next.Some?
    ensures k <= |t| && PieceAt(file, at, cursor, chunkSize).bytes == Encode(t[..k])
  {
    var line := LineBytes(file, at);
    SliceIsPart(file, at, cursor, chunkSize);
    var slice := line[cursor..cursor + chunkSize];
    assert slice == line[cursor..][..chunkSize];
    var part;
    k, part := PrefixEnds(slice, t);
    TailIsPart(slice, t, k, part);
    assert slice[..|slice| - |part|] == Encode(t[..k]);
  }

  function DecodeAll(pieces: seq<Bytes>): seq<Scalar> {
    if pieces == [] then [] else Decode(pieces[0]) + DecodeAll(pieces[1..])
  }

  /** Pieces of at least four bytes, decoded one by one, are the decoded line. */
  lemma {:induction false} DecodingByPieces(file: Bytes, at: nat, cursor: nat, chunkSize: nat, t: seq<Scalar>)
    requires chunkSize >= 4 && cursor <= |LineBytes(file, at)| && LineBytes(file, at)[cursor..] <= Encode(t)
    ensures DecodeAll(Pieces(file, at, cursor, chunkSize)) == Decode(LineBytes(file, at)[cursor..])
    decreases |LineBytes(file, at)| - cursor
  {
    hide PieceAt, LineBytes, Decode, Encode;
    var (piece, line) := (PieceAt(file, at, cursor, chunkSize), LineBytes(file, at));
    PieceIsPart(file, at, cursor, chunkSize);
    DecodeAllOfPieces(file, at, cursor, chunkSize);
    if piece.next.Some? {
      var k := PieceEndsOnCharacter(file, at, cursor, chunkSize, t);
      var rest := line[piece.next.value..];
      assert line[cursor..] == piece.bytes + rest;
      DecodeBehind(t, k, rest);
      DecodingByPieces(file, at, piece.next.value, chunkSize, t[k..]);
    } else {
      assert line[cursor..] == piece.bytes;
      assert Decode(piece.bytes) + [] == Decode(piece.bytes);
    }
  }

  lemma {:induction false} DecodeAllOfPieces(file: Bytes, at: nat, cursor: nat, chunkSize: nat)
    requires chunkSize >= 1 && cursor <= |LineBytes(file, at)|
    ensures var piece := PieceAt(file, at, cursor, chunkSize);
            DecodeAll(Pieces(file, at, cursor, chunkSize)) ==
            Decode(piece.bytes) +
            if piece.next.Some? then DecodeAll(Pieces(file, at, piece.next.value, chunkSize)) else []
  {
    PieceIsPart(file, at, cursor, chunkSize);
    LineIsInFile(file, at);
    hide PieceAt, LineBytes, Decode;
    var piece := PieceAt(file, at, cursor, chunkSize);
    if piece.next.Some? {
      var tail := Pieces(file, at, piece.next.value, chunkSize);
      assert ([piece.bytes] + tail)[1..] == tail;
    }
  }

  lemma LineIsInFile(file: Bytes, at: nat)
    ensures |LineBytes(file, at)| <= |file|
  {
  }

  lemma {:induction false} DecodeBehind(t: seq<Scalar>, k: nat, rest: Bytes)
    requires k <= |t| && Encode(t[..k]) + rest <= Encode(t)
    ensures Decode(Encode(t[..k])) == t[..k] && Decode(Encode(t[..k]) + rest) == t[..k] + Decode(rest)
    ensures rest <= Encode(t[k..])
  {
    assert t == t[..k] + t[k..];
    EncodeOfConcat(t[..k], t[k..]);
    DecodeOfEncoding(t[..k], rest);
    DecodeUndoesEncode(t[..k]);
    PrefixBehind(Encode(t[..k]), rest, Encode(t[k..]));
  }

  // ---------------------------------------------------------------------------------------------
  // Smaller pieces
  // ---------------------------------------------------------------------------------------------

  /** A line that holds one character longer than the pieces. */
  function Longer(chunkSize: nat): Scalar {
    if chunkSize == 1 then 0xE9 else if chunkSize == 2 then 0x20AC else 0x1F600
  }

  /** The first piece of such a line is cut inside the character and decodes to a replacement. */
  lemma {:induction false} FirstPieceIsCut(chunkSize: nat)
    requires 1 <= chunkSize <= 3
    ensures var e := EncodeOne(Longer(chunkSize));
            && |e| == chunkSize + 1 && LINE_FEED !in e
            && PieceAt(e, 0, 0, chunkSize) == Piece(e[..chunkSize], Some(chunkSize))
            && Decode(e[..chunkSize]) != [] && Decode(e[..chunkSize])[0] == REPLACEMENT
  {
    var c := Longer(chunkSize);
    var e := EncodeOne(c);
    var slice := e[..chunkSize];
    EncodingShape(c);
    assert EndsWith(slice, [c], 0, slice) by { assert [c][..0] == [] && Encode([]) + slice == slice; }
    TailIsPart(slice, [c], 0, slice);
    hide IncompleteTail, ContinuationRun, Encode;
    NoIndex<Byte>(slice, LINE_FEED, 0);
    assert e[0..0 + chunkSize] == slice;
    assert slice[..|slice|] == slice;
    assert DecodeOne(slice).0 == REPLACEMENT;
  }

  /** Pieces of fewer than four bytes cut a character, and the text is not the one that was cut. */
  lemma {:induction false} SmallPiecesCut(chunkSize: nat)
    requires 1 <= chunkSize <= 3
    ensures var file := EncodeOne(Longer(chunkSize));
            && file == Encode([Longer(chunkSize)]) && LineBytes(file, 0) == file
            && DecodeAll(Pieces(file, 0, 0, chunkSize)) != Decode(file) == [Longer(chunkSize)]
  {
    var c := Longer(chunkSize);
    var file := EncodeOne(c);
    FirstPieceIsCut(chunkSize);
    assert [c][1..] == [] && Encode([c]) == file + Encode([]) == file;
    DecodeUndoesEncode([c]);
    NoIndex<Byte>(file, LINE_FEED, 0);
    assert file[0..|file|] == file;
    hide PieceAt, Decode, Encode;
    DecodeAllOfPieces(file, 0, 0, chunkSize);
    assert DecodeAll(Pieces(file, 0, 0, chunkSize))[0] == REPLACEMENT;
  }

  /** Decoding piece by piece gives the decoded line, for all lines, exactly from four bytes on. */
  lemma {:induction false} PiecesDecodeIff(chunkSize: nat)
    requires chunkSize >= 1
    ensures chunkSize >= 4 <==>
            forall file: Bytes, at: nat, t: seq<Scalar> | LineBytes(file, at) <= Encode(t) ::
              DecodeAll(Pieces(file, at, 0, chunkSize)) == Decode(LineBytes(file, at))
  {
    if chunkSize >= 4 {
      forall file: Bytes, at: nat, t: seq<Scalar> | LineBytes(file, at) <= Encode(t)
        ensures DecodeAll(Pieces(file, at, 0, chunkSize)) == Decode(LineBytes(file, at))
      {
        assert LineBytes(file, at)[0..] == LineBytes(file, at);
        DecodingByPieces(file, at, 0, chunkSize, t);
      }
    } else {
      SmallPiecesCut(chunkSize);
    }
  }
}
