/** The bounded line splitter on driver output: bytes arrive in chunks, whole lines leave as text. */
module Ndjson {
  import opened Chunks
  import opened Utf8
  import opened Lines

  const LINE_LIMIT := 8 * 1024 * 1024

  datatype Callback = Line(text: seq<Scalar>) | LimitExceeded | End

  /** White space and line terminators, as `trim` removes them. */
  predicate IsWhiteSpace(c: Scalar) {
    || 0x09 <= c <= 0x0D || c == 0x20 || c == 0xA0 || c == 0x1680 || 0x2000 <= c <= 0x200A
    || c in {0x2028, 0x2029, 0x202F, 0x205F, 0x3000, 0xFEFF}
  }

  predicate IsBlank(text: seq<Scalar>) {
    forall c | c in text :: IsWhiteSpace(c)
  }

  /** What one line is told as: nothing if it is blank. */
  function Decoded(line: Bytes): seq<Callback> {
    if IsBlank(Decode(line)) then [] else [Line(Decode(line))]
  }

  /** A line is told as its text, unless that is nothing but white space. */
  lemma {:induction false} LineIsToldIff(text: seq<Scalar>)
    ensures Decoded(Encode(text)) == if forall i | 0 <= i < |text| :: IsWhiteSpace(text[i]) then [] else [Line(text)]
  {
    hide Decode, Encode, IsWhiteSpace;
    DecodeUndoesEncode(text);
  }

  // ---------------------------------------------------------------------------------------------
  // The stream as a whole, for any way of telling a line
  // ---------------------------------------------------------------------------------------------

  type Teller = Bytes -> seq<Callback>

  function TellAll(tell: Teller, lines: seq<Bytes>): seq<Callback> {
    if lines == [] then [] else tell(lines[0]) + TellAll(tell, lines[1..])
  }

  /** The first line over the limit, or the number of lines if there is none. */
  function FirstLong(lines: seq<Bytes>): (k: nat)
    ensures k <= |lines|
    ensures forall i | 0 <= i < k :: |lines[i]| <= LINE_LIMIT
    ensures k < |lines| ==> |lines[k]| > LINE_LIMIT
  {
    if lines == [] || |lines[0]| > LINE_LIMIT then 0 else 1 + FirstLong(lines[1..])
  }

  predicate Overlong(lines: seq<Bytes>) {
    FirstLong(lines) < |lines|
  }

  /**
   * What a consumer is told of lines of which the last is still open: the nonblank lines in front of
   * the first one over the limit and then one overflow; or all complete lines and, at the end of the
   * stream, the open one and one end.
   */
  function Told(tell: Teller, lines: seq<Bytes>, ended: bool): seq<Callback>
    requires lines != []
  {
    if Overlong(lines) then TellAll(tell, lines[..FirstLong(lines)]) + [LimitExceeded]
    else if ended then TellAll(tell, lines) + [End]
    else TellAll(tell, lines[..|lines| - 1])
  }

  lemma {:induction false} ToldOfCons(tell: Teller, line: Bytes, lines: seq<Bytes>, ended: bool)
    requires lines != []
    ensures |line| > LINE_LIMIT ==> Told(tell, [line] + lines, ended) == [LimitExceeded] && Overlong([line] + lines)
    ensures |line| <= LINE_LIMIT ==>
              && Told(tell, [line] + lines, ended) == tell(line) + Told(tell, lines, ended)
              && (Overlong([line] + lines) <==> Overlong(lines))
  {
    var all := [line] + lines;
    assert all[1..] == lines;
    if |line| <= LINE_LIMIT {
      assert FirstLong(all) == 1 + FirstLong(lines);
      var k := if Overlong(lines) then FirstLong(lines) else if ended then |lines| else |lines| - 1;
      assert all[..k + 1] == [line] + lines[..k];
      assert ([line] + lines[..k])[1..] == lines[..k];
      assert TellAll(tell, all[..k + 1]) == tell(line) + TellAll(tell, lines[..k]);
      assert all[..|all|] == all && lines[..|lines|] == lines;
    }
  }

  lemma {:induction false} ToldOfOne(tell: Teller, tail: Bytes, ended: bool)
    ensures Overlong([tail]) <==> |tail| > LINE_LIMIT
    ensures Told(tell, [tail], ended) ==
            if |tail| > LINE_LIMIT then [LimitExceeded] else if ended then tell(tail) + [End] else []
  {
    assert [tail][1..] == [] && [tail][..0] == [];
    assert TellAll(tell, [tail]) == tell(tail);
  }

  /** Bytes split into lines; the last is what follows the last line feed. */
  function LinesOf(bytes: Bytes): (lines: seq<Bytes>)
    ensures lines != []
  {
    Split(bytes, LINE_FEED)
  }

  // ---------------------------------------------------------------------------------------------
  // Scanning: what the splitter has done with the bytes so far
  // ---------------------------------------------------------------------------------------------

  datatype Scanned = Scanned(calls: seq<Callback>, open: Bytes, overflow: bool)

  function Scan(tell: Teller, bytes: Bytes): Scanned
    decreases |bytes|
  {
    var i := IndexOf(bytes, LINE_FEED, 0);
    if i == -1 then
      if |bytes| > LINE_LIMIT then Scanned([LimitExceeded], [], true) else Scanned([], bytes, false)
    else if i > LINE_LIMIT then Scanned([LimitExceeded], [], true)
    else Prepend(tell(bytes[..i]), Scan(tell, bytes[i + 1..]))
  }

  function Prepend(calls: seq<Callback>, s: Scanned): Scanned {
    Scanned(calls + s.calls, s.open, s.overflow)
  }

  lemma {:induction false} ScanOfLine(tell: Teller, line: Bytes, rest: Bytes)
    requires LINE_FEED !in line
    ensures Scan(tell, line + [LINE_FEED] + rest) ==
            if |line| > LINE_LIMIT then Scanned([LimitExceeded], [], true)
            else Prepend(tell(line), Scan(tell, rest))
  {
    var bytes := line + [LINE_FEED] + rest;
    IndexIs(bytes, LINE_FEED, 0, |line|);
    assert bytes[..|line|] == line && bytes[|line| + 1..] == rest;
  }

  lemma {:induction false} ScanOfOpen(tell: Teller, bytes: Bytes)
    requires IndexOf(bytes, LINE_FEED, 0) == -1
    ensures Scan(tell, bytes) ==
            if |bytes| > LINE_LIMIT then Scanned([LimitExceeded], [], true) else Scanned([], bytes, false)
  {
  }

  /** The result of scanning more after what was scanned. */
  function Resume(tell: Teller, s: Scanned, more: Bytes): Scanned {
    if s.overflow then s else Prepend(s.calls, Scan(tell, s.open + more))
  }

  lemma {:induction false} PrependTwice(a: seq<Callback>, b: seq<Callback>, s: Scanned)
    ensures Prepend(a, Prepend(b, s)) == Prepend(a + b, s)
  {
    assert a + (b + s.calls) == a + b + s.calls;
  }

  lemma {:induction false} ResumePrepended(tell: Teller, calls: seq<Callback>, s: Scanned, more: Bytes)
    ensures Resume(tell, Prepend(calls, s), more) == Prepend(calls, Resume(tell, s, more))
  {
    PrependTwice(calls, s.calls, Scan(tell, s.open + more));
  }

  /**
   * More bytes: after an overflow nothing more is told; otherwise what was told stands, and the rest
   * is told as if the open line and the new bytes came alone.
   */
  lemma {:induction false} ScanResumes(tell: Teller, bytes: Bytes, more: Bytes)
    ensures Scan(tell, bytes + more) == Resume(tell, Scan(tell, bytes), more)
    decreases |bytes|
  {
    var i := IndexOf(bytes, LINE_FEED, 0);
    FirstLine(bytes, LINE_FEED);
    if i == -1 {
      if |bytes| > LINE_LIMIT { LongTailOverflows(tell, bytes, more); }
    } else {
      ScanResumes(tell, bytes[i + 1..], more);
      ResumeAfterLine(tell, bytes[..i], bytes[i + 1..], more);
    }
  }

  lemma {:induction false} ResumeAfterLine(tell: Teller, line: Bytes, rest: Bytes, more: Bytes)
    requires LINE_FEED !in line && Scan(tell, rest + more) == Resume(tell, Scan(tell, rest), more)
    ensures Scan(tell, line + [LINE_FEED] + rest + more) == Resume(tell, Scan(tell, line + [LINE_FEED] + rest), more)
  {
    assert line + [LINE_FEED] + rest + more == line + [LINE_FEED] + (rest + more);
    ScanOfLine(tell, line, rest + more);
    ScanOfLine(tell, line, rest);
    ResumePrepended(tell, tell(line), Scan(tell, rest), more);
  }

  lemma {:induction false} LongTailOverflows(tell: Teller, tail: Bytes, more: Bytes)
    requires LINE_FEED !in tail && |tail| > LINE_LIMIT
    ensures Scan(tell, tail + more) == Scanned([LimitExceeded], [], true)
  {
    var all := tail + more;
    FirstLine(all, LINE_FEED);
    assert forall k | 0 <= k < |tail| :: all[k] == tail[k] && tail[k] != LINE_FEED;
  }

  /** What a scan has to do with the lines of the bytes scanned. */
  predicate ScanTells(tell: Teller, s: Scanned, lines: seq<Bytes>)
    requires lines != []
  {
    && s.calls == Told(tell, lines, false)
    && s.overflow == Overlong(lines)
    && Told(tell, lines, true) == if s.overflow then s.calls else s.calls + tell(s.open) + [End]
  }

  lemma Regroup<T>(a: seq<T>, b: seq<T>, c: seq<T>, d: seq<T>)
    ensures a + (b + c + d) == a + b + c + d
  {
  }

  lemma {:induction false} ScanTellsAfterLine(tell: Teller, line: Bytes, s: Scanned, lines: seq<Bytes>)
    requires lines != [] && ScanTells(tell, s, lines)
    ensures ScanTells(tell,
                      if |line| > LINE_LIMIT then Scanned([LimitExceeded], [], true) else Prepend(tell(line), s),
                      [line] + lines)
  {
    ToldOfCons(tell, line, lines, false);
    ToldOfCons(tell, line, lines, true);
    Regroup(tell(line), s.calls, tell(s.open), [End]);
  }

  /** What has been scanned so far is what the whole stream is told, and the open line is what is left. */
  lemma {:induction false} ScanIsTold(tell: Teller, bytes: Bytes)
    ensures ScanTells(tell, Scan(tell, bytes), LinesOf(bytes))
    decreases |bytes|
  {
    var i := IndexOf(bytes, LINE_FEED, 0);
    FirstLine(bytes, LINE_FEED);
    if i == -1 {
      ToldOfOne(tell, bytes, false);
      ToldOfOne(tell, bytes, true);
      assert [] + tell(bytes) == tell(bytes);
    } else {
      ScanIsTold(tell, bytes[i + 1..]);
      ScanIsToldAfter(tell, bytes[..i], bytes[i + 1..]);
    }
  }

  lemma {:induction false} ScanIsToldAfter(tell: Teller, line: Bytes, rest: Bytes)
    requires LINE_FEED !in line && ScanTells(tell, Scan(tell, rest), LinesOf(rest))
    ensures var bytes := line + [LINE_FEED] + rest; ScanTells(tell, Scan(tell, bytes), LinesOf(bytes))
  {
    ScanOfLine(tell, line, rest);
    SplitAt(line, LINE_FEED, rest);
    ScanTellsAfterLine(tell, line, Scan(tell, rest), LinesOf(rest));
  }

  // ---------------------------------------------------------------------------------------------
  // The splitter
  // ---------------------------------------------------------------------------------------------

  class Splitter {
    const tell: Teller               // decodes a line and passes it on, unless it is blank
    var buffer: Bytes
    var overflow: bool
    var calls: seq<Callback>         // the consumer's callbacks, in order
    ghost var fed: Bytes             // all chunks so far

    constructor ()
      ensures Valid() && fed == [] && tell == Decoded
    {
      tell := Decoded;
      buffer, overflow, calls, fed := [], false, [], [];
    }

    /** The state depends only on the bytes, not on how they were cut into chunks. */
    ghost predicate Valid()
      reads this
    {
      var s := Scan(tell, fed);
      calls == s.calls && overflow == s.overflow && (!overflow ==> buffer == s.open)
    }

    method OnData(chunk: Bytes)
      requires Valid()
      modifies this
      ensures Valid() && fed == old(fed) + chunk
    {
      ghost var before := Scan(tell, fed);
      ScanResumes(tell, fed, chunk);
      fed := fed + chunk;
      if overflow { return; }
      buffer := buffer + chunk;
      ghost var goal := Resume(tell, before, chunk);
      hide Scan, Resume, IndexOf;
      var index := IndexOf(buffer, LINE_FEED, 0);
      while index != -1
        invariant index == IndexOf(buffer, LINE_FEED, 0)
        invariant !overflow && fed == old(fed) + chunk
        invariant goal == Prepend(calls, Scan(tell, buffer))
        decreases |buffer|
      {
        var line := buffer[..index];
        FirstLine(buffer, LINE_FEED);
        ScanOfLine(tell, line, buffer[index + 1..]);
        buffer := buffer[index + 1..];
        if |line| > LINE_LIMIT {
          overflow := true;
          calls := calls + [LimitExceeded];
          return;
        }
        PrependTwice(calls, tell(line), Scan(tell, buffer));
        calls := calls + tell(line);
        index := IndexOf(buffer, LINE_FEED, 0);
      }
      ScanOfOpen(tell, buffer);
      if |buffer| > LINE_LIMIT {
        overflow := true;
        calls := calls + [LimitExceeded];
      }
    }

    method OnEnd()
      requires Valid()
      modifies this`calls
      ensures calls == Told(tell, LinesOf(fed), true)
    {
      ScanIsTold(tell, fed);
      if !overflow {
        calls := calls + tell(buffer) + [End];
      }
    }
  }

  /** However a stream is cut, scanning it chunk by chunk ends in the same state. */
  lemma {:induction false} ChunksDoNotMatter(tell: Teller, chunks: seq<Bytes>, bytes: Bytes)
    ensures ResumeAll(tell, Scan(tell, bytes), chunks) == Scan(tell, bytes + Flatten(chunks))
    decreases |chunks|
  {
    hide Scan, Resume;
    if chunks == [] {
      assert bytes + [] == bytes;
    } else {
      ScanResumes(tell, bytes, chunks[0]);
      ChunksDoNotMatter(tell, chunks[1..], bytes + chunks[0]);
      assert bytes + chunks[0] + Flatten(chunks[1..]) == bytes + Flatten(chunks);
    }
  }

  function ResumeAll(tell: Teller, s: Scanned, chunks: seq<Bytes>): Scanned
    decreases |chunks|
  {
    if chunks == [] then s else ResumeAll(tell, Resume(tell, s, chunks[0]), chunks[1..])
  }

  // ---------------------------------------------------------------------------------------------
  // Text
  // ---------------------------------------------------------------------------------------------

  function EncodeAll(pieces: seq<seq<Scalar>>): seq<Bytes> {
    if pieces == [] then [] else [Encode(pieces[0])] + EncodeAll(pieces[1..])
  }

  lemma {:induction false} NoFeedInEncoding(text: seq<Scalar>)
    requires LINE_FEED !in text
    ensures LINE_FEED !in Encode(text)
  {
    if text != [] {
      LineFeedIsItself(text[0]);
      NoFeedInEncoding(text[1..]);
    }
  }

  /** Splitting the bytes of a text gives the bytes of the split text. */
  lemma {:induction false} SplittingCommutesWithEncoding(text: seq<Scalar>)
    ensures LinesOf(Encode(text)) == EncodeAll(Split<Scalar>(text, LINE_FEED))
    decreases |text|
  {
    var i := IndexOf(text, LINE_FEED, 0);
    FirstLine(text, LINE_FEED);
    if i == -1 {
      NoFeedInEncoding(text);
      SplitWithout(Encode(text), LINE_FEED);
    } else {
      var (line, rest) := (text[..i], text[i + 1..]);
      assert text == line + ([LINE_FEED] + rest);
      EncodeOfConcat(line, [LINE_FEED] + rest);
      assert ([LINE_FEED] + rest)[1..] == rest;
      assert Encode([LINE_FEED] + rest) == [LINE_FEED] + Encode(rest);
      assert Encode(text) == Encode(line) + [LINE_FEED] + Encode(rest);
      NoFeedInEncoding(line);
      SplitAt(Encode(line), LINE_FEED, Encode(rest));
      SplittingCommutesWithEncoding(rest);
      SplitAt<Scalar>(line, LINE_FEED, rest);
      assert ([line] + Split<Scalar>(rest, LINE_FEED))[1..] == Split<Scalar>(rest, LINE_FEED);
    }
  }

  lemma {:induction false} DecodeUndoesEncodeAll(pieces: seq<seq<Scalar>>)
    ensures |EncodeAll(pieces)| == |pieces|
    ensures forall i | 0 <= i < |pieces| :: Decode(EncodeAll(pieces)[i]) == pieces[i]
  {
    if pieces != [] {
      DecodeUndoesEncode(pieces[0]);
      DecodeUndoesEncodeAll(pieces[1..]);
    }
  }

  /** For valid UTF-8, splitting the bytes and decoding each line is decoding and then splitting. */
  lemma {:induction false} ByteSplittingIsTextSplitting(bytes: Bytes)
    requires Encode(Decode(bytes)) == bytes
    ensures var (lines, text) := (LinesOf(bytes), Split<Scalar>(Decode(bytes), LINE_FEED));
            |lines| == |text| && forall i | 0 <= i < |text| :: Decode(lines[i]) == text[i]
  {
    SplittingCommutesWithEncoding(Decode(bytes));
    DecodeUndoesEncodeAll(Split<Scalar>(Decode(bytes), LINE_FEED));
  }
}
