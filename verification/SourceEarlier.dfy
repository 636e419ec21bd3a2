/** Paging backwards through the observation source, one window after the other. */
module SourceEarlier {
  import opened Options
  import opened Utf8
  import opened Lines
  import opened SourcePage
  import opened SourceReader

  // ---------------------------------------------------------------------------------------------
  // Where an earlier window starts
  // ---------------------------------------------------------------------------------------------

  /** The last line boundary from `low` to `high`. */
  function LastBoundary(file: Bytes, low: nat, high: nat): (b: Option<nat>)
    requires low <= high <= |file|
    ensures b.Some? ==> low <= b.value <= high && IsBoundary(file, b.value)
    ensures b.Some? ==> forall k | b.value < k <= high :: !IsBoundary(file, k)
    ensures b == None ==> forall k | low <= k <= high :: !IsBoundary(file, k)
  {
    if IsBoundary(file, high) then Some(high)
    else if high == low then None
    else LastBoundary(file, low, high - 1)
  }

  function Minus(a: nat, b: nat): nat {
    if a < b then 0 else a - b
  }

  /** The window that ends at `end` starts at a boundary within reach, or, if there is none, inside a line. */
  function WindowStart(file: Bytes, end: nat): (nat, bool)
    requires end <= |file|
  {
    var high := Minus(end, INITIAL_TAIL_BYTES);
    var low := Minus(high, LINE_ISOLATE);
    match LastBoundary(file, low, high)
    case Some(b) => (b, true)
    case None => (low, false)
  }

  lemma {:induction false} LastBoundaryIs(file: Bytes, low: nat, high: nat, b: nat)
    requires low <= b <= high <= |file| && IsBoundary(file, b) && forall k | b < k <= high :: !IsBoundary(file, k)
    ensures LastBoundary(file, low, high) == Some(b)
  {
    if high > b { LastBoundaryIs(file, low, high - 1, b); }
  }

  lemma {:induction false} NoBoundary(file: Bytes, low: nat, high: nat)
    requires low <= high <= |file| && forall k | low <= k <= high :: !IsBoundary(file, k)
    ensures LastBoundary(file, low, high) == None
  {
    if high > low { NoBoundary(file, low, high - 1); }
  }

  /** Searches backwards, chunk by chunk, as far as a line that is not too long can reach. */
  method EarlierWindowStart(file: Bytes, end: nat) returns (start: nat, aligned: bool)
    ensures aligned ==> IsBoundary(file, start)
    ensures end <= |file| ==> (start, aligned) == WindowStart(file, end)
  {
    var windowStart := Minus(end, INITIAL_TAIL_BYTES);
    if windowStart == 0 { return 0, true; }
    if windowStart <= |file| && file[windowStart - 1] == LINE_FEED { return windowStart, true; }
    var floor := Minus(windowStart, LINE_ISOLATE);
    var pos := windowStart;
    while pos > floor
      invariant floor <= pos <= windowStart
      invariant windowStart <= |file| ==> forall k | pos < k <= windowStart :: !IsBoundary(file, k)
    {
      var chunkStart := if pos < floor + READ_CHUNK then floor else pos - READ_CHUNK;
      var got := if pos <= |file| then pos - chunkStart else Minus(|file|, chunkStart);
      if got == 0 { break; }
      var i := got;
      while i > 0
        invariant 0 <= i <= got
        invariant forall k | chunkStart + i < k <= chunkStart + got :: !IsBoundary(file, k)
      {
        i := i - 1;
        if file[chunkStart + i] == LINE_FEED {
          if windowStart <= |file| { LastBoundaryIs(file, floor, windowStart, chunkStart + i + 1); }
          return chunkStart + i + 1, true;
        }
      }
      pos := chunkStart;
    }
    if 0 < floor <= |file| && file[floor - 1] == LINE_FEED {
      if windowStart <= |file| { LastBoundaryIs(file, floor, windowStart, floor); }
      return floor, true;
    }
    if windowStart <= |file| {
      if floor == 0 { LastBoundaryIs(file, 0, windowStart, 0); } else { NoBoundary(file, floor, windowStart); }
    }
    return floor, floor == 0;
  }

  // ---------------------------------------------------------------------------------------------
  // The records between two offsets
  // ---------------------------------------------------------------------------------------------

  /** The records of a pass from `s`, where a line begins, to `e`. */
  function Records<R>(accept: Acceptor<R>, file: Bytes, s: nat, e: nat): seq<Record<R>> {
    PageFrom(accept, Window(file, s, e), s, NoLimit).records
  }

  /** The records of a window that begins inside a line. */
  function RecordsAfterPartial<R>(accept: Acceptor<R>, file: Bytes, s: nat, e: nat): seq<Record<R>> {
    PageAfterPartial(accept, Window(file, s, e), s, NoLimit).records
  }

  lemma {:induction false} WindowsJoin(file: Bytes, s: nat, b: nat, e: nat)
    requires s <= b <= e <= |file|
    ensures Window(file, s, e) == Window(file, s, b) + Window(file, b, e)
    ensures |Window(file, s, b)| == b - s && |Window(file, b, e)| == e - b
    ensures forall k | s <= k < e :: Window(file, s, e)[k - s] == file[k]
  {
    assert file[s..e] == file[s..b] + file[b..e];
  }

  /** A window that ends at a boundary is read to its end. */
  lemma {:induction false} WholeLinesAreRead<R>(accept: Acceptor<R>, w: Bytes, at: nat)
    requires Lawful(accept) && (w == [] || w[|w| - 1] == LINE_FEED)
    ensures PageFrom(accept, w, at, NoLimit).next == at + |w|
  {
    hide PageFrom;
    assert w[..|w|] == w;
    PollingLosesNothing(accept, w, |w|, at);
    NoFeedNoTail(w, PageFrom(accept, w, at, NoLimit).next - at);
  }

  lemma NoFeedNoTail(w: Bytes, k: int)
    requires 0 <= k <= |w| && (w == [] || w[|w| - 1] == LINE_FEED)
    requires forall j | k <= j < |w| :: w[j] != LINE_FEED
    ensures k == |w|
  {
  }

  /** A pass can be interrupted at any line boundary. */
  lemma {:induction false} RecordsSplit<R>(accept: Acceptor<R>, file: Bytes, s: nat, b: nat, e: nat)
    requires Lawful(accept) && s <= b <= e <= |file| && (b == s || file[b - 1] == LINE_FEED)
    ensures Records(accept, file, s, e) == Records(accept, file, s, b) + Records(accept, file, b, e)
  {
    hide PageFrom, Window, IndexOf;
    WindowsJoin(file, s, b, e);
    WindowsJoin(file, s, s, b);
    var all := Window(file, s, e);
    assert all[..b - s] == Window(file, s, b) && all[b - s..] == Window(file, b, e);
    WholeLinesAreRead(accept, Window(file, s, b), s);
    PollingLosesNothing(accept, all, b - s, s);
  }

  /** A line that is too long adds no record, so it may be cut. */
  lemma {:induction false} LongLineMayBeCut<R>(accept: Acceptor<R>, open: Bytes, more: Bytes, at: nat)
    requires Lawful(accept) && open != [] && LINE_FEED !in open
    requires NoFeed(more, 0, LINE_ISOLATE)
    ensures PageFrom(accept, open + more, at, NoLimit).records ==
            PageAfterPartial(accept, more, at + |open|, NoLimit).records
  {
    hide PageFrom;
    var (all, i) := (open + more, IndexOf<Byte>(more, LINE_FEED, 0));
    FeedBehind(open, more);
    if i == -1 {
      PageOfOpen(accept, all, at, NoLimit);
    } else {
      var z := |open| + i;
      PageOfLine(accept, all, z, at, NoLimit);
      assert OneLine(accept, all[..z], at).records == [];
      var rest := PageFrom(accept, more[i + 1..], at + z + 1, NoLimit);
      assert [] + rest.records == rest.records;
    }
  }

  lemma {:induction false} FeedBehind(open: Bytes, more: Bytes)
    requires LINE_FEED !in open
    ensures var (all, i) := (open + more, IndexOf<Byte>(more, LINE_FEED, 0));
            if i == -1 then LINE_FEED !in all
            else FirstFeed(all, |open| + i) && all[|open| + i + 1..] == more[i + 1..]
  {
    var (all, i) := (open + more, IndexOf<Byte>(more, LINE_FEED, 0));
    IndexOfIsFirst<Byte>(more, LINE_FEED, 0);
    assert forall k | 0 <= k < |open| :: all[k] == open[k] && open[k] != LINE_FEED;
    assert forall k | |open| <= k < |all| :: all[k] == more[k - |open|];
    if i != -1 { IndexIs<Byte>(all, LINE_FEED, 0, |open| + i); }
  }

  /** A window that starts inside a line starts inside one that is too long: nothing is lost with it. */
  lemma {:induction false} RecordsCut<R>(accept: Acceptor<R>, file: Bytes, start: nat, e: nat)
    requires Lawful(accept) && start + LINE_ISOLATE <= e <= |file|
    requires forall k | start <= k <= start + LINE_ISOLATE :: !IsBoundary(file, k)
    ensures Records(accept, file, 0, e) == Records(accept, file, 0, start) + RecordsAfterPartial(accept, file, start, e)
  {
    hide PageFrom, PageAfterPartial;
    WindowsJoin(file, 0, start, e);
    WindowsJoin(file, 0, 0, start);
    WindowsJoin(file, start, start, e);
    var (w, more, all) := (Window(file, 0, start), Window(file, start, e), Window(file, 0, e));
    hide Window;
    assert all[..start] == w;
    PollingLosesNothing(accept, all, start, 0);
    NextIsBoundary(accept, w, 0, NoLimit);
    var next := PageFrom(accept, w, 0, NoLimit).next;
    assert IsBoundary(file, next);
    forall k | 0 <= k < LINE_ISOLATE ensures more[k] != LINE_FEED {
      assert !IsBoundary(file, start + k + 1) && more[start + k - start] == file[start + k];
    }
    OpenAndMore(accept, all, w, more, next);
  }

  lemma {:induction false} OpenAndMore<R>(accept: Acceptor<R>, all: Bytes, w: Bytes, more: Bytes, next: nat)
    requires Lawful(accept) && all == w + more && next < |w| && NoFeed(more, 0, LINE_ISOLATE)
    requires forall k | next <= k < |w| :: all[k] != LINE_FEED
    ensures PageFrom(accept, all[next..], next, NoLimit).records == PageAfterPartial(accept, more, |w|, NoLimit).records
  {
    hide PageFrom, PageAfterPartial;
    assert all[next..] == w[next..] + more;
    assert forall k | 0 <= k < |w| - next :: w[next..][k] == all[next + k];
    LongLineMayBeCut(accept, w[next..], more, next);
  }

  ghost predicate Ascending<R>(records: seq<Record<R>>) {
    forall i, j | 0 <= i < j < |records| :: records[i].offset < records[j].offset
  }

  /** Records stand in the order of their offsets. */
  lemma {:induction false} RecordsAscend<R>(accept: Acceptor<R>, w: Bytes, at: nat)
    requires Lawful(accept)
    ensures Ascending(PageFrom(accept, w, at, NoLimit).records)
    decreases |w|
  {
    hide PageFrom, OnBoundaries, Lawful, IndexOf, OneLine;
    var i := IndexOf<Byte>(w, LINE_FEED, 0);
    if i == -1 {
      IndexOfIsFirst<Byte>(w, LINE_FEED, 0);
      PageOfOpen(accept, w, at, NoLimit);
    } else {
      hide Ascending;
      RecordsAscend(accept, w[i + 1..], at + i + 1);
      NextIsBoundary(accept, w[i + 1..], at + i + 1, NoLimit);
      AscendAfter(accept, w[..i], w[i + 1..], at, PageFrom(accept, w[i + 1..], at + i + 1, NoLimit));
      PageOfLine(accept, w, i, at, NoLimit);
    }
  }

  lemma {:induction false} AscendAfter<R>(accept: Acceptor<R>, line: Bytes, rest: Bytes, at: nat, p: Page<R>)
    requires Lawful(accept) && OnBoundaries(p, rest, at + |line| + 1) && Ascending(p.records)
    ensures Ascending(Merge(OneLine(accept, line, at), p).records)
  {
    var one := OneLine(accept, line, at);
    assert forall j | 0 <= j < |p.records| :: p.records[j] in p.records;
    assert forall j | 0 <= j < |one.records| :: one.records[j] in one.records;
  }

  // ---------------------------------------------------------------------------------------------
  // Earlier pages
  // ---------------------------------------------------------------------------------------------

  /** One page back: its records, and where the page before it ends. */
  datatype Earlier<R> = Earlier(records: seq<Record<R>>, offset: Option<nat>)

  /** The last records of the window that ends at `end`, and the cursor of the page before them. */
  function EarlierPage<R>(all: seq<Record<R>>, start: nat, aligned: bool, limit: nat): Earlier<R> {
    var page := all[Minus(|all|, limit)..];
    var dropped := |all| > |page|;
    Earlier(page,
            if (all == [] && start > 0) || (!aligned && start > 0 && !dropped) then Some(start)
            else if page != [] && page[0].offset > 0 && (start > 0 || dropped) then Some(page[0].offset)
            else None)
  }

  function WindowRecords<R>(accept: Acceptor<R>, file: Bytes, start: nat, end: nat, aligned: bool): seq<Record<R>> {
    if aligned || start == 0 then Records(accept, file, start, end) else RecordsAfterPartial(accept, file, start, end)
  }

  function EarlierOf<R>(accept: Acceptor<R>, file: Bytes, end: nat, limit: nat): Earlier<R>
    requires end <= |file|
  {
    var (start, aligned) := WindowStart(file, end);
    EarlierPage(WindowRecords(accept, file, start, end, aligned), start, aligned, limit)
  }

  /** An answer tells, beside its page, where it begins, what was counted on the way, and that all is read. */
  datatype Answer<R> = Answer(page: Earlier<R>, next: nat, bad: nat, oversize: nat, exhausted: bool)

  /**
   * The page is the one the bytes determine; the answer begins with its first record, or with the window if
   * it has none; bad and long lines are those of the window, a cut first one perhaps; and since a page
   * stands before the end of the file, nothing but an empty file is exhausted by it.
   */
  ghost predicate Answers<R>(accept: Acceptor<R>, file: Bytes, end: nat, limit: nat, answer: Answer<R>)
    requires end <= |file|
  {
    var (start, aligned) := WindowStart(file, end);
    var w := Window(file, start, end);
    var read := if aligned then PageFrom(accept, w, start, NoLimit) else PageAfterPartial(accept, w, start, NoLimit);
    && answer.page == EarlierOf(accept, file, end, limit)
    && answer.next == (if answer.page.records != [] then answer.page.records[0].offset else start)
    && answer.bad == read.bad
    && read.oversize <= answer.oversize <= read.oversize
      + (if !aligned && PartialLength(w) > LINE_ISOLATE then 1 else 0)
    && (answer.exhausted <==> file == [])
  }

  lemma {:induction false} WindowIsRead<R>(
    accept: Acceptor<R>, file: Bytes, start: nat, end: nat, aligned: bool, read: Page<R>)
    requires IsPage(accept, Window(file, start, end), start, NoLimit, !aligned, read)
    ensures var w := Window(file, start, end);
            var p := if aligned then PageFrom(accept, w, start, NoLimit)
              else PageAfterPartial(accept, w, start, NoLimit);
            && read.records == p.records && read.bad == p.bad
            && p.oversize <= read.oversize <= p.oversize
              + (if !aligned && PartialLength(w) > LINE_ISOLATE then 1 else 0)
  {
    hide PageFrom, PageAfterPartial, PartialLength, Window;
  }

  /** A first record of a page stands before the end of the file; without one, so does the window. */
  lemma {:induction false} NothingIsExhausted<R>(accept: Acceptor<R>, file: Bytes, end: nat, limit: nat)
    requires Lawful(accept) && end <= |file|
    ensures var (start, page) := (WindowStart(file, end).0, EarlierOf(accept, file, end, limit));
            |file| <= (if page.records != [] then page.records[0].offset else start) <==> file == []
  {
    WindowStartFits(file, end);
    var base := WindowBase(accept, file, end);
    hide PageFrom, PageAfterPartial, WindowStart, Window, Records, RecordsAfterPartial;
    var (start, aligned) := WindowStart(file, end);
    var all := WindowRecords(accept, file, start, end, aligned);
    var page := EarlierOf(accept, file, end, limit);
    if page.records != [] {
      RecordsStand(accept, file, base, end);
      assert page.records[0] in all;
    }
  }

  method ReadEarlier<R>(file: Bytes, end: nat, parse: Parser<R>, limit: nat) returns (answer: Answer<R>)
    ensures end <= |file| ==> Answers(Accepting(parse), file, end, limit, answer)
  {
    var start, aligned := EarlierWindowStart(file, end);
    hide PageFrom, PageAfterPartial, PartialLength, WindowStart, Window, IsPage, Lawful, Accepting;
    var read := ReadForward(file, start, end, parse, !aligned, NoLimit);
    var page := EarlierPage(read.records, start, aligned, limit);
    var next := if page.records != [] then page.records[0].offset else start;
    answer := Answer(page, next, read.bad, read.oversize, next >= |file|);
    if end <= |file| {
      AcceptingIsLawful(parse);
      WindowStartFits(file, end);
      WindowIsRead(Accepting(parse), file, start, end, aligned, read);
      NothingIsExhausted(Accepting(parse), file, end, limit);
    }
  }

  /** Following the cursors backwards, from page to page, as long as there is one. */
  function AllEarlier<R>(accept: Acceptor<R>, file: Bytes, end: nat, limit: nat): seq<Record<R>>
    requires end <= |file|
    decreases end
  {
    var page := EarlierOf(accept, file, end, limit);
    if page.offset.None? || page.offset.value >= end then page.records
    else AllEarlier(accept, file, page.offset.value, limit) + page.records
  }

  lemma {:induction false} WindowStartFits(file: Bytes, end: nat)
    requires end <= |file|
    ensures var (start, aligned) := WindowStart(file, end);
            && start <= end && (end > 0 ==> start < end) && (start == 0 ==> aligned)
            && (aligned ==> IsBoundary(file, start))
            && (!aligned ==> start + LINE_ISOLATE <= end &&
                             forall k | start <= k <= start + LINE_ISOLATE :: !IsBoundary(file, k))
            && (start == 0 || start + 524_288 <= end)
  {
    assert IsBoundary(file, 0);
  }

  /**
   * A page holds the last records of its window, as many as the limit allows. The cursor is its first record
   * if records were left out, and the window's start if the window cut a line and all of it was taken.
   */
  lemma {:induction false} EarlierPageIsLast<R>(accept: Acceptor<R>, file: Bytes, end: nat, limit: nat)
    requires end <= |file|
    ensures var (start, aligned) := WindowStart(file, end);
            var (all, page) := (WindowRecords(accept, file, start, end, aligned), EarlierOf(accept, file, end, limit));
            && |page.records| == (if |all| < limit then |all| else limit)
            && page.records == all[|all| - |page.records|..]
            && (!aligned && start > 0 && |all| <= limit ==> page.offset == Some(start))
            && (|all| > limit >= 1 && page.records[0].offset > 0 ==> page.offset == Some(page.records[0].offset))
            && (start == 0 && |all| <= limit ==> page.offset == None)
  {
    hide WindowStart, WindowRecords, EarlierPage;
    var (start, aligned) := WindowStart(file, end);
    LastOfWindow(WindowRecords(accept, file, start, end, aligned), start, aligned, limit);
  }

  lemma {:induction false} LastOfWindow<R>(all: seq<Record<R>>, start: nat, aligned: bool, limit: nat)
    ensures var page := EarlierPage(all, start, aligned, limit);
            && |page.records| == (if |all| < limit then |all| else limit)
            && page.records == all[|all| - |page.records|..]
            && (!aligned && start > 0 && |all| <= limit ==> page.offset == Some(start))
            && (|all| > limit >= 1 && page.records[0].offset > 0 ==> page.offset == Some(page.records[0].offset))
            && (start == 0 && |all| <= limit ==> page.offset == None)
  {
    var page := EarlierPage(all, start, aligned, limit);
    var k := Minus(|all|, limit);
    assert page.records == all[k..] && |page.records| == |all| - k;
    if |all| <= limit {
      assert k == 0 && |page.records| == |all|;
    } else {
      assert k == |all| - limit && |all| > |page.records|;
      assert limit >= 1 ==> page.records[0] == all[k];
    }
  }

  /** Once its cut first line is dropped, a window begins at a boundary, or it has no line. */
  lemma {:induction false} PartialBase<R>(accept: Acceptor<R>, file: Bytes, start: nat, end: nat) returns (base: nat)
    requires start <= end <= |file|
    ensures start <= base <= end
    ensures var all := RecordsAfterPartial(accept, file, start, end);
            all != [] ==> IsBoundary(file, base) && all == Records(accept, file, base, end)
  {
    hide PageFrom, Window, IndexOf;
    var w := Window(file, start, end);
    var i := IndexOf<Byte>(w, LINE_FEED, 0);
    base := start;
    if i != -1 {
      base := start + i + 1;
      WindowTail(file, start, end, i);
    }
  }

  lemma {:induction false} WindowTail(file: Bytes, start: nat, end: nat, i: nat)
    requires start <= end <= |file| && i < |Window(file, start, end)|
    ensures |Window(file, start, end)| == end - start
    ensures Window(file, start, end)[i] == file[start + i]
    ensures Window(file, start, end)[i + 1..] == Window(file, start + i + 1, end)
  {
  }

  /** The window of a page begins, once a cut line is dropped, at a boundary, and the rest comes before it. */
  lemma {:induction false} WindowBase<R>(accept: Acceptor<R>, file: Bytes, end: nat) returns (base: nat)
    requires Lawful(accept) && end <= |file|
    ensures var (start, aligned) := WindowStart(file, end);
            var all := WindowRecords(accept, file, start, end, aligned);
            && start <= base <= end
            && Records(accept, file, 0, end) == Records(accept, file, 0, start) + all
            && (all != [] ==> IsBoundary(file, base) && all == Records(accept, file, base, end))
  {
    WindowStartFits(file, end);
    hide PageFrom, WindowStart, Records, RecordsAfterPartial;
    var (start, aligned) := WindowStart(file, end);
    base := start;
    if aligned {
      RecordsSplit(accept, file, 0, start, end);
    } else {
      RecordsCut(accept, file, start, end);
      base := PartialBase(accept, file, start, end);
    }
  }

  /** The records from a kept one on are those of a pass that begins there. */
  lemma {:induction false} PassFromRecord<R>(accept: Acceptor<R>, file: Bytes, base: nat, end: nat, k: nat)
    requires Lawful(accept) && base <= end <= |file| && IsBoundary(file, base)
    requires k < |Records(accept, file, base, end)|
    ensures var all := Records(accept, file, base, end);
            var offset := all[k].offset;
            && base <= offset < end
            && Records(accept, file, offset, end) == all[k..]
            && Records(accept, file, 0, end) == Records(accept, file, 0, offset) + all[k..]
  {
    hide PageFrom, Records, Window;
    var all := Records(accept, file, base, end);
    var offset := all[k].offset;
    RecordsStand(accept, file, base, end);
    assert all[k] in all;
    RecordsSplit(accept, file, base, offset, end);
    RecordsSplit(accept, file, 0, offset, end);
    RecordsStand(accept, file, base, offset);
    RecordsStand(accept, file, offset, end);
    SplitIndex(all, Records(accept, file, base, offset), Records(accept, file, offset, end), k, offset);
  }

  /** Records stand on line boundaries of their window, in order. */
  lemma {:induction false} RecordsStand<R>(accept: Acceptor<R>, file: Bytes, s: nat, e: nat)
    requires Lawful(accept) && s <= e <= |file| && IsBoundary(file, s)
    ensures Ascending(Records(accept, file, s, e))
    ensures forall r | r in Records(accept, file, s, e) :: s <= r.offset < e && IsBoundary(file, r.offset)
  {
    hide PageFrom, Ascending;
    var w := Window(file, s, e);
    RecordsAscend(accept, w, s);
    NextIsBoundary(accept, w, s, NoLimit);
    WindowsJoin(file, s, s, e);
    forall r | r in Records(accept, file, s, e) ensures IsBoundary(file, r.offset) {
      assert IsBoundary(w, r.offset - s);
    }
  }

  /** In ascending records, the element with offset `b` stands where those below `b` end. */
  lemma {:induction false} SplitIndex<R>(all: seq<Record<R>>, low: seq<Record<R>>, high: seq<Record<R>>, k: nat, b: nat)
    requires all == low + high && Ascending(all) && k < |all| && all[k].offset == b
    requires (forall r | r in low :: r.offset < b) && (forall r | r in high :: r.offset >= b)
    ensures high == all[k..]
  {
    assert forall j | 0 <= j < |low| :: low[j] in low && all[j] == low[j];
    if |low| < |all| { assert all[|low|] in high; }
    assert k == |low|;
  }

  /** What one page and its cursor leave for the pages before it. */
  lemma {:induction false} EarlierStep<R>(accept: Acceptor<R>, file: Bytes, end: nat, limit: nat)
    requires Lawful(accept) && end <= |file| && limit >= 1
    ensures var page := EarlierOf(accept, file, end, limit);
            match page.offset
            case None => Records(accept, file, 0, end) == page.records
            case Some(o) => o < end && Records(accept, file, 0, end) == Records(accept, file, 0, o) + page.records
  {
    WindowStartFits(file, end);
    var base := WindowBase(accept, file, end);
    hide PageFrom, WindowStart, RecordsAfterPartial, PageAfterPartial, Records;
    var (start, aligned) := WindowStart(file, end);
    var all := WindowRecords(accept, file, start, end, aligned);
    NoRecordsBefore(accept, file);
    if all == [] {
    } else {
      PassFromRecord(accept, file, base, end, Minus(|all|, limit));
      PageKept(accept, file, all, start, aligned, end, limit);
    }
  }

  lemma NoRecordsBefore<R>(accept: Acceptor<R>, file: Bytes)
    ensures Records(accept, file, 0, 0) == []
  {
  }

  lemma {:induction false} PageKept<R>(
    accept: Acceptor<R>, file: Bytes, all: seq<Record<R>>, start: nat, aligned: bool, end: nat, limit: nat)
    requires all != [] && limit >= 1 && start < end && (start == 0 ==> aligned)
    requires Records(accept, file, 0, 0) == []
    requires Records(accept, file, 0, end) == Records(accept, file, 0, start) + all
    requires var k := Minus(|all|, limit);
             var o := all[k].offset;
             start <= o < end && Records(accept, file, 0, end) == Records(accept, file, 0, o) + all[k..]
    ensures var page := EarlierPage(all, start, aligned, limit);
            match page.offset
            case None => Records(accept, file, 0, end) == page.records
            case Some(o) => o < end && Records(accept, file, 0, end) == Records(accept, file, 0, o) + page.records
  {
    hide Records;
    assert all[0..] == all && [] + all == all;
  }

  /** Whatever the page size, paging backwards delivers every record up to `end` once and in order. */
  lemma {:induction false} PagingBackwardsIsOnePass<R>(accept: Acceptor<R>, file: Bytes, end: nat, limit: nat)
    requires Lawful(accept) && end <= |file| && limit >= 1
    ensures AllEarlier(accept, file, end, limit) == Records(accept, file, 0, end)
    decreases end
  {
    hide PageFrom, EarlierOf, Records;
    EarlierStep(accept, file, end, limit);
    match EarlierOf(accept, file, end, limit).offset
    case None =>
    case Some(o) => PagingBackwardsIsOnePass(accept, file, o, limit);
  }
}
