/** Reading the observation source in chunks: forward from a cursor, and a window that ends at one. */
module SourceReader {
  import opened Utf8
  import opened Lines
  import opened SourcePage

  const READ_CHUNK := 64 * 1024
  const INITIAL_TAIL_BYTES := 512 * 1024

  /** The bytes a pass from `start` to `end` can read. */
  function Window(file: Bytes, start: nat, end: nat): Bytes {
    var stop := if end < |file| then end else |file|;
    if start >= stop then [] else file[start..stop]
  }

  predicate NoFeed(w: Bytes, from: nat, to: nat) {
    from <= to <= |w| && forall k | from <= k < to :: w[k] != LINE_FEED
  }

  /** What has been read, and the page of the rest from position `c` of the window. */
  function Total<R>(accept: Acceptor<R>, w: Bytes, start: nat, limit: Limit, done: Page<R>, c: nat): Page<R>
    requires c <= |w|
  {
    Merge(done, PageFrom(accept, w[c..], start + c, Left(limit, |done.records|)))
  }

  lemma {:induction false} TotalAtStart<R>(accept: Acceptor<R>, w: Bytes, start: nat, limit: Limit)
    ensures Total(accept, w, start, limit, Nothing(start), 0) == PageFrom(accept, w, start, limit)
  {
    assert w[0..] == w;
    NothingBefore(start, PageFrom(accept, w, start, limit));
  }

  /** Taking the line from `c` to the feed at `c + i` leaves the total as it is. */
  lemma {:induction false} TakeLine<R>(
    accept: Acceptor<R>, w: Bytes, start: nat, limit: Limit, done: Page<R>, c: nat, i: nat)
    requires Lawful(accept) && !Full(limit, |done.records|)
    requires c + i < |w| && w[c + i] == LINE_FEED && NoFeed(w, c, c + i)
    ensures var one := OneLine(accept, w[c..c + i], start + c);
            Total(accept, w, start, limit, Merge(done, one), c + i + 1) == Total(accept, w, start, limit, done, c)
  {
    var (rest, line) := (w[c..], w[c..c + i]);
    var left := Left(limit, |done.records|);
    FeedInRest(w, c, i);
    PageOfLine(accept, rest, i, start + c, left);
    hide PageFrom;
    var one := OneLine(accept, line, start + c);
    assert Left(left, |one.records|) == Left(limit, |done.records + one.records|);
    MergeAssociates(done, one, PageFrom(accept, rest[i + 1..], start + c + i + 1, Left(left, |one.records|)));
  }

  lemma {:induction false} FeedInRest(w: Bytes, c: nat, i: nat)
    requires c + i < |w| && w[c + i] == LINE_FEED && NoFeed(w, c, c + i)
    ensures FirstFeed(w[c..], i) && w[c..][..i] == w[c..c + i] && w[c..][i + 1..] == w[c + i + 1..]
  {
    assert forall k | 0 <= k < i :: w[c..][k] == w[c + k];
    IndexIs<Byte>(w[c..], LINE_FEED, 0, i);
  }

  /** When the limit is reached nothing is added, whatever is left. */
  lemma {:induction false} TotalWhenFull<R>(
    accept: Acceptor<R>, w: Bytes, start: nat, limit: Limit, done: Page<R>, c: nat)
    requires c <= |w| && Full(limit, |done.records|)
    ensures Total(accept, w, start, limit, done, c) == Page(done.records, start + c, done.bad, done.oversize, false)
  {
    assert done.records + [] == done.records;
  }

  /** When only an open line is left, it is not committed. */
  lemma {:induction false} TotalWhenOpen<R>(
    accept: Acceptor<R>, w: Bytes, start: nat, limit: Limit, done: Page<R>, c: nat)
    requires NoFeed(w, c, |w|) && !Full(limit, |done.records|)
    ensures Total(accept, w, start, limit, done, c) ==
            Page(done.records, start + c, done.bad,
                 done.oversize + if |w| - c > LINE_ISOLATE then 1 else 0, c < |w|)
  {
    PageOfOpen(accept, w[c..], start + c, Left(limit, |done.records|));
    assert done.records + [] == done.records;
  }

  /** Behind the feed that ends a dropped first line, an ordinary page begins. */
  lemma {:induction false} TotalAfterPartial<R>(accept: Acceptor<R>, w: Bytes, start: nat, limit: Limit, i: nat)
    requires i < |w| && w[i] == LINE_FEED && NoFeed(w, 0, i) && !Full(limit, 0)
    ensures PageAfterPartial(accept, w, start, limit) == Total(accept, w, start, limit, Nothing(start + i + 1), i + 1)
  {
    IndexIs<Byte>(w, LINE_FEED, 0, i);
    NothingBefore(start + i + 1, PageFrom(accept, w[i + 1..], start + i + 1, limit));
  }

  /** The next feed in the bytes carried over and just read is the next one in the window. */
  lemma {:induction false} FeedInData(w: Bytes, from: nat, q: nat, data: Bytes, cursor: nat)
    requires from <= q <= |w| && cursor <= |data| == q - from && data == w[from..q]
    ensures var i := IndexOf<Byte>(data, LINE_FEED, cursor);
            if i == -1 then NoFeed(w, from + cursor, q)
            else NoFeed(w, from + cursor, from + i) && w[from + i] == LINE_FEED
  {
    var i := IndexOf<Byte>(data, LINE_FEED, cursor);
    IndexOfIsFirst<Byte>(data, LINE_FEED, cursor);
    var stop := if i == -1 then |data| else i;
    assert forall k | cursor <= k < stop :: data[k] == w[from + k];
    forall k | from + cursor <= k < from + stop ensures w[k] != LINE_FEED { assert w[k] == data[k - from]; }
  }

  /** The carried bytes are the last ones read. */
  predicate Carried(w: Bytes, carry: Bytes, q: nat) {
    |carry| <= q <= |w| && carry == w[q - |carry|..q]
  }

  // ---------------------------------------------------------------------------------------------
  // Reading forward
  // ---------------------------------------------------------------------------------------------

  /** What is being read at position `q` of the window: the dropped first line, a line, or one already too long. */
  datatype Mode = InPartial | InLine | InLong

  /** The reader's variables at position `q` fit what it is reading, and the line begins at `c`. */
  predicate Fits(m: Mode, w: Bytes, q: nat, c: nat, carry: Bytes, skipping: bool, counted: bool) {
    && Carried(w, carry, q) && NoFeed(w, c, q) && |carry| <= LINE_ISOLATE
    && skipping == !m.InLine?
    && match m
       case InPartial => c == 0 && (if counted then q > LINE_ISOLATE else |carry| == q)
       case InLine => !counted && |carry| == q - c
       case InLong => counted && q - c > LINE_ISOLATE
  }

  function CountLong<R>(page: Page<R>): Page<R> {
    page.(oversize := page.oversize + 1)
  }

  /** The reader's variables when the window has been read up to offset `pos`. */
  ghost predicate Reading<R>(
    accept: Acceptor<R>, w: Bytes, start: nat, limit: Limit, m: Mode, page: Page<R>, total: Page<R>,
    pos: nat, carry: Bytes, skipping: bool, counted: bool)
  {
    && start <= page.next <= pos <= start + |w| && !page.incomplete
    && Fits(m, w, pos - start, page.next - start, carry, skipping, counted)
    && match m
       case InPartial =>
         page == Page([], start, 0, if counted then 1 else 0, false) && (counted ==> !Full(limit, 0))
       case InLine => Total(accept, w, start, limit, page, page.next - start) == total
       case InLong => Total(accept, w, start, limit, page, page.next - start) == CountLong(total)
  }

  /** Takes the complete lines of the bytes at hand, until the limit is reached. */
  method AcceptLines<R>(
    accept: Acceptor<R>, data: Bytes, dataStart: nat, from: nat, limit: Limit, done: Page<R>, ghost w: Bytes,
    ghost start: nat)
    returns (page: Page<R>, cursor: nat)
    requires Lawful(accept) && from <= |data| && AtHand(data, dataStart, w, start)
    requires done.next == dataStart + from && !done.incomplete
    ensures from <= cursor <= |data| && page.next == dataStart + cursor && !page.incomplete
    ensures Total(accept, w, start, limit, page, page.next - start) ==
            Total(accept, w, start, limit, done, done.next - start)
    ensures Full(limit, |page.records|) || IndexOf<Byte>(data, LINE_FEED, cursor) == -1
  {
    hide Total, PageFrom, Merge, OneLine, AcceptLine, IndexOf, Lawful;
    page, cursor := done, from;
    NothingAtEnd(data);
    while cursor < |data| && !Full(limit, |page.records|)
      invariant from <= cursor <= |data| && page.next == dataStart + cursor && !page.incomplete
      invariant Total(accept, w, start, limit, page, page.next - start) ==
                Total(accept, w, start, limit, done, done.next - start)
    {
      var nl := IndexOf<Byte>(data, LINE_FEED, cursor);
      if nl == -1 { break; }
      AcceptedLine(accept, w, start, limit, page, dataStart, data, cursor);
      page := AcceptLine(accept, data[cursor..nl], dataStart + cursor, page);
      cursor := nl + 1;
    }
  }

  lemma NothingAtEnd(data: Bytes)
    ensures IndexOf<Byte>(data, LINE_FEED, |data|) == -1
  {
  }

  /** The bytes at hand are those of the window from offset `dataStart` on. */
  predicate AtHand(data: Bytes, dataStart: nat, w: Bytes, start: nat) {
    start <= dataStart && dataStart - start + |data| <= |w| && data == w[dataStart - start..dataStart - start + |data|]
  }

  function AcceptLine<R>(accept: Acceptor<R>, line: Bytes, at: nat, page: Page<R>): Page<R> {
    Merge(page, OneLine(accept, line, at))
  }

  /** One line taken: the page ends behind its feed, and the total stays. */
  lemma {:induction false} AcceptedLine<R>(
    accept: Acceptor<R>, w: Bytes, start: nat, limit: Limit, page: Page<R>, dataStart: nat, data: Bytes, cursor: nat)
    requires Lawful(accept) && AtHand(data, dataStart, w, start) && cursor <= |data| && !Full(limit, |page.records|)
    requires page.next == dataStart + cursor
    requires IndexOf<Byte>(data, LINE_FEED, cursor) != -1
    ensures var nl := IndexOf<Byte>(data, LINE_FEED, cursor);
            var after := AcceptLine(accept, data[cursor..nl], dataStart + cursor, page);
            && after.next == dataStart + nl + 1 && !after.incomplete
            && Total(accept, w, start, limit, after, after.next - start) ==
               Total(accept, w, start, limit, page, page.next - start)
  {
    hide PageFrom, Total, Accept;
    var nl := IndexOf<Byte>(data, LINE_FEED, cursor);
    var at := dataStart - start;
    FeedInData(w, at, at + |data|, data, cursor);
    Slice<Byte>(w, at, at + |data|, cursor, nl);
    TakeLine(accept, w, start, limit, page, at + cursor, nl - cursor);
  }

  // ---------------------------------------------------------------------------------------------
  // One read
  // ---------------------------------------------------------------------------------------------

  /** What was carried over and what was read next are bytes of the window, one after the other. */
  lemma {:induction false} DataIsAtHand(file: Bytes, start: nat, end: nat, pos: nat, n: nat, carry: Bytes)
    requires start <= pos && pos + n <= end && pos + n <= |file| && n >= 1
    requires Carried(Window(file, start, end), carry, pos - start)
    ensures AtHand(carry + file[pos..pos + n], pos - |carry|, Window(file, start, end), start)
  {
    var w := Window(file, start, end);
    var (stop, q) := (if end < |file| then end else |file|, pos - start);
    Slice<Byte>(file, start, stop, q, q + n);
    assert w[q - |carry|..q + n] == w[q - |carry|..q] + w[q..q + n];
  }

  /** A read without a feed, while a line is being skipped. */
  lemma {:induction false} SkipOn<R>(
    accept: Acceptor<R>, w: Bytes, start: nat, limit: Limit, m: Mode, page: Page<R>, total: Page<R>,
    pos: nat, carry: Bytes, counted: bool, data: Bytes, long: bool)
    requires Reading(accept, w, start, limit, m, page, total, pos, carry, true, counted)
    requires |data| > |carry| && AtHand(data, pos - |carry|, w, start) && IndexOf<Byte>(data, LINE_FEED, 0) == -1
    requires !Full(limit, |page.records|) && long == (|data| > LINE_ISOLATE)
    ensures Reading(accept, w, start, limit, m, if long && !counted then CountLong(page) else page, total,
                    pos - |carry| + |data|, if long then [] else data, true, counted || long)
    ensures !page.incomplete
  {
    hide Fits, Total, PageFrom, IndexOf, Carried, NoFeed;
    SkipFits(m, w, pos - |carry| - start, pos - start, page.next - start, carry, counted, data);
    ReadingMoves(accept, w, start, limit, m, page, total, pos, carry, counted,
                 pos - |carry| + |data|, if long then [] else data, counted || long);
  }

  lemma {:induction false} ReadingMoves<R>(
    accept: Acceptor<R>, w: Bytes, start: nat, limit: Limit, m: Mode, page: Page<R>, total: Page<R>,
    pos: nat, carry: Bytes, counted: bool, pos': nat, carry': Bytes, counted': bool)
    requires Reading(accept, w, start, limit, m, page, total, pos, carry, true, counted)
    requires !m.InLine? && (m.InLong? ==> counted) && (counted ==> counted')
    requires !Full(limit, |page.records|) && pos <= pos' <= start + |w|
    requires Fits(m, w, pos' - start, page.next - start, carry', true, counted')
    ensures Reading(accept, w, start, limit, m, if counted' && !counted then CountLong(page) else page, total,
                    pos', carry', true, counted')
  {
    hide Fits, Total;
  }

  lemma {:induction false} SkipFits(
    m: Mode, w: Bytes, from: int, q: nat, c: nat, carry: Bytes, counted: bool, data: Bytes)
    requires Fits(m, w, q, c, carry, true, counted) && |data| > |carry|
    requires from == q - |carry| && from >= 0 && from + |data| <= |w| && data == w[from..from + |data|]
    requires IndexOf<Byte>(data, LINE_FEED, 0) == -1
    ensures var long := |data| > LINE_ISOLATE;
            Fits(m, w, from + |data|, c, if long then [] else data, true, counted || long)
    ensures !m.InLine? && (m.InLong? ==> counted)
  {
    FeedInData(w, from, from + |data|, data, 0);
  }

  /** What the page will be once the first feed is behind: a dropped line may have been counted. */
  function AfterFeed<R>(
    accept: Acceptor<R>, w: Bytes, start: nat, limit: Limit, m: Mode, total: Page<R>, counted: bool): Page<R> {
    if m != InPartial then total
    else
      var expected := PageAfterPartial(accept, w, start, limit);
      if counted then CountLong(expected) else expected
  }

  /** A read with a feed, while a line is being skipped: behind the feed, lines are read again. */
  lemma {:induction false} FeedFound<R>(
    accept: Acceptor<R>, w: Bytes, start: nat, limit: Limit, m: Mode, page: Page<R>, total: Page<R>,
    pos: nat, carry: Bytes, counted: bool, data: Bytes)
    requires Lawful(accept) && Reading(accept, w, start, limit, m, page, total, pos, carry, true, counted)
    requires |data| > |carry| && AtHand(data, pos - |carry|, w, start) && IndexOf<Byte>(data, LINE_FEED, 0) != -1
    requires !Full(limit, |page.records|)
    ensures var next := pos - |carry| + IndexOf<Byte>(data, LINE_FEED, 0) + 1;
            && next - start <= |w| && !page.incomplete
            && Total(accept, w, start, limit, page.(next := next), next - start) ==
               AfterFeed(accept, w, start, limit, m, total, counted)
  {
    hide Total, PageFrom, IndexOf, PageAfterPartial;
    var (from, c) := (pos - |carry| - start, page.next - start);
    var z := from + IndexOf<Byte>(data, LINE_FEED, 0);
    FeedAfterSkipped(m, w, from, pos - start, c, carry, counted, data);
    if m == InPartial {
      TotalAfterPartial(accept, w, start, limit, z);
      var p := Nothing<R>(start + z + 1);
      if counted { CountLongCommutes(accept, w, start, limit, p, z + 1); }
    } else {
      LongLineIsCounted(accept, w, start, limit, page, total, c, z);
    }
  }

  lemma {:induction false} CountLongCommutes<R>(
    accept: Acceptor<R>, w: Bytes, start: nat, limit: Limit, page: Page<R>, c: nat)
    requires c <= |w|
    ensures Total(accept, w, start, limit, CountLong(page), c) == CountLong(Total(accept, w, start, limit, page, c))
  {
    hide PageFrom;
  }

  /** A line already counted as too long is not counted again at its feed. */
  lemma {:induction false} LongLineIsCounted<R>(
    accept: Acceptor<R>, w: Bytes, start: nat, limit: Limit, page: Page<R>, total: Page<R>, c: nat, z: nat)
    requires Lawful(accept) && !Full(limit, |page.records|) && !page.incomplete
    requires c + LINE_ISOLATE < z < |w| && w[z] == LINE_FEED && NoFeed(w, c, z)
    requires Total(accept, w, start, limit, page, c) == CountLong(total)
    ensures Total(accept, w, start, limit, page.(next := start + z + 1), z + 1) == total
  {
    hide PageFrom, Total;
    TakeLine(accept, w, start, limit, page, c, z - c);
    var one := OneLine(accept, w[c..z], start + c);
    assert Merge(page, one) == CountLong(page.(next := start + z + 1)) by { assert page.records + [] == page.records; }
    CountLongCommutes(accept, w, start, limit, page.(next := start + z + 1), z + 1);
  }

  lemma {:induction false} FeedAfterSkipped(
    m: Mode, w: Bytes, from: int, q: nat, c: nat, carry: Bytes, counted: bool, data: Bytes)
    requires Fits(m, w, q, c, carry, true, counted) && |data| > |carry|
    requires from == q - |carry| && from >= 0 && from + |data| <= |w| && data == w[from..from + |data|]
    requires IndexOf<Byte>(data, LINE_FEED, 0) != -1
    ensures var z := from + IndexOf<Byte>(data, LINE_FEED, 0);
            && q <= z < |w| && w[z] == LINE_FEED && NoFeed(w, c, z)
            && !m.InLine? && (m == InLong ==> c + LINE_ISOLATE < z)
            && (m == InPartial ==> if counted then z > LINE_ISOLATE else z - from < |data|)
  {
    FeedInData(w, from, from + |data|, data, 0);
    assert forall k | 0 <= k < |carry| :: data[k] == w[from + k];
  }

  /** What is left over after the complete lines of a read. */
  lemma {:induction false} RestLeft<R>(
    accept: Acceptor<R>, w: Bytes, start: nat, limit: Limit, page: Page<R>, total: Page<R>,
    dataStart: nat, data: Bytes, cursor: nat)
    requires AtHand(data, dataStart, w, start) && cursor <= |data| && IndexOf<Byte>(data, LINE_FEED, cursor) == -1
    requires page.next == dataStart + cursor && !page.incomplete
    requires Total(accept, w, start, limit, page, page.next - start) == total
    ensures var rest := data[cursor..];
            if |rest| > LINE_ISOLATE
            then Reading(accept, w, start, limit, InLong, CountLong(page), total, dataStart + |data|, [], true, true)
            else Reading(accept, w, start, limit, InLine, page, total, dataStart + |data|, rest, false, false)
  {
    hide Total, PageFrom, IndexOf, Fits, AtHand;
    RestFits(w, start, dataStart, page.next, data, cursor);
    CountLongCommutes(accept, w, start, limit, page, page.next - start);
  }

  lemma {:induction false} RestFits(w: Bytes, start: nat, dataStart: nat, next: nat, data: Bytes, cursor: nat)
    requires AtHand(data, dataStart, w, start) && next == dataStart + cursor
    requires cursor <= |data| && IndexOf<Byte>(data, LINE_FEED, cursor) == -1
    ensures start <= dataStart && dataStart - start + |data| <= |w|
    ensures var rest := data[cursor..];
            if |rest| > LINE_ISOLATE then Fits(InLong, w, dataStart + |data| - start, next - start, [], true, true)
            else Fits(InLine, w, dataStart + |data| - start, next - start, rest, false, false)
  {
    var at := dataStart - start;
    FeedInData(w, at, at + |data|, data, cursor);
    Slice<Byte>(w, at, at + |data|, cursor, |data|);
  }

  // ---------------------------------------------------------------------------------------------
  // A pass
  // ---------------------------------------------------------------------------------------------

  /** A page read without its first, cut line may count that line if it was too long. */
  ghost predicate MayCountPartial<R>(page: Page<R>, expected: Page<R>, partial: nat) {
    && (page == expected || (page == CountLong(expected) && partial > LINE_ISOLATE))
    && (partial >= LINE_ISOLATE + READ_CHUNK ==> page == CountLong(expected))
  }

  /** The length of what precedes the first feed. */
  function PartialLength(w: Bytes): nat {
    var i := IndexOf<Byte>(w, LINE_FEED, 0);
    if i == -1 then |w| else i
  }

  /** What `total` has to do with the page to be read, which drops a first line if it is `partial`. */
  ghost predicate Expects<R>(
    accept: Acceptor<R>, w: Bytes, start: nat, limit: Limit, partial: bool, m: Mode, total: Page<R>)
  {
    if !partial then m != InPartial && total == PageFrom(accept, w, start, limit)
    else m != InPartial ==> MayCountPartial(total, PageAfterPartial(accept, w, start, limit), PartialLength(w))
  }

  lemma {:induction false} ExpectsAfterFeed<R>(
    accept: Acceptor<R>, w: Bytes, start: nat, limit: Limit, partial: bool, m: Mode, page: Page<R>, total: Page<R>,
    pos: nat, carry: Bytes, counted: bool, data: Bytes)
    requires Expects(accept, w, start, limit, partial, m, total)
    requires Reading(accept, w, start, limit, m, page, total, pos, carry, true, counted)
    requires |carry| < |data| <= |carry| + READ_CHUNK
    requires AtHand(data, pos - |carry|, w, start) && IndexOf<Byte>(data, LINE_FEED, 0) != -1
    ensures Expects(accept, w, start, limit, partial, InLine, AfterFeed(accept, w, start, limit, m, total, counted))
  {
    hide Total, PageFrom, IndexOf, PageAfterPartial;
    var from := pos - |carry| - start;
    FeedAfterSkipped(m, w, from, pos - start, page.next - start, carry, counted, data);
    if m == InPartial {
      IndexIs<Byte>(w, LINE_FEED, 0, from + IndexOf<Byte>(data, LINE_FEED, 0));
    }
  }

  /** At the end of the window, or at the limit, the page is what was expected. */
  lemma {:induction false} ReadingEnds<R>(
    accept: Acceptor<R>, w: Bytes, start: nat, limit: Limit, partial: bool, m: Mode, page: Page<R>, total: Page<R>,
    pos: nat, carry: Bytes, skipping: bool, counted: bool)
    requires Expects(accept, w, start, limit, partial, m, total)
    requires Reading(accept, w, start, limit, m, page, total, pos, carry, skipping, counted)
    requires pos == start + |w| && !Full(limit, |page.records|)
    ensures var read := page.(incomplete := carry != [] || skipping);
            if partial then MayCountPartial(read, PageAfterPartial(accept, w, start, limit), PartialLength(w))
            else read == PageFrom(accept, w, start, limit)
  {
    if m == InPartial {
      NoIndex<Byte>(w, LINE_FEED, 0);
    } else {
      TotalWhenOpen(accept, w, start, limit, page, page.next - start);
    }
    hide Total, PageFrom, IndexOf;
  }

  /** The page a pass is to yield, up to the count of a dropped first line. */
  ghost predicate IsPage<R>(accept: Acceptor<R>, w: Bytes, start: nat, limit: Limit, partial: bool, page: Page<R>) {
    if partial && !Full(limit, 0)
    then MayCountPartial(page, PageAfterPartial(accept, w, start, limit), PartialLength(w))
    else page == PageFrom(accept, w, start, limit)
  }

  /** Whether the reader may go on: it stands as expected, or it has reached its limit with the whole page. */
  ghost predicate OnCourse<R>(
    accept: Acceptor<R>, w: Bytes, start: nat, limit: Limit, partial: bool, m: Mode, page: Page<R>, total: Page<R>,
    pos: nat, carry: Bytes, skipping: bool, counted: bool)
  {
    && Expects(accept, w, start, limit, partial, m, total) && !page.incomplete
    && if Full(limit, |page.records|) then m != InPartial && page == total && !Full(limit, 0)
       else Reading(accept, w, start, limit, m, page, total, pos, carry, skipping, counted)
  }

  /** Behind a first feed, what is skipped is a line already too long. */
  function LineMode(skipping: bool): Mode {
    if skipping then InLong else InLine
  }

  /** What is being read after a chunk. */
  function NextMode(m: Mode, data: Bytes, skipped: bool, skipping: bool): Mode {
    if skipped && IndexOf<Byte>(data, LINE_FEED, 0) == -1 then m else LineMode(skipping)
  }

  /** The page to be read, once the chunk has shown how a dropped first line ends. */
  function NextTotal<R>(
    accept: Acceptor<R>, w: Bytes, start: nat, limit: Limit, m: Mode, data: Bytes, skipped: bool, counted: bool,
    total: Page<R>): Page<R>
  {
    if skipped && IndexOf<Byte>(data, LINE_FEED, 0) != -1
    then AfterFeed(accept, w, start, limit, m, total, counted) else total
  }

  /** The complete lines of the data from `cursor` on are taken; the rest is carried over or skipped. */
  method TakeLines<R>(
    accept: Acceptor<R>, data: Bytes, dataStart: nat, cursor: nat, limit: Limit, before: Page<R>,
    ghost w: Bytes, ghost start: nat, ghost partial: bool, ghost total: Page<R>)
    returns (page: Page<R>, carry: Bytes, skipping: bool, counted: bool)
    requires Lawful(accept) && AtHand(data, dataStart, w, start) && cursor <= |data| && !Full(limit, 0)
    requires before.next == dataStart + cursor && !before.incomplete
    requires Total(accept, w, start, limit, before, before.next - start) == total
    requires Expects(accept, w, start, limit, partial, InLine, total)
    ensures OnCourse(accept, w, start, limit, partial, LineMode(skipping), page, total, dataStart + |data|,
                     carry, skipping, counted)
  {
    var end;
    page, end := AcceptLines(accept, data, dataStart, cursor, limit, before, w, start);
    hide Total, PageFrom, PageAfterPartial, MayCountPartial, IndexOf, PartialLength, Lawful, AtHand;
    carry, skipping, counted := [], false, false;
    if Full(limit, |page.records|) {
      TotalWhenFull(accept, w, start, limit, page, page.next - start);
      return;
    }
    RestLeft(accept, w, start, limit, page, total, dataStart, data, end);
    if |data[end..]| > LINE_ISOLATE {
      page, counted, skipping := CountLong(page), true, true;
    } else {
      carry := data[end..];
    }
    hide Reading;
  }

  lemma {:induction false} NotSkipping<R>(
    accept: Acceptor<R>, w: Bytes, start: nat, limit: Limit, m: Mode, page: Page<R>, total: Page<R>,
    pos: nat, carry: Bytes, counted: bool)
    requires Reading(accept, w, start, limit, m, page, total, pos, carry, false, counted)
    ensures m == InLine && page.next == pos - |carry| && !page.incomplete
    ensures Total(accept, w, start, limit, page, page.next - start) == total
  {
    hide Total;
  }

  /** What one read does to the page, reading on at `from` with the bytes carried over. */
  method TakeChunk<R>(
    accept: Acceptor<R>, chunk: Bytes, from: nat, limit: Limit, before: Page<R>, carried: Bytes, skipped: bool,
    wasCounted: bool, ghost w: Bytes, ghost start: nat, ghost partial: bool, ghost m: Mode, ghost total: Page<R>)
    returns (page: Page<R>, carry: Bytes, skipping: bool, counted: bool)
    requires Lawful(accept) && !Full(limit, |before.records|) && 1 <= |chunk| <= READ_CHUNK
    requires |carried| <= from && AtHand(carried + chunk, from - |carried|, w, start)
    requires Reading(accept, w, start, limit, m, before, total, from, carried, skipped, wasCounted)
    requires Expects(accept, w, start, limit, partial, m, total)
    ensures var data := carried + chunk;
            OnCourse(accept, w, start, limit, partial, NextMode(m, data, skipped, skipping), page,
                     NextTotal(accept, w, start, limit, m, data, skipped, wasCounted, total), from + |chunk|,
                     carry, skipping, counted)
  {
    hide PageFrom, Total, Lawful, PageAfterPartial, MayCountPartial, IndexOf, PartialLength, Reading, Expects;
    hide AfterFeed;
    page, carry, skipping, counted := before, [], skipped, wasCounted;
    ghost var total' := total;
    var (data, dataStart, cursor) := (carried + chunk, from - |carried|, 0);
    if skipping {
      var nl := IndexOf<Byte>(data, LINE_FEED, 0);
      if nl == -1 {
        SkipOn(accept, w, start, limit, m, page, total, from, carried, counted, data, |data| > LINE_ISOLATE);
        if |data| <= LINE_ISOLATE {
          carry := data;
        } else if !counted {
          page, counted := CountLong(page), true;
        }
        return;
      }
      FeedFound(accept, w, start, limit, m, page, total, from, carried, counted, data);
      ExpectsAfterFeed(accept, w, start, limit, partial, m, page, total, from, carried, counted, data);
      total' := AfterFeed(accept, w, start, limit, m, total, counted);
      cursor := nl + 1;
      page := page.(next := dataStart + cursor);
    } else {
      NotSkipping(accept, w, start, limit, m, page, total, from, carried, counted);
    }
    page, carry, skipping, counted :=
      TakeLines(accept, data, dataStart, cursor, limit, page, w, start, partial, total');
  }

  /** One read of any size up to what is wanted. */
  method ReadOnce<R>(
    accept: Acceptor<R>, file: Bytes, from: nat, end: nat, limit: Limit, before: Page<R>, carried: Bytes, skipped: bool,
    wasCounted: bool, ghost start: nat, ghost partial: bool, ghost m: Mode, ghost total: Page<R>)
    returns (page: Page<R>, pos: nat, carry: Bytes, skipping: bool, counted: bool, ghost m': Mode,
            ghost total': Page<R>)
    requires Lawful(accept) && start <= from < end && from < |file| && !Full(limit, |before.records|)
    requires OnCourse(accept, Window(file, start, end), start, limit, partial, m, before, total, from, carried,
             skipped, wasCounted)
    ensures from < pos <= end && pos <= |file|
    ensures OnCourse(accept, Window(file, start, end), start, limit, partial, m', page, total', pos, carry, skipping,
            counted)
  {
    hide Total, PageFrom, Window, Expects, Lawful, Reading, OnCourse, Carried;
    var want := if end - from < READ_CHUNK then end - from else READ_CHUNK;
    var n :| 1 <= n <= want && n <= |file| - from;
    ReadingGoesOn(accept, Window(file, start, end), start, limit, partial, m, before, total, from, carried, skipped,
      wasCounted);
    DataIsAtHand(file, start, end, from, n, carried);
    page, carry, skipping, counted := TakeChunk(
      accept, file[from..from + n], from, limit, before, carried, skipped, wasCounted,
      Window(file, start, end), start, partial, m, total);
    ghost var data := carried + file[from..from + n];
    m' := NextMode(m, data, skipped, skipping);
    total' := NextTotal(accept, Window(file, start, end), start, limit, m, data, skipped, wasCounted, total);
    pos := from + n;
  }

  lemma {:induction false} ReadingGoesOn<R>(
    accept: Acceptor<R>, w: Bytes, start: nat, limit: Limit, partial: bool, m: Mode, page: Page<R>, total: Page<R>,
    pos: nat, carry: Bytes, skipping: bool, counted: bool)
    requires OnCourse(accept, w, start, limit, partial, m, page, total, pos, carry, skipping, counted)
    requires !Full(limit, |page.records|)
    ensures Reading(accept, w, start, limit, m, page, total, pos, carry, skipping, counted)
    ensures Expects(accept, w, start, limit, partial, m, total)
    ensures start <= pos && |carry| <= pos - start && Carried(w, carry, pos - start)
  {
    hide Total;
  }

  lemma {:induction false} StartsOnCourse<R>(accept: Acceptor<R>, w: Bytes, start: nat, limit: Limit, partial: bool)
    requires !Full(limit, 0)
    ensures OnCourse(accept, w, start, limit, partial, if partial then InPartial else InLine, Nothing(start),
                     PageFrom(accept, w, start, limit), start, [], partial, false)
  {
    TotalAtStart(accept, w, start, limit);
    hide PageFrom, Total;
  }

  lemma {:induction false} PassEnds<R>(
    file: Bytes, end: nat, accept: Acceptor<R>, w: Bytes, start: nat, limit: Limit, partial: bool, m: Mode,
    page: Page<R>, total: Page<R>, pos: nat, carry: Bytes, skipping: bool, counted: bool)
    requires !Full(limit, 0) && w == Window(file, start, end)
    requires OnCourse(accept, w, start, limit, partial, m, page, total, pos, carry, skipping, counted)
    requires start <= pos && (pos == start || (pos <= end && pos <= |file|))
    requires Full(limit, |page.records|) || pos >= end || pos >= |file|
    ensures IsPage(accept, w, start, limit, partial,
                   page.(incomplete := !Full(limit, |page.records|) && (carry != [] || skipping)))
  {
    hide PageFrom, PageAfterPartial, Total, MayCountPartial;
    if !Full(limit, |page.records|) {
      ReadingEnds(accept, w, start, limit, partial, m, page, total, pos, carry, skipping, counted);
    }
  }

  /** Whatever sizes the reads have, a pass yields the page its bytes determine. */
  method ReadForward<R>(
    file: Bytes, start: nat, end: nat, parse: Parser<R>, dropPartialFirst: bool, limit: Limit) returns (page: Page<R>)
    ensures IsPage(Accepting(parse), Window(file, start, end), start, limit, dropPartialFirst && start > 0, page)
  {
    var accept := Accepting(parse);
    ghost var (w, partial) := (Window(file, start, end), dropPartialFirst && start > 0);
    AcceptingIsLawful(parse);
    page := Nothing(start);
    if Full(limit, 0) { return; }
    hide PageFrom, Lawful, Accepting, OnCourse, IsPage, Window;
    var (pos, carry: Bytes, skippingPartial, countedOversize) := (start, [], dropPartialFirst && start > 0, false);
    ghost var (m, total) := (if partial then InPartial else InLine, PageFrom(accept, w, start, limit));
    StartsOnCourse(accept, w, start, limit, partial);
    while pos < end && !Full(limit, |page.records|)
      invariant start <= pos && (pos == start || (pos <= end && pos <= |file|))
      invariant OnCourse(accept, w, start, limit, partial, m, page, total, pos, carry, skippingPartial, countedOversize)
    {
      if pos >= |file| { break; }
      page, pos, carry, skippingPartial, countedOversize, m, total := ReadOnce(
        accept, file, pos, end, limit, page, carry, skippingPartial, countedOversize, start, partial, m, total);
    }
    PassEnds(file, end, accept, w, start, limit, partial, m, page, total, pos, carry, skippingPartial, countedOversize);
    page := page.(incomplete := !Full(limit, |page.records|) && (carry != [] || skippingPartial));
  }
}
