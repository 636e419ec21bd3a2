/** What one page of the observation source holds: a function of the bytes alone, not of how they are read. */
module SourcePage {
  import opened Utf8
  import opened Lines

  const LINE_ISOLATE := 1024 * 1024

  datatype Record<R> = Record(offset: nat, body: R)

  datatype Page<R> = Page(records: seq<Record<R>>, next: nat, bad: nat, oversize: nat, incomplete: bool)

  /** What accepting one line adds to a page. */
  datatype Taken<R> = Taken(records: seq<Record<R>>, bad: nat, oversize: nat)

  type Acceptor<!R> = (Bytes, nat) -> Taken<R>

  /** At most one record per line, under the offset of the line; a line over the limit is only counted. */
  ghost predicate Lawful<R>(accept: Acceptor<R>) {
    forall line, at ::
      && |accept(line, at).records| <= 1 && (forall r | r in accept(line, at).records :: r.offset == at)
      && (|line| > LINE_ISOLATE ==> accept(line, at) == Taken([], 0, 1))
  }

  /** What the parser makes of one line. */
  datatype Verdict<R> = Skip | Bad | Parsed(body: R)

  type Parser<!R> = (Bytes, nat) -> Verdict<R>

  /** Accepting a complete line: too long, skipped, bad, or delivered. */
  function Accept<R>(parse: Parser<R>, line: Bytes, at: nat): Taken<R> {
    if |line| > LINE_ISOLATE then Taken([], 0, 1)
    else match parse(line, at)
      case Skip => Taken([], 0, 0)
      case Bad => Taken([], 1, 0)
      case Parsed(body) => Taken([Record(at, body)], 0, 0)
  }

  function Accepting<R>(parse: Parser<R>): Acceptor<R> {
    (line: Bytes, at: nat) => Accept(parse, line, at)
  }

  lemma AcceptingIsLawful<R>(parse: Parser<R>)
    ensures Lawful(Accepting(parse))
  {
  }

  /** Two stretches read one after the other. */
  function Merge<R>(a: Page<R>, b: Page<R>): Page<R> {
    Page(a.records + b.records, b.next, a.bad + b.bad, a.oversize + b.oversize, b.incomplete)
  }

  function Nothing<R>(at: nat): Page<R> {
    Page([], at, 0, 0, false)
  }

  function OneLine<R>(accept: Acceptor<R>, line: Bytes, at: nat): Page<R> {
    var t := accept(line, at);
    Page(t.records, at + |line| + 1, t.bad, t.oversize, false)
  }

  /** How many records a page may hold; the source writes no limit as infinity. */
  datatype Limit = NoLimit | AtMost(n: nat)

  /** How many more records fit when `n` are there already; no limit stays no limit. */
  function Left(limit: Limit, n: nat): Limit {
    match limit
    case NoLimit => NoLimit
    case AtMost(k) => AtMost(if n <= k then k - n else 0)
  }

  predicate Full(limit: Limit, n: nat) {
    limit.AtMost? && n >= limit.n
  }

  /**
   * The page that begins at offset `at`, where a line begins, and holds the bytes `w` from there on:
   * line by line until the limit is reached or only an open line is left, which stays uncommitted.
   */
  function PageFrom<R>(accept: Acceptor<R>, w: Bytes, at: nat, limit: Limit): Page<R>
    decreases |w|
  {
    var i := IndexOf<Byte>(w, LINE_FEED, 0);
    if Full(limit, 0) then Nothing(at)
    else if i == -1 then Page([], at, 0, if |w| > LINE_ISOLATE then 1 else 0, w != [])
    else
      var one := OneLine(accept, w[..i], at);
      Merge(one, PageFrom(accept, w[i + 1..], at + i + 1, Left(limit, |one.records|)))
  }

  /** The page of a window that may begin inside a line: what precedes the first line feed is dropped. */
  function PageAfterPartial<R>(accept: Acceptor<R>, w: Bytes, at: nat, limit: Limit): Page<R> {
    var i := IndexOf<Byte>(w, LINE_FEED, 0);
    if Full(limit, 0) then Nothing(at)
    else if i == -1 then Page([], at, 0, 0, true)
    else PageFrom(accept, w[i + 1..], at + i + 1, limit)
  }

  /** The first line of `w` ends at `i`. */
  predicate FirstFeed(w: Bytes, i: nat) {
    i < |w| && w[i] == LINE_FEED && IndexOf<Byte>(w, LINE_FEED, 0) == i
  }

  lemma PageOfLine<R>(accept: Acceptor<R>, w: Bytes, i: nat, at: nat, limit: Limit)
    requires FirstFeed(w, i) && !Full(limit, 0)
    ensures var one := OneLine(accept, w[..i], at);
            PageFrom(accept, w, at, limit) ==
            Merge(one, PageFrom(accept, w[i + 1..], at + i + 1, Left(limit, |one.records|)))
  {
  }

  /** Where a page ends: at its limit, or in front of an open line. */
  lemma {:induction false} PageEnds<R>(accept: Acceptor<R>, w: Bytes, at: nat, limit: Limit)
    requires Full(limit, 0) || IndexOf<Byte>(w, LINE_FEED, 0) == -1
    ensures PageFrom(accept, w, at, limit) ==
            if Full(limit, 0) then Nothing(at) else Page([], at, 0, if |w| > LINE_ISOLATE then 1 else 0, w != [])
  {
    hide IndexOf;
  }

  lemma {:induction false} PageOfOpen<R>(accept: Acceptor<R>, w: Bytes, at: nat, limit: Limit)
    requires LINE_FEED !in w && !Full(limit, 0)
    ensures PageFrom(accept, w, at, limit) == Page([], at, 0, if |w| > LINE_ISOLATE then 1 else 0, w != [])
  {
    NoIndex<Byte>(w, LINE_FEED, 0);
  }

  lemma {:induction false} MergeAssociates<R>(a: Page<R>, b: Page<R>, c: Page<R>)
    ensures Merge(a, Merge(b, c)) == Merge(Merge(a, b), c)
  {
    assert a.records + (b.records + c.records) == a.records + b.records + c.records;
  }

  lemma {:induction false} NothingBefore<R>(at: nat, p: Page<R>)
    ensures Merge(Nothing(at), p) == p
  {
    assert [] + p.records == p.records;
  }

  // ---------------------------------------------------------------------------------------------
  // Line boundaries
  // ---------------------------------------------------------------------------------------------

  /** Position `b` of the bytes is where a line begins. */
  predicate IsBoundary(w: Bytes, b: int) {
    0 <= b <= |w| && (b == 0 || w[b - 1] == LINE_FEED)
  }

  /** The cursor and every record of a page stand on line boundaries of its bytes. */
  ghost predicate OnBoundaries<R>(p: Page<R>, w: Bytes, at: nat) {
    && IsBoundary(w, p.next - at)
    && (p.records != [] ==> p.next > at)
    && forall r | r in p.records :: at <= r.offset < p.next && IsBoundary(w, r.offset - at)
  }

  lemma BoundaryAfterLine(w: Bytes, i: nat, b: int)
    requires i < |w| && w[i] == LINE_FEED && IsBoundary(w[i + 1..], b)
    ensures IsBoundary(w, b + i + 1)
  {
  }

  lemma {:induction false} OnBoundariesAfterLine<R>(accept: Acceptor<R>, w: Bytes, i: nat, at: nat, p: Page<R>)
    requires Lawful(accept)
    requires i < |w| && w[i] == LINE_FEED && OnBoundaries(p, w[i + 1..], at + i + 1)
    ensures OnBoundaries(Merge(OneLine(accept, w[..i], at), p), w, at)
  {
    BoundaryAfterLine(w, i, p.next - (at + i + 1));
    forall r | r in p.records ensures IsBoundary(w, r.offset - at) {
      BoundaryAfterLine(w, i, r.offset - (at + i + 1));
    }
  }

  /** The cursor a page hands on is a line boundary, and a page with records has moved it. */
  lemma {:induction false} NextIsBoundary<R>(accept: Acceptor<R>, w: Bytes, at: nat, limit: Limit)
    requires Lawful(accept)
    ensures OnBoundaries(PageFrom(accept, w, at, limit), w, at)
    decreases |w|
  {
    hide IndexOf, PageFrom;
    var i := IndexOf<Byte>(w, LINE_FEED, 0);
    if Full(limit, 0) || i == -1 {
      PageEnds(accept, w, at, limit);
    } else {
      var left := Left(limit, |OneLine(accept, w[..i], at).records|);
      PageOfLine(accept, w, i, at, limit);
      NextIsBoundary(accept, w[i + 1..], at + i + 1, left);
      OnBoundariesAfterLine(accept, w, i, at, PageFrom(accept, w[i + 1..], at + i + 1, left));
    }
  }

  /** A page never holds more records than its limit. */
  lemma {:induction false} LimitIsKept<R>(accept: Acceptor<R>, w: Bytes, at: nat, k: nat)
    requires Lawful(accept)
    ensures |PageFrom(accept, w, at, AtMost(k)).records| <= k
    decreases |w|
  {
    hide IndexOf;
    if k == 0 || IndexOf<Byte>(w, LINE_FEED, 0) == -1 {
      PageEnds(accept, w, at, AtMost(k));
    } else {
      var i := IndexOf<Byte>(w, LINE_FEED, 0);
      var one := OneLine(accept, w[..i], at);
      AtMostOneRecord(accept, w[..i], at);
      PageOfLine(accept, w, i, at, AtMost(k));
      hide PageFrom, Lawful;
      LimitIsKept(accept, w[i + 1..], at + i + 1, k - |one.records|);
    }
  }

  // ---------------------------------------------------------------------------------------------
  // Pages compose
  // ---------------------------------------------------------------------------------------------

  function Sum(a: nat, b: Limit): Limit {
    match b case NoLimit => NoLimit case AtMost(k) => AtMost(a + k)
  }

  /** One page of both limits is a page of the first and then a page of the second from its cursor. */
  ghost predicate Composes<R>(accept: Acceptor<R>, w: Bytes, at: nat, k: nat, more: Limit) {
    var p := PageFrom(accept, w, at, AtMost(k));
    && at <= p.next <= at + |w|
    && PageFrom(accept, w, at, Sum(k, more)) == Merge(p, PageFrom(accept, w[p.next - at..], p.next, more))
  }

  /** This is so whenever the first page is full. */
  lemma {:induction false} PagesCompose<R>(accept: Acceptor<R>, w: Bytes, at: nat, k: nat, more: Limit)
    requires Lawful(accept)
    requires |PageFrom(accept, w, at, AtMost(k)).records| == k
    ensures Composes(accept, w, at, k, more)
    decreases |w|
  {
    hide IndexOf, PageFrom, Composes, Lawful;
    var i := IndexOf<Byte>(w, LINE_FEED, 0);
    if k == 0 {
      ComposesAtOnce(accept, w, at, more);
    } else {
      FoundFeed(accept, w, at, k);
      var one := OneLine(accept, w[..i], at);
      AtMostOneRecord(accept, w[..i], at);
      PageOfLine(accept, w, i, at, AtMost(k));
      PagesCompose(accept, w[i + 1..], at + i + 1, k - |one.records|, more);
      ComposesAfterLine(accept, w, i, at, k, more);
    }
  }

  lemma AtMostOneRecord<R>(accept: Acceptor<R>, line: Bytes, at: nat)
    requires Lawful(accept)
    ensures |OneLine(accept, line, at).records| <= 1
  {
  }

  lemma {:induction false} ComposesAtOnce<R>(accept: Acceptor<R>, w: Bytes, at: nat, more: Limit)
    ensures Composes(accept, w, at, 0, more)
  {
    hide PageFrom;
    assert w[0..] == w && Sum(0, more) == more;
    PageEnds(accept, w, at, AtMost(0));
    NothingBefore(at, PageFrom(accept, w, at, more));
  }

  /** A page with records has found a feed. */
  lemma {:induction false} FoundFeed<R>(accept: Acceptor<R>, w: Bytes, at: nat, k: nat)
    requires k > 0 && PageFrom(accept, w, at, AtMost(k)).records != []
    ensures IndexOf<Byte>(w, LINE_FEED, 0) != -1
  {
  }

  lemma {:induction false} ComposesAfterLine<R>(accept: Acceptor<R>, w: Bytes, i: nat, at: nat, k: nat, more: Limit)
    requires Lawful(accept)
    requires FirstFeed(w, i) && k > 0
    requires Composes(accept, w[i + 1..], at + i + 1, k - |OneLine(accept, w[..i], at).records|, more)
    ensures Composes(accept, w, at, k, more)
  {
    hide PageFrom;
    var (one, rest) := (OneLine(accept, w[..i], at), w[i + 1..]);
    var (next, j) := (at + i + 1, k - |one.records|);
    var q := PageFrom(accept, rest, next, AtMost(j));
    PageOfLine(accept, w, i, at, AtMost(k));
    PageOfLine(accept, w, i, at, Sum(k, more));
    assert Left(Sum(k, more), |one.records|) == Sum(j, more);
    assert w[q.next - at..] == rest[q.next - next..];
    MergeAssociates(one, q, PageFrom(accept, rest[q.next - next..], q.next, more));
  }

  /** A page that did not reach its limit is the unlimited one. */
  lemma {:induction false} ShortPageIsWhole<R>(accept: Acceptor<R>, w: Bytes, at: nat, k: nat)
    requires Lawful(accept)
    requires |PageFrom(accept, w, at, AtMost(k)).records| < k
    ensures PageFrom(accept, w, at, AtMost(k)) == PageFrom(accept, w, at, NoLimit)
    decreases |w|
  {
    hide IndexOf, PageFrom;
    var i := IndexOf<Byte>(w, LINE_FEED, 0);
    if i == -1 {
      PageEnds(accept, w, at, AtMost(k));
      PageEnds(accept, w, at, NoLimit);
    } else {
      PageOfLine(accept, w, i, at, AtMost(k));
      PageOfLine(accept, w, i, at, NoLimit);
      var one := OneLine(accept, w[..i], at);
      ShortPageIsWhole(accept, w[i + 1..], at + i + 1, k - |one.records|);
    }
  }

  /** Following cursors from page to page until one comes back short. */
  ghost function AllPages<R>(accept: Acceptor<R>, w: Bytes, at: nat, k: nat): Page<R>
    requires Lawful(accept)
    requires k >= 1
    decreases |w|
  {
    var p := PageFrom(accept, w, at, AtMost(k));
    NextIsBoundary(accept, w, at, AtMost(k));
    if |p.records| < k then p else Merge(p, AllPages(accept, w[p.next - at..], p.next, k))
  }

  /** Whatever the page limit, paging forward is one unlimited pass: same records, counts and cursor. */
  lemma {:induction false} PagingIsOnePass<R>(accept: Acceptor<R>, w: Bytes, at: nat, k: nat)
    requires Lawful(accept)
    requires k >= 1
    ensures AllPages(accept, w, at, k) == PageFrom(accept, w, at, NoLimit)
    decreases |w|
  {
    hide PageFrom, IndexOf;
    var p := PageFrom(accept, w, at, AtMost(k));
    NextIsBoundary(accept, w, at, AtMost(k));
    if |p.records| < k {
      ShortPageIsWhole(accept, w, at, k);
    } else {
      LimitIsKept(accept, w, at, k);
      PagesCompose(accept, w, at, k, NoLimit);
      PagingIsOnePass(accept, w[p.next - at..], p.next, k);
    }
  }

  // ---------------------------------------------------------------------------------------------
  // What is delivered
  // ---------------------------------------------------------------------------------------------

  /** The records of complete lines standing one after another from offset `at`. */
  function Delivered<R>(accept: Acceptor<R>, lines: seq<Bytes>, at: nat): seq<Record<R>> {
    if lines == [] then []
    else OneLine(accept, lines[0], at).records + Delivered(accept, lines[1..], at + |lines[0]| + 1)
  }

  /** An unlimited pass delivers every complete line that is not too long and parses, once and in order. */
  lemma {:induction false} PassDeliversLines<R>(accept: Acceptor<R>, w: Bytes, at: nat)
    ensures var lines := Split<Byte>(w, LINE_FEED);
            PageFrom(accept, w, at, NoLimit).records == Delivered(accept, lines[..|lines| - 1], at)
    decreases |w|
  {
    hide PageFrom, IndexOf, Delivered;
    var i := IndexOf<Byte>(w, LINE_FEED, 0);
    SplitUnfolds(w);
    if i == -1 {
      PageEnds(accept, w, at, NoLimit);
      DeliveredUnfolds(accept, [], [], at);
      assert [w][..0] == [];
    } else {
      PassDeliversLines(accept, w[i + 1..], at + i + 1);
      PageOfLine(accept, w, i, at, NoLimit);
      var tail := Split<Byte>(w[i + 1..], LINE_FEED);
      DeliveredUnfolds(accept, w[..i], tail[..|tail| - 1], at);
      assert ([w[..i]] + tail)[..|tail|] == [w[..i]] + tail[..|tail| - 1];
    }
  }

  lemma {:induction false} SplitUnfolds(w: Bytes)
    ensures var i := IndexOf<Byte>(w, LINE_FEED, 0);
            Split<Byte>(w, LINE_FEED) == if i == -1 then [w] else [w[..i]] + Split<Byte>(w[i + 1..], LINE_FEED)
  {
    hide IndexOf;
  }

  lemma {:induction false} DeliveredUnfolds<R>(accept: Acceptor<R>, line: Bytes, lines: seq<Bytes>, at: nat)
    ensures Delivered(accept, [], at) == []
    ensures Delivered(accept, [line] + lines, at) ==
            OneLine(accept, line, at).records + Delivered(accept, lines, at + |line| + 1)
  {
    assert ([line] + lines)[1..] == lines;
  }

  /** What a parser makes of complete lines standing one after another from offset `at`. */
  function RecordsIn<R>(parse: Parser<R>, lines: seq<Bytes>, at: nat): seq<Record<R>> {
    if lines == [] then []
    else
      var verdict := if |lines[0]| <= 1_048_576 then parse(lines[0], at) else Skip;
      (if verdict.Parsed? then [Record(at, verdict.body)] else []) + RecordsIn(parse, lines[1..], at + |lines[0]| + 1)
  }

  function BadIn<R>(parse: Parser<R>, lines: seq<Bytes>, at: nat): nat {
    if lines == [] then 0
    else
      (if |lines[0]| <= 1_048_576 && parse(lines[0], at).Bad? then 1 else 0)
      + BadIn(parse, lines[1..], at + |lines[0]| + 1)
  }

  function LongIn(lines: seq<Bytes>): nat {
    if lines == [] then 0 else (if |lines[0]| > 1_048_576 then 1 else 0) + LongIn(lines[1..])
  }

  /**
   * What an unlimited pass yields, in terms of the lines alone: a record for each complete line that is not
   * too long and parses, under its offset; the number of such lines that do not, and of the lines that are
   * too long, the open one included; and the open line's offset as the cursor.
   */
  lemma {:induction false} PassTells<R>(parse: Parser<R>, w: Bytes, at: nat)
    ensures var (lines, p) := (Split<Byte>(w, LINE_FEED), PageFrom(Accepting(parse), w, at, NoLimit));
            var (complete, open) := (lines[..|lines| - 1], lines[|lines| - 1]);
            && p.records == RecordsIn(parse, complete, at)
            && p.bad == BadIn(parse, complete, at)
            && p.oversize == LongIn(complete) + (if |open| > 1_048_576 then 1 else 0)
            && |open| <= |w| && p.next == at + |w| - |open| && p.incomplete == (open != [])
    decreases |w|
  {
    hide PageFrom, IndexOf, RecordsIn, BadIn, LongIn;
    var i := IndexOf<Byte>(w, LINE_FEED, 0);
    SplitUnfolds(w);
    if i == -1 {
      PageEnds(Accepting(parse), w, at, NoLimit);
      TellsNothing(parse, at);
      assert [w][..0] == [];
    } else {
      PassTells(parse, w[i + 1..], at + i + 1);
      PageOfLine(Accepting(parse), w, i, at, NoLimit);
      var tail := Split<Byte>(w[i + 1..], LINE_FEED);
      TellsOneMore(parse, w[..i], tail[..|tail| - 1], at);
      assert ([w[..i]] + tail)[..|tail|] == [w[..i]] + tail[..|tail| - 1];
    }
  }

  lemma TellsNothing<R>(parse: Parser<R>, at: nat)
    ensures RecordsIn(parse, [], at) == [] && BadIn(parse, [], at) == 0 && LongIn([]) == 0
  {
  }

  lemma {:induction false} TellsOneMore<R>(parse: Parser<R>, line: Bytes, lines: seq<Bytes>, at: nat)
    ensures var one := OneLine(Accepting(parse), line, at);
            && RecordsIn(parse, [line] + lines, at) == one.records + RecordsIn(parse, lines, at + |line| + 1)
            && BadIn(parse, [line] + lines, at) == one.bad + BadIn(parse, lines, at + |line| + 1)
            && LongIn([line] + lines) == one.oversize + LongIn(lines)
  {
    assert ([line] + lines)[1..] == lines;
  }

  /** Pass `whole` is `p`, which left a line of `open` bytes open, and `q` from its cursor. */
  ghost predicate Continues<R>(whole: Page<R>, p: Page<R>, open: nat, q: Page<R>) {
    && whole.records == p.records + q.records
    && whole.next == q.next && whole.bad == p.bad + q.bad && whole.incomplete == q.incomplete
    && whole.oversize + (if open > LINE_ISOLATE then 1 else 0) == p.oversize + q.oversize
  }

  /**
   * The pass over all bytes is the pass over the first `n` of them continued from its cursor; an open
   * line over the limit is counted by both.
   */
  ghost predicate Resumes<R>(accept: Acceptor<R>, all: Bytes, n: nat, at: nat)
    requires n <= |all|
  {
    var p := PageFrom(accept, all[..n], at, NoLimit);
    && at <= p.next <= at + n
    && (forall k | p.next - at <= k < n :: all[k] != LINE_FEED)
    && Continues(PageFrom(accept, all, at, NoLimit), p, n - (p.next - at),
                 PageFrom(accept, all[p.next - at..], p.next, NoLimit))
  }

  lemma {:induction false} MergeContinues<R>(one: Page<R>, whole: Page<R>, p: Page<R>, open: nat, q: Page<R>)
    requires Continues(whole, p, open, q)
    ensures Continues(Merge(one, whole), Merge(one, p), open, q)
  {
    assert one.records + (p.records + q.records) == one.records + p.records + q.records;
  }

  /** The open line a pass leaves behind holds no line feed and is counted if it is too long. */
  lemma {:induction false} OpenLineIsCounted<R>(accept: Acceptor<R>, w: Bytes, at: nat)
    ensures var p := PageFrom(accept, w, at, NoLimit);
            && at <= p.next <= at + |w|
            && p.incomplete == (p.next < at + |w|)
            && p.oversize >= if |w| - (p.next - at) > LINE_ISOLATE then 1 else 0
    decreases |w|
  {
    hide IndexOf, PageFrom;
    var i := IndexOf<Byte>(w, LINE_FEED, 0);
    if i == -1 {
      PageEnds(accept, w, at, NoLimit);
    } else {
      PageOfLine(accept, w, i, at, NoLimit);
      OpenLineIsCounted(accept, w[i + 1..], at + i + 1);
    }
  }

  /** Polling a growing source from the cursor loses no record and delivers none twice. */
  lemma {:induction false} PollingLosesNothing<R>(accept: Acceptor<R>, all: Bytes, n: nat, at: nat)
    requires Lawful(accept) && n <= |all|
    ensures Resumes(accept, all, n, at)
    decreases n
  {
    hide IndexOf, PageFrom, Resumes;
    var i := IndexOf<Byte>(all[..n], LINE_FEED, 0);
    if i == -1 {
      PollingOfOpen(accept, all, n, at);
    } else {
      PollingLosesNothing(accept, all[i + 1..], n - (i + 1), at + i + 1);
      PollingAfterLine(accept, all, n, i, at);
    }
  }

  lemma {:induction false} PollingOfOpen<R>(accept: Acceptor<R>, all: Bytes, n: nat, at: nat)
    requires Lawful(accept) && n <= |all| && IndexOf<Byte>(all[..n], LINE_FEED, 0) == -1
    ensures Resumes(accept, all, n, at)
  {
    hide PageFrom, IndexOf, Continues;
    IndexOfIsFirst<Byte>(all[..n], LINE_FEED, 0);
    assert forall k | 0 <= k < n :: all[..n][k] == all[k];
    PageOfOpen(accept, all[..n], at, NoLimit);
    if n > LINE_ISOLATE { LongOpenIsCounted(accept, all, n, at); }
    OpenContinues(PageFrom(accept, all, at, NoLimit), at, n);
    OpenResumes(accept, all, n, at, PageFrom(accept, all[..n], at, NoLimit));
  }

  lemma {:induction false} OpenResumes<R>(accept: Acceptor<R>, all: Bytes, n: nat, at: nat, p: Page<R>)
    requires n <= |all| && (forall k | 0 <= k < n :: all[k] != LINE_FEED)
    requires p == PageFrom(accept, all[..n], at, NoLimit) && p.next == at
    requires Continues(PageFrom(accept, all, at, NoLimit), p, n, PageFrom(accept, all, at, NoLimit))
    ensures Resumes(accept, all, n, at)
  {
    hide PageFrom, Continues;
    assert all[0..] == all;
  }

  lemma {:induction false} OpenContinues<R>(q: Page<R>, at: nat, open: nat)
    requires open > LINE_ISOLATE ==> q.oversize >= 1
    ensures Continues(q, Page([], at, 0, if open > LINE_ISOLATE then 1 else 0, open != 0), open, q)
  {
    assert [] + q.records == q.records;
  }

  /** A line already too long is counted however it goes on. */
  lemma {:induction false} LongOpenIsCounted<R>(accept: Acceptor<R>, all: Bytes, n: nat, at: nat)
    requires Lawful(accept) && LINE_ISOLATE < n <= |all| && forall k | 0 <= k < n :: all[k] != LINE_FEED
    ensures PageFrom(accept, all, at, NoLimit).oversize >= 1
  {
    FirstLine<Byte>(all, LINE_FEED);
    hide IndexOf;
    var i := IndexOf<Byte>(all, LINE_FEED, 0);
    assert i == -1 || i >= n;
  }

  lemma {:induction false} PollingAfterLine<R>(accept: Acceptor<R>, all: Bytes, n: nat, i: nat, at: nat)
    requires Lawful(accept) && i < n <= |all| && FirstFeed(all[..n], i)
    requires Resumes(accept, all[i + 1..], n - (i + 1), at + i + 1)
    ensures Resumes(accept, all, n, at)
  {
    hide PageFrom, IndexOf, Merge, Continues;
    var (one, rest, next) := (OneLine(accept, all[..i], at), all[i + 1..], at + i + 1);
    var p := PageFrom(accept, rest[..n - (i + 1)], next, NoLimit);
    FirstFeedOfPrefix(all, n, i);
    PageOfLine(accept, all[..n], i, at, NoLimit);
    PageOfLine(accept, all, i, at, NoLimit);
    DropTwice(all, i + 1, p.next - next);
    PollingStep(accept, all, n, at, one, p, PageFrom(accept, rest, next, NoLimit));
  }

  lemma {:induction false} FirstFeedOfPrefix(all: Bytes, n: nat, i: nat)
    requires i < n <= |all| && FirstFeed(all[..n], i)
    ensures FirstFeed(all, i) && all[..n][..i] == all[..i] && all[..n][i + 1..] == all[i + 1..][..n - (i + 1)]
  {
    IndexOfIsFirst<Byte>(all[..n], LINE_FEED, 0);
    assert forall k | 0 <= k < n :: all[..n][k] == all[k];
    IndexIs<Byte>(all, LINE_FEED, 0, i);
  }

  lemma {:induction false} DropTwice(w: Bytes, m: nat, n: nat)
    requires m + n <= |w|
    ensures w[m..][n..] == w[m + n..]
  {
  }

  lemma {:induction false} PollingStep<R>(
    accept: Acceptor<R>, all: Bytes, n: nat, at: nat, one: Page<R>, p: Page<R>, whole: Page<R>)
    requires n <= |all| && at <= p.next <= at + n && forall k | p.next - at <= k < n :: all[k] != LINE_FEED
    requires PageFrom(accept, all[..n], at, NoLimit) == Merge(one, p)
    requires PageFrom(accept, all, at, NoLimit) == Merge(one, whole)
    requires Continues(whole, p, n - (p.next - at), PageFrom(accept, all[p.next - at..], p.next, NoLimit))
    ensures Resumes(accept, all, n, at)
  {
    MergeContinues(one, whole, p, n - (p.next - at), PageFrom(accept, all[p.next - at..], p.next, NoLimit));
    hide PageFrom, Continues;
  }
}
