/** The client's side of replay: whether another connection can still deliver something. */
module FollowReconnect {
  import opened Options

  datatype Snapshot = Snapshot(running: bool, lastSeq: int)

  datatype StopReason = Lost | Exhausted

  datatype Decision = Reconnect(catchUpSpent: bool) | Stop(reason: StopReason)

  function DecideFollowAfterClose(
    snapshot: Option<Snapshot>, consumedSeq: nat, progressed: bool, catchUpSpent: bool): Decision
  {
    if snapshot == None then Stop(Lost)
    else if snapshot.value.running then Reconnect(false)
    else if snapshot.value.lastSeq <= consumedSeq then Stop(Exhausted)
    else if progressed then Reconnect(false)
    else if !catchUpSpent then Reconnect(true)
    else Stop(Exhausted)
  }

  /** Twice the events not yet consumed, plus one while the empty catch-up is unspent. */
  function Measure(lastSeq: nat, consumedSeq: nat, catchUpSpent: bool): int {
    2 * (lastSeq - consumedSeq) + (if catchUpSpent then 0 else 1)
  }

  /** Once the execution has ended, every decision to reconnect makes the measure smaller. */
  lemma ReconnectDecreases(lastSeq: nat, before: nat, delivered: nat, spent: bool)
    requires before + delivered <= lastSeq
    ensures var d := DecideFollowAfterClose(Some(Snapshot(false, lastSeq)), before + delivered, delivered > 0, spent);
            d.Reconnect? ==>
              0 <= Measure(lastSeq, before + delivered, d.catchUpSpent) < Measure(lastSeq, before, spent)
  {
  }

  // ---------------------------------------------------------------------------------------------
  // The client's loop
  // ---------------------------------------------------------------------------------------------

  /** The cursor after a connection that delivered events of these numbers, some of them perhaps again. */
  function CursorAfter(cursor: nat, delivered: seq<nat>): nat
    decreases |delivered|
  {
    if delivered == [] then cursor
    else CursorAfter(if delivered[0] > cursor then delivered[0] else cursor, delivered[1..])
  }

  /** The cursor is the newest number seen: it never moves back. */
  lemma {:induction false} CursorIsNewest(cursor: nat, delivered: seq<nat>)
    ensures var c := CursorAfter(cursor, delivered);
            && cursor <= c && (c == cursor || c in delivered)
            && forall n | n in delivered :: n <= c
    decreases |delivered|
  {
    if delivered != [] {
      assert delivered == [delivered[0]] + delivered[1..];
      CursorIsNewest(if delivered[0] > cursor then delivered[0] else cursor, delivered[1..]);
    }
  }

  /** The cursor the client resumes at after its first `k` connections. */
  function Cursor(connections: nat -> seq<nat>, k: nat): nat {
    if k == 0 then 0 else CursorAfter(Cursor(connections, k - 1), connections(k - 1))
  }

  predicate Idle(connections: nat -> seq<nat>, k: nat) {
    Cursor(connections, k + 1) == Cursor(connections, k)
  }

  /**
   * An execution that ends with event `last`, its terminal: connections deliver some of its events, and
   * what the host says of it after each of them, if it answers, is that it runs, up to some moment, and
   * that it has ended from then on.
   */
  ghost predicate Ends(hosts: nat -> Option<Snapshot>, connections: nat -> seq<nat>, ended: nat, last: nat) {
    && last >= 1
    && (forall k, n | n in connections(k) :: n <= last)
    && (forall k: nat | k < ended && hosts(k).Some? :: hosts(k).value.running)
    && (forall k: nat | k >= ended && hosts(k).Some? :: hosts(k).value == Snapshot(false, last))
  }

  datatype Outcome = Terminal | Closed(afterSeq: nat, reason: StopReason)

  lemma {:induction false} CursorStays(
    hosts: nat -> Option<Snapshot>, connections: nat -> seq<nat>, ended: nat, last: nat, k: nat)
    requires Ends(hosts, connections, ended, last)
    ensures Cursor(connections, k) <= Cursor(connections, k + 1)
    ensures Cursor(connections, k + 1) <= last
    ensures last in connections(k) ==> Cursor(connections, k + 1) == last
    ensures Cursor(connections, k + 1) == last && Cursor(connections, k) < last ==> last in connections(k)
  {
    CursorIsNewest(Cursor(connections, k), connections(k));
    if k > 0 {
      CursorStays(hosts, connections, ended, last, k - 1);
      CursorIsNewest(Cursor(connections, k - 1), connections(k - 1));
    }
  }

  /**
   * The loop over connections ends, at the latest two connections per event that is missing when the
   * execution ends, and two more, after that. It returns the terminal event if and only if its last
   * connection delivered it; otherwise the host did not answer, or the execution had ended and two
   * connections in a row delivered nothing new.
   */
  method DriveToTerminal(
    hosts: nat -> Option<Snapshot>, connections: nat -> seq<nat>, ghost ended: nat, last: nat)
    returns (outcome: Outcome, attempts: nat)
    requires Ends(hosts, connections, ended, last)
    ensures 1 <= attempts
    ensures attempts <= ended + 2 * (last - Cursor(connections, ended)) + 2
    ensures outcome.Terminal? <==> last in connections(attempts - 1)
    ensures outcome.Closed? ==> outcome.afterSeq == Cursor(connections, attempts) < last
    ensures outcome.Closed? ==>
              match outcome.reason
              case Lost => hosts(attempts - 1) == None
              case Exhausted =>
                && attempts - 2 >= ended && hosts(attempts - 1).Some? && hosts(attempts - 2).Some?
                && Idle(connections, attempts - 1) && Idle(connections, attempts - 2)
    ensures forall k | 0 <= k < attempts - 1 :: last !in connections(k) && hosts(k).Some?
  {
    var resumeAt, catchUpSpent := 0, false;
    attempts := 0;
    while true
      invariant resumeAt == Cursor(connections, attempts) < last
      invariant attempts <= ended ==> !catchUpSpent
      invariant attempts > ended ==>
                  && Cursor(connections, ended) <= resumeAt
                  && attempts - ended + Measure(last, resumeAt, catchUpSpent)
                     <= Measure(last, Cursor(connections, ended), false)
      invariant catchUpSpent ==>
                  attempts > ended && hosts(attempts - 1).Some? && Idle(connections, attempts - 1)
      invariant forall k | 0 <= k < attempts :: last !in connections(k) && hosts(k).Some?
      decreases if attempts < ended then ended - attempts else 0, Measure(last, resumeAt, catchUpSpent)
    {
      CursorStays(hosts, connections, ended, last, attempts);
      CursorStays(hosts, connections, ended, last, ended);
      var (delivered, host) := (connections(attempts), hosts(attempts));
      attempts := attempts + 1;
      if last in delivered { return Terminal, attempts; }
      var cursor := CursorAfter(resumeAt, delivered);
      var progressed := cursor > resumeAt;
      if attempts > ended { ReconnectDecreases(last, resumeAt, cursor - resumeAt, catchUpSpent); }
      match DecideFollowAfterClose(host, cursor, progressed, catchUpSpent) {
        case Reconnect(spent) => resumeAt, catchUpSpent := cursor, spent;
        case Stop(reason) => return Closed(cursor, reason), attempts;
      }
    }
  }
}
