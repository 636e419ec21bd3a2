/** What a command-line session has been told: the text of the prompts sent to it, without their instructions. */
module Transcripts {
  import opened Text16
  import opened SnapshotRender
  import Rec = SessionReconciler

  datatype Transcript = Transcript(
    text: Text,
    headerAt: nat,                 // where the newest header in it begins
    revision: nat)                 // the revision which that header names

  /** What a prompt says before its instruction. */
  function Told(prompt: Text, s: Snapshot): Text {
    var behind := |BLANK_LINE| + |Instruction(s)|;
    if |prompt| < behind then [] else prompt[..|prompt| - behind]
  }

  /** The session of a prompt that opens with the header. */
  function Opened(before: Text, prompt: Text, s: Snapshot): Transcript {
    Transcript(before + Told(prompt, s), |before|, s.contextRevision)
  }

  /** The session after one more prompt. */
  function Continued(t: Transcript, prompt: Text, s: Snapshot, fromIndex: nat): Transcript {
    if fromIndex == 0 then Opened(t.text + BLANK_LINE, prompt, s)
    else if Told(prompt, s) == [] then t
    else t.(text := t.text + BLANK_LINE + Told(prompt, s))
  }

  /** Header and items, as the prompt of a turn that carries all of them has it. */
  function Discussion(s: Snapshot): Text {
    Header(s) + if s.items == [] then [] else BLANK_LINE + RenderItems(s.items)
  }

  /** From its newest header on the session reads as the discussion up to `s`. */
  predicate Holds(t: Transcript, s: Snapshot) {
    t.headerAt <= |t.text| && t.text[t.headerAt..] == Discussion(s.(contextRevision := t.revision))
  }

  /** The part of a snapshot a prompt from `fromIndex` leaves out. */
  function Before(s: Snapshot, fromIndex: nat): Snapshot
    requires fromIndex <= |s.items|
  {
    s.(items := s.items[..fromIndex])
  }

  /**
   * The prompt brings the session to where a full one would have: the two together read as the full prompt,
   * under the revision of the session's header; to a session that holds no items the whole is sent.
   */
  predicate Completes(t: Transcript, prompt: Text, s: Snapshot, fromIndex: nat) {
    && fromIndex <= |s.items| && Holds(t, Before(s, fromIndex))
    && if fromIndex == 0 then prompt == RenderTurn(s, 0)
       else t.text[t.headerAt..] + BLANK_LINE + prompt == RenderTurn(s.(contextRevision := t.revision), 0)
  }

  lemma {:induction false} ToldOf(front: Text, s: Snapshot)
    ensures Told(front + BLANK_LINE + Instruction(s), s) == front
  {
    hide Instruction;
  }

  lemma Regrouped(a: Text, b: Text, c: Text, d: Text, e: Text)
    ensures a + b + (c + d + e) == a + (b + c) + d + e
  {
  }

  lemma {:induction false} FullPromptTells(s: Snapshot)
    ensures RenderTurn(s, 0) == Discussion(s) + BLANK_LINE + Instruction(s)
    ensures Told(RenderTurn(s, 0), s) == Discussion(s)
  {
    PromptIsRest(s, 0);
    assert s.items[0..] == s.items;
    Regrouped(Header(s), BLANK_LINE, RenderItems(s.items), BLANK_LINE, Instruction(s));
    ToldOf(Discussion(s), s);
    hide Header, Instruction, RenderItems, RenderTurn, Told;
    assert Header(s) + [] == Header(s);
  }

  /** What does not depend on the snapshot of the participant. */
  lemma {:induction false} DiscussionDependsOn(s: Snapshot, t: Snapshot)
    requires s.contextRevision == t.contextRevision && s.items == t.items
    requires OrEmpty(s.topic) == OrEmpty(t.topic) && OrEmpty(s.background) == OrEmpty(t.background)
    ensures Discussion(s) == Discussion(t)
  {
    hide Ascii, RenderItems;
  }

  lemma {:induction false} DiscussionSplits(s: Snapshot, k: nat)
    requires 0 < k <= |s.items|
    ensures Discussion(s) ==
            Discussion(Before(s, k)) + if k == |s.items| then [] else BLANK_LINE + RenderItems(s.items[k..])
  {
    HeaderOf(s, Before(s, k));
    var (a, b) := (s.items[..k], s.items[k..]);
    assert s.items == a + b;
    if k < |s.items| { RenderItemsSplits(a, b); } else { assert a == s.items; }
    hide Header, RenderItems;
    assert Header(s) + (BLANK_LINE + (RenderItems(a) + BLANK_LINE + RenderItems(b))) ==
           Header(s) + (BLANK_LINE + RenderItems(a)) + (BLANK_LINE + RenderItems(b));
  }

  lemma {:induction false} LaterPromptTells(s: Snapshot, k: nat)
    requires 0 < k <= |s.items|
    ensures Told(RenderTurn(s, k), s) == if k == |s.items| then [] else RenderItems(s.items[k..])
    ensures RenderTurn(s, 0) == Discussion(Before(s, k)) + BLANK_LINE + RenderTurn(s, k)
  {
    hide Header, Instruction, RenderItems, RenderTurn;
    var before := Before(s, k);
    IncrementalPromptIsSuffixOfFull(s, k);
    PromptIsRest(s, k);
    HeaderOf(s, before);
    assert before.items == s.items[..k] != [];
    assert Discussion(before) == Header(s) + (BLANK_LINE + RenderItems(s.items[..k]));
    assert Header(s) + BLANK_LINE + RenderItems(s.items[..k]) == Header(s) + (BLANK_LINE + RenderItems(s.items[..k]));
    hide Discussion;
    if k < |s.items| { ToldOf(RenderItems(s.items[k..]), s); }
  }

  lemma {:induction false} HeaderOf(s: Snapshot, t: Snapshot)
    requires s.contextRevision == t.contextRevision
    requires OrEmpty(s.topic) == OrEmpty(t.topic) && OrEmpty(s.background) == OrEmpty(t.background)
    ensures Header(s) == Header(t)
  {
    hide Ascii;
  }

  /** Apart from participant and instruction the later snapshot is the earlier one with items added. */
  predicate Grows(earlier: Snapshot, s: Snapshot) {
    && earlier.items <= s.items
    && OrEmpty(earlier.topic) == OrEmpty(s.topic) && OrEmpty(earlier.background) == OrEmpty(s.background)
  }

  lemma {:induction false} OpeningHolds(before: Text, s: Snapshot)
    ensures Holds(Opened(before, RenderTurn(s, 0), s), s)
  {
    FullPromptTells(s);
    hide Discussion, RenderTurn, Told;
    assert (before + Discussion(s))[|before|..] == Discussion(s);
    assert s.(contextRevision := s.contextRevision) == s;
  }

  lemma {:induction false} PrefixHolds(t: Transcript, earlier: Snapshot, s: Snapshot)
    requires Holds(t, earlier) && Grows(earlier, s)
    ensures Holds(t, Before(s, |earlier.items|))
  {
    DiscussionDependsOn(earlier.(contextRevision := t.revision),
                        Before(s, |earlier.items|).(contextRevision := t.revision));
    hide Discussion;
  }

  /** The prompt of a turn from the end of what the session holds brings it to the whole. */
  lemma {:induction false} PromptCompletes(t: Transcript, earlier: Snapshot, s: Snapshot)
    requires Holds(t, earlier) && Grows(earlier, s)
    ensures Completes(t, RenderTurn(s, |earlier.items|), s, |earlier.items|)
  {
    var (k, same) := (|earlier.items|, s.(contextRevision := t.revision));
    PrefixHolds(t, earlier, s);
    if k > 0 {
      LaterPromptTells(same, k);
      PromptIsRest(s, k);
      PromptIsRest(same, k);
      hide Discussion, RenderTurn, Instruction, RenderItems;
      assert Before(s, k).(contextRevision := t.revision) == Before(same, k);
    }
  }

  /** And after it the session holds the whole. */
  lemma {:induction false} ContinuedHolds(t: Transcript, earlier: Snapshot, s: Snapshot)
    requires Holds(t, earlier) && Grows(earlier, s)
    ensures Holds(Continued(t, RenderTurn(s, |earlier.items|), s, |earlier.items|), s)
  {
    var (k, same) := (|earlier.items|, s.(contextRevision := t.revision));
    if k == 0 {
      OpeningHolds(t.text + BLANK_LINE, s);
    } else {
      PrefixHolds(t, earlier, s);
      LaterPromptTells(s, k);
      DiscussionSplits(same, k);
      hide Discussion, RenderTurn, RenderItems, Told;
      assert Before(s, k).(contextRevision := t.revision) == Before(same, k);
      assert s.items[k..] == same.items[k..];
      var more := RenderItems(s.items[k..]);
      if k < |s.items| { SomethingIsSaid(s.items[k..]); }
      assert k < |s.items| ==> (t.text + BLANK_LINE + more)[t.headerAt..] == t.text[t.headerAt..] + (BLANK_LINE + more);
    }
  }

  lemma {:induction false} SomethingIsSaid(items: seq<Item>)
    requires items != []
    ensures RenderItems(items) != []
  {
    ContentFollowsLabel(items[0]);
    assert RenderEach(items)[0] == RenderItem(items[0]);
    assert RenderItem(items[0]) != [];
    hide RenderItem;
  }

  /** A session that holds a snapshot does not hold it with items left out. */
  lemma {:induction false} HoldsNoLess(t: Transcript, s: Snapshot, k: nat)
    requires Holds(t, s) && k < |s.items|
    ensures !Holds(t, Before(s, k))
  {
    var same := s.(contextRevision := t.revision);
    assert Before(s, k).(contextRevision := t.revision) == Before(same, k);
    HeaderOf(same, Before(same, k));
    SomethingIsSaid(same.items);
    assert same.items == same.items[..k] + same.items[k..];
    if k > 0 { RenderItemsSplits(same.items[..k], same.items[k..]); }
    hide Header, RenderItems;
    assert |Discussion(same)| > |Discussion(Before(same, k))|;
    hide Discussion;
  }
}
