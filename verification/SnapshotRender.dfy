/** The text of one turn: the shared header and all items, or only the items after a prefix. */
module SnapshotRender {
  import opened Text16
  import opened Options
  import DecimalInt

  datatype Role = User | Summary | Participant

  datatype Item = Item(
    id: Text,
    role: Role,
    participantId: Option<Text>,
    content: Text,
    sourceExecutionId: Option<Text>)

  datatype InstructionKind = Message | Summarize

  datatype Snapshot = Snapshot(
    digestVersion: int,
    contextRevision: nat,
    contextDigest: Text,
    topic: Option<Text>,
    background: Option<Text>,
    items: seq<Item>,
    participantSnapshotDigest: Text,
    instructionKind: InstructionKind,
    instructionText: Text)

  const NEWLINE: CodeUnit := 0x0A
  const BLANK_LINE: Text := [NEWLINE, NEWLINE]

  /** An ASCII literal as UTF-16 text. */
  function Ascii(s: string): Text {
    seq(|s|, i requires 0 <= i < |s| => s[i] as int % 0x1_0000)
  }

  /** `?? ""`: an absent text counts as the empty one. */
  function OrEmpty(t: Option<Text>): Text {
    match t case None => [] case Some(x) => x
  }

  function JoinWith(parts: seq<Text>, separator: Text): Text {
    if parts == [] then []
    else if |parts| == 1 then parts[0]
    else parts[0] + separator + JoinWith(parts[1..], separator)
  }

  function RenderItem(item: Item): Text {
    match item.role
    case User => Ascii("[user]\n") + item.content
    case Summary => Ascii("[summary]\n") + item.content
    case Participant =>
      Ascii("[participant ") +
      (match item.participantId case None => Ascii("unknown") case Some(p) => p) +
      Ascii("]\n") + item.content
  }

  function RenderEach(items: seq<Item>): seq<Text> {
    seq(|items|, i requires 0 <= i < |items| => RenderItem(items[i]))
  }

  function RenderItems(items: seq<Item>): Text {
    JoinWith(RenderEach(items), BLANK_LINE)
  }

  function Header(s: Snapshot): Text {
    JoinWith(
      [Ascii("# Discussion context (revision ") + Ascii(DecimalInt.Print(s.contextRevision)) + Ascii(")")] +
      (if OrEmpty(s.topic) == [] then [] else [Ascii("Topic: ") + OrEmpty(s.topic)]) +
      (if OrEmpty(s.background) == [] then [] else [Ascii("Background:\n") + OrEmpty(s.background)]),
      [NEWLINE])
  }

  function Instruction(s: Snapshot): Text {
    Ascii("# Instruction (") +
    (match s.instructionKind case Message => Ascii("message") case Summarize => Ascii("summary")) +
    Ascii(")\n") + s.instructionText
  }

  function Parts(s: Snapshot, fromIndex: nat): seq<Text> {
    var items := if fromIndex <= |s.items| then s.items[fromIndex..] else [];
    (if fromIndex == 0 then [Header(s)] else []) +
    (if items == [] then [] else [RenderItems(items)]) +
    [Instruction(s)]
  }

  /** The prompt that carries the items from `fromIndex` on; from zero it opens with the header. */
  function RenderTurn(s: Snapshot, fromIndex: nat): Text {
    JoinWith(Parts(s, fromIndex), BLANK_LINE)
  }

  lemma {:induction false} JoinSplits(a: seq<Text>, b: seq<Text>, separator: Text)
    requires a != [] && b != []
    ensures JoinWith(a + b, separator) == JoinWith(a, separator) + separator + JoinWith(b, separator)
  {
    if |a| == 1 {
      assert (a + b)[1..] == b;
    } else {
      assert (a + b)[1..] == a[1..] + b;
      JoinSplits(a[1..], b, separator);
    }
  }

  lemma {:induction false} RenderItemsSplits(a: seq<Item>, b: seq<Item>)
    requires a != [] && b != []
    ensures RenderItems(a + b) == RenderItems(a) + BLANK_LINE + RenderItems(b)
  {
    assert RenderEach(a + b) == RenderEach(a) + RenderEach(b);
    JoinSplits(RenderEach(a), RenderEach(b), BLANK_LINE);
  }

  lemma {:induction false} JoinOfTwo(a: Text, b: Text, separator: Text)
    ensures JoinWith([a, b], separator) == a + separator + b
  {
    assert [a, b][1..] == [b];
  }

  lemma {:induction false} JoinOfThree(a: Text, b: Text, c: Text, separator: Text)
    ensures JoinWith([a, b, c], separator) == a + separator + b + separator + c
  {
    assert [a, b, c][1..] == [b, c];
    JoinOfTwo(b, c, separator);
  }

  lemma RegroupAround(h: Text, p: Text, m: Text, q: Text, i: Text)
    ensures h + m + (p + m + q) + m + i == h + m + p + m + (q + m + i)
  {
  }

  /**
   * Full and incremental turns are byte-comparable: after any nonempty prefix of the items, the full
   * prompt goes on exactly as the incremental one reads.
   */
  lemma {:induction false} IncrementalPromptIsSuffixOfFull(s: Snapshot, applied: nat)
    requires 0 < applied <= |s.items|
    ensures RenderTurn(s, 0) ==
            Header(s) + BLANK_LINE + RenderItems(s.items[..applied]) + BLANK_LINE + RenderTurn(s, applied)
  {
    var (h, i, before, after) := (Header(s), Instruction(s), s.items[..applied], s.items[applied..]);
    assert s.items[0..] == s.items == before + after;
    assert Parts(s, 0) == [h, RenderItems(s.items), i];
    JoinOfThree(h, RenderItems(s.items), i, BLANK_LINE);
    if after == [] {
      assert before == s.items;
      assert Parts(s, applied) == [i];
    } else {
      assert Parts(s, applied) == [RenderItems(after), i];
      JoinOfTwo(RenderItems(after), i, BLANK_LINE);
      RenderItemsSplits(before, after);
      RegroupAround(h, RenderItems(before), BLANK_LINE, RenderItems(after), i);
    }
  }

  // ---------------------------------------------------------------------------------------------
  // What a prompt says
  // ---------------------------------------------------------------------------------------------

  predicate Occurs(part: Text, whole: Text, at: nat) {
    at + |part| <= |whole| && whole[at..at + |part|] == part
  }

  /** Who an item of a participant is said to be from. */
  function Speaker(item: Item): Text {
    match item.participantId case None => Ascii("unknown") case Some(p) => p
  }

  predicate OneLine(t: Text) {
    NEWLINE !in t
  }

  /** An item reads as the line that labels it, and then its content, whatever that is. */
  lemma {:induction false} ContentFollowsLabel(item: Item)
    ensures RenderItem(item) == RenderItem(item.(content := [])) + item.content
    ensures var line := RenderItem(item.(content := []));
            && (item.role == User ==> line == Ascii("[user]\n"))
            && (item.role == Summary ==> line == Ascii("[summary]\n"))
            && (item.role == Participant ==> line == Ascii("[participant ") + Speaker(item) + Ascii("]\n"))
  {
    var line := RenderItem(item.(content := []));
    assert line + [] == line;
  }

  /**
   * The text of an item tells its role and content, and its speaker if names have no line feeds: two items
   * read the same if and only if these are the same.
   */
  lemma {:induction false} ItemTextIdentifies(a: Item, b: Item)
    requires a.role == b.role == Participant ==>
               (OneLine(Speaker(a)) && OneLine(Speaker(b))) || Speaker(a) == Speaker(b)
    ensures RenderItem(a) == RenderItem(b) <==>
            a.role == b.role && a.content == b.content && (a.role == Participant ==> Speaker(a) == Speaker(b))
  {
    var (la, lb) := (RenderItem(a.(content := [])), RenderItem(b.(content := [])));
    ContentFollowsLabel(a);
    ContentFollowsLabel(b);
    if RenderItem(a) == RenderItem(b) {
      assert la[1] == RenderItem(a)[1] == RenderItem(b)[1] == lb[1];
      assert la[1] == (match a.role case User => 0x75 case Summary => 0x73 case Participant => 0x70);
      assert lb[1] == (match b.role case User => 0x75 case Summary => 0x73 case Participant => 0x70);
      if a.role == Participant && Speaker(a) != Speaker(b) {
        if |Speaker(a)| <= |Speaker(b)| { FirstLinesDiffer(Speaker(a), Speaker(b), a.content, b.content); }
        else { FirstLinesDiffer(Speaker(b), Speaker(a), b.content, a.content); }
        assert false;
      }
      assert la == lb;
      assert a.content == RenderItem(a)[|la|..] == RenderItem(b)[|lb|..] == b.content;
    }
  }

  lemma {:induction false} FirstLinesDiffer(p: Text, q: Text, x: Text, y: Text)
    requires OneLine(p) && OneLine(q) && |p| <= |q| && p != q
    ensures Ascii("[participant ") + p + Ascii("]\n") + x != Ascii("[participant ") + q + Ascii("]\n") + y
  {
    var (s, t) := (Ascii("[participant ") + p + Ascii("]\n") + x, Ascii("[participant ") + q + Ascii("]\n") + y);
    assert s[13..13 + |p|] == p && t[13..13 + |q|] == q;
    var k := 13 + |p| + 1;
    assert s[k] == NEWLINE;
    assert |p| < |q| ==> t[k] == (q + Ascii("]"))[|p| + 1] != NEWLINE;
  }

  /** A name with a line feed can say what content says elsewhere. */
  lemma {:induction false} LongNamesCollide()
    ensures var a := Item([], Participant, Some(Ascii("a]\nb")), Ascii("c"), None);
            var b := Item([], Participant, Some(Ascii("a")), Ascii("b]\nc"), None);
            RenderItem(a) == RenderItem(b) && Speaker(a) != Speaker(b) && a.content != b.content
  {
    assert |Ascii("a")| != |Ascii("a]\nb")| && |Ascii("c")| != |Ascii("b]\nc")|;
  }

  /** What a full prompt opens with. */
  function Opening(revision: nat, topic: Text, background: Text): Text {
    Ascii("# Discussion context (revision ") + Ascii(DecimalInt.Print(revision)) + Ascii(")")
    + (if topic == [] then [] else Ascii("\nTopic: ") + topic)
    + (if background == [] then [] else Ascii("\nBackground:\n") + background)
  }

  lemma {:induction false} JoinWithOptional(a: Text, b: Text, c: Text, hasB: bool, hasC: bool, separator: Text)
    ensures JoinWith([a] + (if hasB then [b] else []) + (if hasC then [c] else []), separator) ==
            a + (if hasB then separator + b else []) + (if hasC then separator + c else [])
  {
    JoinOfTwo(a, b, separator);
    JoinOfTwo(a, c, separator);
    JoinOfThree(a, b, c, separator);
    assert [a] + [b] + [c] == [a, b, c] && [a] + [] + [c] == [a, c];
    assert [a] + [b] + [] == [a, b] && [a] + [] + [] == [a];
    assert a + (separator + b) + [] == a + separator + b;
    assert a + [] + (separator + c) == a + separator + c;
    assert a + (separator + b) + (separator + c) == a + separator + b + separator + c;
    assert a + [] + [] == a;
  }

  lemma {:induction false} HeaderIsOpening(s: Snapshot)
    ensures Header(s) == Opening(s.contextRevision, OrEmpty(s.topic), OrEmpty(s.background))
  {
    var line := Ascii("# Discussion context (revision ") + Ascii(DecimalInt.Print(s.contextRevision)) + Ascii(")");
    var (topic, background) := (OrEmpty(s.topic), OrEmpty(s.background));
    assert Ascii("\nTopic: ") == [NEWLINE] + Ascii("Topic: ");
    assert Ascii("\nBackground:\n") == [NEWLINE] + Ascii("Background:\n");
    hide Ascii, DecimalInt.Print, OrEmpty, JoinWith;
    JoinWithOptional(line, Ascii("Topic: ") + topic, Ascii("Background:\n") + background,
                     topic != [], background != [], [NEWLINE]);
    assert [NEWLINE] + (Ascii("Topic: ") + topic) == Ascii("\nTopic: ") + topic;
    assert [NEWLINE] + (Ascii("Background:\n") + background) == Ascii("\nBackground:\n") + background;
  }

  /** Where item `i` stands in the prompt from `fromIndex`; behind the last one stands the instruction. */
  function PositionOf(s: Snapshot, fromIndex: nat, i: nat): nat
    requires fromIndex <= i <= |s.items|
  {
    if i > fromIndex then PositionOf(s, fromIndex, i - 1) + |RenderItem(s.items[i - 1])| + |BLANK_LINE|
    else if fromIndex == 0 then |Opening(s.contextRevision, OrEmpty(s.topic), OrEmpty(s.background))| + |BLANK_LINE|
    else 0
  }

  /** The items from `i` on and the instruction. */
  function Rest(s: Snapshot, i: nat): Text
    requires i <= |s.items|
  {
    if i == |s.items| then Instruction(s) else RenderItems(s.items[i..]) + BLANK_LINE + Instruction(s)
  }

  lemma {:induction false} RestUnfolds(s: Snapshot, i: nat)
    requires i < |s.items|
    ensures Rest(s, i) == RenderItem(s.items[i]) + BLANK_LINE + Rest(s, i + 1)
  {
    var (item, later) := (s.items[i], s.items[i + 1..]);
    assert s.items[i..] == [item] + later;
    assert RenderEach([item]) == [RenderItem(item)];
    if later != [] { RenderItemsSplits([item], later); }
    hide RenderItem, Instruction;
    assert later == [] ==> [item] + later == [item];
  }

  lemma {:induction false} PromptIsRest(s: Snapshot, fromIndex: nat)
    requires fromIndex <= |s.items|
    ensures RenderTurn(s, fromIndex) == (if fromIndex == 0 then Header(s) + BLANK_LINE else []) + Rest(s, fromIndex)
  {
    var (h, i, items) := (Header(s), Instruction(s), RenderItems(s.items[fromIndex..]));
    JoinOfTwo(h, i, BLANK_LINE);
    JoinOfTwo(items, i, BLANK_LINE);
    JoinOfThree(h, items, i, BLANK_LINE);
    hide Header, Instruction, RenderItems;
    assert [h] + [items] + [i] == [h, items, i] && [] + [items] + [i] == [items, i];
    assert [h] + [] + [i] == [h, i] && [] + [] + [i] == [i];
  }

  lemma {:induction false} PromptFrom(s: Snapshot, fromIndex: nat, i: nat)
    requires fromIndex <= i <= |s.items|
    ensures PositionOf(s, fromIndex, i) <= |RenderTurn(s, fromIndex)|
    ensures RenderTurn(s, fromIndex)[PositionOf(s, fromIndex, i)..] == Rest(s, i)
    decreases i
  {
    hide RenderItem, Rest, RenderTurn;
    if i == fromIndex {
      PromptIsRest(s, fromIndex);
      HeaderIsOpening(s);
      hide Header, Opening;
    } else {
      PromptFrom(s, fromIndex, i - 1);
      RestUnfolds(s, i - 1);
      assert (RenderItem(s.items[i - 1]) + BLANK_LINE + Rest(s, i))[|RenderItem(s.items[i - 1])| + |BLANK_LINE|..] ==
             Rest(s, i);
    }
  }

  /**
   * What a prompt says: from zero it opens with revision, topic and background; each item from `fromIndex`
   * on stands whole at its place, one after the other with a blank line behind each; and what is left
   * after the last is the instruction.
   */
  lemma {:induction false} PromptSays(s: Snapshot, fromIndex: nat, i: nat)
    requires fromIndex <= i <= |s.items|
    ensures var prompt := RenderTurn(s, fromIndex);
            && (fromIndex == 0 ==>
                  Occurs(Opening(s.contextRevision, OrEmpty(s.topic), OrEmpty(s.background)) + BLANK_LINE, prompt, 0))
            && (if i < |s.items| then Occurs(RenderItem(s.items[i]) + BLANK_LINE, prompt, PositionOf(s, fromIndex, i))
                else
                  && PositionOf(s, fromIndex, i) <= |prompt|
                  && prompt[PositionOf(s, fromIndex, i)..] ==
                     Ascii(if s.instructionKind == Message then "# Instruction (message)\n"
                           else "# Instruction (summary)\n")
                     + s.instructionText)
  {
    PromptFrom(s, fromIndex, i);
    if fromIndex == 0 { OpeningIsFirst(s); }
    if i < |s.items| {
      RestUnfolds(s, i);
    } else {
      InstructionReads(s);
    }
    hide RenderTurn, RenderItem, Opening, PositionOf, Instruction, RenderItems, Ascii;
  }

  lemma {:induction false} OpeningIsFirst(s: Snapshot)
    ensures var opening := Opening(s.contextRevision, OrEmpty(s.topic), OrEmpty(s.background));
            Occurs(opening + BLANK_LINE, RenderTurn(s, 0), 0)
  {
    PromptIsRest(s, 0);
    HeaderIsOpening(s);
    hide RenderTurn, Opening, Header, Rest;
  }

  lemma {:induction false} InstructionReads(s: Snapshot)
    ensures Instruction(s) ==
            Ascii(if s.instructionKind == Message then "# Instruction (message)\n" else "# Instruction (summary)\n")
            + s.instructionText
  {
    assert Ascii("# Instruction (message)\n") == Ascii("# Instruction (") + Ascii("message") + Ascii(")\n");
    assert Ascii("# Instruction (summary)\n") == Ascii("# Instruction (") + Ascii("summary") + Ascii(")\n");
  }
}
