/**
 * The canonical serializer behind every digest. Two values have the same canonical text exactly when
 * they are the same value, object keys being unordered and undefined fields absent.
 */
module Digest {
  import opened Text16
  import opened JsonString

  const MAX_DEPTH := 64

  /** A number by its 64-bit pattern, negative zero read as zero. */
  type Double = bits: nat | bits < 0x1_0000_0000_0000_0000

  datatype Entry = Entry(key: Text, value: Value)

  /** A JavaScript value; `Other` stands for functions, symbols and big integers. */
  datatype Value =
    | Undefined
    | Null
    | Bool(b: bool)
    | Number(n: Double)
    | Str(s: Text)
    | Arr(items: seq<Value>)
    | Obj(entries: seq<Entry>)
    | Other

  datatype Failure = TooDeep | NonFinite | Unsupported

  datatype Result<+T> = Ok(value: T) | Err(error: Failure)

  /** The engine's number formatting: which numbers are finite and how those are written. */
  datatype Numerals = Numerals(finite: Double -> bool, text: Double -> Text)

  predicate IsNumeralUnit(u: CodeUnit) {
    0x30 <= u <= 0x39 || u == 0x2B || u == 0x2D || u == 0x2E || u == 0x65  // 0-9 + - . e
  }

  ghost predicate IsNumeral(t: Text) {
    t != [] && (t[0] == 0x2D || 0x30 <= t[0] <= 0x39) && forall i | 0 <= i < |t| :: IsNumeralUnit(t[i])
  }

  /** Finite numbers are written as numerals, different numbers differently. */
  ghost predicate Faithful(num: Numerals) {
    && (forall n | num.finite(n) :: IsNumeral(num.text(n)))
    && (forall m, n | num.finite(m) && num.finite(n) && num.text(m) == num.text(n) :: m == n)
  }

  // ---------------------------------------------------------------------------------------------
  // The serializer
  // ---------------------------------------------------------------------------------------------

  const NULL_TEXT: Text := [0x6E, 0x75, 0x6C, 0x6C]
  const TRUE_TEXT: Text := [0x74, 0x72, 0x75, 0x65]
  const FALSE_TEXT: Text := [0x66, 0x61, 0x6C, 0x73, 0x65]

  function Defined(es: seq<Entry>): seq<Entry> {
    if es == [] then []
    else if es[0].value.Undefined? then Defined(es[1..])
    else [es[0]] + Defined(es[1..])
  }

  function Insert(e: Entry, es: seq<Entry>): seq<Entry> {
    if es == [] then [e]
    else if Less(es[0].key, e.key) then [es[0]] + Insert(e, es[1..])
    else [e] + es
  }

  function Sort(es: seq<Entry>): seq<Entry> {
    if es == [] then [] else Insert(es[0], Sort(es[1..]))
  }

  lemma {:induction false} DefinedMembers(es: seq<Entry>)
    ensures forall e :: e in Defined(es) <==> e in es && !e.value.Undefined?
  {
    if es != [] { DefinedMembers(es[1..]); }
  }

  lemma {:induction false} InsertMembers(e: Entry, es: seq<Entry>)
    ensures forall f :: f in Insert(e, es) <==> f == e || f in es
  {
    if es != [] { InsertMembers(e, es[1..]); }
  }

  lemma {:induction false} SortMembers(es: seq<Entry>)
    ensures forall f :: f in Sort(es) <==> f in es
  {
    if es != [] {
      SortMembers(es[1..]);
      InsertMembers(es[0], Sort(es[1..]));
    }
  }

  lemma {:induction false} FieldsAreParts(v: Value, es: seq<Entry>)
    requires v == Obj(es)
    ensures forall i | 0 <= i < |Sort(Defined(es))| :: Sort(Defined(es))[i].value < v
  {
    SortMembers(Defined(es));
    DefinedMembers(es);
    var fs := Sort(Defined(es));
    assert forall e | e in fs :: e.value < v;
  }

  function CanonicalJson(num: Numerals, v: Value): Result<Text> {
    Serialize(num, v, 0)
  }

  function Serialize(num: Numerals, v: Value, depth: nat): Result<Text>
    decreases v
  {
    if depth > MAX_DEPTH then Err(TooDeep)
    else match v
      case Null => Ok(NULL_TEXT)
      case Bool(b) => Ok(if b then TRUE_TEXT else FALSE_TEXT)
      case Number(n) => if num.finite(n) then Ok(num.text(n)) else Err(NonFinite)
      case Str(s) => Ok(Quote(s))
      case Arr(items) =>
        (match SerializeItems(num, v, items, depth)
         case Ok(ts) => Ok([OPEN_BRACKET] + Join(ts) + [CLOSE_BRACKET])
         case Err(error) => Err(error))
      case Obj(entries) =>
        FieldsAreParts(v, entries);
        (match SerializeEntries(num, v, Sort(Defined(entries)), depth)
         case Ok(ts) => Ok([OPEN_BRACE] + Join(ts) + [CLOSE_BRACE])
         case Err(error) => Err(error))
      case Undefined => Err(Unsupported)
      case Other => Err(Unsupported)
  }

  function SerializeItems(num: Numerals, ghost parent: Value, items: seq<Value>, depth: nat)
    : (r: Result<seq<Text>>)
    requires forall i | 0 <= i < |items| :: items[i] < parent
    ensures r.Ok? ==> |r.value| == |items|
    decreases parent, |items|
  {
    if items == [] then Ok([])
    else match Serialize(num, items[0], depth + 1)
      case Err(error) => Err(error)
      case Ok(t) =>
        match SerializeItems(num, parent, items[1..], depth)
        case Err(error) => Err(error)
        case Ok(ts) => Ok([t] + ts)
  }

  function SerializeEntries(num: Numerals, ghost parent: Value, es: seq<Entry>, depth: nat)
    : (r: Result<seq<Text>>)
    requires forall i | 0 <= i < |es| :: es[i].value < parent
    ensures r.Ok? ==> |r.value| == |es|
    decreases parent, |es|
  {
    if es == [] then Ok([])
    else match Serialize(num, es[0].value, depth + 1)
      case Err(error) => Err(error)
      case Ok(t) =>
        match SerializeEntries(num, parent, es[1..], depth)
        case Err(error) => Err(error)
        case Ok(ts) => Ok([Quote(es[0].key) + [COLON] + t] + ts)
  }

  function Join(ts: seq<Text>): Text {
    if ts == [] then []
    else if |ts| == 1 then ts[0]
    else ts[0] + [COMMA] + Join(ts[1..])
  }

  // ---------------------------------------------------------------------------------------------
  // What the text identifies
  // ---------------------------------------------------------------------------------------------

  ghost predicate DistinctKeys(es: seq<Entry>) {
    forall i, j | 0 <= i < j < |es| :: es[i].key != es[j].key
  }

  /** No object lists a key twice, which JavaScript guarantees. */
  ghost predicate WellFormed(v: Value) {
    match v
    case Arr(items) => forall i | 0 <= i < |items| :: WellFormed(items[i])
    case Obj(es) => DistinctKeys(es) && forall i | 0 <= i < |es| :: WellFormed(es[i].value)
    case _ => true
  }

  ghost function FieldKeys(es: seq<Entry>): set<Text> {
    set i | 0 <= i < |es| && !es[i].value.Undefined? :: es[i].key
  }

  /** Equality of values that ignores the order of keys and undefined fields. */
  ghost predicate Same(v: Value, w: Value) {
    match (v, w)
    case (Arr(a), Arr(b)) => |a| == |b| && forall i | 0 <= i < |a| :: Same(a[i], b[i])
    case (Obj(a), Obj(b)) =>
      && FieldKeys(a) == FieldKeys(b)
      && forall i, j | 0 <= i < |a| && 0 <= j < |b| && a[i].key == b[j].key && a[i].value != Undefined ::
           Same(a[i].value, b[j].value)
    case _ => v == w
  }

  /** The values the serializer accepts when `room` more levels of nesting are allowed. */
  ghost predicate Fits(num: Numerals, v: Value, room: int) {
    && room >= 0
    && match v
       case Number(n) => num.finite(n)
       case Arr(items) => forall i | 0 <= i < |items| :: Fits(num, items[i], room - 1)
       case Obj(es) => forall i | 0 <= i < |es| && es[i].value != Undefined :: Fits(num, es[i].value, room - 1)
       case Undefined => false
       case Other => false
       case _ => true
  }

  lemma {:induction false} AcceptsExactlyWhatFits(num: Numerals, v: Value, depth: nat)
    ensures Serialize(num, v, depth).Ok? <==> Fits(num, v, MAX_DEPTH - depth)
    decreases v
  {
    if depth <= MAX_DEPTH {
      match v
      case Arr(items) => ItemsFit(num, v, items, depth);
      case Obj(es) =>
        var sorted := Sort(Defined(es));
        FieldsAreParts(v, es);
        SortMembers(Defined(es));
        DefinedMembers(es);
        EntriesFit(num, v, sorted, depth);
        assert forall e :: e in sorted <==> e in es && !e.value.Undefined?;
        assert (forall i | 0 <= i < |sorted| :: Fits(num, sorted[i].value, MAX_DEPTH - depth - 1)) <==>
               (forall e | e in sorted :: Fits(num, e.value, MAX_DEPTH - depth - 1));
      case _ =>
    }
  }

  lemma {:induction false} ItemsFit(num: Numerals, parent: Value, items: seq<Value>, depth: nat)
    requires forall i | 0 <= i < |items| :: items[i] < parent
    ensures SerializeItems(num, parent, items, depth).Ok? <==>
            forall i | 0 <= i < |items| :: Fits(num, items[i], MAX_DEPTH - depth - 1)
    decreases parent, |items|
  {
    if items != [] {
      AcceptsExactlyWhatFits(num, items[0], depth + 1);
      ItemsFit(num, parent, items[1..], depth);
      assert items == [items[0]] + items[1..];
    }
  }

  lemma {:induction false} EntriesFit(num: Numerals, parent: Value, es: seq<Entry>, depth: nat)
    requires forall i | 0 <= i < |es| :: es[i].value < parent
    ensures SerializeEntries(num, parent, es, depth).Ok? <==>
            forall i | 0 <= i < |es| :: Fits(num, es[i].value, MAX_DEPTH - depth - 1)
    decreases parent, |es|
  {
    if es != [] {
      AcceptsExactlyWhatFits(num, es[0].value, depth + 1);
      EntriesFit(num, parent, es[1..], depth);
      assert es == [es[0]] + es[1..];
    }
  }

  /** What keeps a value from being serialized with `room` more levels of nesting. */
  ghost predicate Suffers(num: Numerals, v: Value, room: int, error: Failure) {
    || (room < 0 && error == TooDeep)
    || match v
       case Number(n) => !num.finite(n) && error == NonFinite
       case Arr(items) => exists i | 0 <= i < |items| :: Suffers(num, items[i], room - 1, error)
       case Obj(es) =>
         exists i | 0 <= i < |es| && es[i].value != Undefined :: Suffers(num, es[i].value, room - 1, error)
       case Undefined => error == Unsupported
       case Other => error == Unsupported
       case _ => false
  }

  /** The error that is thrown names something that is really there. */
  lemma {:induction false} FailureIsReal(num: Numerals, v: Value)
    ensures CanonicalJson(num, v).Err? ==> Suffers(num, v, 64, CanonicalJson(num, v).error)
  {
    FailureIsInside(num, v, 0);
  }

  lemma {:induction false} FailureIsInside(num: Numerals, v: Value, depth: nat)
    ensures Serialize(num, v, depth).Err? ==> Suffers(num, v, MAX_DEPTH - depth, Serialize(num, v, depth).error)
    decreases v
  {
    if depth <= MAX_DEPTH {
      match v
      case Arr(items) =>
        ItemFails(num, v, items, depth);
      case Obj(es) =>
        var sorted := Sort(Defined(es));
        FieldsAreParts(v, es);
        SortMembers(Defined(es));
        DefinedMembers(es);
        var k := EntryFails(num, v, sorted, depth);
        if Serialize(num, v, depth).Err? { assert sorted[k] in es; }
      case _ =>
    }
  }

  lemma {:induction false} ItemFails(num: Numerals, parent: Value, items: seq<Value>, depth: nat)
    requires forall i | 0 <= i < |items| :: items[i] < parent
    ensures var r := SerializeItems(num, parent, items, depth);
            r.Err? ==> exists i | 0 <= i < |items| :: Suffers(num, items[i], MAX_DEPTH - depth - 1, r.error)
    decreases parent, |items|
  {
    if items != [] {
      FailureIsInside(num, items[0], depth + 1);
      ItemFails(num, parent, items[1..], depth);
      assert items == [items[0]] + items[1..];
    }
  }

  lemma {:induction false} EntryFails(num: Numerals, parent: Value, es: seq<Entry>, depth: nat) returns (k: nat)
    requires forall i | 0 <= i < |es| :: es[i].value < parent
    ensures var r := SerializeEntries(num, parent, es, depth);
            r.Err? ==> k < |es| && Suffers(num, es[k].value, MAX_DEPTH - depth - 1, r.error)
    decreases parent, |es|
  {
    k := 0;
    if es != [] {
      FailureIsInside(num, es[0].value, depth + 1);
      if Serialize(num, es[0].value, depth + 1).Ok? {
        k := EntryFails(num, parent, es[1..], depth);
        k := k + 1;
      }
    }
  }

  // ---------------------------------------------------------------------------------------------
  // Sorted fields
  // ---------------------------------------------------------------------------------------------

  ghost predicate Ascending(es: seq<Entry>) {
    forall i, j | 0 <= i < j < |es| :: Less(es[i].key, es[j].key)
  }

  lemma {:induction false} InsertKeepsAscending(e: Entry, es: seq<Entry>)
    requires Ascending(es) && forall f | f in es :: f.key != e.key
    ensures Ascending(Insert(e, es))
  {
    if es != [] {
      if Less(es[0].key, e.key) {
        InsertKeepsAscending(e, es[1..]);
        InsertMembers(e, es[1..]);
        var r := Insert(e, es[1..]);
        assert forall f | f in r :: Less(es[0].key, f.key);
      } else {
        LessIsTotal(es[0].key, e.key);
        assert forall i | 0 <= i < |es| :: Less(e.key, es[i].key) by {
          forall i | 0 < i < |es| { LessIsTransitive(e.key, es[0].key, es[i].key); }
        }
      }
    }
  }

  lemma {:induction false} SortIsAscending(es: seq<Entry>)
    requires DistinctKeys(es)
    ensures Ascending(Sort(es))
  {
    if es != [] {
      SortIsAscending(es[1..]);
      SortMembers(es[1..]);
      InsertKeepsAscending(es[0], Sort(es[1..]));
    }
  }

  lemma {:induction false} DefinedKeysStayDistinct(es: seq<Entry>)
    requires DistinctKeys(es)
    ensures DistinctKeys(Defined(es))
  {
    if es != [] {
      DefinedKeysStayDistinct(es[1..]);
      DefinedMembers(es[1..]);
    }
  }

  ghost function Fields(es: seq<Entry>): seq<Entry> {
    Sort(Defined(es))
  }

  /** The sorted fields are the defined entries, in ascending order of their keys. */
  lemma {:induction false} FieldsOf(es: seq<Entry>)
    requires DistinctKeys(es)
    ensures Ascending(Fields(es))
    ensures forall e :: e in Fields(es) <==> e in es && !e.value.Undefined?
    ensures FieldKeys(Fields(es)) == FieldKeys(es)
  {
    DefinedKeysStayDistinct(es);
    DefinedMembers(es);
    SortMembers(Defined(es));
    SortIsAscending(Defined(es));
    var fs := Fields(es);
    assert FieldKeys(fs) == set e | e in fs :: e.key;
    assert FieldKeys(es) == set e | e in es && !e.value.Undefined? :: e.key;
  }

  lemma {:induction false} EmptyIffNoKeys(a: seq<Entry>)
    ensures a == [] <==> (set i | 0 <= i < |a| :: a[i].key) == {}
  {
    var keys := set i | 0 <= i < |a| :: a[i].key;
    if a != [] { assert a[0].key in keys; }
  }

  /** Two ascending lists with the same keys list them in the same positions. */
  lemma {:induction false} AscendingIsUnique(a: seq<Entry>, b: seq<Entry>)
    requires Ascending(a) && Ascending(b)
    requires (set i | 0 <= i < |a| :: a[i].key) == (set i | 0 <= i < |b| :: b[i].key)
    ensures |a| == |b| && forall i | 0 <= i < |a| :: a[i].key == b[i].key
  {
    var (ka, kb) := (set i | 0 <= i < |a| :: a[i].key, set i | 0 <= i < |b| :: b[i].key);
    if a == [] {
      EmptyIffNoKeys(b);
    } else if b == [] {
      EmptyIffNoKeys(a);
    } else {
      assert a[0].key in kb && b[0].key in ka;
      LessIsIrreflexive(a[0].key);
      LessIsIrreflexive(b[0].key);
      if a[0].key != b[0].key {
        LessIsTransitive(a[0].key, b[0].key, a[0].key);
        assert false;
      }
      AscendingTail(a, ka);
      AscendingTail(b, kb);
      AscendingIsUnique(a[1..], b[1..]);
    }
  }

  lemma {:induction false} AscendingTail(a: seq<Entry>, keys: set<Text>)
    requires Ascending(a) && a != [] && keys == set i | 0 <= i < |a| :: a[i].key
    ensures (set i | 0 <= i < |a[1..]| :: a[1..][i].key) == keys - {a[0].key}
  {
    LessIsIrreflexive(a[0].key);
    forall k | k in keys - {a[0].key}
      ensures k in set i | 0 <= i < |a[1..]| :: a[1..][i].key
    {
      var i :| 0 <= i < |a| && a[i].key == k;
      assert a[1..][i - 1].key == k;
    }
  }

  // ---------------------------------------------------------------------------------------------
  // The text determines the value
  // ---------------------------------------------------------------------------------------------

  /** What may follow a value inside a larger text. */
  ghost predicate Delimits(rest: Text) {
    rest == [] || rest[0] in {COMMA, CLOSE_BRACKET, CLOSE_BRACE}
  }

  /** The constructors, told apart by the first unit of their text. */
  ghost function FirstUnits(v: Value): set<CodeUnit> {
    match v
    case Null => {0x6E}
    case Bool(b) => if b then {0x74} else {0x66}
    case Number(_) => {0x2D, 0x30, 0x31, 0x32, 0x33, 0x34, 0x35, 0x36, 0x37, 0x38, 0x39}
    case Str(_) => {QUOTE}
    case Arr(_) => {OPEN_BRACKET}
    case Obj(_) => {OPEN_BRACE}
    case _ => {}
  }

  lemma FirstUnitOf(num: Numerals, v: Value, depth: nat)
    requires Faithful(num) && Serialize(num, v, depth).Ok?
    ensures var t := Serialize(num, v, depth).value; t != [] && t[0] in FirstUnits(v)
  {
  }

  lemma FirstUnitsTellConstructorsApart(v: Value, w: Value, u: CodeUnit)
    requires u in FirstUnits(v) && u in FirstUnits(w)
    ensures match v
            case Null => w.Null?
            case Bool(b) => w == v
            case Number(_) => w.Number?
            case Str(_) => w.Str?
            case Arr(_) => w.Arr?
            case Obj(_) => w.Obj?
            case _ => false
    ensures u != CLOSE_BRACKET && u != CLOSE_BRACE
  {
  }

  lemma {:induction false} LongerNumeralDiffers(a: Text, b: Text, x: Text, y: Text)
    requires IsNumeral(a) && IsNumeral(b) && Delimits(x) && |a| < |b|
    ensures a + x != b + y
  {
    assert (b + y)[|a|] == b[|a|];
    if x != [] { assert (a + x)[|a|] == x[0]; }
  }

  lemma {:induction false} NumeralEndsItself(a: Text, b: Text, x: Text, y: Text)
    requires IsNumeral(a) && IsNumeral(b) && Delimits(x) && Delimits(y) && a + x == b + y
    ensures a == b && x == y
  {
    if |a| < |b| {
      LongerNumeralDiffers(a, b, x, y);
    } else if |b| < |a| {
      LongerNumeralDiffers(b, a, y, x);
    } else {
      SamePrefixSameRest(a, b, x, y);
    }
  }

  lemma {:induction false} SamePrefixSameRest(a: Text, b: Text, x: Text, y: Text)
    requires |a| == |b| && a + x == b + y
    ensures a == b && x == y
  {
    assert a == (a + x)[..|a|] && b == (b + y)[..|b|];
    assert x == (a + x)[|a|..] && y == (b + y)[|b|..];
  }

  lemma {:induction false} SameFirstUnit(num: Numerals, v: Value, w: Value, depth: nat, x: Text, y: Text)
    requires Faithful(num) && Serialize(num, v, depth).Ok? && Serialize(num, w, depth).Ok?
    requires Serialize(num, v, depth).value + x == Serialize(num, w, depth).value + y
    ensures FirstUnits(v) * FirstUnits(w) != {}
  {
    FirstUnitOf(num, v, depth);
    FirstUnitOf(num, w, depth);
    var t := Serialize(num, v, depth).value + x;
    assert t[0] in FirstUnits(v) * FirstUnits(w);
  }

  /** The heart of the matter: a canonical text ends itself and tells which value it stands for. */
  lemma {:induction false} TextEndsItself(num: Numerals, v: Value, w: Value, depth: nat, x: Text, y: Text)
    requires Faithful(num) && WellFormed(v) && WellFormed(w)
    requires Serialize(num, v, depth).Ok? && Serialize(num, w, depth).Ok?
    requires Delimits(x) && Delimits(y)
    requires Serialize(num, v, depth).value + x == Serialize(num, w, depth).value + y
    ensures Same(v, w) && x == y
    decreases v
  {
    var (tv, tw) := (Serialize(num, v, depth).value, Serialize(num, w, depth).value);
    SameFirstUnit(num, v, w, depth, x, y);
    var u :| u in FirstUnits(v) * FirstUnits(w);
    FirstUnitsTellConstructorsApart(v, w, u);
    match v
    case Number(m) => NumeralEndsItself(tv, tw, x, y);
    case Str(s) => QuoteIsSelfDelimiting(s, w.s, x, y);
    case Arr(items) =>
      var (a, b) := (SerializeItems(num, v, items, depth).value, SerializeItems(num, w, w.items, depth).value);
      OpenedTextsAgree(OPEN_BRACKET, Join(a), Join(b), CLOSE_BRACKET, x, y);
      ItemsEndThemselves(num, v, items, w, w.items, depth, a, b, x, y);
    case Obj(es) =>
      FieldsOf(es);
      FieldsOf(w.entries);
      FieldsAreParts(v, es);
      FieldsAreParts(w, w.entries);
      var (f, g) := (Fields(es), Fields(w.entries));
      var (a, b) := (SerializeEntries(num, v, f, depth).value, SerializeEntries(num, w, g, depth).value);
      OpenedTextsAgree(OPEN_BRACE, Join(a), Join(b), CLOSE_BRACE, x, y);
      EntriesEndThemselves(num, v, f, w, g, depth, a, b, x, y);
      AlignedFieldsMakeSameObjects(es, w.entries);
    case Null => SamePrefixSameRest(tv, tw, x, y);
    case Bool(_) => SamePrefixSameRest(tv, tw, x, y);
    case _ =>
  }

  lemma {:induction false} OpenedTextsAgree(open: CodeUnit, a: Text, b: Text, close: CodeUnit, x: Text, y: Text)
    requires [open] + a + [close] + x == [open] + b + [close] + y
    ensures a + [close] + x == b + [close] + y
  {
    assert a + [close] + x == ([open] + a + [close] + x)[1..];
    assert b + [close] + y == ([open] + b + [close] + y)[1..];
  }

  /** What follows the first element's text inside a list. */
  ghost function AfterFirst(ts: seq<Text>, close: CodeUnit, x: Text): (r: Text)
    requires ts != []
    ensures Join(ts) + [close] + x == ts[0] + r
  {
    if |ts| == 1 then [close] + x else [COMMA] + (Join(ts[1..]) + [close] + x)
  }

  lemma {:induction false} ListsContinueAlike(a: seq<Text>, b: seq<Text>, close: CodeUnit, x: Text, y: Text)
    requires a != [] && b != [] && close != COMMA
    requires AfterFirst(a, close, x) == AfterFirst(b, close, y)
    ensures |a| == 1 <==> |b| == 1
    ensures Join(a[1..]) + [close] + x == Join(b[1..]) + [close] + y
  {
    var (p, q) := (AfterFirst(a, close, x), AfterFirst(b, close, y));
    assert p[0] == q[0];
    assert p[1..] == q[1..];
    if |a| > 1 {
      assert p[1..] == Join(a[1..]) + [close] + x && q[1..] == Join(b[1..]) + [close] + y;
    } else {
      assert x == p[1..] == y;
      assert Join(a[1..]) == [] == Join(b[1..]);
    }
  }

  lemma {:induction false} ListIsNotClosedAtOnce(ts: seq<Text>, close: CodeUnit, x: Text, y: Text)
    requires ts != [] && ts[0] != [] && ts[0][0] != close
    ensures Join(ts) + [close] + x != Join([]) + [close] + y
  {
    assert Join(ts) + [close] + x == ts[0] + AfterFirst(ts, close, x);
    assert (Join(ts) + [close] + x)[0] == ts[0][0];
  }

  lemma {:induction false} EmptyListsContinueAlike(close: CodeUnit, x: Text, y: Text)
    requires Join([]) + [close] + x == Join([]) + [close] + y
    ensures x == y
  {
    assert Join([]) + [close] == [close];
    SamePrefixSameRest([close], [close], x, y);
  }

  lemma {:induction false} ItemsUnfold(num: Numerals, parent: Value, v: seq<Value>, depth: nat)
    requires v != [] && forall i | 0 <= i < |v| :: v[i] < parent
    requires SerializeItems(num, parent, v, depth).Ok?
    ensures Serialize(num, v[0], depth + 1).Ok? && SerializeItems(num, parent, v[1..], depth).Ok?
    ensures SerializeItems(num, parent, v, depth).value ==
            [Serialize(num, v[0], depth + 1).value] + SerializeItems(num, parent, v[1..], depth).value
    ensures Faithful(num) ==>
              var t := Serialize(num, v[0], depth + 1).value; t != [] && t[0] != CLOSE_BRACKET
  {
    if Faithful(num) {
      FirstUnitOf(num, v[0], depth + 1);
      FirstUnitsTellConstructorsApart(v[0], v[0], Serialize(num, v[0], depth + 1).value[0]);
    }
  }

  lemma {:induction false} ItemsEndThemselves(
    num: Numerals, pv: Value, v: seq<Value>, pw: Value, w: seq<Value>, depth: nat,
    a: seq<Text>, b: seq<Text>, x: Text, y: Text)
    requires Faithful(num)
    requires forall i | 0 <= i < |v| :: v[i] < pv && WellFormed(v[i])
    requires forall i | 0 <= i < |w| :: w[i] < pw && WellFormed(w[i])
    requires SerializeItems(num, pv, v, depth) == Ok(a) && SerializeItems(num, pw, w, depth) == Ok(b)
    requires Join(a) + [CLOSE_BRACKET] + x == Join(b) + [CLOSE_BRACKET] + y
    ensures |v| == |w| && x == y
    ensures forall i | 0 <= i < |v| :: Same(v[i], w[i])
    decreases pv, |v|
  {
    if v == [] && w == [] {
      EmptyListsContinueAlike(CLOSE_BRACKET, x, y);
    } else if w == [] {
      ItemsUnfold(num, pv, v, depth);
      ListIsNotClosedAtOnce(a, CLOSE_BRACKET, x, y);
    } else if v == [] {
      ItemsUnfold(num, pw, w, depth);
      ListIsNotClosedAtOnce(b, CLOSE_BRACKET, y, x);
    } else {
      ItemsUnfold(num, pv, v, depth);
      ItemsUnfold(num, pw, w, depth);
      TextEndsItself(num, v[0], w[0], depth + 1, AfterFirst(a, CLOSE_BRACKET, x), AfterFirst(b, CLOSE_BRACKET, y));
      ListsContinueAlike(a, b, CLOSE_BRACKET, x, y);
      ItemsEndThemselves(num, pv, v[1..], pw, w[1..], depth, a[1..], b[1..], x, y);
    }
  }

  lemma EntriesUnfold(num: Numerals, parent: Value, v: seq<Entry>, depth: nat)
    requires v != [] && forall i | 0 <= i < |v| :: v[i].value < parent
    requires SerializeEntries(num, parent, v, depth).Ok?
    ensures Serialize(num, v[0].value, depth + 1).Ok? && SerializeEntries(num, parent, v[1..], depth).Ok?
    ensures SerializeEntries(num, parent, v, depth).value ==
            [Quote(v[0].key) + [COLON] + Serialize(num, v[0].value, depth + 1).value] +
            SerializeEntries(num, parent, v[1..], depth).value
  {
  }

  /** The key of a field can be read off; what remains starts with the field's value. */
  lemma {:induction false} KeysAgree(k: Text, s: Text, x: Text, l: Text, t: Text, y: Text)
    requires Quote(k) + [COLON] + s + x == Quote(l) + [COLON] + t + y
    ensures k == l && s + x == t + y
  {
    assert Quote(k) + [COLON] + s + x == Quote(k) + ([COLON] + (s + x));
    assert Quote(l) + [COLON] + t + y == Quote(l) + ([COLON] + (t + y));
    QuoteIsSelfDelimiting(k, l, [COLON] + (s + x), [COLON] + (t + y));
    SamePrefixSameRest([COLON], [COLON], s + x, t + y);
  }

  lemma {:induction false} EntriesEndThemselves(
    num: Numerals, pv: Value, v: seq<Entry>, pw: Value, w: seq<Entry>, depth: nat,
    a: seq<Text>, b: seq<Text>, x: Text, y: Text)
    requires Faithful(num)
    requires forall i | 0 <= i < |v| :: v[i].value < pv && WellFormed(v[i].value)
    requires forall i | 0 <= i < |w| :: w[i].value < pw && WellFormed(w[i].value)
    requires SerializeEntries(num, pv, v, depth) == Ok(a) && SerializeEntries(num, pw, w, depth) == Ok(b)
    requires Join(a) + [CLOSE_BRACE] + x == Join(b) + [CLOSE_BRACE] + y
    ensures |v| == |w| && x == y
    ensures forall i | 0 <= i < |v| :: v[i].key == w[i].key && Same(v[i].value, w[i].value)
    decreases pv, |v|
  {
    if v == [] && w == [] {
      EmptyListsContinueAlike(CLOSE_BRACE, x, y);
    } else if w == [] {
      EntriesUnfold(num, pv, v, depth);
      ListIsNotClosedAtOnce(a, CLOSE_BRACE, x, y);
    } else if v == [] {
      EntriesUnfold(num, pw, w, depth);
      ListIsNotClosedAtOnce(b, CLOSE_BRACE, y, x);
    } else {
      var (p, q) := (AfterFirst(a, CLOSE_BRACE, x), AfterFirst(b, CLOSE_BRACE, y));
      FirstFieldsEndThemselves(num, pv, v, pw, w, depth, a, b, p, q);
      ListsContinueAlike(a, b, CLOSE_BRACE, x, y);
      EntriesUnfold(num, pv, v, depth);
      EntriesUnfold(num, pw, w, depth);
      EntriesEndThemselves(num, pv, v[1..], pw, w[1..], depth, a[1..], b[1..], x, y);
    }
  }

  lemma {:induction false} FirstFieldsEndThemselves(
    num: Numerals, pv: Value, v: seq<Entry>, pw: Value, w: seq<Entry>, depth: nat,
    a: seq<Text>, b: seq<Text>, p: Text, q: Text)
    requires Faithful(num) && v != [] && w != []
    requires forall i | 0 <= i < |v| :: v[i].value < pv && WellFormed(v[i].value)
    requires forall i | 0 <= i < |w| :: w[i].value < pw && WellFormed(w[i].value)
    requires SerializeEntries(num, pv, v, depth) == Ok(a) && SerializeEntries(num, pw, w, depth) == Ok(b)
    requires Delimits(p) && Delimits(q) && a[0] + p == b[0] + q
    ensures v[0].key == w[0].key && Same(v[0].value, w[0].value) && p == q
    decreases pv, 0
  {
    EntriesUnfold(num, pv, v, depth);
    EntriesUnfold(num, pw, w, depth);
    var (s, t) := (Serialize(num, v[0].value, depth + 1).value, Serialize(num, w[0].value, depth + 1).value);
    KeysAgree(v[0].key, s, p, w[0].key, t, q);
    TextEndsItself(num, v[0].value, w[0].value, depth + 1, p, q);
  }

  lemma {:induction false} AlignedFieldsMakeSameObjects(a: seq<Entry>, b: seq<Entry>)
    requires DistinctKeys(a) && DistinctKeys(b)
    requires var (f, g) := (Fields(a), Fields(b));
             |f| == |g| && forall i | 0 <= i < |f| :: f[i].key == g[i].key && Same(f[i].value, g[i].value)
    ensures Same(Obj(a), Obj(b))
  {
    FieldsOf(a);
    FieldsOf(b);
    var (f, g) := (Fields(a), Fields(b));
    hide Fields;
    assert FieldKeys(f) == FieldKeys(g);
    forall i, j | 0 <= i < |a| && 0 <= j < |b| && a[i].key == b[j].key && a[i].value != Undefined
      ensures Same(a[i].value, b[j].value)
    {
      AlignedFieldIsSame(a, b, f, g, i, j);
    }
  }

  lemma {:induction false} AlignedFieldIsSame(
    a: seq<Entry>, b: seq<Entry>, f: seq<Entry>, g: seq<Entry>, i: nat, j: nat)
    requires DistinctKeys(b) && i < |a| && j < |b| && a[i].key == b[j].key && a[i].value != Undefined
    requires |f| == |g| && forall k | 0 <= k < |f| :: f[k].key == g[k].key && Same(f[k].value, g[k].value)
    requires (forall e :: e in f <==> e in a && !e.value.Undefined?) && (forall e | e in g :: e in b)
    ensures Same(a[i].value, b[j].value)
  {
    hide Same;
    assert a[i] in f;
    var k :| 0 <= k < |f| && f[k] == a[i];
    assert g[k] in b;
    var m :| 0 <= m < |b| && b[m] == g[k];
    assert m == j;
  }

  // ---------------------------------------------------------------------------------------------
  // The value determines the text
  // ---------------------------------------------------------------------------------------------

  lemma {:induction false} SameValuesSameText(num: Numerals, v: Value, w: Value, depth: nat)
    requires WellFormed(v) && WellFormed(w) && Same(v, w)
    requires Serialize(num, v, depth).Ok? && Serialize(num, w, depth).Ok?
    ensures Serialize(num, v, depth) == Serialize(num, w, depth)
    decreases v
  {
    match v
    case Arr(items) => SameItemsSameTexts(num, v, items, w, w.items, depth);
    case Obj(es) =>
      var (f, g) := (Fields(es), Fields(w.entries));
      SameObjectsAlign(es, w.entries);
      FieldsAreParts(v, es);
      FieldsAreParts(w, w.entries);
      SameEntriesSameTexts(num, v, f, w, g, depth);
    case _ =>
  }

  lemma {:induction false} SameObjectsAlign(a: seq<Entry>, b: seq<Entry>)
    requires DistinctKeys(a) && DistinctKeys(b) && Same(Obj(a), Obj(b))
    requires forall i | 0 <= i < |a| :: WellFormed(a[i].value)
    requires forall i | 0 <= i < |b| :: WellFormed(b[i].value)
    ensures forall e | e in Fields(a) :: e in a && WellFormed(e.value)
    ensures forall e | e in Fields(b) :: e in b && WellFormed(e.value)
    ensures |Fields(a)| == |Fields(b)|
    ensures forall i | 0 <= i < |Fields(a)| ::
              Fields(a)[i].key == Fields(b)[i].key && Same(Fields(a)[i].value, Fields(b)[i].value)
  {
    FieldsOf(a);
    FieldsOf(b);
    var (f, g) := (Fields(a), Fields(b));
    assert FieldKeys(f) == set i | 0 <= i < |f| :: f[i].key;
    assert FieldKeys(g) == set i | 0 <= i < |g| :: g[i].key;
    AscendingIsUnique(f, g);
    forall k | 0 <= k < |f|
      ensures Same(f[k].value, g[k].value)
    {
      var i :| 0 <= i < |a| && a[i] == f[k];
      var j :| 0 <= j < |b| && b[j] == g[k];
      assert a[i].key == b[j].key;
    }
  }

  lemma {:induction false} SameItemsSameTexts(
    num: Numerals, pv: Value, v: seq<Value>, pw: Value, w: seq<Value>, depth: nat)
    requires forall i | 0 <= i < |v| :: v[i] < pv && WellFormed(v[i])
    requires forall i | 0 <= i < |w| :: w[i] < pw && WellFormed(w[i])
    requires |v| == |w| && forall i | 0 <= i < |v| :: Same(v[i], w[i])
    requires SerializeItems(num, pv, v, depth).Ok? && SerializeItems(num, pw, w, depth).Ok?
    ensures SerializeItems(num, pv, v, depth) == SerializeItems(num, pw, w, depth)
    decreases pv, |v|
  {
    if v != [] {
      SameValuesSameText(num, v[0], w[0], depth + 1);
      SameItemsSameTexts(num, pv, v[1..], pw, w[1..], depth);
    }
  }

  lemma {:induction false} SameEntriesSameTexts(
    num: Numerals, pv: Value, v: seq<Entry>, pw: Value, w: seq<Entry>, depth: nat)
    requires forall i | 0 <= i < |v| :: v[i].value < pv && WellFormed(v[i].value)
    requires forall i | 0 <= i < |w| :: w[i].value < pw && WellFormed(w[i].value)
    requires |v| == |w| && forall i | 0 <= i < |v| :: v[i].key == w[i].key && Same(v[i].value, w[i].value)
    requires SerializeEntries(num, pv, v, depth).Ok? && SerializeEntries(num, pw, w, depth).Ok?
    ensures SerializeEntries(num, pv, v, depth) == SerializeEntries(num, pw, w, depth)
    decreases pv, |v|
  {
    if v != [] {
      SameValuesSameText(num, v[0].value, w[0].value, depth + 1);
      SameEntriesSameTexts(num, pv, v[1..], pw, w[1..], depth);
    }
  }

  /**
   * Main result: among the values it accepts, canonical serialization gives equal texts to exactly
   * the values that are the same up to key order and undefined fields.
   */
  lemma {:induction false} CanonicalTextIsIdentity(num: Numerals, v: Value, w: Value)
    requires Faithful(num) && WellFormed(v) && WellFormed(w)
    requires CanonicalJson(num, v).Ok? && CanonicalJson(num, w).Ok?
    ensures CanonicalJson(num, v) == CanonicalJson(num, w) <==> Same(v, w)
  {
    if CanonicalJson(num, v) == CanonicalJson(num, w) {
      TextEndsItself(num, v, w, 0, [], []);
    }
    if Same(v, w) {
      SameValuesSameText(num, v, w, 0);
    }
  }
}
