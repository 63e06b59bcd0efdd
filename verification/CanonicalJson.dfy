/** The canonical JSON printer behind the consensus pin. */
module CanonicalJson {
  // Object keys are sorted recursively and there is no white space. Text is a sequence of UTF-16 code units,
  // as JavaScript strings are.

  import opened Base

  type Unit = c: int | 0 <= c < 0x10000

  type Text = seq<Unit>

  /** A number's printed form: digits, signs, a point, an exponent. */
  predicate NumberUnit(c: Unit) { 48 <= c <= 57 || c == 43 || c == 45 || c == 46 || c == 101 }

  type NumberText = t: Text | t != [] && forall i :: 0 <= i < |t| ==> NumberUnit(t[i]) witness [48]

  /** A JavaScript value as the printer meets it. `Undefined` is a field declared without a value. */
  datatype Json =
    | Undefined
    | Null
    | Bool(b: bool)
    | Number(digits: NumberText)
    | Str(s: Text)
    | Arr(elems: seq<Json>)
    | Obj(fields: seq<Field>)

  datatype Field = Field(key: Text, value: Json)

  const QUOTE: Unit := 34
  const BACKSLASH: Unit := 92
  const COMMA: Unit := 44
  const COLON: Unit := 58
  const OPEN_LIST: Unit := 91
  const CLOSE_LIST: Unit := 93
  const OPEN_OBJECT: Unit := 123
  const CLOSE_OBJECT: Unit := 125

  // ----- strings --------------------------------------------------------------------------

  function HexDigit(n: nat): Unit
    requires n < 16
  {
    if n < 10 then 48 + n else 87 + n
  }

  /** The letter of a two-character escape, for the units that have one. */
  function ShortEscape(c: Unit): Option<Unit>
  {
    if c == 8 then Some(98) else if c == 9 then Some(116) else if c == 10 then Some(110)
    else if c == 12 then Some(102) else if c == 13 then Some(114)
    else if c == QUOTE then Some(QUOTE) else if c == BACKSLASH then Some(BACKSLASH)
    else None
  }

  function LongEscape(c: Unit): Text
  {
    [BACKSLASH, 117, HexDigit(c / 4096), HexDigit(c / 256 % 16), HexDigit(c / 16 % 16), HexDigit(c % 16)]
  }

  predicate HighSurrogate(c: Unit) { 0xD800 <= c < 0xDC00 }

  predicate LowSurrogate(c: Unit) { 0xDC00 <= c < 0xE000 }

  function EscapeUnit(c: Unit): Text
  {
    match ShortEscape(c)
    case Some(letter) => [BACKSLASH, letter]
    case None =>
      if c < 32 || HighSurrogate(c) || LowSurrogate(c) then LongEscape(c) else [c]
  }

  /** The inside of a quoted string: a surrogate pair is printed as it is, a lone half is escaped. */
  function Escape(s: Text): Text
  {
    if s == [] then []
    else if |s| >= 2 && HighSurrogate(s[0]) && LowSurrogate(s[1]) then [s[0], s[1]] + Escape(s[2..])
    else EscapeUnit(s[0]) + Escape(s[1..])
  }

  function Quoted(s: Text): Text { [QUOTE] + Escape(s) + [QUOTE] }

  // ----- the printer ----------------------------------------------------------------------

  predicate UnitLt(a: Unit, b: Unit) { a < b }

  predicate KeyLe(a: Text, b: Text) { LexLe(UnitLt, a, b) }

  /** A field with its value already printed. */
  datatype Printed = Printed(key: Text, text: Text)

  predicate PrintedLe(a: Printed, b: Printed) { KeyLe(a.key, b.key) }

  function Canonical(v: Json): Text
    decreases v
  {
    match v
    case Undefined => [117, 110, 100, 101, 102, 105, 110, 101, 100]
    case Null => [110, 117, 108, 108]
    case Bool(b) => if b then [116, 114, 117, 101] else [102, 97, 108, 115, 101]
    case Number(digits) => digits
    case Str(s) => Quoted(s)
    case Arr(elems) => [OPEN_LIST] + Joined(ElementTexts(elems)) + [CLOSE_LIST]
    case Obj(fields) => [OPEN_OBJECT] + Joined(FieldTexts(SortBy(PrintedLe, PrintFields(fields)))) + [CLOSE_OBJECT]
  }

  /** Inside a list an undefined element prints as nothing. */
  function ElementTexts(elems: seq<Json>): (r: seq<Text>)
    ensures |r| == |elems|
    decreases elems
  {
    if elems == [] then []
    else [if elems[0].Undefined? then [] else Canonical(elems[0])] + ElementTexts(elems[1..])
  }

  function PrintFields(fields: seq<Field>): (r: seq<Printed>)
    ensures |r| == |fields|
    decreases fields
  {
    if fields == [] then []
    else [Printed(fields[0].key, Canonical(fields[0].value))] + PrintFields(fields[1..])
  }

  function FieldTexts(printed: seq<Printed>): (r: seq<Text>)
    ensures |r| == |printed| && forall i :: 0 <= i < |r| ==> r[i] == Quoted(printed[i].key) + [COLON] + printed[i].text
  {
    seq(|printed|, i requires 0 <= i < |printed| => Quoted(printed[i].key) + [COLON] + printed[i].text)
  }

  function Joined(texts: seq<Text>): Text
  {
    if texts == [] then [] else texts[0] + Tails(texts[1..])
  }

  function Tails(texts: seq<Text>): Text
  {
    if texts == [] then [] else [COMMA] + texts[0] + Tails(texts[1..])
  }

  // ----- reading a string back ------------------------------------------------------------

  function HexValue(c: Unit): int { if c <= 57 then c - 48 else c - 87 }

  function ShortMeaning(letter: Unit): Unit
  {
    if letter == 98 then 8 else if letter == 116 then 9 else if letter == 110 then 10
    else if letter == 102 then 12 else if letter == 114 then 13 else letter
  }

  /** The string a quoted text starts with, and what follows its closing quote. */
  function ReadString(t: Text): Option<(Text, Text)>
  {
    if t == [] then None
    else if t[0] == QUOTE then Some(([], t[1..]))
    else
      var (c, n) := ReadUnit(t);
      match ReadString(t[n..])
      case None => None
      case Some((s, rest)) => Some(([c] + s, rest))
  }

  function ReadUnit(t: Text): (r: (Unit, nat))
    requires t != []
    ensures 1 <= r.1 <= |t|
  {
    if t[0] == BACKSLASH && |t| >= 6 && t[1] == 117 then
      var c := HexValue(t[2]) * 4096 + HexValue(t[3]) * 256 + HexValue(t[4]) * 16 + HexValue(t[5]);
      (if 0 <= c < 0x10000 then c else 0, 6)
    else if t[0] == BACKSLASH && |t| >= 2 then (ShortMeaning(t[1]), 2)
    else (t[0], 1)
  }

  lemma HexRoundTrip(c: Unit)
    ensures var t := LongEscape(c);
            HexValue(t[2]) * 4096 + HexValue(t[3]) * 256 + HexValue(t[4]) * 16 + HexValue(t[5]) == c
  {
    assert c == c / 16 * 16 + c % 16;
    assert c / 16 == c / 256 * 16 + c / 16 % 16;
    assert c / 256 == c / 4096 * 16 + c / 256 % 16;
  }

  lemma UnitReadsBack(c: Unit, rest: Text)
    ensures ReadUnit(EscapeUnit(c) + rest) == (c, |EscapeUnit(c)|)
    ensures EscapeUnit(c)[0] != QUOTE
    ensures (EscapeUnit(c) + rest)[|EscapeUnit(c)|..] == rest
  {
    HexRoundTrip(c);
  }

  lemma ReadOne(c: Unit, e: Text, u: Text, s: Text, rest: Text)
    requires e != [] && e[0] != QUOTE && ReadUnit(e + u) == (c, |e|)
    requires ReadString(u) == Some((s, rest))
    ensures ReadString(e + u) == Some(([c] + s, rest))
  {
    assert (e + u)[|e|..] == u;
  }

  lemma ReadRaw(c: Unit, u: Text, s: Text, rest: Text)
    requires c != QUOTE && c != BACKSLASH && ReadString(u) == Some((s, rest))
    ensures ReadString([c] + u) == Some(([c] + s, rest))
  {
    ReadOne(c, [c], u, s, rest);
  }

  lemma PairReadsBack(s: Text, u: Text, rest: Text)
    requires |s| >= 2 && HighSurrogate(s[0]) && LowSurrogate(s[1]) && ReadString(u) == Some((s[2..], rest))
    ensures ReadString([s[0], s[1]] + u) == Some((s, rest))
  {
    ReadRaw(s[1], u, s[2..], rest);
    ReadRaw(s[0], [s[1]] + u, [s[1]] + s[2..], rest);
    assert [s[0], s[1]] + u == [s[0]] + ([s[1]] + u);
    assert [s[0]] + ([s[1]] + s[2..]) == s;
  }

  lemma SingleReadsBack(s: Text, u: Text, rest: Text)
    requires s != [] && ReadString(u) == Some((s[1..], rest))
    ensures ReadString(EscapeUnit(s[0]) + u) == Some((s, rest))
  {
    UnitReadsBack(s[0], u);
    ReadOne(s[0], EscapeUnit(s[0]), u, s[1..], rest);
    assert [s[0]] + s[1..] == s;
  }

  /** Whatever a string contains, its quoted form reads back to it and to nothing more. */
  lemma {:induction false} StringReadsBack(s: Text, rest: Text)
    ensures ReadString(Escape(s) + ([QUOTE] + rest)) == Some((s, rest))
  {
    var close := [QUOTE] + rest;
    if s == [] {
      assert Escape(s) + close == close && close[1..] == rest;
    } else if |s| >= 2 && HighSurrogate(s[0]) && LowSurrogate(s[1]) {
      StringReadsBack(s[2..], rest);
      PairReadsBack(s, Escape(s[2..]) + close, rest);
      ConcatAssociates([s[0], s[1]], Escape(s[2..]), close);
    } else {
      StringReadsBack(s[1..], rest);
      SingleReadsBack(s, Escape(s[1..]) + close, rest);
      ConcatAssociates(EscapeUnit(s[0]), Escape(s[1..]), close);
    }
  }

  lemma QuotedSplits(s: Text, rest: Text)
    ensures (Quoted(s) + rest)[1..] == Escape(s) + ([QUOTE] + rest)
  {
  }

  lemma QuotedPrefix(a: Text, b: Text, x: Text, y: Text)
    requires Quoted(a) + x == Quoted(b) + y
    ensures a == b && x == y
  {
    StringReadsBack(a, x);
    StringReadsBack(b, y);
    QuotedSplits(a, x);
    QuotedSplits(b, y);
  }

  // ----- equality up to key order ---------------------------------------------------------

  ghost predicate DistinctKeys(v: Json)
    decreases v
  {
    match v
    case Arr(elems) => forall i :: 0 <= i < |elems| ==> DistinctKeys(elems[i])
    case Obj(fields) =>
      && (forall i, j :: 0 <= i < j < |fields| ==> fields[i].key != fields[j].key)
      && (forall i :: 0 <= i < |fields| ==> DistinctKeys(fields[i].value))
    case _ => true
  }

  /** The same value, fields in whatever order. */
  ghost predicate Same(a: Json, b: Json)
    decreases a
  {
    match a
    case Arr(es) => b.Arr? && |es| == |b.elems| && forall i :: 0 <= i < |es| ==> Same(es[i], b.elems[i])
    case Obj(fs) =>
      && b.Obj? && |fs| == |b.fields|
      && forall i :: 0 <= i < |fs| ==> HasField(fs[i], b.fields)
    case _ => a == b
  }

  ghost predicate HasField(f: Field, gs: seq<Field>)
    decreases f
  {
    exists j :: 0 <= j < |gs| && f.key == gs[j].key && Same(f.value, gs[j].value)
  }

  /** A list of one undefined element prints like the empty list, and is the only list that does:
      `Collapse` reads it as that. */
  function Collapse(v: Json): Json
    decreases v
  {
    match v
    case Arr(elems) => if elems == [Undefined] then Arr([]) else Arr(CollapseAll(elems))
    case Obj(fields) => Obj(CollapseFields(fields))
    case _ => v
  }

  function CollapseAll(elems: seq<Json>): (r: seq<Json>)
    ensures |r| == |elems| && forall i :: 0 <= i < |elems| ==> r[i] == Collapse(elems[i])
    decreases elems
  {
    if elems == [] then [] else [Collapse(elems[0])] + CollapseAll(elems[1..])
  }

  function CollapseFields(fields: seq<Field>): (r: seq<Field>)
    ensures |r| == |fields|
    ensures forall i :: 0 <= i < |fields| ==> r[i] == Field(fields[i].key, Collapse(fields[i].value))
    decreases fields
  {
    if fields == [] then []
    else [Field(fields[0].key, Collapse(fields[0].value))] + CollapseFields(fields[1..])
  }

  /** No list in the value is exactly `[undefined]`. */
  ghost predicate Solid(v: Json)
    decreases v
  {
    match v
    case Arr(elems) => elems != [Undefined] && forall i :: 0 <= i < |elems| ==> Solid(elems[i])
    case Obj(fields) => forall i :: 0 <= i < |fields| ==> Solid(fields[i].value)
    case _ => true
  }

  lemma {:induction false} CollapsePrintsAlike(v: Json)
    ensures Canonical(Collapse(v)) == Canonical(v)
    decreases v
  {
    match v
    case Arr(elems) =>
      if elems == [Undefined] {
        assert ElementTexts(elems) == [[]] + ElementTexts([]);
        assert Joined([[]]) == [];
      } else {
        CollapseElementsAlike(elems);
      }
    case Obj(fields) => CollapseFieldsAlike(fields);
    case _ =>
  }

  lemma {:induction false} CollapseElementsAlike(elems: seq<Json>)
    ensures ElementTexts(CollapseAll(elems)) == ElementTexts(elems)
    decreases elems
  {
    if elems != [] {
      CollapsePrintsAlike(elems[0]);
      CollapseElementsAlike(elems[1..]);
    }
  }

  lemma {:induction false} CollapseFieldsAlike(fields: seq<Field>)
    ensures PrintFields(CollapseFields(fields)) == PrintFields(fields)
    decreases fields
  {
    if fields != [] {
      CollapsePrintsAlike(fields[0].value);
      CollapseFieldsAlike(fields[1..]);
    }
  }

  lemma CollapsesToOne(elems: seq<Json>)
    ensures CollapseAll(elems) == [Undefined] ==> |elems| == 1 && Collapse(elems[0]) == Undefined && elems == [elems[0]]
  {
  }

  lemma {:induction false} CollapseIsSolid(v: Json)
    ensures Solid(Collapse(v))
    ensures DistinctKeys(v) ==> DistinctKeys(Collapse(v))
    decreases v
  {
    match v
    case Arr(elems) =>
      forall i | 0 <= i < |elems|
        ensures Solid(Collapse(elems[i])) && (DistinctKeys(elems[i]) ==> DistinctKeys(Collapse(elems[i])))
      { CollapseIsSolid(elems[i]); }
      CollapsesToOne(elems);
    case Obj(fields) =>
      forall i | 0 <= i < |fields|
        ensures Solid(Collapse(fields[i].value))
        ensures DistinctKeys(fields[i].value) ==> DistinctKeys(Collapse(fields[i].value))
      { CollapseIsSolid(fields[i].value); }
    case _ =>
  }

  lemma {:induction false} SolidCollapsesToItself(v: Json)
    requires Solid(v)
    ensures Collapse(v) == v
    decreases v
  {
    match v
    case Arr(elems) =>
      forall i | 0 <= i < |elems| ensures Collapse(elems[i]) == elems[i] { SolidCollapsesToItself(elems[i]); }
      assert CollapseAll(elems) == elems;
    case Obj(fields) =>
      forall i | 0 <= i < |fields| ensures Collapse(fields[i].value) == fields[i].value {
        SolidCollapsesToItself(fields[i].value);
      }
      assert CollapseFields(fields) == fields;
    case _ =>
  }

  // ----- sorted fields --------------------------------------------------------------------

  predicate FieldLe(a: Field, b: Field) { KeyLe(a.key, b.key) }

  function Keys(fields: seq<Field>): (r: seq<Text>)
    ensures |r| == |fields| && forall i :: 0 <= i < |fields| ==> r[i] == fields[i].key
  {
    seq(|fields|, i requires 0 <= i < |fields| => fields[i].key)
  }

  lemma KeyLeTotalOrder()
    ensures TotalOrder(KeyLe) && TotalPreorder(FieldLe)
  {
    forall a: Text, b: Text
      ensures KeyLe(a, b) || KeyLe(b, a)
      ensures KeyLe(a, b) && KeyLe(b, a) ==> a == b
    { LexTotal(UnitLt, a, b); }
    forall a: Text, b: Text, c: Text | KeyLe(a, b) && KeyLe(b, c) ensures KeyLe(a, c) {
      LexTransitive(UnitLt, a, b, c);
    }
  }

  lemma {:induction false} InsertPrints(f: Field, fields: seq<Field>)
    ensures PrintFields(Insert(FieldLe, f, fields))
            == Insert(PrintedLe, Printed(f.key, Canonical(f.value)), PrintFields(fields))
  {
    if fields != [] && !FieldLe(f, fields[0]) { InsertPrints(f, fields[1..]); }
  }

  /** Sorting the printed fields is printing the sorted fields. */
  lemma {:induction false} SortPrints(fields: seq<Field>)
    ensures SortBy(PrintedLe, PrintFields(fields)) == PrintFields(SortBy(FieldLe, fields))
  {
    if fields != [] {
      SortPrints(fields[1..]);
      InsertPrints(fields[0], SortBy(FieldLe, fields[1..]));
    }
  }

  /** The text of some fields in their given order. */
  function FieldList(fields: seq<Field>): seq<Text> { FieldTexts(PrintFields(fields)) }

  lemma CanonicalObject(fields: seq<Field>)
    ensures Canonical(Obj(fields)) == [OPEN_OBJECT] + Joined(FieldList(SortBy(FieldLe, fields))) + [CLOSE_OBJECT]
  {
    SortPrints(fields);
  }

  // ----- unique decodability --------------------------------------------------------------

  /** What can follow a value: nothing, a comma, or the close of a list or an object. */
  predicate Stop(x: Text) { x == [] || x[0] == COMMA || x[0] == CLOSE_LIST || x[0] == CLOSE_OBJECT }

  /** The tail of a list or object after its first item, closed, then `x`. */
  function Rest(texts: seq<Text>, close: Unit, x: Text): Text
  {
    if texts == [] then [close] + x else [COMMA] + (texts[0] + Rest(texts[1..], close, x))
  }

  function Items(texts: seq<Text>, close: Unit, x: Text): Text
  {
    if texts == [] then [close] + x else texts[0] + Rest(texts[1..], close, x)
  }

  lemma {:induction false} RestIsTails(texts: seq<Text>, close: Unit, x: Text)
    ensures Rest(texts, close, x) == Tails(texts) + ([close] + x)
  {
    if texts == [] {
      assert [] + ([close] + x) == [close] + x;
    } else {
      RestIsTails(texts[1..], close, x);
      ConcatAssociates(texts[0], Tails(texts[1..]), [close] + x);
      ConcatAssociates([COMMA] + texts[0], Tails(texts[1..]), [close] + x);
      ConcatAssociates([COMMA], texts[0], Rest(texts[1..], close, x));
    }
  }

  lemma EnclosedItems(open: Unit, texts: seq<Text>, close: Unit, x: Text)
    ensures [open] + Joined(texts) + [close] + x == [open] + Items(texts, close, x)
  {
    ConcatAssociates([open] + Joined(texts), [close], x);
    ConcatAssociates([open], Joined(texts), [close] + x);
    if texts == [] {
      assert [] + ([close] + x) == [close] + x;
    } else {
      RestIsTails(texts[1..], close, x);
      ConcatAssociates(texts[0], Tails(texts[1..]), [close] + x);
    }
  }

  lemma SameTail(c: Unit, d: Unit, u: Text, v: Text)
    requires [c] + u == [d] + v
    ensures c == d && u == v
  {
    assert ([c] + u)[1..] == u && ([d] + v)[1..] == v;
    assert ([c] + u)[0] == c && ([d] + v)[0] == d;
  }

  lemma NumberGoesOn(m: Text, x: Text)
    requires m != [] && NumberUnit(m[0])
    ensures !Stop(m + x)
  {
    assert (m + x)[0] == m[0];
  }

  lemma {:induction false} NumberPrefix(m: Text, n: Text, x: Text, y: Text)
    requires forall i :: 0 <= i < |m| ==> NumberUnit(m[i])
    requires forall i :: 0 <= i < |n| ==> NumberUnit(n[i])
    requires Stop(x) && Stop(y) && m + x == n + y
    ensures m == n && x == y
  {
    if m == [] {
      assert m + x == x;
      if n != [] {
        NumberGoesOn(n, y);
        assert false;
      }
      assert n + y == y;
    } else if n == [] {
      assert n + y == y;
      NumberGoesOn(m, x);
      assert false;
    } else {
      assert m + x == [m[0]] + (m[1..] + x) && n + y == [n[0]] + (n[1..] + y);
      SameTail(m[0], n[0], m[1..] + x, n[1..] + y);
      NumberPrefix(m[1..], n[1..], x, y);
      SameHeadAndTail(m, n);
    }
  }

  /** The first unit of a printed value tells its kind, and is never one that ends a value. */
  lemma FirstUnit(v: Json)
    ensures Canonical(v) != [] && !Stop(Canonical(v)) && Canonical(v)[0] != COLON
    ensures match v
            case Undefined => Canonical(v)[0] == 117
            case Null => Canonical(v)[0] == 110
            case Bool(b) => Canonical(v)[0] == if b then 116 else 102
            case Number(_) => NumberUnit(Canonical(v)[0])
            case Str(_) => Canonical(v)[0] == QUOTE
            case Arr(_) => Canonical(v)[0] == OPEN_LIST
            case Obj(_) => Canonical(v)[0] == OPEN_OBJECT
  {
    match v
    case Number(digits) => assert NumberUnit(digits[0]);
    case Obj(fields) => CanonicalObject(fields);
    case _ =>
  }

  lemma ValueGoesOn(v: Json, x: Text)
    ensures Canonical(v) + x != [] && !Stop(Canonical(v) + x)
  {
    FirstUnit(v);
    assert (Canonical(v) + x)[0] == Canonical(v)[0];
  }

  lemma SameKind(a: Json, b: Json, x: Text, y: Text)
    requires Canonical(a) + x == Canonical(b) + y
    ensures match a
            case Undefined => b.Undefined?
            case Null => b.Null?
            case Bool(v) => b == a
            case Number(_) => b.Number?
            case Str(_) => b.Str?
            case Arr(_) => b.Arr?
            case Obj(_) => b.Obj?
  {
    FirstUnit(a);
    FirstUnit(b);
    assert (Canonical(a) + x)[0] == Canonical(a)[0];
    assert (Canonical(b) + y)[0] == Canonical(b)[0];
  }

  lemma SamePrefix(t: Text, x: Text, y: Text)
    requires t + x == t + y
    ensures x == y
  {
    assert (t + x)[|t|..] == x && (t + y)[|t|..] == y;
  }

  function ElementText(v: Json): Text { if v.Undefined? then [] else Canonical(v) }

  lemma ElementTextsSplit(elems: seq<Json>)
    requires elems != []
    ensures ElementTexts(elems) == [ElementText(elems[0])] + ElementTexts(elems[1..])
    ensures ElementTexts(elems)[0] == ElementText(elems[0])
    ensures ElementTexts(elems)[1..] == ElementTexts(elems[1..])
  {
  }

  /** Values whose print determines them. */
  ghost predicate Printable(v: Json) { Solid(v) && DistinctKeys(v) }

  ghost predicate AllPrintable(elems: seq<Json>) { forall i :: 0 <= i < |elems| ==> Printable(elems[i]) }

  lemma RestStops(texts: seq<Text>, close: Unit, x: Text)
    requires close == CLOSE_LIST || close == CLOSE_OBJECT
    ensures Stop(Rest(texts, close, x)) && Rest(texts, close, x) != []
    ensures Rest(texts, close, x)[0] == if texts == [] then close else COMMA
  {
  }

  /** No printed value is a proper prefix of another where a value may end: two texts that agree
      come from the same value up to key order, and leave the same remainder. */
  lemma {:induction false} CanonicalPrefix(a: Json, b: Json, x: Text, y: Text)
    requires Printable(a) && Printable(b) && Stop(x) && Stop(y)
    requires Canonical(a) + x == Canonical(b) + y
    ensures Same(a, b) && x == y
    decreases a, 1, 0
  {
    SameKind(a, b, x, y);
    match a
    case Number(digits) => NumberPrefix(digits, b.digits, x, y);
    case Str(s) => QuotedPrefix(s, b.s, x, y);
    case Arr(es) =>
      var ts, us := ElementTexts(es), ElementTexts(b.elems);
      EnclosedItems(OPEN_LIST, ts, CLOSE_LIST, x);
      EnclosedItems(OPEN_LIST, us, CLOSE_LIST, y);
      SameTail(OPEN_LIST, OPEN_LIST, Items(ts, CLOSE_LIST, x), Items(us, CLOSE_LIST, y));
      ElementsPrefix(a, es, b.elems, x, y);
    case Obj(fs) =>
      var ss, ts := SortBy(FieldLe, fs), SortBy(FieldLe, b.fields);
      CanonicalObject(fs);
      CanonicalObject(b.fields);
      EnclosedItems(OPEN_OBJECT, FieldList(ss), CLOSE_OBJECT, x);
      EnclosedItems(OPEN_OBJECT, FieldList(ts), CLOSE_OBJECT, y);
      SameTail(OPEN_OBJECT, OPEN_OBJECT, Items(FieldList(ss), CLOSE_OBJECT, x), Items(FieldList(ts), CLOSE_OBJECT, y));
      SameMembers(fs, ss);
      SameMembers(b.fields, ts);
      FieldsBelow(a, ss);
      FieldsPrintable(b, ts);
      FieldsPrefix(a, ss, ts, x, y);
      AlignedFieldsAreSame(a, b, ss, ts);
    case _ => SamePrefix(Canonical(a), x, y);
  }

  lemma FieldsBelow(a: Json, ss: seq<Field>)
    requires a.Obj? && Printable(a) && forall f :: f in ss ==> f in a.fields
    ensures forall i :: 0 <= i < |ss| ==> ss[i].value < a && Printable(ss[i].value)
  {
    forall i | 0 <= i < |ss| ensures ss[i].value < a && Printable(ss[i].value) {
      assert ss[i] in a.fields;
      var k :| 0 <= k < |a.fields| && a.fields[k] == ss[i];
    }
  }

  lemma FieldsPrintable(a: Json, ss: seq<Field>)
    requires a.Obj? && Printable(a) && forall f :: f in ss ==> f in a.fields
    ensures forall i :: 0 <= i < |ss| ==> Printable(ss[i].value)
  {
    FieldsBelow(a, ss);
  }

  /** Fields that agree in sorted order agree in any order. */
  lemma AlignedFieldsAreSame(a: Json, b: Json, ss: seq<Field>, ts: seq<Field>)
    requires a.Obj? && b.Obj?
    requires (forall f :: f in a.fields ==> f in ss) && (forall f :: f in ts ==> f in b.fields)
    requires |a.fields| == |ss| == |ts| == |b.fields|
    requires forall i :: 0 <= i < |ss| ==> ss[i].key == ts[i].key && Same(ss[i].value, ts[i].value)
    ensures Same(a, b)
  {
    forall i | 0 <= i < |a.fields| ensures HasField(a.fields[i], b.fields) {
      assert a.fields[i] in ss;
      var k :| 0 <= k < |ss| && ss[k] == a.fields[i];
      assert ts[k] in b.fields;
      var j :| 0 <= j < |b.fields| && b.fields[j] == ts[k];
    }
  }

  lemma {:induction false} ElementsPrefix(outer: Json, es: seq<Json>, fs: seq<Json>, x: Text, y: Text)
    requires AllPrintable(es) && AllPrintable(fs) && es != [Undefined] && fs != [Undefined]
    requires forall i :: 0 <= i < |es| ==> es[i] < outer
    requires Items(ElementTexts(es), CLOSE_LIST, x) == Items(ElementTexts(fs), CLOSE_LIST, y)
    ensures |es| == |fs| && (forall i :: 0 <= i < |es| ==> Same(es[i], fs[i])) && x == y
    decreases outer, 0, |es| + 1
  {
    if es == [] {
      if fs == [] {
        SameTail(CLOSE_LIST, CLOSE_LIST, x, y);
      } else {
        FirstItem(fs, y);
        assert false;
      }
    } else if fs == [] {
      FirstItem(es, x);
      assert false;
    } else {
      ElementTextsSplit(es);
      ElementTextsSplit(fs);
      MoreElements(outer, es, fs, x, y);
    }
  }

  /** A list that is neither empty nor `[undefined]` does not begin with its close. */
  lemma FirstItem(es: seq<Json>, x: Text)
    requires es != [] && es != [Undefined]
    ensures Items(ElementTexts(es), CLOSE_LIST, x) != [] && Items(ElementTexts(es), CLOSE_LIST, x)[0] != CLOSE_LIST
  {
    ElementTextsSplit(es);
    var rest := Rest(ElementTexts(es[1..]), CLOSE_LIST, x);
    RestStops(ElementTexts(es[1..]), CLOSE_LIST, x);
    if es[0].Undefined? {
      assert es[1..] != [] by { assert es == [es[0]] + es[1..]; }
      assert [] + rest == rest;
    } else {
      FirstUnit(es[0]);
      assert (Canonical(es[0]) + rest)[0] == Canonical(es[0])[0];
    }
  }

  lemma {:induction false} MoreElements(outer: Json, es: seq<Json>, fs: seq<Json>, x: Text, y: Text)
    requires es != [] && fs != [] && AllPrintable(es) && AllPrintable(fs)
    requires forall i :: 0 <= i < |es| ==> es[i] < outer
    requires ElementText(es[0]) + Rest(ElementTexts(es[1..]), CLOSE_LIST, x)
          == ElementText(fs[0]) + Rest(ElementTexts(fs[1..]), CLOSE_LIST, y)
    ensures |es| == |fs| && (forall i :: 0 <= i < |es| ==> Same(es[i], fs[i])) && x == y
    decreases outer, 0, |es|
  {
    var es', fs' := es[1..], fs[1..];
    var u, v := Rest(ElementTexts(es'), CLOSE_LIST, x), Rest(ElementTexts(fs'), CLOSE_LIST, y);
    RestStops(ElementTexts(es'), CLOSE_LIST, x);
    RestStops(ElementTexts(fs'), CLOSE_LIST, y);
    ElementPrefix(outer, es[0], fs[0], u, v);
    if es' == [] {
      SameTail(CLOSE_LIST, v[0], x, v[1..]);
    } else {
      assert fs' != [];
      ElementTextsSplit(es');
      ElementTextsSplit(fs');
      SameTail(COMMA, COMMA, ElementText(es'[0]) + Rest(ElementTexts(es'[1..]), CLOSE_LIST, x),
                             ElementText(fs'[0]) + Rest(ElementTexts(fs'[1..]), CLOSE_LIST, y));
      MoreElements(outer, es', fs', x, y);
    }
    forall i | 0 <= i < |es| ensures Same(es[i], fs[i]) {
      if i > 0 { assert es[i] == es'[i - 1] && fs[i] == fs'[i - 1]; }
    }
  }

  lemma {:induction false} ElementPrefix(outer: Json, e: Json, f: Json, u: Text, v: Text)
    requires Printable(e) && Printable(f) && e < outer
    requires Stop(u) && u != [] && Stop(v) && v != []
    requires ElementText(e) + u == ElementText(f) + v
    ensures Same(e, f) && u == v
    decreases outer, 0, 0
  {
    assert [] + u == u && [] + v == v;
    if e.Undefined? && f.Undefined? {
    } else if e.Undefined? {
      ValueGoesOn(f, v);
      assert false;
    } else if f.Undefined? {
      ValueGoesOn(e, u);
      assert false;
    } else {
      CanonicalPrefix(e, f, u, v);
    }
  }

  lemma FieldListSplit(fs: seq<Field>)
    requires fs != []
    ensures FieldList(fs)[0] == Quoted(fs[0].key) + [COLON] + Canonical(fs[0].value)
    ensures FieldList(fs)[1..] == FieldList(fs[1..])
  {
  }

  lemma FirstField(fs: seq<Field>, x: Text)
    requires fs != []
    ensures Items(FieldList(fs), CLOSE_OBJECT, x) != [] && Items(FieldList(fs), CLOSE_OBJECT, x)[0] == QUOTE
  {
    FieldListSplit(fs);
    var t, u := FieldList(fs)[0], Rest(FieldList(fs)[1..], CLOSE_OBJECT, x);
    assert t[0] == QUOTE && (t + u)[0] == t[0];
  }

  lemma {:induction false} FieldsPrefix(outer: Json, fs: seq<Field>, gs: seq<Field>, x: Text, y: Text)
    requires forall i :: 0 <= i < |fs| ==> fs[i].value < outer && Printable(fs[i].value)
    requires forall i :: 0 <= i < |gs| ==> Printable(gs[i].value)
    requires Items(FieldList(fs), CLOSE_OBJECT, x) == Items(FieldList(gs), CLOSE_OBJECT, y)
    ensures |fs| == |gs| && x == y
    ensures forall i :: 0 <= i < |fs| ==> fs[i].key == gs[i].key && Same(fs[i].value, gs[i].value)
    decreases outer, 0, |fs| + 1
  {
    if fs == [] && gs == [] {
      SameTail(CLOSE_OBJECT, CLOSE_OBJECT, x, y);
    } else if fs == [] {
      FirstField(gs, y);
      assert false;
    } else if gs == [] {
      FirstField(fs, x);
      assert false;
    } else {
      FieldListSplit(fs);
      FieldListSplit(gs);
      MoreFields(outer, fs, gs, x, y);
    }
  }

  lemma {:induction false} MoreFields(outer: Json, fs: seq<Field>, gs: seq<Field>, x: Text, y: Text)
    requires fs != [] && gs != []
    requires forall i :: 0 <= i < |fs| ==> fs[i].value < outer && Printable(fs[i].value)
    requires forall i :: 0 <= i < |gs| ==> Printable(gs[i].value)
    requires FieldList(fs)[0] + Rest(FieldList(fs[1..]), CLOSE_OBJECT, x)
          == FieldList(gs)[0] + Rest(FieldList(gs[1..]), CLOSE_OBJECT, y)
    ensures |fs| == |gs| && x == y
    ensures forall i :: 0 <= i < |fs| ==> fs[i].key == gs[i].key && Same(fs[i].value, gs[i].value)
    decreases outer, 0, |fs|
  {
    var fs', gs' := fs[1..], gs[1..];
    var u, v := Rest(FieldList(fs'), CLOSE_OBJECT, x), Rest(FieldList(gs'), CLOSE_OBJECT, y);
    RestStops(FieldList(fs'), CLOSE_OBJECT, x);
    RestStops(FieldList(gs'), CLOSE_OBJECT, y);
    FieldListSplit(fs);
    FieldListSplit(gs);
    FieldPrefix(outer, fs[0], gs[0], u, v);
    if fs' == [] {
      SameTail(CLOSE_OBJECT, v[0], x, v[1..]);
    } else {
      assert gs' != [];
      SameTail(COMMA, COMMA, FieldList(fs')[0] + Rest(FieldList(fs')[1..], CLOSE_OBJECT, x),
                             FieldList(gs')[0] + Rest(FieldList(gs')[1..], CLOSE_OBJECT, y));
      FieldListSplit(fs');
      FieldListSplit(gs');
      MoreFields(outer, fs', gs', x, y);
    }
    forall i | 0 <= i < |fs| ensures fs[i].key == gs[i].key && Same(fs[i].value, gs[i].value) {
      if i > 0 { assert fs[i] == fs'[i - 1] && gs[i] == gs'[i - 1]; }
    }
  }

  lemma {:induction false} FieldPrefix(outer: Json, f: Field, g: Field, u: Text, v: Text)
    requires Printable(f.value) && Printable(g.value) && f.value < outer && Stop(u) && Stop(v)
    requires Quoted(f.key) + [COLON] + Canonical(f.value) + u == Quoted(g.key) + [COLON] + Canonical(g.value) + v
    ensures f.key == g.key && Same(f.value, g.value) && u == v
    decreases outer, 0, 0
  {
    var a, b := Canonical(f.value) + u, Canonical(g.value) + v;
    ConcatAssociates(Quoted(f.key) + [COLON], Canonical(f.value), u);
    ConcatAssociates(Quoted(g.key) + [COLON], Canonical(g.value), v);
    ConcatAssociates(Quoted(f.key), [COLON], a);
    ConcatAssociates(Quoted(g.key), [COLON], b);
    QuotedPrefix(f.key, g.key, [COLON] + a, [COLON] + b);
    SameTail(COLON, COLON, a, b);
    CanonicalPrefix(f.value, g.value, u, v);
  }

  // ----- equal values print equally -------------------------------------------------------

  lemma KeysDistinct(v: Json)
    requires v.Obj? && DistinctKeys(v)
    ensures Distinct(Keys(v.fields))
  {
  }

  lemma KeysTail(fields: seq<Field>)
    requires fields != []
    ensures Keys(fields)[1..] == Keys(fields[1..])
  {
  }

  lemma KeysCons(f: Field, fields: seq<Field>)
    ensures Keys([f] + fields) == [f.key] + Keys(fields)
  {
  }

  lemma {:induction false} InsertKeys(f: Field, fields: seq<Field>)
    ensures Keys(Insert(FieldLe, f, fields)) == Insert(KeyLe, f.key, Keys(fields))
  {
    if fields == [] || FieldLe(f, fields[0]) {
      InsertBefore(FieldLe, f, fields);
      InsertBefore(KeyLe, f.key, Keys(fields));
      KeysCons(f, fields);
    } else {
      var head, rest := fields[0], fields[1..];
      assert fields == [head] + rest;
      InsertKeys(f, rest);
      KeysCons(head, rest);
      InsertAfterHead(FieldLe, f, head, rest);
      InsertAfterHead(KeyLe, f.key, head.key, Keys(rest));
      KeysCons(head, Insert(FieldLe, f, rest));
    }
  }

  lemma {:induction false} SortKeys(fields: seq<Field>)
    ensures Keys(SortBy(FieldLe, fields)) == SortBy(KeyLe, Keys(fields))
  {
    if fields != [] {
      SortKeys(fields[1..]);
      InsertKeys(fields[0], SortBy(FieldLe, fields[1..]));
      KeysTail(fields);
    }
  }

  /** Distinct values, as many of them, all found among others: the same collection. */
  lemma {:induction false} SameCollection<T(!new)>(s: seq<T>, t: seq<T>)
    requires Distinct(s) && Distinct(t) && |s| == |t| && forall x :: x in s ==> x in t
    ensures multiset(s) == multiset(t)
  {
    if s == [] {
      assert t == [];
    } else {
      assert s[0] in t;
      var i :| 0 <= i < |t| && t[i] == s[0];
      var rest := t[..i] + t[i + 1..];
      RemoveAt(t, i);
      MultisetOfTail(s);
      DistinctWithout(t, i);
      forall x | x in s[1..] ensures x in rest {
        assert x in t && x != s[0];
      }
      SameCollection(s[1..], rest);
      assert multiset(s) == multiset(s[1..]) + multiset{s[0]};
      assert t[i] in multiset(t);
      assert multiset(t) == multiset(rest) + multiset{t[i]};
    }
  }

  lemma DistinctWithout<T>(t: seq<T>, i: nat)
    requires Distinct(t) && i < |t|
    ensures Distinct(t[..i] + t[i + 1..])
    ensures forall x :: x in t[..i] + t[i + 1..] <==> x in t && x != t[i]
  {
    var r := t[..i] + t[i + 1..];
    forall x ensures x in r <==> x in t && x != t[i] {
      if x in t && x != t[i] {
        var k :| 0 <= k < |t| && t[k] == x;
        assert r[if k < i then k else k - 1] == x;
      }
    }
  }

  /** Equal objects list the same keys once sorted, each with an equal value. */
  lemma SameFieldsAlign(a: Json, b: Json)
    requires a.Obj? && b.Obj? && DistinctKeys(a) && DistinctKeys(b) && Same(a, b)
    ensures var ss, ts := SortBy(FieldLe, a.fields), SortBy(FieldLe, b.fields);
            |ss| == |ts| && forall i :: 0 <= i < |ss| ==> ss[i].key == ts[i].key && Same(ss[i].value, ts[i].value)
  {
    var ss, ts := SortBy(FieldLe, a.fields), SortBy(FieldLe, b.fields);
    SameMembers(a.fields, ss);
    SameMembers(b.fields, ts);
    SortedKeysAgree(a, b);
    forall i | 0 <= i < |ss| ensures ss[i].key == ts[i].key && Same(ss[i].value, ts[i].value) {
      assert ss[i].key == Keys(ss)[i] == Keys(ts)[i] == ts[i].key;
      assert ss[i] in a.fields && ts[i] in b.fields;
      MatchingField(a, b, ss[i], ts[i]);
    }
  }

  lemma MatchingField(a: Json, b: Json, f: Field, g: Field)
    requires a.Obj? && b.Obj? && DistinctKeys(b) && Same(a, b)
    requires f in a.fields && g in b.fields && f.key == g.key
    ensures Same(f.value, g.value)
  {
    var i :| 0 <= i < |a.fields| && a.fields[i] == f;
    var j :| 0 <= j < |b.fields| && a.fields[i].key == b.fields[j].key && Same(a.fields[i].value, b.fields[j].value);
    var k :| 0 <= k < |b.fields| && b.fields[k] == g;
    assert j == k;
  }

  lemma SortedKeysAgree(a: Json, b: Json)
    requires a.Obj? && b.Obj? && DistinctKeys(a) && DistinctKeys(b) && Same(a, b)
    ensures Keys(SortBy(FieldLe, a.fields)) == Keys(SortBy(FieldLe, b.fields))
  {
    var ks, ls := Keys(a.fields), Keys(b.fields);
    KeysDistinct(a);
    KeysDistinct(b);
    forall k | k in ks ensures k in ls {
      var i :| 0 <= i < |ks| && ks[i] == k;
      var j :| 0 <= j < |b.fields| && a.fields[i].key == b.fields[j].key;
      assert ls[j] == k;
    }
    SameCollection(ks, ls);
    KeyLeTotalOrder();
    SortSorted(KeyLe, ks);
    SortSorted(KeyLe, ls);
    SortedUnique(KeyLe, SortBy(KeyLe, ks), SortBy(KeyLe, ls));
    SortKeys(a.fields);
    SortKeys(b.fields);
  }

  lemma {:induction false} SamePrintsAlike(a: Json, b: Json)
    requires DistinctKeys(a) && DistinctKeys(b) && Same(a, b)
    ensures Canonical(a) == Canonical(b)
    decreases a, 1, 0
  {
    match a
    case Arr(es) => ElementsPrintAlike(a, es, b.elems);
    case Obj(fs) =>
      var ss, ts := SortBy(FieldLe, fs), SortBy(FieldLe, b.fields);
      SameFieldsAlign(a, b);
      SameMembers(fs, ss);
      SameMembers(b.fields, ts);
      FieldsKeepDistinct(a, ss);
      FieldsKeepDistinct(b, ts);
      FieldsPrintAlike(a, ss, ts);
      CanonicalObject(fs);
      CanonicalObject(b.fields);
    case _ =>
  }

  lemma FieldsKeepDistinct(a: Json, ss: seq<Field>)
    requires a.Obj? && DistinctKeys(a) && forall f :: f in ss ==> f in a.fields
    ensures forall i :: 0 <= i < |ss| ==> ss[i].value < a && DistinctKeys(ss[i].value)
  {
    forall i | 0 <= i < |ss| ensures ss[i].value < a && DistinctKeys(ss[i].value) {
      assert ss[i] in a.fields;
      var k :| 0 <= k < |a.fields| && a.fields[k] == ss[i];
    }
  }

  lemma {:induction false} ElementsPrintAlike(outer: Json, es: seq<Json>, fs: seq<Json>)
    requires |es| == |fs|
    requires forall i :: 0 <= i < |es| ==>
             es[i] < outer && Same(es[i], fs[i]) && DistinctKeys(es[i]) && DistinctKeys(fs[i])
    ensures ElementTexts(es) == ElementTexts(fs)
    decreases outer, 0, |es|
  {
    if es != [] {
      SamePrintsAlike(es[0], fs[0]);
      ElementsPrintAlike(outer, es[1..], fs[1..]);
    }
  }

  lemma {:induction false} FieldsPrintAlike(outer: Json, ss: seq<Field>, ts: seq<Field>)
    requires |ss| == |ts|
    requires forall i :: 0 <= i < |ss| ==>
               && ss[i].value < outer && DistinctKeys(ss[i].value)
               && ss[i].key == ts[i].key && Same(ss[i].value, ts[i].value)
    requires forall i :: 0 <= i < |ts| ==> DistinctKeys(ts[i].value)
    ensures PrintFields(ss) == PrintFields(ts)
    decreases outer, 0, |ss|
  {
    if ss != [] {
      SamePrintsAlike(ss[0].value, ts[0].value);
      FieldsPrintAlike(outer, ss[1..], ts[1..]);
    }
  }

  /** Two values print the same text exactly when they are equal up to key order, a list of one
      undefined element counting as the empty list it prints as. */
  lemma PrintsDetermineValues(a: Json, b: Json)
    requires DistinctKeys(a) && DistinctKeys(b)
    ensures Canonical(a) == Canonical(b) <==> Same(Collapse(a), Collapse(b))
  {
    var c, d := Collapse(a), Collapse(b);
    CollapsePrintsAlike(a);
    CollapsePrintsAlike(b);
    CollapseIsSolid(a);
    CollapseIsSolid(b);
    if Canonical(a) == Canonical(b) { CanonicalPrefix(c, d, [], []); }
    if Same(c, d) { SamePrintsAlike(c, d); }
  }

  /** Without such a list the print is injective up to key order. */
  lemma InjectiveOnSolidValues(a: Json, b: Json)
    requires DistinctKeys(a) && DistinctKeys(b) && Solid(a) && Solid(b)
    ensures Canonical(a) == Canonical(b) <==> Same(a, b)
  {
    PrintsDetermineValues(a, b);
    SolidCollapsesToItself(a);
    SolidCollapsesToItself(b);
  }

  /** With one it is not. */
  lemma UndefinedElementCollides()
    ensures Canonical(Arr([Undefined])) == Canonical(Arr([]))
    ensures !Same(Arr([Undefined]), Arr([]))
  {
    CollapsePrintsAlike(Arr([Undefined]));
  }
}
