/** What the canonical printer's text means to a JSON reader. */
module JsonReader {
  // A reader of JSON text without white space, with its own codes, that takes each string in one form only: a
  // short escape where there is one, a lower-case `\u` escape for the other control units and for lone halves
  // of surrogate pairs, and every other unit as it is. The one thing it reads that JSON does not have is the
  // word `undefined`, for a field declared without a value.

  import opened Base
  import opened CanonicalJson

  // ----- the reader -----------------------------------------------------------------------

  function Nibble(u: Unit): Option<nat>
  {
    if 48 <= u <= 57 then Some(u - 48) else if 97 <= u <= 102 then Some(u - 87) else None
  }

  /** The unit that four hexadecimal digits name. */
  function Hex(t: Text): Option<Unit>
    requires |t| >= 4
  {
    var a, b, c, d := Nibble(t[0]), Nibble(t[1]), Nibble(t[2]), Nibble(t[3]);
    if a.None? || b.None? || c.None? || d.None? then None
    else
      var u := ((a.value * 16 + b.value) * 16 + c.value) * 16 + d.value;
      if u < 0x10000 then Some(u) else None
  }

  predicate High(u: Unit) { 0xD800 <= u <= 0xDBFF }

  predicate Low(u: Unit) { 0xDC00 <= u <= 0xDFFF }

  /** The unit a backslash and a letter stand for. */
  function Short(letter: Unit): Option<Unit>
  {
    if letter == 34 then Some(34) else if letter == 92 then Some(92)
    else if letter == 98 then Some(8) else if letter == 116 then Some(9) else if letter == 110 then Some(10)
    else if letter == 102 then Some(12) else if letter == 114 then Some(13)
    else None
  }

  /** Only control units without a short form, and halves of surrogate pairs, are written in digits. */
  predicate InDigits(u: Unit) { (u < 32 && u !in {8, 9, 10, 12, 13}) || High(u) || Low(u) }

  /** The rest of a string after its opening quote, and what follows its closing one. */
  function ReadRest(t: Text): (r: Option<(Text, Text)>)
    ensures r.Some? ==> |r.value.1| < |t|
    decreases |t|
  {
    if t == [] then None
    else if t[0] == 34 then Some(([], t[1..]))
    else if t[0] == 92 then
      if |t| >= 6 && t[1] == 117 then
        match Hex(t[2..6])
        case None => None
        case Some(u) =>
          var more := ReadRest(t[6..]);
          if more.None? || !InDigits(u) || (High(u) && more.value.0 != [] && Low(more.value.0[0])) then None
          else Some(([u] + more.value.0, more.value.1))
      else if |t| >= 2 && Short(t[1]).Some? then
        var more := ReadRest(t[2..]);
        if more.None? then None else Some(([Short(t[1]).value] + more.value.0, more.value.1))
      else None
    else if High(t[0]) then
      if |t| >= 2 && Low(t[1]) then
        var more := ReadRest(t[2..]);
        if more.None? then None else Some(([t[0], t[1]] + more.value.0, more.value.1))
      else None
    else if t[0] < 32 || Low(t[0]) then None
    else
      var more := ReadRest(t[1..]);
      if more.None? then None else Some(([t[0]] + more.value.0, more.value.1))
  }

  predicate Digit(u: Unit) { 48 <= u <= 57 || u == 43 || u == 45 || u == 46 || u == 101 }

  function Run(t: Text): (n: nat)
    ensures n <= |t| && (forall i :: 0 <= i < n ==> Digit(t[i])) && (n < |t| ==> !Digit(t[n]))
  {
    if t == [] || !Digit(t[0]) then 0 else 1 + Run(t[1..])
  }

  predicate Begins(t: Text, word: Text) { |word| <= |t| && t[..|word|] == word }

  /** The value a text begins with, and what follows it. */
  function Read(t: Text): (r: Option<(Json, Text)>)
    ensures r.Some? ==> |r.value.1| < |t|
    decreases |t|, 0
  {
    if t == [] then None
    else if t[0] == 91 then
      if |t| >= 2 && t[1] == 93 then Some((Arr([]), t[2..]))
      else
        var items := ReadItems(t[1..]);
        if items.None? then None else Some((Arr(items.value.0), items.value.1))
    else if t[0] == 123 then
      if |t| >= 2 && t[1] == 125 then Some((Obj([]), t[2..]))
      else
        var members := ReadMembers(t[1..]);
        if members.None? then None else Some((Obj(members.value.0), members.value.1))
    else if t[0] == 34 then
      var s := ReadRest(t[1..]);
      if s.None? then None else Some((Str(s.value.0), s.value.1))
    else if Begins(t, [110, 117, 108, 108]) then Some((Null, t[4..]))
    else if Begins(t, [116, 114, 117, 101]) then Some((Bool(true), t[4..]))
    else if Begins(t, [102, 97, 108, 115, 101]) then Some((Bool(false), t[5..]))
    else if Begins(t, [117, 110, 100, 101, 102, 105, 110, 101, 100]) then Some((Undefined, t[9..]))
    else
      var n := Run(t);
      if n == 0 then None else Some((Number(AsNumber(t[..n])), t[n..]))
  }

  function AsNumber(t: Text): (n: NumberText)
    requires t != [] && forall i :: 0 <= i < |t| ==> Digit(t[i])
    ensures n == t
  {
    assert forall i :: 0 <= i < |t| ==> NumberUnit(t[i]) by {
      forall i | 0 <= i < |t| ensures NumberUnit(t[i]) { assert Digit(t[i]); }
    }
    t
  }

  function ReadItems(t: Text): (r: Option<(seq<Json>, Text)>)
    ensures r.Some? ==> |r.value.1| < |t|
    decreases |t|, 1
  {
    var first := Read(t);
    if first.None? then None
    else
      var (v, u) := first.value;
      if u != [] && u[0] == 93 then Some(([v], u[1..]))
      else if u != [] && u[0] == 44 then
        var more := ReadItems(u[1..]);
        if more.None? then None else Some(([v] + more.value.0, more.value.1))
      else None
  }

  function ReadMember(t: Text): (r: Option<(Field, Text)>)
    ensures r.Some? ==> |r.value.1| < |t|
    decreases |t|, 0
  {
    if t == [] || t[0] != 34 then None
    else
      var key := ReadRest(t[1..]);
      if key.None? || key.value.1 == [] || key.value.1[0] != 58 then None
      else
        var v := Read(key.value.1[1..]);
        if v.None? then None else Some((Field(key.value.0, v.value.0), v.value.1))
  }

  function ReadMembers(t: Text): (r: Option<(seq<Field>, Text)>)
    ensures r.Some? ==> |r.value.1| < |t|
    decreases |t|, 1
  {
    var first := ReadMember(t);
    if first.None? then None
    else
      var (f, u) := first.value;
      if u != [] && u[0] == 125 then Some(([f], u[1..]))
      else if u != [] && u[0] == 44 then
        var more := ReadMembers(u[1..]);
        if more.None? then None else Some(([f] + more.value.0, more.value.1))
      else None
  }

  // ----- strings --------------------------------------------------------------------------

  lemma DigitReads(n: nat)
    requires n < 16
    ensures Nibble(HexDigit(n)) == Some(n)
  {
    if n < 10 { assert HexDigit(n) == 48 + n; } else { assert HexDigit(n) == 87 + n; }
  }

  lemma HexReads(a: nat, b: nat, c: nat, d: nat)
    requires a < 16 && b < 16 && c < 16 && d < 16
    ensures Hex([HexDigit(a), HexDigit(b), HexDigit(c), HexDigit(d)]) == Some(((a * 16 + b) * 16 + c) * 16 + d)
  {
    DigitReads(a);
    DigitReads(b);
    DigitReads(c);
    DigitReads(d);
  }

  lemma Nibbles(c: Unit)
    ensures ((c / 4096 * 16 + c / 256 % 16) * 16 + c / 16 % 16) * 16 + c % 16 == c
  {
    assert c == c / 16 * 16 + c % 16;
    assert c / 16 == c / 256 * 16 + c / 16 % 16;
    assert c / 256 == c / 4096 * 16 + c / 256 % 16;
  }

  lemma LongEscapeReads(c: Unit)
    ensures var e := LongEscape(c);
            |e| == 6 && e[0] == 92 && e[1] == 117 && Hex(e[2..6]) == Some(c)
  {
    HexReads(c / 4096, c / 256 % 16, c / 16 % 16, c % 16);
    Nibbles(c);
    assert LongEscape(c)[2..6]
        == [HexDigit(c / 4096), HexDigit(c / 256 % 16), HexDigit(c / 16 % 16), HexDigit(c % 16)];
  }

  lemma ReadsLong(c: Unit, u: Text, s: Text, rest: Text)
    requires ReadRest(u) == Some((s, rest)) && InDigits(c) && (High(c) && s != [] ==> !Low(s[0]))
    ensures ReadRest(LongEscape(c) + u) == Some(([c] + s, rest))
  {
    LongEscapeReads(c);
    var e := LongEscape(c);
    var t := e + u;
    assert t[6..] == u && t[2..6] == e[2..6] && t[0] == 92 && t[1] == 117;
  }

  lemma ReadsShort(c: Unit, letter: Unit, u: Text, s: Text, rest: Text)
    requires ReadRest(u) == Some((s, rest)) && letter != 117 && Short(letter) == Some(c)
    ensures ReadRest([92, letter] + u) == Some(([c] + s, rest))
  {
    var t := [92, letter] + u;
    assert t[2..] == u && t[0] == 92 && t[1] == letter;
  }

  lemma ReadsRaw(c: Unit, u: Text, s: Text, rest: Text)
    requires ReadRest(u) == Some((s, rest)) && c >= 32 && c !in {34, 92} && !High(c) && !Low(c)
    ensures ReadRest([c] + u) == Some(([c] + s, rest))
  {
    assert ([c] + u)[1..] == u;
  }

  lemma ReadsPair(c: Unit, d: Unit, u: Text, s: Text, rest: Text)
    requires ReadRest(u) == Some((s, rest)) && High(c) && Low(d)
    ensures ReadRest([c, d] + u) == Some(([c, d] + s, rest))
  {
    var t := [c, d] + u;
    assert t[2..] == u && t[0] == c && t[1] == d;
  }

  lemma ReadsUnit(c: Unit, u: Text, s: Text, rest: Text)
    requires ReadRest(u) == Some((s, rest)) && (High(c) && s != [] ==> !Low(s[0]))
    ensures ReadRest(EscapeUnit(c) + u) == Some(([c] + s, rest))
  {
    if ShortEscape(c).Some? {
      ReadsShort(c, ShortEscape(c).value, u, s, rest);
    } else if c < 32 || High(c) || Low(c) {
      ReadsLong(c, u, s, rest);
    } else {
      ReadsRaw(c, u, s, rest);
    }
  }

  lemma {:induction false} StringReads(s: Text, rest: Text)
    ensures ReadRest(Escape(s) + ([34] + rest)) == Some((s, rest))
    decreases |s|
  {
    var close := [34] + rest;
    if s == [] {
      assert Escape(s) + close == close && close[1..] == rest;
    } else if |s| >= 2 && HighSurrogate(s[0]) && LowSurrogate(s[1]) {
      StringReads(s[2..], rest);
      ReadsPair(s[0], s[1], Escape(s[2..]) + close, s[2..], rest);
      ConcatAssociates([s[0], s[1]], Escape(s[2..]), close);
      assert [s[0], s[1]] + s[2..] == s;
    } else {
      StringReads(s[1..], rest);
      ReadsUnit(s[0], Escape(s[1..]) + close, s[1..], rest);
      ConcatAssociates(EscapeUnit(s[0]), Escape(s[1..]), close);
      assert [s[0]] + s[1..] == s;
    }
  }

  lemma QuotedReads(s: Text, rest: Text)
    ensures var t := Quoted(s) + rest;
            t != [] && t[0] == 34 && ReadRest(t[1..]) == Some((s, rest))
  {
    StringReads(s, rest);
    assert (Quoted(s) + rest)[1..] == Escape(s) + ([34] + rest);
  }

  // ----- a value with its fields in key order ---------------------------------------------

  function Ordered(v: Json): Json
    decreases v
  {
    match v
    case Arr(elems) => Arr(OrderedAll(elems))
    case Obj(fields) => Obj(SortBy(FieldLe, OrderedFields(fields)))
    case _ => v
  }

  function OrderedAll(elems: seq<Json>): (r: seq<Json>)
    ensures |r| == |elems| && forall i :: 0 <= i < |elems| ==> r[i] == Ordered(elems[i])
    decreases elems
  {
    if elems == [] then [] else [Ordered(elems[0])] + OrderedAll(elems[1..])
  }

  function OrderedFields(fields: seq<Field>): (r: seq<Field>)
    ensures |r| == |fields|
    ensures forall i :: 0 <= i < |fields| ==> r[i] == Field(fields[i].key, Ordered(fields[i].value))
    decreases fields
  {
    if fields == [] then []
    else [Field(fields[0].key, Ordered(fields[0].value))] + OrderedFields(fields[1..])
  }

  lemma {:induction false} InsertOrdered(f: Field, fields: seq<Field>)
    ensures OrderedFields(Insert(FieldLe, f, fields))
            == Insert(FieldLe, Field(f.key, Ordered(f.value)), OrderedFields(fields))
  {
    if fields != [] && !FieldLe(f, fields[0]) {
      InsertOrdered(f, fields[1..]);
      assert OrderedFields(fields)[1..] == OrderedFields(fields[1..]);
    } else {
      assert ([f] + fields)[1..] == fields;
    }
  }

  lemma {:induction false} SortOrdered(fields: seq<Field>)
    ensures SortBy(FieldLe, OrderedFields(fields)) == OrderedFields(SortBy(FieldLe, fields))
  {
    if fields != [] {
      SortOrdered(fields[1..]);
      InsertOrdered(fields[0], SortBy(FieldLe, fields[1..]));
      assert OrderedFields(fields)[1..] == OrderedFields(fields[1..]);
    }
  }

  // ----- reading back ---------------------------------------------------------------------

  /** No element of a list is undefined. */
  ghost predicate Defined(v: Json)
    decreases v
  {
    match v
    case Arr(elems) => forall i :: 0 <= i < |elems| ==> !elems[i].Undefined? && Defined(elems[i])
    case Obj(fields) => forall i :: 0 <= i < |fields| ==> Defined(fields[i].value)
    case _ => true
  }

  /** What can follow a value in JSON. */
  predicate Ends(x: Text) { x == [] || x[0] in {44, 93, 125} }

  lemma NumberReads(digits: NumberText, x: Text)
    requires Ends(x)
    ensures Read(digits + x) == Some((Number(digits), x))
  {
    var t := digits + x;
    RunStops(digits, x);
    assert t[0] == digits[0] && NumberUnit(digits[0]);
    assert t[..|digits|] == digits && t[|digits|..] == x;
    NotAWord(t);
  }

  lemma NotAWord(t: Text)
    requires t != [] && Digit(t[0])
    ensures !Begins(t, [110, 117, 108, 108]) && !Begins(t, [116, 114, 117, 101])
    ensures !Begins(t, [102, 97, 108, 115, 101]) && !Begins(t, [117, 110, 100, 101, 102, 105, 110, 101, 100])
  {
    assert forall n :: 0 < n <= |t| ==> t[..n][0] == t[0];
  }

  lemma {:induction false} RunStops(digits: Text, x: Text)
    requires (forall i :: 0 <= i < |digits| ==> NumberUnit(digits[i])) && Ends(x)
    ensures Run(digits + x) == |digits|
  {
    if digits == [] {
      assert digits + x == x;
    } else {
      RunStops(digits[1..], x);
      assert (digits + x)[1..] == digits[1..] + x && (digits + x)[0] == digits[0];
    }
  }

  lemma WordReads(v: Json, x: Text)
    requires v.Undefined? || v.Null? || v.Bool?
    ensures Read(Canonical(v) + x) == Some((v, x))
  {
    var w := Canonical(v);
    var t := w + x;
    assert t[..|w|] == w && t[|w|..] == x && t[0] == w[0];
    assert forall n :: 0 < n <= |t| ==> t[..n][0] == w[0];
  }

  lemma {:induction false} ValueReads(v: Json, x: Text)
    requires Defined(v) && Ends(x)
    ensures Read(Canonical(v) + x) == Some((Ordered(v), x))
    decreases v, 1, 0
  {
    match v
    case Number(digits) => NumberReads(digits, x);
    case Str(s) => QuotedReads(s, x);
    case Arr(elems) =>
      EnclosedItems(OPEN_LIST, ElementTexts(elems), CLOSE_LIST, x);
      if elems != [] { ItemsRead(v, elems, x); }
      ListReads(elems, x);
    case Obj(fields) =>
      var sorted := SortBy(FieldLe, fields);
      CanonicalObject(fields);
      SortOrdered(fields);
      EnclosedItems(OPEN_OBJECT, FieldList(sorted), CLOSE_OBJECT, x);
      if sorted != [] {
        SameMembers(fields, sorted);
        FieldsSmaller(v, sorted);
        MembersRead(v, sorted, x);
      }
      ObjectReads(sorted, x);
    case _ => WordReads(v, x);
  }

  lemma ListReads(elems: seq<Json>, x: Text)
    requires forall i :: 0 <= i < |elems| ==> !elems[i].Undefined? && Defined(elems[i])
    requires elems != [] ==> ReadItems(Items(ElementTexts(elems), 93, x)) == Some((OrderedAll(elems), x))
    ensures Read([91] + Items(ElementTexts(elems), 93, x)) == Some((Arr(OrderedAll(elems)), x))
  {
    var items := Items(ElementTexts(elems), 93, x);
    if elems == [] {
      assert items == [93] + x;
    } else {
      FirstItem(elems, x);
    }
    OpenList(items);
  }

  lemma OpenList(items: Text)
    requires items != []
    ensures items[0] == 93 ==> Read([91] + items) == Some((Arr([]), items[1..]))
    ensures items[0] != 93 && ReadItems(items).Some? ==>
              Read([91] + items) == Some((Arr(ReadItems(items).value.0), ReadItems(items).value.1))
  {
    var t := [91] + items;
    assert t[0] == 91 && t[1] == items[0] && t[1..] == items && t[2..] == items[1..];
  }

  lemma ObjectReads(sorted: seq<Field>, x: Text)
    requires sorted != [] ==> ReadMembers(Items(FieldList(sorted), 125, x)) == Some((OrderedFields(sorted), x))
    ensures Read([123] + Items(FieldList(sorted), 125, x)) == Some((Obj(OrderedFields(sorted)), x))
  {
    var items := Items(FieldList(sorted), 125, x);
    if sorted == [] {
      assert items == [125] + x;
    } else {
      FirstField(sorted, x);
    }
    OpenObject(items);
  }

  lemma OpenObject(items: Text)
    requires items != []
    ensures items[0] == 125 ==> Read([123] + items) == Some((Obj([]), items[1..]))
    ensures items[0] != 125 && ReadMembers(items).Some? ==>
              Read([123] + items) == Some((Obj(ReadMembers(items).value.0), ReadMembers(items).value.1))
  {
    var t := [123] + items;
    assert t[0] == 123 && t[1] == items[0] && t[1..] == items && t[2..] == items[1..];
  }

  lemma FieldsSmaller(v: Json, sorted: seq<Field>)
    requires v.Obj? && Defined(v) && forall f :: f in sorted ==> f in v.fields
    ensures forall i :: 0 <= i < |sorted| ==> sorted[i].value < v && Defined(sorted[i].value)
  {
    forall i | 0 <= i < |sorted| ensures sorted[i].value < v && Defined(sorted[i].value) {
      assert sorted[i] in v.fields;
      var k :| 0 <= k < |v.fields| && v.fields[k] == sorted[i];
    }
  }

  lemma RestEnds(texts: seq<Text>, close: Unit, x: Text)
    requires close in {93, 125}
    ensures var r := Rest(texts, close, x);
            Ends(r) && r != [] && r[0] == (if texts == [] then close else 44)
  {
  }

  lemma {:induction false} ItemsRead(outer: Json, elems: seq<Json>, x: Text)
    requires elems != []
    requires forall i :: 0 <= i < |elems| ==> elems[i] < outer && !elems[i].Undefined? && Defined(elems[i])
    ensures ReadItems(Items(ElementTexts(elems), 93, x)) == Some((OrderedAll(elems), x))
    decreases outer, 0, |elems|
  {
    var rest := elems[1..];
    var r := Rest(ElementTexts(rest), 93, x);
    ElementTextsSplit(elems);
    RestEnds(ElementTexts(rest), 93, x);
    ValueReads(elems[0], r);
    assert Items(ElementTexts(elems), 93, x) == Canonical(elems[0]) + r;
    if rest == [] {
      assert r[1..] == x && OrderedAll(elems) == [Ordered(elems[0])];
    } else {
      ItemsRead(outer, rest, x);
      ElementTextsSplit(rest);
      assert r[1..] == Items(ElementTexts(rest), 93, x);
    }
  }

  lemma {:induction false} MemberReads(outer: Json, f: Field, r: Text)
    requires f.value < outer && Defined(f.value) && Ends(r)
    ensures ReadMember(Quoted(f.key) + [58] + Canonical(f.value) + r) == Some((Field(f.key, Ordered(f.value)), r))
    decreases outer, 0, 0
  {
    var tail := [58] + (Canonical(f.value) + r);
    ConcatAssociates(Quoted(f.key), [58], Canonical(f.value));
    ConcatAssociates(Quoted(f.key), [58] + Canonical(f.value), r);
    ConcatAssociates([58], Canonical(f.value), r);
    QuotedReads(f.key, tail);
    assert tail[1..] == Canonical(f.value) + r;
    ValueReads(f.value, r);
  }

  lemma {:induction false} MembersRead(outer: Json, fields: seq<Field>, x: Text)
    requires fields != [] && forall i :: 0 <= i < |fields| ==> fields[i].value < outer && Defined(fields[i].value)
    ensures ReadMembers(Items(FieldList(fields), 125, x)) == Some((OrderedFields(fields), x))
    decreases outer, 0, |fields|
  {
    var rest := fields[1..];
    var r := Rest(FieldList(rest), 125, x);
    FieldListSplit(fields);
    RestEnds(FieldList(rest), 125, x);
    MemberReads(outer, fields[0], r);
    assert Items(FieldList(fields), 125, x) == Quoted(fields[0].key) + [58] + Canonical(fields[0].value) + r;
    if rest == [] {
      assert r[1..] == x && OrderedFields(fields) == [Field(fields[0].key, Ordered(fields[0].value))];
    } else {
      MembersRead(outer, rest, x);
      FieldListSplit(rest);
      assert r[1..] == Items(FieldList(rest), 125, x);
    }
  }

  // ----- the order of the keys ------------------------------------------------------------

  /** Where two keys first differ the smaller unit decides; a proper prefix comes first. */
  ghost predicate UnitsBefore(a: Text, b: Text)
  {
    exists k :: 0 <= k <= |a| && k < |b| && a[..k] == b[..k] && (k == |a| || a[k] < b[k])
  }

  /** Every object in the value lists its keys in strictly ascending order. */
  ghost predicate KeysAscend(v: Json)
    decreases v
  {
    match v
    case Arr(elems) => forall i :: 0 <= i < |elems| ==> KeysAscend(elems[i])
    case Obj(fields) =>
      && (forall i, j :: 0 <= i < j < |fields| ==> UnitsBefore(fields[i].key, fields[j].key))
      && (forall i :: 0 <= i < |fields| ==> KeysAscend(fields[i].value))
    case _ => true
  }

  lemma SortedFieldsAscend(fields: seq<Field>)
    requires forall i, j :: 0 <= i < j < |fields| ==> fields[i].key != fields[j].key
    ensures var r := SortBy(FieldLe, fields);
            forall i, j :: 0 <= i < j < |r| ==> UnitsBefore(r[i].key, r[j].key)
  {
    var r := SortBy(FieldLe, fields);
    KeyLeTotalOrder();
    SortSorted(FieldLe, fields);
    SortKeys(fields);
    assert Distinct(Keys(fields));
    DistinctPermutes(Keys(fields), Keys(r));
    forall i, j | 0 <= i < j < |r| ensures UnitsBefore(r[i].key, r[j].key) {
      assert Keys(r)[i] != Keys(r)[j];
      LexLeMeans(UnitLt, r[i].key, r[j].key);
    }
  }

  lemma {:induction false} OrderedAscends(v: Json)
    requires DistinctKeys(v)
    ensures KeysAscend(Ordered(v))
  {
    match v
    case Arr(elems) =>
      forall i | 0 <= i < |elems| ensures KeysAscend(OrderedAll(elems)[i]) { OrderedAscends(elems[i]); }
    case Obj(fields) =>
      forall i | 0 <= i < |fields| ensures KeysAscend(Ordered(fields[i].value)) { OrderedAscends(fields[i].value); }
      ObjectAscends(fields);
    case _ =>
  }

  lemma ObjectAscends(fields: seq<Field>)
    requires forall i, j :: 0 <= i < j < |fields| ==> fields[i].key != fields[j].key
    requires forall i :: 0 <= i < |fields| ==> KeysAscend(Ordered(fields[i].value))
    ensures KeysAscend(Obj(SortBy(FieldLe, OrderedFields(fields))))
  {
    SortedFieldsAscend(OrderedFields(fields));
    MembersAscend(fields);
  }

  lemma MembersAscend(fields: seq<Field>)
    requires forall i :: 0 <= i < |fields| ==> KeysAscend(Ordered(fields[i].value))
    ensures var r := SortBy(FieldLe, OrderedFields(fields));
            forall i :: 0 <= i < |r| ==> KeysAscend(r[i].value)
  {
    var o := OrderedFields(fields);
    var r := SortBy(FieldLe, o);
    SameMembers(o, r);
    forall i | 0 <= i < |r| ensures KeysAscend(r[i].value) {
      assert r[i] in o;
      var k :| 0 <= k < |o| && o[k] == r[i];
      assert KeysAscend(Ordered(fields[k].value));
    }
  }

  lemma {:induction false} OrderedIsSame(v: Json)
    ensures Same(v, Ordered(v))
  {
    match v
    case Arr(elems) =>
      forall i | 0 <= i < |elems| ensures Same(elems[i], OrderedAll(elems)[i]) { OrderedIsSame(elems[i]); }
    case Obj(fields) =>
      var o := OrderedFields(fields);
      var r := SortBy(FieldLe, o);
      SameMembers(o, r);
      forall i | 0 <= i < |fields| ensures HasField(fields[i], r) {
        OrderedIsSame(fields[i].value);
        assert o[i] in r;
        var j :| 0 <= j < |r| && r[j] == o[i];
      }
    case _ =>
  }

  /** The canonical text of a value, no element of whose lists is undefined, is JSON for it: it reads back
      whole, to the same value with the keys of every object in strictly ascending order. */
  lemma CanonicalIsJson(v: Json)
    requires Defined(v) && DistinctKeys(v)
    ensures var r := Read(Canonical(v));
            r.Some? && r.value.1 == [] && Same(v, r.value.0) && KeysAscend(r.value.0)
  {
    ValueReads(v, []);
    assert Canonical(v) + [] == Canonical(v);
    OrderedAscends(v);
    OrderedIsSame(v);
  }
}
