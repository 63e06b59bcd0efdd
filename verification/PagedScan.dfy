/** The nine-field FILE scan over the decoder's raw payloads: how a payload splits into commands, what
    makes a command a hit, and the keyset-paged pass over the rows, which must find what one pass over
    all of them would. */
module PagedScan {
  import opened Base

  // ----- payloads -------------------------------------------------------------------------

  function TrimStart(s: string): string { if s != "" && IsSpace(s[0]) then TrimStart(s[1..]) else s }

  function TrimEnd(s: string): string
  {
    if s != "" && IsSpace(s[|s| - 1]) then TrimEnd(s[..|s| - 1]) else s
  }

  function Trim(s: string): string { TrimEnd(TrimStart(s)) }

  function Upper(c: char): char { if 'a' <= c <= 'z' then (c as int - 32) as char else c }

  /** The payload begins with a word and a bar, in either case. */
  predicate Named(s: string, word: string)
  {
    |s| > |word| && s[|word|] == '|' && forall i :: 0 <= i < |word| ==> Upper(s[i]) == word[i]
  }

  function Trimmed(parts: seq<string>): (r: seq<string>)
    ensures |r| == |parts|
  {
    if parts == [] then [] else [Trim(parts[0])] + Trimmed(parts[1..])
  }

  predicate NonEmpty(s: string) { s != "" }

  /** What stands after the version field of a batch. */
  function AfterVersion(s: string): string
  {
    var parts := Split(s, '|');
    if |parts| <= 2 then "" else Join(parts[2..], '|')
  }

  function SplitCommands(payload: Option<string>): seq<string>
  {
    if payload.None? || payload.value == "" then []
    else if Named(payload.value, "BATCH") then Filter(NonEmpty, Trimmed(Split(AfterVersion(payload.value), ';')))
    else Filter(NonEmpty, [Trim(payload.value)])
  }

  datatype Hit = Hit(version: string, fields: nat, ninth: string)

  const FIELD_COUNT := 8

  function InspectCommand(command: string): Option<Hit>
  {
    var s := Trim(command);
    if !Named(s, "FILE") then None
    else
      var fields := Split(s, '|')[1..];
      if |fields| <= FIELD_COUNT || Trim(fields[FIELD_COUNT]) == "" then None
      else Some(Hit(Trim(fields[0]), |fields|, fields[FIELD_COUNT]))
  }

  function HitsIn(commands: seq<string>): seq<Hit>
  {
    if commands == [] then []
    else HitsIn(commands[..|commands| - 1]) + (if InspectCommand(commands[|commands| - 1]).Some?
                                               then [InspectCommand(commands[|commands| - 1]).value] else [])
  }

  function PayloadHits(payload: Option<string>): seq<Hit> { HitsIn(SplitCommands(payload)) }

  // ----- a command in a batch is the command alone ----------------------------------------

  lemma {:induction false} HitsAppend(a: seq<string>, b: seq<string>)
    ensures HitsIn(a + b) == HitsIn(a) + HitsIn(b)
    decreases |b|
  {
    if b == [] {
      assert a + b == a;
    } else {
      HitsAppend(a, b[..|b| - 1]);
      assert (a + b)[..|a + b| - 1] == a + b[..|b| - 1];
    }
  }

  lemma {:induction false} SplitJoin(parts: seq<string>, sep: char)
    requires parts != [] && forall p :: p in parts ==> sep !in p
    ensures Split(Join(parts, sep), sep) == parts
  {
    assert parts[0] in parts;
    if |parts| == 1 {
      SplitWhole(parts[0], sep);
    } else {
      assert parts == [parts[0]] + parts[1..];
      SplitJoin(parts[1..], sep);
      SplitHead(parts[0], Join(parts[1..], sep), sep);
    }
  }

  function Batch(version: string, commands: seq<string>): string
    requires commands != []
  {
    "BATCH|" + (version + "|" + Join(commands, ';'))
  }

  /** A batch of given commands is read as those commands. */
  lemma BatchCommands(version: string, commands: seq<string>)
    requires commands != [] && '|' !in version && forall c :: c in commands ==> ';' !in c
    ensures Named(Batch(version, commands), "BATCH")
    ensures Split(AfterVersion(Batch(version, commands)), ';') == commands
    ensures SplitCommands(Some(Batch(version, commands))) == Filter(NonEmpty, Trimmed(commands))
  {
    var body := Join(commands, ';');
    var s := Batch(version, commands);
    assert s[..6] == "BATCH|";
    forall i | 0 <= i < 5 ensures Upper(s[i]) == "BATCH"[i] { assert s[i] == "BATCH|"[i]; }
    assert s[5] == "BATCH|"[5];
    SplitHead(version, body, '|');
    SplitHead("BATCH", version + "|" + body, '|');
    assert s == "BATCH" + ['|'] + (version + "|" + body);
    assert version + "|" + body == version + ['|'] + body;
    var parts := Split(s, '|');
    assert parts == ["BATCH"] + ([version] + Split(body, '|'));
    assert parts[2..] == Split(body, '|');
    JoinSplit(body, '|');
    SplitJoin(commands, ';');
  }

  /** The hits of each payload on its own, one after the other. */
  function AllHits(payloads: seq<string>): seq<Hit>
  {
    if payloads == [] then [] else PayloadHits(Some(payloads[0])) + AllHits(payloads[1..])
  }

  lemma TrimOfEmpty()
    ensures Trim("") == ""
  {
  }

  lemma HitsAlone(c: string)
    requires !Named(c, "BATCH")
    ensures PayloadHits(Some(c)) == HitsIn(Filter(NonEmpty, [Trim(c)]))
  {
    if c == "" {
      TrimOfEmpty();
      assert Filter(NonEmpty, [Trim(c)]) == [];
    }
  }

  predicate IsBatch(c: string) { Named(c, "BATCH") }

  predicate NotBatch(c: string) { !IsBatch(c) }

  lemma {:induction false} TrimEndStarts(s: string)
    requires s != "" && !IsSpace(s[0])
    ensures TrimEnd(s) != "" && TrimEnd(s)[0] == s[0]
  {
    if IsSpace(s[|s| - 1]) { TrimEndStarts(s[..|s| - 1]); }
  }

  /** A batch among the commands is no FILE and is not unwrapped. */
  lemma BatchIsNoFile(c: string)
    requires IsBatch(c)
    ensures HitsIn(Filter(NonEmpty, [Trim(c)])) == []
  {
    assert Upper(c[0]) == 'B';
    TrimEndStarts(c);
    var t := Trim(c);
    TrimEndStarts(t);
    assert InspectCommand(t).None?;
    assert Filter(NonEmpty, [t]) == [t] && [t][..0] == [];
  }

  /** What a command contributes to a batch it is in. */
  function HitsInside(c: string): seq<Hit> { if IsBatch(c) then [] else PayloadHits(Some(c)) }

  lemma OneInside(c: string)
    ensures HitsIn(Filter(NonEmpty, [Trim(c)])) == HitsInside(c)
  {
    if IsBatch(c) { BatchIsNoFile(c); } else { HitsAlone(c); }
  }

  lemma FirstHits(c: string, rest: seq<string>)
    ensures AllHits([c] + rest) == PayloadHits(Some(c)) + AllHits(rest)
    ensures AllHits(Filter(NotBatch, [c] + rest)) == HitsInside(c) + AllHits(Filter(NotBatch, rest))
  {
    var kept := Filter(NotBatch, rest);
    assert ([c] + rest)[1..] == rest && ([c] + kept)[1..] == kept;
    assert Filter(NotBatch, [c] + rest) == if NotBatch(c) then [c] + kept else kept;
  }

  lemma FirstTrimmed(c: string, rest: seq<string>)
    ensures HitsIn(Filter(NonEmpty, Trimmed([c] + rest))) == HitsInside(c) + HitsIn(Filter(NonEmpty, Trimmed(rest)))
  {
    assert ([c] + rest)[1..] == rest;
    assert Trimmed([c] + rest) == [Trim(c)] + Trimmed(rest);
    FilterSplits(NonEmpty, [Trim(c)], Trimmed(rest));
    HitsAppend(Filter(NonEmpty, [Trim(c)]), Filter(NonEmpty, Trimmed(rest)));
    OneInside(c);
  }

  /** Every command that is not a batch itself counts as it would alone, and every other not at all. */
  lemma {:induction false} HitsOneByOne(commands: seq<string>)
    ensures HitsIn(Filter(NonEmpty, Trimmed(commands))) == AllHits(Filter(NotBatch, commands))
  {
    if commands != [] {
      assert commands == [commands[0]] + commands[1..];
      HitsOneByOne(commands[1..]);
      FirstTrimmed(commands[0], commands[1..]);
      FirstHits(commands[0], commands[1..]);
    }
  }

  predicate Harmless(c: string) { IsBatch(c) ==> PayloadHits(Some(c)) == [] }

  /** The hits that are lost are those of the batches among the commands. */
  lemma {:induction false} HitsLost(commands: seq<string>)
    ensures |AllHits(Filter(NotBatch, commands))| <= |AllHits(commands)|
    ensures AllHits(Filter(NotBatch, commands)) == AllHits(commands)
            <==> forall c :: c in commands ==> Harmless(c)
  {
    if commands != [] {
      var c, rest := commands[0], commands[1..];
      assert commands == [c] + rest;
      HitsLost(rest);
      FirstHits(c, rest);
      assert c in commands;
      LongerTogether(HitsInside(c), PayloadHits(Some(c)), AllHits(Filter(NotBatch, rest)), AllHits(rest));
      assert Harmless(c) <==> HitsInside(c) == PayloadHits(Some(c));
      assert (forall d :: d in commands ==> Harmless(d)) <==> Harmless(c) && forall d :: d in rest ==> Harmless(d);
    }
  }

  lemma LongerTogether(a: seq<Hit>, b: seq<Hit>, x: seq<Hit>, y: seq<Hit>)
    requires a == [] || a == b
    requires |x| <= |y|
    ensures |a + x| <= |b + y| && (a + x == b + y <==> a == b && x == y)
  {
    if a + x == b + y {
      assert |a| == |b|;
      assert x == (a + x)[|a|..] && y == (b + y)[|b|..];
    }
  }

  /** A batch that is one of the commands of another has at most one command of its own. */
  lemma InnerBatchHits(c: string)
    requires IsBatch(c) && ';' !in c
    ensures PayloadHits(Some(c)) == [] <==> InspectCommand(AfterVersion(c)).None?
  {
    var t := AfterVersion(c);
    AfterVersionIsTail(c);
    SplitWhole(t, ';');
    assert Trimmed([t]) == [Trim(t)] by { assert [t][1..] == []; }
    OneTrimmed(t);
  }

  lemma OneTrimmed(t: string)
    ensures HitsIn(Filter(NonEmpty, [Trim(t)])) == [] <==> InspectCommand(t).None?
  {
    TrimTwice(t);
    if Trim(t) != "" {
      assert Filter(NonEmpty, [Trim(t)]) == [Trim(t)] && [Trim(t)][..0] == [];
      assert HitsIn([]) == [];
    } else {
      assert Filter(NonEmpty, [Trim(t)]) == [];
    }
  }

  lemma AfterVersionIsTail(c: string)
    ensures exists head :: c == head + AfterVersion(c)
  {
    var parts := Split(c, '|');
    JoinSplit(c, '|');
    if |parts| <= 2 {
      assert c == c + AfterVersion(c);
    } else {
      var head := JoinTail(parts);
      assert c == head + AfterVersion(c);
    }
  }

  lemma JoinTail(parts: seq<string>) returns (head: string)
    requires |parts| > 2
    ensures Join(parts, '|') == head + Join(parts[2..], '|')
  {
    var rest, tail := parts[1..], Join(parts[2..], '|');
    assert rest[1..] == parts[2..];
    assert Join(parts, '|') == parts[0] + ['|'] + (parts[1] + ['|'] + tail);
    head := parts[0] + ['|'] + parts[1] + ['|'];
    assert Join(parts, '|') == head + tail;
  }

  lemma {:induction false} TrimEndLast(s: string)
    ensures TrimEnd(s) == "" || !IsSpace(TrimEnd(s)[|TrimEnd(s)| - 1])
    ensures TrimEnd(s) != "" ==> s != "" && TrimEnd(s)[0] == s[0]
  {
    if s != "" && IsSpace(s[|s| - 1]) { TrimEndLast(s[..|s| - 1]); }
  }

  lemma {:induction false} TrimStartFirst(s: string)
    ensures TrimStart(s) == "" || !IsSpace(TrimStart(s)[0])
  {
    if s != "" && IsSpace(s[0]) { TrimStartFirst(s[1..]); }
  }

  lemma TrimTwice(s: string)
    ensures Trim(Trim(s)) == Trim(s)
  {
    TrimStartFirst(s);
    TrimEndLast(TrimStart(s));
    if Trim(s) != "" { TrimKept(Trim(s)); }
  }

  lemma {:induction false} PiecesHaveNone(s: string, sep: char, p: string)
    requires p in Split(s, sep)
    ensures sep !in p
  {
    if s != "" {
      var rest := Split(s[1..], sep);
      if p in rest { PiecesHaveNone(s[1..], sep, p); } else if s[0] != sep { PiecesHaveNone(s[1..], sep, rest[0]); }
    }
  }

  /** Every batch payload, whatever its commands: its hits are those its commands have as payloads of
      their own, in order, but for commands that are batches themselves. None is lost exactly when no
      batch among them carries a nine-field FILE. */
  lemma BatchPayload(s: string)
    requires IsBatch(s)
    ensures var commands := Split(AfterVersion(s), ';');
      && PayloadHits(Some(s)) == AllHits(Filter(NotBatch, commands))
      && (PayloadHits(Some(s)) == AllHits(commands)
          <==> forall c :: c in commands ==> Harmless(c))
      && (PayloadHits(Some(s)) == AllHits(commands)
          <==> forall c :: c in commands && IsBatch(c) ==> InspectCommand(AfterVersion(c)).None?)
  {
    var commands := Split(AfterVersion(s), ';');
    HitsOneByOne(commands);
    HitsLost(commands);
    forall c | c in commands && IsBatch(c)
      ensures PayloadHits(Some(c)) == [] <==> InspectCommand(AfterVersion(c)).None?
    {
      PiecesHaveNone(AfterVersion(s), ';', c);
      InnerBatchHits(c);
    }
  }

  /** The same of the batch built of any commands. */
  lemma BatchHits(version: string, commands: seq<string>)
    requires commands != [] && '|' !in version && forall c :: c in commands ==> ';' !in c
    ensures PayloadHits(Some(Batch(version, commands))) == AllHits(Filter(NotBatch, commands))
    ensures PayloadHits(Some(Batch(version, commands))) == AllHits(commands)
            <==> forall c :: c in commands ==> Harmless(c)
  {
    BatchCommands(version, commands);
    BatchPayload(Batch(version, commands));
  }

  function Bars(k: nat): (r: string)
    ensures |r| == k && forall c :: c in r ==> c == '|'
  {
    seq(k, _ => '|')
  }

  lemma {:induction false} SplitBars(k: nat)
    ensures |Split(Bars(k) + "9", '|')| == k + 1 && Split(Bars(k) + "9", '|')[k] == "9"
  {
    if k == 0 {
      assert Bars(0) + "9" == "9";
      SplitWhole("9", '|');
    } else {
      SplitBars(k - 1);
      assert (Bars(k) + "9")[1..] == Bars(k - 1) + "9";
    }
  }

  lemma TrimKept(s: string)
    requires s != "" && !IsSpace(s[0]) && !IsSpace(s[|s| - 1])
    ensures Trim(s) == s
  {
  }

  /** A FILE of nine fields, all but the last empty. */
  const NINE := "FILE" + ['|'] + (Bars(8) + "9")

  lemma NineIsAHit()
    ensures InspectCommand(NINE).Some? && Trim(NINE) == NINE && ';' !in NINE && !Named(NINE, "BATCH")
  {
    TrimKept(NINE);
    SplitBars(8);
    SplitHead("FILE", Bars(8) + "9", '|');
    assert Split(NINE, '|')[1..] == Split(Bars(8) + "9", '|');
    TrimKept("9");
    assert Upper(NINE[0]) == 'F';
    forall i | 0 <= i < 4 ensures Upper(NINE[i]) == "FILE"[i] { assert NINE[i] == "FILE"[i]; }
  }

  lemma OneCommand(c: string)
    requires c != "" && Trim(c) == c
    ensures Filter(NonEmpty, Trimmed([c])) == [c]
    ensures HitsIn([c]) == if InspectCommand(c).Some? then [InspectCommand(c).value] else []
  {
    assert [c][1..] == [] && [c][..0] == [];
  }

  lemma BatchEnds(c: string)
    requires c != "" && ';' !in c
    ensures var s := Batch("0", [c]);
      s[0] == 'B' && s[|s| - 1] == c[|c| - 1] && ';' !in s
  {
    assert Join([c], ';') == c;
    assert ';' !in "BATCH|" && ';' !in "0" && ';' !in "|";
    NotInConcat("0" + "|", c, ';');
    NotInConcat("BATCH|", "0" + "|" + c, ';');
  }

  lemma NotInConcat(a: string, b: string, x: char)
    requires x !in a && x !in b
    ensures x !in a + b
  {
  }

  lemma NotAFile(s: string)
    requires s != "" && s[0] == 'B' && Trim(s) == s
    ensures InspectCommand(s).None?
  {
    assert Upper(s[0]) == 'B';
  }

  /** For instance: a FILE that is found in a batch is lost in a batch inside a batch. */
  lemma NestedBatchIsNotRead()
    ensures PayloadHits(Some(Batch("0", [NINE]))) != []
    ensures PayloadHits(Some(Batch("0", [Batch("0", [NINE])]))) == []
  {
    NineIsAHit();
    BatchCommands("0", [NINE]);
    OneCommand(NINE);
    assert NINE[|NINE| - 1] == '9';
    BatchEnds(NINE);
    NestedIsNotRead(Batch("0", [NINE]));
  }

  lemma InkIsNoSpace(c: char)
    requires '!' <= c <= '~'
    ensures !IsSpace(c)
  {
  }

  lemma NestedIsNotRead(inner: string)
    requires inner != "" && inner[0] == 'B' && inner[|inner| - 1] == '9' && ';' !in inner
    ensures PayloadHits(Some(Batch("0", [inner]))) == []
  {
    BatchCommands("0", [inner]);
    InkIsNoSpace(inner[0]);
    InkIsNoSpace(inner[|inner| - 1]);
    TrimKept(inner);
    OneCommand(inner);
    NotAFile(inner);
  }

  // ----- the paged pass -------------------------------------------------------------------

  datatype Row = Row(txIndex: nat, hash: string, data: Option<string>)

  datatype Found = Found(row: Row, hit: Hit)

  /** The rows in the order of their key, which is unique. */
  ghost predicate Keyed(rows: seq<Row>) { rows == [] || (Above(rows[1..], rows[0].txIndex) && Keyed(rows[1..])) }

  ghost predicate Above(rows: seq<Row>, low: int) { rows == [] || (rows[0].txIndex > low && Above(rows[1..], low)) }

  function RowHits(row: Row, hits: seq<Hit>): (r: seq<Found>)
    ensures |r| == |hits|
  {
    seq(|hits|, i requires 0 <= i < |hits| => Found(row, hits[i]))
  }

  function Scanned(rows: seq<Row>): seq<Found>
  {
    if rows == [] then []
    else Scanned(rows[..|rows| - 1]) + RowHits(rows[|rows| - 1], PayloadHits(rows[|rows| - 1].data))
  }

  lemma ScannedSnoc(a: seq<Row>, row: Row)
    ensures Scanned(a + [row]) == Scanned(a) + RowHits(row, PayloadHits(row.data))
  {
    assert (a + [row])[..|a|] == a;
  }

  lemma {:induction false} ScannedAppend(a: seq<Row>, b: seq<Row>)
    ensures Scanned(a + b) == Scanned(a) + Scanned(b)
    decreases |b|
  {
    if b == [] {
      assert a + b == a;
    } else {
      var rest, row := b[..|b| - 1], b[|b| - 1];
      assert b == rest + [row];
      ScannedAppend(a, rest);
      ConcatAssociates(a, rest, [row]);
      ScannedSnoc(a + rest, row);
      ScannedSnoc(rest, row);
      ConcatAssociates(Scanned(a), Scanned(rest), RowHits(row, PayloadHits(row.data)));
    }
  }

  lemma HitsSnoc(row: Row, commands: seq<string>, i: nat)
    requires i < |commands|
    ensures var hit := InspectCommand(commands[i]);
      RowHits(row, HitsIn(commands[..i + 1]))
      == RowHits(row, HitsIn(commands[..i])) + if hit.Some? then [Found(row, hit.value)] else []
  {
    assert commands[..i + 1][..i] == commands[..i];
    var hit := InspectCommand(commands[i]);
    HitsOne(commands, i);
    RowHitsAppend(row, HitsIn(commands[..i]), if hit.Some? then [hit.value] else []);
  }

  lemma HitsOne(commands: seq<string>, i: nat)
    requires i < |commands|
    ensures HitsIn(commands[..i + 1]) == HitsIn(commands[..i])
            + if InspectCommand(commands[i]).Some? then [InspectCommand(commands[i]).value] else []
  {
    assert commands[..i + 1][..i] == commands[..i];
  }

  lemma RowHitsAppend(row: Row, a: seq<Hit>, b: seq<Hit>)
    ensures RowHits(row, a + b) == RowHits(row, a) + RowHits(row, b)
  {
  }

  method ScanCommands(row: Row, commands: seq<string>) returns (hits: seq<Found>)
    ensures hits == RowHits(row, HitsIn(commands))
  {
    hits := [];
    for i := 0 to |commands|
      invariant hits == RowHits(row, HitsIn(commands[..i]))
    {
      HitsSnoc(row, commands, i);
      var hit := InspectCommand(commands[i]);
      if hit.Some? { hits := hits + [Found(row, hit.value)]; }
    }
    assert commands[..|commands|] == commands;
  }

  method ScanRows(rows: seq<Row>) returns (scanned: nat, hits: seq<Found>)
    ensures scanned == |rows| && hits == Scanned(rows)
  {
    scanned, hits := 0, [];
    for i := 0 to |rows|
      invariant scanned == i && hits == Scanned(rows[..i])
    {
      assert rows[..i + 1][..i] == rows[..i];
      scanned := scanned + 1;
      var more := ScanCommands(rows[i], SplitCommands(rows[i].data));
      hits := hits + more;
    }
    assert rows[..|rows|] == rows;
  }

  /** The rows the query's filter selects, after a key. */
  function After(rows: seq<Row>, selects: Row -> bool, after: int): seq<Row>
  {
    if rows == [] then []
    else (if rows[0].txIndex > after && selects(rows[0]) then [rows[0]] else []) + After(rows[1..], selects, after)
  }

  function Page(rows: seq<Row>, limit: nat): seq<Row> { if |rows| <= limit then rows else rows[..limit] }

  lemma {:induction false} AfterBelow(rows: seq<Row>, selects: Row -> bool, a: int, b: int)
    requires Above(rows, a) && Above(rows, b)
    ensures After(rows, selects, a) == After(rows, selects, b)
  {
    if rows != [] { AfterBelow(rows[1..], selects, a, b); }
  }

  lemma {:induction false} AboveLower(rows: seq<Row>, high: int, low: int)
    requires Above(rows, high) && low <= high
    ensures Above(rows, low)
  {
    if rows != [] { AboveLower(rows[1..], high, low); }
  }

  /** Later keys only, and keys above any bound the table has. */
  lemma {:induction false} AfterIsAbove(rows: seq<Row>, selects: Row -> bool, after: int, low: int)
    requires Above(rows, low)
    ensures Above(After(rows, selects, after), after) && Above(After(rows, selects, after), low)
  {
    if rows != [] {
      AfterIsAbove(rows[1..], selects, after, low);
      AfterCons(rows, selects, after);
      if rows[0].txIndex > after && selects(rows[0]) {
        AboveCons(rows[0], After(rows[1..], selects, after), after, low);
      }
    }
  }

  lemma AboveCons(head: Row, tail: seq<Row>, a: int, b: int)
    requires Above(tail, a) && Above(tail, b) && head.txIndex > a && head.txIndex > b
    ensures Above([head] + tail, a) && Above([head] + tail, b)
  {
    assert ([head] + tail)[1..] == tail;
  }

  lemma {:induction false} AboveAt(rows: seq<Row>, low: int, k: nat)
    requires Above(rows, low) && k < |rows|
    ensures rows[k].txIndex > low
  {
    if k > 0 { AboveAt(rows[1..], low, k - 1); }
  }

  lemma AfterCons(rows: seq<Row>, selects: Row -> bool, after: int)
    requires rows != []
    ensures After(rows, selects, after)
            == if rows[0].txIndex > after && selects(rows[0]) then [rows[0]] + After(rows[1..], selects, after)
               else After(rows[1..], selects, after)
  {
  }

  lemma TakeCons(head: Row, tail: seq<Row>, k: nat)
    requires 0 < k <= |tail| + 1
    ensures ([head] + tail)[..k] == [head] + tail[..k - 1]
    ensures ([head] + tail)[k - 1] == if k == 1 then head else tail[k - 2]
  {
  }

  lemma AfterSkips(rows: seq<Row>, selects: Row -> bool, after: int)
    requires rows != [] && !(rows[0].txIndex > after && selects(rows[0]))
    ensures After(rows, selects, after) == After(rows[1..], selects, after)
  {
  }

  lemma LastOf(rest: seq<Row>, selects: Row -> bool, after: int, head: int, k: nat)
    requires Above(rest, head) && k < |After(rest, selects, after)|
    ensures After(rest, selects, after)[k].txIndex > head
  {
    AfterIsAbove(rest, selects, after, head);
    AboveAt(After(rest, selects, after), head, k);
  }

  lemma TakenFirst(head: Row, tail: seq<Row>, k: nat, later: seq<Row>)
    requires 0 < k <= |tail| && tail == tail[..k] + later
    ensures [head] + tail == ([head] + tail)[..k + 1] + later
  {
    TakeCons(head, tail, k + 1);
    ConcatAssociates([head], tail[..k], later);
  }

  lemma OnlyFirst(rest: seq<Row>, selects: Row -> bool, after: int, head: Row)
    requires Above(rest, head.txIndex) && head.txIndex > after
    ensures var tail := After(rest, selects, after);
      [head] + tail == ([head] + tail)[..1] + After(rest, selects, head.txIndex)
  {
    AboveLower(rest, head.txIndex, after);
    AfterBelow(rest, selects, after, head.txIndex);
  }

  /** The rows after a key are its first ones and the rows after the last of those. */
  lemma {:induction false} AfterLast(rows: seq<Row>, selects: Row -> bool, after: int, s: seq<Row>, k: nat, last: int)
    requires Keyed(rows) && s == After(rows, selects, after) && 0 < k <= |s| && last == s[k - 1].txIndex
    ensures s == s[..k] + After(rows, selects, last)
    decreases |rows|
  {
    var head, rest := rows[0], rows[1..];
    var tail := After(rest, selects, after);
    if !(head.txIndex > after && selects(head)) {
      AfterSkips(rows, selects, after);
      AfterLast(rest, selects, after, tail, k, last);
      LastOf(rest, selects, after, head.txIndex, k - 1);
      AfterSkips(rows, selects, last);
    } else {
      AfterCons(rows, selects, after);
      TakeCons(head, tail, k);
      if k == 1 {
        OnlyFirst(rest, selects, after, head);
      } else {
        LastOf(rest, selects, after, head.txIndex, k - 2);
        AfterLast(rest, selects, after, tail, k - 1, last);
        TakenFirst(head, tail, k - 1, After(rest, selects, last));
      }
      AfterSkips(rows, selects, last);
    }
  }

  lemma PageIsFront(left: seq<Row>, limit: nat)
    requires left != [] && limit >= 1
    ensures var page := Page(left, limit);
      0 < |page| <= |left| && page == left[..|page|] && page[|page| - 1] == left[|page| - 1]
  {
  }

  lemma {:induction false} AboveMinusOne(rows: seq<Row>)
    ensures Above(rows, -1)
  {
    if rows != [] { AboveMinusOne(rows[1..]); }
  }

  /** A page that is not empty is the front of what is left, and its last key is later. */
  lemma PageSplits(rows: seq<Row>, selects: Row -> bool, after: int, left: seq<Row>, limit: nat, page: seq<Row>)
    requires Keyed(rows) && limit >= 1 && left == After(rows, selects, after) && left != [] && page == Page(left, limit)
    ensures page != [] && page[|page| - 1].txIndex > after
    ensures left == page + After(rows, selects, page[|page| - 1].txIndex)
  {
    PageIsFront(left, limit);
    AfterLast(rows, selects, after, left, |page|, page[|page| - 1].txIndex);
    AboveMinusOne(rows);
    AfterIsAbove(rows, selects, after, -1);
    AboveAt(left, after, |page| - 1);
  }

  /** What is still to come, and what has been counted and reported. */
  ghost predicate PassAt(rows: seq<Row>, selects: Row -> bool, left: seq<Row>, scanned: nat, hits: seq<Found>)
  {
    scanned + |left| == |Filter(selects, rows)| && hits + Scanned(left) == Scanned(Filter(selects, rows))
  }

  lemma PageAdds(rows: seq<Row>, selects: Row -> bool, page: seq<Row>, rest: seq<Row>, scanned: nat, hits: seq<Found>)
    requires PassAt(rows, selects, page + rest, scanned, hits)
    ensures PassAt(rows, selects, rest, scanned + |page|, hits + Scanned(page))
  {
    ScannedAppend(page, rest);
    ConcatAssociates(hits, Scanned(page), Scanned(rest));
  }

  /** Paging, at any page size, over a table that does not change: it stops, and it has scanned every
      selected row once and reports the hits of one pass over all of them, in order. */
  method PaginateScan(rows: seq<Row>, selects: Row -> bool, limit: nat) returns (scanned: nat, hits: seq<Found>)
    requires Keyed(rows) && limit >= 1
    ensures scanned == |Filter(selects, rows)| && hits == Scanned(Filter(selects, rows))
  {
    scanned, hits := 0, [];
    var after: int := -1;
    AllAreAfter(rows, selects);
    while true
      invariant PassAt(rows, selects, After(rows, selects, after), scanned, hits)
      decreases |After(rows, selects, after)|
    {
      var left := After(rows, selects, after);
      var page := Page(left, limit);
      if page == [] { break; }
      PageSplits(rows, selects, after, left, limit, page);
      var next := page[|page| - 1].txIndex;
      PageAdds(rows, selects, page, After(rows, selects, next), scanned, hits);
      var count, more := ScanRows(page);
      scanned, hits := scanned + count, hits + more;
      if next <= after { break; }
      after := next;
    }
  }

  lemma {:induction false} AllAreAfter(rows: seq<Row>, selects: Row -> bool)
    ensures After(rows, selects, -1) == Filter(selects, rows)
  {
    if rows != [] { AllAreAfter(rows[1..], selects); }
  }

  // ----- commands written out -------------------------------------------------------------

  /** The word in capitals or not, letter by letter, and then a bar. */
  ghost predicate Starts(s: string, word: string)
  {
    && |word| < |s| && s[|word|] == '|'
    && forall i :: 0 <= i < |word| ==> s[i] == word[i] || s[i] as int == word[i] as int + 32
  }

  lemma NamedMeans(s: string, word: string)
    requires forall i :: 0 <= i < |word| ==> 'A' <= word[i] <= 'Z'
    ensures Named(s, word) <==> Starts(s, word)
  {
    if |word| < |s| {
      forall i | 0 <= i < |word|
        ensures Upper(s[i]) == word[i] <==> s[i] == word[i] || s[i] as int == word[i] as int + 32
      {
        UpperLetter(s[i], word[i]);
      }
    }
  }

  lemma UpperLetter(c: char, up: char)
    requires 'A' <= up <= 'Z'
    ensures Upper(c) == up <==> c == up || c as int == up as int + 32
  {
  }

  ghost predicate Spaces(s: string) { forall i :: 0 <= i < |s| ==> IsSpace(s[i]) }

  lemma {:induction false} TrimStartCuts(s: string) returns (pre: string)
    ensures s == pre + TrimStart(s) && Spaces(pre)
  {
    pre := "";
    if s != "" && IsSpace(s[0]) {
      var more := TrimStartCuts(s[1..]);
      pre := [s[0]] + more;
      assert s == [s[0]] + s[1..];
    }
  }

  lemma {:induction false} TrimEndCuts(s: string) returns (post: string)
    ensures s == TrimEnd(s) + post && Spaces(post)
  {
    post := "";
    if s != "" && IsSpace(s[|s| - 1]) {
      var more := TrimEndCuts(s[..|s| - 1]);
      post := more + [s[|s| - 1]];
      assert s == s[..|s| - 1] + [s[|s| - 1]];
      ConcatAssociates(TrimEnd(s), more, [s[|s| - 1]]);
    }
  }

  /** Trimming takes white space off both ends, and all of it. */
  lemma TrimMeans(s: string) returns (pre: string, post: string)
    ensures s == pre + Trim(s) + post && Spaces(pre) && Spaces(post)
    ensures Trim(s) != "" ==> !IsSpace(Trim(s)[0]) && !IsSpace(Trim(s)[|Trim(s)| - 1])
  {
    pre := TrimStartCuts(s);
    post := TrimEndCuts(TrimStart(s));
    ConcatAssociates(pre, Trim(s), post);
    TrimStartFirst(s);
    TrimEndLast(TrimStart(s));
  }

  /** A command is a hit exactly when it is a FILE, in capitals or not, with a ninth field that is not
      blank; the hit has the first field trimmed, how many there are, and the ninth as it stands. */
  lemma CommandMeans(command: string, name: string, fields: seq<string>)
    requires fields != [] && Trim(command) == name + ("|" + Join(fields, '|'))
    requires '|' !in name && forall f :: f in fields ==> '|' !in f
    ensures var file := |name| == 4 && forall i :: 0 <= i < 4 ==> name[i] == "FILE"[i] || name[i] == "file"[i];
      InspectCommand(command)
      == if file && |fields| >= 9 && Trim(fields[8]) != "" then Some(Hit(Trim(fields[0]), |fields|, fields[8]))
         else None
  {
    var s := Trim(command);
    var rest := Join(fields, '|');
    NamedMeans(s, "FILE");
    SplitJoin(fields, '|');
    SplitHead(name, rest, '|');
    assert s == name + ['|'] + rest;
    assert Split(s, '|')[1..] == fields;
    FileName(name, rest);
    FieldsRead(command, fields);
  }

  lemma FieldsRead(command: string, fields: seq<string>)
    requires Split(Trim(command), '|')[1..] == fields && fields != []
    ensures InspectCommand(command) == if Named(Trim(command), "FILE") && |fields| >= 9 && Trim(fields[8]) != ""
                                       then Some(Hit(Trim(fields[0]), |fields|, fields[8])) else None
  {
  }

  lemma FileName(name: string, rest: string)
    requires '|' !in name
    ensures Starts(name + ("|" + rest), "FILE")
            <==> |name| == 4 && forall i :: 0 <= i < 4 ==> name[i] == "FILE"[i] || name[i] == "file"[i]
  {
    var s := name + ("|" + rest);
    assert forall i :: 0 <= i < 4 ==> "file"[i] as int == "FILE"[i] as int + 32;
    assert forall i :: 0 <= i < |name| ==> s[i] == name[i] && name[i] in name;
    assert s[|name|] == '|';
  }
}
