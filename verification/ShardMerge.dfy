/** Merging the logs of the test shards: the Mocha summary a log carries, what makes a shard clean, and
    the merged log whose own summary is read by the same rule. */
module ShardMerge {
  import opened Base

  // ----- reading a summary ----------------------------------------------------------------

  datatype Counts = Counts(passing: Option<nat>, pending: nat, failing: nat)

  datatype Kind = Passing | Pending | Failing

  /** The control sequence after an escape character and a bracket: parameters, intermediates, final. */
  function ControlLength(s: string, inParams: bool): Option<nat>
  {
    if s == "" then None
    else if inParams && '0' <= s[0] <= '?' then More(ControlLength(s[1..], true))
    else if ' ' <= s[0] <= '/' then More(ControlLength(s[1..], false))
    else if '@' <= s[0] <= '~' then Some(1)
    else None
  }

  function More(n: Option<nat>): Option<nat> { if n.Some? then Some(n.value + 1) else None }

  const ESC := '\U{1b}'

  /** The length of the terminal escape at the head of a text, if there is one. */
  function EscapeLength(s: string): (n: Option<nat>)
  {
    if |s| < 2 || s[0] != ESC then None
    else if '@' <= s[1] <= 'Z' || '\\' <= s[1] <= '_' then Some(2)
    else if s[1] == '[' then More(More(ControlLength(s[2..], true)))
    else None
  }

  lemma {:induction false} ControlFits(s: string, inParams: bool)
    ensures ControlLength(s, inParams).Some? ==> 0 < ControlLength(s, inParams).value <= |s|
  {
    if s != "" {
      ControlFits(s[1..], true);
      ControlFits(s[1..], false);
    }
  }

  lemma EscapeFits(s: string)
    ensures EscapeLength(s).Some? ==> 0 < EscapeLength(s).value <= |s|
  {
    if |s| >= 2 { ControlFits(s[2..], true); }
  }

  function StripAnsi(s: string): string
    decreases |s|
  {
    if s == "" then ""
    else
      EscapeFits(s);
      if EscapeLength(s).Some? then StripAnsi(s[EscapeLength(s).value..]) else [s[0]] + StripAnsi(s[1..])
  }

  /** The lines of a text; a carriage return before the newline belongs to the line end. */
  function Chop(line: string): string
  {
    if line != "" && line[|line| - 1] == '\r' then line[..|line| - 1] else line
  }

  function Lines(text: string): seq<string>
  {
    var pieces := Split(text, '\n');
    seq(|pieces|, i requires 0 <= i < |pieces| => if i < |pieces| - 1 then Chop(pieces[i]) else pieces[i])
  }

  function SkipSpace(s: string): string
  {
    if s != "" && IsSpace(s[0]) then SkipSpace(s[1..]) else s
  }

  predicate IsDigit(c: char) { '0' <= c <= '9' }

  predicate IsWord(c: char) { IsDigit(c) || 'a' <= c <= 'z' || 'A' <= c <= 'Z' || c == '_' }

  /** The digits and commas at the head of a text. */
  function NumberLength(s: string): (n: nat)
    ensures n <= |s|
  {
    if s != "" && (IsDigit(s[0]) || s[0] == ',') then 1 + NumberLength(s[1..]) else 0
  }

  /** The number written with digits and commas, read from the left. */
  function ValueOf(s: string): nat
  {
    if s == "" then 0
    else
      var rest := ValueOf(s[..|s| - 1]);
      if IsDigit(s[|s| - 1]) then rest * 10 + (s[|s| - 1] as int - '0' as int) else rest
  }

  predicate WordAt(s: string, word: string) { StartsWith(s, word) && (|s| == |word| || !IsWord(s[|word|])) }

  function KindAt(s: string): Option<Kind>
  {
    if WordAt(s, "passing") then Some(Passing)
    else if WordAt(s, "pending") then Some(Pending)
    else if WordAt(s, "failing") then Some(Failing)
    else None
  }

  /** A summary line: a number, white space, and one of the three words. */
  function ParseLine(line: string): Option<(Kind, nat)>
  {
    var s := SkipSpace(line);
    var n := NumberLength(s);
    if n == 0 || n == |s| || !IsSpace(s[n]) then None
    else
      var kind := KindAt(SkipSpace(s[n..]));
      if kind.None? then None else Some((kind.value, ValueOf(s[..n])))
  }

  function Set(c: Counts, found: Option<(Kind, nat)>): Counts
  {
    if found.None? then c
    else match found.value.0
      case Passing => c.(passing := Some(found.value.1))
      case Pending => c.(pending := found.value.1)
      case Failing => c.(failing := found.value.1)
  }

  /** The last line of each kind wins. */
  function Counted(c: Counts, lines: seq<string>): Counts
    decreases |lines|
  {
    if lines == [] then c else Counted(Set(c, ParseLine(lines[0])), lines[1..])
  }

  function CountSummaryOf(text: string): Counts { Counted(Counts(None, 0, 0), Lines(StripAnsi(text))) }

  method CountSummary(text: string) returns (counts: Counts)
    ensures counts == CountSummaryOf(text)
  {
    counts := Counts(None, 0, 0);
    var lines := Lines(StripAnsi(text));
    var i := 0;
    while i < |lines|
      invariant i <= |lines|
      invariant Counted(counts, lines[i..]) == CountSummaryOf(text)
    {
      assert lines[i..][0] == lines[i] && lines[i..][1..] == lines[i + 1..];
      var found := ParseLine(lines[i]);
      if found.Some? {
        match found.value.0
        case Passing => counts := counts.(passing := Some(found.value.1));
        case Pending => counts := counts.(pending := found.value.1);
        case Failing => counts := counts.(failing := found.value.1);
      }
      i := i + 1;
    }
  }

  // ----- lines do not run into each other -------------------------------------------------

  lemma {:induction false} ControlStops(s: string, t: string, inParams: bool)
    ensures ControlLength(s + "\n" + t, inParams) == ControlLength(s, inParams)
  {
    if s == "" {
      assert s + "\n" + t == "\n" + t;
    } else {
      ControlStops(s[1..], t, true);
      ControlStops(s[1..], t, false);
      assert (s + "\n" + t)[1..] == s[1..] + "\n" + t;
    }
  }

  lemma EscapeStops(s: string, t: string)
    ensures EscapeLength(s + "\n" + t) == EscapeLength(s)
  {
    var u := s + "\n" + t;
    if |s| >= 2 {
      assert u[2..] == s[2..] + "\n" + t;
      ControlStops(s[2..], t, true);
    } else if |s| == 1 {
      assert u[1] == '\n';
    }
  }

  /** No terminal escape runs over a line end, whatever a log ends in. */
  lemma {:induction false} StripAnsiByLine(s: string, t: string)
    ensures StripAnsi(s + "\n" + t) == StripAnsi(s) + "\n" + StripAnsi(t)
    decreases |s|
  {
    var u := s + "\n" + t;
    EscapeStops(s, t);
    if s == "" {
      assert u == "\n" + t && u[1..] == t;
    } else {
      EscapeFits(s);
      if EscapeLength(s).Some? {
        var n := EscapeLength(s).value;
        StripAnsiByLine(s[n..], t);
        assert u[n..] == s[n..] + "\n" + t;
      } else {
        StripAnsiByLine(s[1..], t);
        assert u[1..] == s[1..] + "\n" + t;
      }
    }
  }

  lemma SplitCons(c: char, s: string, sep: char)
    ensures Split([c] + s, sep)
            == if c == sep then [""] + Split(s, sep)
               else [[c] + Split(s, sep)[0]] + Split(s, sep)[1..]
  {
    assert ([c] + s)[1..] == s;
  }

  lemma HeadAppend(c: char, a: seq<string>, b: seq<string>)
    requires a != []
    ensures [[c] + (a + b)[0]] + (a + b)[1..] == ([[c] + a[0]] + a[1..]) + b
  {
  }

  lemma {:induction false} SplitAppend(s: string, t: string, sep: char)
    ensures Split(s + ([sep] + t), sep) == Split(s, sep) + Split(t, sep)
  {
    if s == "" {
      SplitCons(sep, t, sep);
      assert s + ([sep] + t) == [sep] + t;
    } else {
      var c, rest := s[0], s[1..];
      assert s == [c] + rest;
      SplitAppend(rest, t, sep);
      SplitCons(c, rest, sep);
      ConcatAssociates([c], rest, [sep] + t);
      SplitCons(c, rest + ([sep] + t), sep);
      if c == sep {
        ConcatAssociates([""], Split(rest, sep), Split(t, sep));
      } else {
        HeadAppend(c, Split(rest, sep), Split(t, sep));
      }
    }
  }

  lemma LinesAppend(s: string, t: string)
    ensures exists before :: Lines(s + "\n" + t) == before + Lines(t)
  {
    SplitAppend(s, t, '\n');
    ConcatAssociates(s, "\n", t);
    var all, n := Lines(s + "\n" + t), |Split(s, '\n')|;
    assert all == all[..n] + Lines(t);
  }

  lemma {:induction false} CountedAppend(c: Counts, a: seq<string>, b: seq<string>)
    ensures Counted(c, a + b) == Counted(Counted(c, a), b)
    decreases |a|
  {
    if a == [] {
      assert a + b == b;
    } else {
      CountedAppend(Set(c, ParseLine(a[0])), a[1..], b);
      assert (a + b)[1..] == a[1..] + b;
    }
  }

  // ----- numbers as they are printed ------------------------------------------------------

  function Decimal(n: nat): (s: string)
    ensures s != "" && forall c :: c in s ==> IsDigit(c)
  {
    (if n < 10 then "" else Decimal(n / 10)) + [('0' as int + n % 10) as char]
  }

  lemma {:induction false} DecimalReads(n: nat)
    ensures ValueOf(Decimal(n)) == n
  {
    var s := Decimal(n);
    var head := if n < 10 then "" else Decimal(n / 10);
    assert s[..|s| - 1] == head;
    if n >= 10 { DecimalReads(n / 10); }
    assert s[|s| - 1] == ('0' as int + n % 10) as char;
  }

  lemma {:induction false} NumberEnds(s: string, t: string)
    requires (forall c :: c in s ==> IsDigit(c)) && (t == "" || !(IsDigit(t[0]) || t[0] == ','))
    ensures NumberLength(s + t) == |s|
  {
    if s == "" {
      assert s + t == t;
    } else {
      assert s[0] in s && forall c :: c in s[1..] ==> c in s;
      NumberEnds(s[1..], t);
      assert (s + t)[1..] == s[1..] + t;
    }
  }

  function WordOf(k: Kind): string
  {
    match k case Passing => "passing" case Pending => "pending" case Failing => "failing"
  }

  /** A summary line of the merged log. */
  function SummaryLine(k: Kind, n: nat): string { "  " + (Decimal(n) + (" " + WordOf(k))) }

  lemma SkipTwo(s: string)
    requires s != "" && !IsSpace(s[0])
    ensures SkipSpace("  " + s) == s
  {
    SkipOne(s);
    assert ("  " + s)[1..] == " " + s;
  }

  lemma SkipOne(s: string)
    requires s != "" && !IsSpace(s[0])
    ensures SkipSpace(" " + s) == s
  {
    assert (" " + s)[1..] == s;
  }

  lemma WordReads(k: Kind)
    ensures KindAt(WordOf(k)) == Some(k) && !IsSpace(WordOf(k)[0])
  {
    assert WordOf(k)[..|WordOf(k)|] == WordOf(k);
    assert "pending"[..1] == "p" && "pending"[1] == 'e' && "passing"[1] == 'a' && "failing"[0] == 'f';
  }

  lemma DigitIsNoSpace(c: char)
    requires IsDigit(c)
    ensures !IsSpace(c)
  {
  }

  lemma LineReads(k: Kind, n: nat)
    ensures ParseLine(SummaryLine(k, n)) == Some((k, n))
  {
    var digits, word := Decimal(n), " " + WordOf(k);
    var s := digits + word;
    assert digits[0] in digits;
    DigitIsNoSpace(digits[0]);
    SkipTwo(s);
    NumberEnds(digits, word);
    DecimalReads(n);
    WordReads(k);
    SkipOne(WordOf(k));
    assert s[..|digits|] == digits && s[|digits|..] == word && s[|digits|] == ' ';
  }

  // ----- the end of the merged log --------------------------------------------------------

  function SummaryTail(passing: nat, pending: nat, failing: nat): seq<string>
  {
    [SummaryLine(Passing, passing), SummaryLine(Pending, pending), SummaryLine(Failing, failing), ""]
  }

  lemma TailCounts(c: Counts, passing: nat, pending: nat, failing: nat)
    ensures Counted(c, SummaryTail(passing, pending, failing)) == Counts(Some(passing), pending, failing)
  {
    var tail := SummaryTail(passing, pending, failing);
    LineReads(Passing, passing);
    LineReads(Pending, pending);
    LineReads(Failing, failing);
    var c1 := Set(c, Some((Passing, passing)));
    var c2 := Set(c1, Some((Pending, pending)));
    var c3 := Set(c2, Some((Failing, failing)));
    assert ParseLine("") == None;
    assert tail[1..][0] == tail[1] && tail[2..][0] == tail[2] && tail[3..][0] == tail[3];
    assert tail[1..][1..] == tail[2..] && tail[2..][1..] == tail[3..] && tail[3..][1..] == [];
    assert Counted(c3, tail[3..]) == c3;
    assert Counted(c2, tail[2..]) == c3;
    assert Counted(c1, tail[1..]) == c3;
  }

  /** Text that holds no escape, and lines that hold no line end, come out as they are. */
  predicate Plain(s: string) { forall c :: c in s ==> c != ESC && c != '\n' && c != '\r' }

  lemma {:induction false} PlainKept(s: string)
    requires Plain(s)
    ensures StripAnsi(s) == s && Split(s, '\n') == [s]
  {
    if s != "" {
      assert s[0] in s && forall c :: c in s[1..] ==> c in s;
      PlainKept(s[1..]);
      assert s == [s[0]] + s[1..];
    }
  }

  lemma {:induction false} PlainLines(lines: seq<string>)
    requires lines != [] && forall l :: l in lines ==> Plain(l)
    ensures StripAnsi(Join(lines, '\n')) == Join(lines, '\n') && Split(Join(lines, '\n'), '\n') == lines
  {
    assert lines[0] in lines;
    PlainKept(lines[0]);
    if |lines| == 1 {
      assert lines == [lines[0]];
    } else {
      assert forall l :: l in lines[1..] ==> l in lines;
      PlainLines(lines[1..]);
      var rest := Join(lines[1..], '\n');
      StripAnsiByLine(lines[0], rest);
      ConcatAssociates(lines[0], "\n", rest);
      SplitAppend(lines[0], rest, '\n');
      assert lines == [lines[0]] + lines[1..];
    }
  }

  lemma PlainChop(lines: seq<string>)
    requires lines != [] && forall l :: l in lines ==> Plain(l)
    ensures Lines(Join(lines, '\n')) == lines
  {
    PlainLines(lines);
    forall i | 0 <= i < |lines| ensures Chop(lines[i]) == lines[i] {
      assert Plain(lines[i]);
      assert lines[i] != "" ==> lines[i][|lines[i]| - 1] in lines[i];
    }
  }

  lemma SummaryIsPlain(k: Kind, n: nat)
    ensures Plain(SummaryLine(k, n))
  {
    assert forall c :: c in WordOf(k) ==> 'a' <= c <= 'z';
    assert forall c :: c in SummaryLine(k, n) ==> c == ' ' || c in Decimal(n) || c in WordOf(k);
  }

  /** Whatever comes before, a text that ends in the summary lines has their counts. */
  lemma SummaryWins(before: string, passing: nat, pending: nat, failing: nat)
    ensures CountSummaryOf(before + "\n" + Join(SummaryTail(passing, pending, failing), '\n'))
            == Counts(Some(passing), pending, failing)
  {
    var lines := SummaryTail(passing, pending, failing);
    var tail := Join(lines, '\n');
    SummaryIsPlain(Passing, passing);
    SummaryIsPlain(Pending, pending);
    SummaryIsPlain(Failing, failing);
    PlainLines(lines);
    PlainChop(lines);
    StripAnsiByLine(before, tail);
    LinesAppend(StripAnsi(before), tail);
    var head :| Lines(StripAnsi(before) + "\n" + tail) == head + Lines(tail);
    CountedAppend(Counts(None, 0, 0), head, lines);
    TailCounts(Counted(Counts(None, 0, 0), head), passing, pending, failing);
  }

  // ----- the shards -----------------------------------------------------------------------

  /** An extra suite a shard ran: its exit code and its log, with the script its banner names. */
  datatype Leg = Leg(exit: Option<string>, log: Option<string>, banner: Option<string>)

  datatype Status = Status(coin: string, shard: int, pattern: string, actionExit: Option<string>,
                           actionLog: Option<string>, legs: map<string, Leg>)

  /** A shard's entry in the plan, and its artifact: missing, without a status file, or with one. */
  datatype Entry = Entry(pattern: string, groups: string, extras: seq<string>)

  datatype Artifact = Missing | NoStatus | With(status: Status)

  /** `suite` is empty for a run of the whole action suite. */
  datatype Plan = Plan(count: string, suite: string, version: string, shards: seq<int>, entries: map<int, Entry>)

  datatype Reason =
    | Absent(n: int) | NoArtifact(n: int) | NoStatusFile(n: int)
    | WrongCoin(n: int) | WrongShard(n: int) | WrongPattern(n: int) | ActionExit(n: int)
    | NoActionLog(n: int) | NoSummary(n: int) | NoTests(n: int) | ActionFails(n: int)
    | LegExit(n: int, leg: string) | NoLegLog(n: int, leg: string) | WrongBanner(n: int, leg: string)
    | LegNoTests(n: int, leg: string) | LegFails(n: int, leg: string)

  function LegScript(leg: string): Option<string>
  {
    if leg == "security" then Some("test:security")
    else if leg == "performance" then Some("test:perf:budget")
    else None
  }

  function PassingOf(c: Counts): nat { if c.passing.Some? then c.passing.value else 0 }

  predicate RanClean(c: Counts) { c.passing.Some? && PassingOf(c) + c.failing > 0 && c.failing == 0 }

  predicate LegClean(status: Status, leg: string)
  {
    leg in status.legs && status.legs[leg].exit == Some("0") && status.legs[leg].log.Some?
    && LegScript(leg).Some? && status.legs[leg].banner == LegScript(leg)
    && RanClean(CountSummaryOf(status.legs[leg].log.value))
  }

  predicate ShardClean(coin: string, n: int, entry: Entry, artifact: Artifact)
  {
    artifact.With? &&
    var s := artifact.status;
    && s.coin == coin && s.shard == n && s.pattern == entry.pattern && s.actionExit == Some("0")
    && s.actionLog.Some? && RanClean(CountSummaryOf(s.actionLog.value))
    && forall leg :: leg in entry.extras ==> LegClean(s, leg)
  }

  method CheckLeg(n: int, status: Status, leg: string) returns (reasons: seq<Reason>)
    ensures reasons == [] <==> LegClean(status, leg)
  {
    reasons := [];
    var l := if leg in status.legs then status.legs[leg] else Leg(None, None, None);
    if l.exit != Some("0") { reasons := reasons + [LegExit(n, leg)]; }
    if l.log.None? { return reasons + [NoLegLog(n, leg)]; }
    if l.banner.None? || l.banner != LegScript(leg) { reasons := reasons + [WrongBanner(n, leg)]; }
    var counts := CountSummary(l.log.value);
    if counts.passing.None? || PassingOf(counts) + counts.failing == 0 { reasons := reasons + [LegNoTests(n, leg)]; }
    if counts.failing > 0 { reasons := reasons + [LegFails(n, leg)]; }
  }

  method CheckShard(coin: string, n: int, entry: Entry, artifact: Artifact) returns (reasons: seq<Reason>)
    ensures reasons == [] <==> ShardClean(coin, n, entry, artifact)
  {
    if artifact.Missing? { return [NoArtifact(n)]; }
    if artifact.NoStatus? { return [NoStatusFile(n)]; }
    var s := artifact.status;
    reasons := [];
    if s.coin != coin { reasons := reasons + [WrongCoin(n)]; }
    if s.shard != n { reasons := reasons + [WrongShard(n)]; }
    if s.pattern != entry.pattern { reasons := reasons + [WrongPattern(n)]; }
    if s.actionExit != Some("0") { reasons := reasons + [ActionExit(n)]; }
    if s.actionLog.None? {
      reasons := reasons + [NoActionLog(n)];
    } else {
      var counts := CountSummary(s.actionLog.value);
      if counts.passing.None? {
        reasons := reasons + [NoSummary(n)];
      } else if PassingOf(counts) + counts.failing == 0 {
        reasons := reasons + [NoTests(n)];
      }
      if counts.failing > 0 { reasons := reasons + [ActionFails(n)]; }
    }
    var i := 0;
    ghost var first := reasons == [];
    while i < |entry.extras|
      invariant i <= |entry.extras|
      invariant reasons == [] <==> first && forall leg :: leg in entry.extras[..i] ==> LegClean(s, leg)
    {
      assert entry.extras[..i + 1] == entry.extras[..i] + [entry.extras[i]];
      var more := CheckLeg(n, s, entry.extras[i]);
      reasons := reasons + more;
      i := i + 1;
    }
    assert entry.extras[..i] == entry.extras;
  }

  // ----- the merge ------------------------------------------------------------------------

  function ArtifactOf(artifacts: map<int, Artifact>, n: int): Artifact
  {
    if n in artifacts then artifacts[n] else Missing
  }

  ghost predicate AllClean(coin: string, plan: Plan, artifacts: map<int, Artifact>, shards: seq<int>)
  {
    forall n :: n in shards ==> n in plan.entries && ShardClean(coin, n, plan.entries[n], ArtifactOf(artifacts, n))
  }

  /** What a clean shard's own action log says. */
  function ShardCounts(artifacts: map<int, Artifact>, n: int): Counts
  {
    var a := ArtifactOf(artifacts, n);
    if a.With? && a.status.actionLog.Some? then CountSummaryOf(a.status.actionLog.value) else Counts(None, 0, 0)
  }

  datatype Total = Total(passing: nat, pending: nat, failing: nat)

  function Add(t: Total, c: Counts): Total
  {
    Total(t.passing + PassingOf(c), t.pending + c.pending, t.failing + c.failing)
  }

  function SumOf(counts: seq<Counts>): Total
  {
    if counts == [] then Total(0, 0, 0) else Add(SumOf(counts[..|counts| - 1]), counts[|counts| - 1])
  }

  lemma SumSnoc(counts: seq<Counts>, i: nat)
    requires i < |counts|
    ensures SumOf(counts[..i + 1]) == Add(SumOf(counts[..i]), counts[i])
  {
    assert counts[..i + 1][..i] == counts[..i];
  }

  lemma {:induction false} NoFailures(counts: seq<Counts>)
    requires forall i :: 0 <= i < |counts| ==> counts[i].failing == 0
    ensures SumOf(counts).failing == 0
  {
    if counts != [] { NoFailures(counts[..|counts| - 1]); }
  }

  /** The shards' own summaries, read from their logs one by one. */
  function AllCounts(artifacts: map<int, Artifact>, shards: seq<int>): (r: seq<Counts>)
    ensures |r| == |shards| && forall i :: 0 <= i < |shards| ==> r[i] == ShardCounts(artifacts, shards[i])
  {
    seq(|shards|, i requires 0 <= i < |shards| => ShardCounts(artifacts, shards[i]))
  }

  function Sums(artifacts: map<int, Artifact>, shards: seq<int>): Total { SumOf(AllCounts(artifacts, shards)) }

  function AsCounts(t: Total): Counts { Counts(Some(t.passing), t.pending, t.failing) }

  function ShardHeader(plan: Plan, n: string, groups: string): string
  {
    "=== shard " + n + "/" + plan.count + ": " + groups + " ==="
  }

  /** The banner a run is known by, which a single-suite dispatch does not get, and the command. */
  function Heading(plan: Plan): (r: seq<string>)
    ensures |r| == 4
  {
    [ "", Banner(plan), MOCHA + " (sharded " + plan.count + SHARDED_BY, "" ]
  }

  function Banner(plan: Plan): string
  {
    "> xchain-e2e-test@" + plan.version + " test" + (if plan.suite != "" then " [" + plan.suite + " only]" else "")
  }

  const MOCHA := "> mocha --timeout 0 --exit --require ./test/initialCheck.test.js 'test/actions/**/*.test.js'"
  const SHARDED_BY := " ways by nightly-e2e.yml; per-shard output follows)"

  function ActionLog(artifacts: map<int, Artifact>, n: int): string
  {
    var a := ArtifactOf(artifacts, n);
    if a.With? && a.status.actionLog.Some? then a.status.actionLog.value else ""
  }

  function GroupsOf(plan: Plan, n: int): string { if n in plan.entries then plan.entries[n].groups else "" }

  /** Every shard's log under its header, in plan order. `numeral` prints a shard's number. */
  function Bodies(plan: Plan, artifacts: map<int, Artifact>, shards: seq<int>, numeral: int -> string): seq<string>
  {
    if shards == [] then []
    else
      var n := shards[|shards| - 1];
      Bodies(plan, artifacts, shards[..|shards| - 1], numeral)
      + [ShardHeader(plan, numeral(n), GroupsOf(plan, n)), ActionLog(artifacts, n)]
  }

  function SummaryHeader(plan: Plan): string { "=== merged summary over " + plan.count + " shard(s) ===" }

  /** A merged log of some body and totals. */
  function LogOf(plan: Plan, body: seq<string>, t: Total): string
  {
    Join(Heading(plan) + body + [SummaryHeader(plan)] + SummaryTail(t.passing, t.pending, t.failing), '\n')
  }

  function MergedLog(plan: Plan, artifacts: map<int, Artifact>, numeral: int -> string): string
  {
    LogOf(plan, Bodies(plan, artifacts, plan.shards, numeral), Sums(artifacts, plan.shards))
  }

  /** A merged log reads back as its totals, whatever its body is. */
  lemma LogCounts(plan: Plan, body: seq<string>, t: Total)
    ensures CountSummaryOf(LogOf(plan, body, t)) == AsCounts(t)
  {
    var before := Heading(plan) + body + [SummaryHeader(plan)];
    SummaryWins(Join(before, '\n'), t.passing, t.pending, t.failing);
    JoinAppend(before, SummaryTail(t.passing, t.pending, t.failing), '\n');
  }

  lemma {:induction false} BodiesSplit(plan: Plan, artifacts: map<int, Artifact>, shards: seq<int>,
                                       numeral: int -> string, i: nat)
    requires i < |shards|
    ensures exists more ::
              Bodies(plan, artifacts, shards, numeral)
              == Bodies(plan, artifacts, shards[..i], numeral)
                 + [ShardHeader(plan, numeral(shards[i]), GroupsOf(plan, shards[i])), ActionLog(artifacts, shards[i])]
                 + more
  {
    var n := |shards| - 1;
    var upTo := Bodies(plan, artifacts, shards[..i], numeral);
    var turn := [ShardHeader(plan, numeral(shards[i]), GroupsOf(plan, shards[i])), ActionLog(artifacts, shards[i])];
    if i == n {
      assert Bodies(plan, artifacts, shards, numeral) == upTo + turn + [];
    } else {
      BodiesSplit(plan, artifacts, shards[..n], numeral, i);
      assert shards[..n][..i] == shards[..i];
      var more :| Bodies(plan, artifacts, shards[..n], numeral) == upTo + turn + more;
      var last := [ShardHeader(plan, numeral(shards[n]), GroupsOf(plan, shards[n])), ActionLog(artifacts, shards[n])];
      ConcatAssociates(upTo + turn, more, last);
      assert Bodies(plan, artifacts, shards, numeral) == upTo + turn + (more + last);
    }
  }

  lemma Regroup<T>(h: seq<T>, u: seq<T>, x: seq<T>, m: seq<T>, k: seq<T>, t: seq<T>)
    ensures h + (u + x + m) + k + t == h + u + x + (m + k + t)
  {
  }

  ghost predicate HoldsLog(log: string, header: string, text: string)
  {
    exists before, after :: log == before + "\n" + header + "\n" + text + "\n" + after
  }

  lemma LogHolds(plan: Plan, upTo: seq<string>, header: string, text: string, more: seq<string>, t: Total)
    ensures HoldsLog(LogOf(plan, upTo + [header, text] + more, t), header, text)
  {
    var tail := SummaryTail(t.passing, t.pending, t.failing);
    Regroup(Heading(plan), upTo, [header, text], more, [SummaryHeader(plan)], tail);
    JoinAround(Heading(plan) + upTo, header, text, more + [SummaryHeader(plan)] + tail);
  }

  /** Every shard's log is in the merged log unabridged, right after its header. */
  lemma ShardLogIsWhole(plan: Plan, artifacts: map<int, Artifact>, numeral: int -> string, i: nat)
    requires i < |plan.shards|
    ensures HoldsLog(MergedLog(plan, artifacts, numeral),
                     ShardHeader(plan, numeral(plan.shards[i]), GroupsOf(plan, plan.shards[i])),
                     ActionLog(artifacts, plan.shards[i]))
  {
    var header := ShardHeader(plan, numeral(plan.shards[i]), GroupsOf(plan, plan.shards[i]));
    var text := ActionLog(artifacts, plan.shards[i]);
    BodiesSplit(plan, artifacts, plan.shards, numeral, i);
    var upTo := Bodies(plan, artifacts, plan.shards[..i], numeral);
    var more :| Bodies(plan, artifacts, plan.shards, numeral) == upTo + [header, text] + more;
    LogHolds(plan, upTo, header, text, more, Sums(artifacts, plan.shards));
  }

  lemma JoinAround(a: seq<string>, header: string, text: string, b: seq<string>)
    requires a != [] && b != []
    ensures Join(a + [header, text] + b, '\n')
            == Join(a, '\n') + "\n" + header + "\n" + text + "\n" + Join(b, '\n')
  {
    JoinAppend(a + [header, text], b, '\n');
    JoinAppend(a, [header, text], '\n');
    assert Join([header, text], '\n') == header + "\n" + text;
    assert Join(a, '\n') + "\n" + (header + "\n" + text) == Join(a, '\n') + "\n" + header + "\n" + text;
  }

  /** The merged log is written exactly when every planned shard is clean; it is the shards' logs under
      their headers, and its own summary is the sum of theirs, whatever they contain. */
  method Merge(coin: string, plan: Plan, artifacts: map<int, Artifact>, numeral: int -> string)
      returns (reasons: seq<Reason>, log: Option<string>)
    ensures log.Some? <==> reasons == []
    ensures log.Some? <==> AllClean(coin, plan, artifacts, plan.shards)
    ensures log.Some? ==> log.value == MergedLog(plan, artifacts, numeral)
    ensures log.Some? ==> CountSummaryOf(log.value)
                          == AsCounts(Sums(artifacts, plan.shards))
    ensures log.Some? ==> Sums(artifacts, plan.shards).failing == 0
  {
    reasons := [];
    for i := 0 to |plan.shards|
      invariant reasons == [] <==> AllClean(coin, plan, artifacts, plan.shards[..i])
    {
      var n := plan.shards[i];
      assert plan.shards[..i + 1] == plan.shards[..i] + [n];
      if n !in plan.entries {
        reasons := reasons + [Absent(n)];
      } else {
        var more := CheckShard(coin, n, plan.entries[n], ArtifactOf(artifacts, n));
        reasons := reasons + more;
      }
    }
    assert plan.shards[..|plan.shards|] == plan.shards;
    if reasons != [] { return reasons, None; }
    CleanIsLogged(coin, plan, artifacts);
    assert forall i :: 0 <= i < |plan.shards| ==> HasLog(artifacts, plan, plan.shards[i]);
    NoFailures(AllCounts(artifacts, plan.shards));
    var totals, body := Totals(plan, artifacts, numeral);
    LogCounts(plan, body, totals);
    log := Some(LogOf(plan, body, totals));
  }

  lemma CleanHasLog(coin: string, plan: Plan, artifacts: map<int, Artifact>, n: int)
    requires AllClean(coin, plan, artifacts, plan.shards) && n in plan.shards
    ensures n in plan.entries && n in artifacts && artifacts[n].With? && artifacts[n].status.actionLog.Some?
    ensures CountSummaryOf(artifacts[n].status.actionLog.value).failing == 0
  {
    assert ShardClean(coin, n, plan.entries[n], ArtifactOf(artifacts, n));
  }

  /** One shard's turn: its own summary on top of the sums, and its log after a heading. */
  method AddShard(artifacts: map<int, Artifact>, plan: Plan, n: int, numeral: int -> string, totals: Total)
      returns (more: Total, lines: seq<string>)
    requires n in plan.entries && n in artifacts && artifacts[n].With? && artifacts[n].status.actionLog.Some?
    ensures more == Add(totals, ShardCounts(artifacts, n))
    ensures lines == [ShardHeader(plan, numeral(n), GroupsOf(plan, n)), ActionLog(artifacts, n)]
  {
    var text := artifacts[n].status.actionLog.value;
    var counts := CountSummary(text);
    more := Add(totals, counts);
    lines := [ShardHeader(plan, numeral(n), plan.entries[n].groups), text];
  }

  /** Every planned shard has an action log without failures. */
  ghost predicate Logged(artifacts: map<int, Artifact>, plan: Plan)
  {
    forall i :: 0 <= i < |plan.shards| ==> HasLog(artifacts, plan, plan.shards[i])
  }

  predicate HasLog(artifacts: map<int, Artifact>, plan: Plan, n: int)
  {
    n in plan.entries && n in artifacts && artifacts[n].With? && artifacts[n].status.actionLog.Some?
    && ShardCounts(artifacts, n).failing == 0
  }

  lemma CleanIsLogged(coin: string, plan: Plan, artifacts: map<int, Artifact>)
    requires AllClean(coin, plan, artifacts, plan.shards)
    ensures Logged(artifacts, plan)
  {
    forall i | 0 <= i < |plan.shards| ensures HasLog(artifacts, plan, plan.shards[i]) {
      CleanHasLog(coin, plan, artifacts, plan.shards[i]);
    }
  }

  method Totals(plan: Plan, artifacts: map<int, Artifact>, numeral: int -> string)
      returns (totals: Total, body: seq<string>)
    requires Logged(artifacts, plan)
    ensures totals == Sums(artifacts, plan.shards)
    ensures body == Bodies(plan, artifacts, plan.shards, numeral)
  {
    totals, body := Total(0, 0, 0), [];
    ghost var counts := AllCounts(artifacts, plan.shards);
    for i := 0 to |plan.shards|
      invariant totals == SumOf(counts[..i])
      invariant body == Bodies(plan, artifacts, plan.shards[..i], numeral)
    {
      assert HasLog(artifacts, plan, plan.shards[i]);
      SumSnoc(counts, i);
      assert plan.shards[..i + 1][..i] == plan.shards[..i];
      var lines;
      totals, lines := AddShard(artifacts, plan, plan.shards[i], numeral, totals);
      body := body + lines;
    }
    assert counts[..|counts|] == counts && plan.shards[..|plan.shards|] == plan.shards;
  }

  lemma {:induction false} JoinAppend(a: seq<string>, b: seq<string>, sep: char)
    requires a != [] && b != []
    ensures Join(a + b, sep) == Join(a, sep) + [sep] + Join(b, sep)
  {
    assert (a + b)[1..] == a[1..] + b;
    if |a| > 1 {
      JoinAppend(a[1..], b, sep);
      ConcatAssociates(a[0] + [sep], Join(a[1..], sep) + [sep], Join(b, sep));
    } else {
      assert a[1..] + b == b;
    }
  }
}
