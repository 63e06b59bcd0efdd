/** The shard merge written out: escapes, summary lines, what a clean shard is, and the merged log. */
module ShardLog {
  import opened Base
  import opened ShardMerge

  // ----- terminal escapes -----------------------------------------------------------------

  ghost predicate Within(s: string, low: int, high: int) { forall i :: 0 <= i < |s| ==> low <= s[i] as int <= high }

  /** After ESC and a bracket: any parameters, any intermediates, and one final character. */
  ghost predicate Control(params: string, inter: string, final: char)
  {
    Within(params, 48, 63) && Within(inter, 32, 47) && 64 <= final as int <= 126
  }

  lemma {:induction false} IntermediatesRead(inter: string, final: char, rest: string, inParams: bool)
    requires Within(inter, 32, 47) && 64 <= final as int <= 126
    ensures ControlLength(inter + ([final] + rest), inParams) == Some(|inter| + 1)
  {
    var s := inter + ([final] + rest);
    if inter == "" {
      assert s == [final] + rest;
    } else {
      IntermediatesRead(inter[1..], final, rest, false);
      assert s[0] == inter[0] && s[1..] == inter[1..] + ([final] + rest);
    }
  }

  lemma {:induction false} ParametersRead(params: string, inter: string, final: char, rest: string)
    requires Control(params, inter, final)
    ensures ControlLength(params + (inter + ([final] + rest)), true) == Some(|params| + |inter| + 1)
  {
    var tail := inter + ([final] + rest);
    var s := params + tail;
    if params == "" {
      assert s == tail;
      IntermediatesRead(inter, final, rest, true);
    } else {
      ParametersRead(params[1..], inter, final, rest);
      assert s[0] == params[0] && s[1..] == params[1..] + tail;
    }
  }

  /** A control sequence is cut away whole. */
  lemma ControlIsCut(params: string, inter: string, final: char, rest: string)
    requires Control(params, inter, final)
    ensures StripAnsi("\U{1b}[" + (params + (inter + ([final] + rest)))) == StripAnsi(rest)
  {
    var body := params + (inter + ([final] + rest));
    var s, n := "\U{1b}[" + body, |params| + |inter| + 1;
    ParametersRead(params, inter, final, rest);
    assert s[0] == '\U{1b}' && s[1] == '[' && s[2..] == body;
    assert EscapeLength(s) == Some(n + 2);
    assert body[n..] == rest && s[n + 2..] == body[n..];
  }

  /** And so is a two-character escape. */
  lemma EscapeIsCut(second: char, rest: string)
    requires 64 <= second as int <= 90 || 92 <= second as int <= 95
    ensures StripAnsi("\U{1b}" + ([second] + rest)) == StripAnsi(rest)
  {
    var s := "\U{1b}" + ([second] + rest);
    assert s[0] == '\U{1b}' && s[1] == second && s[2..] == rest;
  }

  /** Any other text stays: a character that is no ESC, and an ESC that begins no escape. */
  lemma OtherTextStays(c: char, rest: string)
    ensures c as int != 27 ==> StripAnsi([c] + rest) == [c] + StripAnsi(rest)
    ensures StripAnsi("\U{1b}") == "\U{1b}"
    ensures rest != "" && (rest[0] as int < 64 || rest[0] as int > 95) ==>
              StripAnsi("\U{1b}" + rest) == "\U{1b}" + StripAnsi(rest)
  {
    assert ([c] + rest)[0] == c && ([c] + rest)[1..] == rest;
    assert "\U{1b}"[1..] == "";
    assert ("\U{1b}" + rest)[1..] == rest && (rest != "" ==> ("\U{1b}" + rest)[1] == rest[0]);
  }

  /** A line ends at a newline, and a carriage return right before it belongs to the end; the last line ends
      with the text. */
  lemma LinesMean(line: string, rest: string)
    requires '\n' !in line
    ensures Lines(line) == [line]
    ensures var carried := line != "" && line[|line| - 1] as int == 13;
            Lines(line + "\n" + rest) == [if carried then line[..|line| - 1] else line] + Lines(rest)
  {
    SplitWhole(line, '\n');
    SplitHead(line, rest, '\n');
    assert line + "\n" + rest == line + ['\n'] + rest;
    FirstLine(line, Split(rest, '\n'), line + "\n" + rest, rest);
  }

  lemma LineAt(text: string, pieces: seq<string>, i: nat)
    requires Split(text, '\n') == pieces && i < |pieces|
    ensures |Lines(text)| == |pieces|
    ensures Lines(text)[i] == if i < |pieces| - 1 then Chop(pieces[i]) else pieces[i]
  {
  }

  lemma FirstLine(line: string, more: seq<string>, text: string, rest: string)
    requires Split(text, '\n') == [line] + more && Split(rest, '\n') == more
    ensures Lines(text) == [Chop(line)] + Lines(rest)
  {
    LineAt(text, [line] + more, 0);
    LineAt(rest, more, 0);
    var a, b := Lines(text), [Chop(line)] + Lines(rest);
    forall i | 0 <= i < |a| ensures a[i] == b[i] {
      LineAt(text, [line] + more, i);
      if i > 0 { LineAt(rest, more, i - 1); }
    }
  }

  // ----- summary lines --------------------------------------------------------------------

  ghost predicate Blank(s: string) { forall i :: 0 <= i < |s| ==> IsSpace(s[i]) }

  ghost predicate Figures(s: string)
  {
    s != "" && forall i :: 0 <= i < |s| ==> 48 <= s[i] as int <= 57 || s[i] as int == 44
  }

  /** Nothing, or something that does not go on the word before it. */
  ghost predicate NoLetter(s: string)
  {
    s != "" ==>
      var u := s[0] as int; !(48 <= u <= 57 || 65 <= u <= 90 || 97 <= u <= 122 || u == 95)
  }

  lemma {:induction false} SkipsBlank(pre: string, s: string)
    requires Blank(pre) && (s == "" || !IsSpace(s[0]))
    ensures SkipSpace(pre + s) == s
  {
    if pre == "" {
      assert pre + s == s;
    } else {
      SkipsBlank(pre[1..], s);
      assert (pre + s)[1..] == pre[1..] + s && (pre + s)[0] == pre[0];
    }
  }

  lemma {:induction false} FiguresEnd(num: string, s: string)
    requires (forall i :: 0 <= i < |num| ==> 48 <= num[i] as int <= 57 || num[i] as int == 44)
    requires s != "" && IsSpace(s[0])
    ensures NumberLength(num + s) == |num|
  {
    if num == "" {
      assert num + s == s;
    } else {
      FiguresEnd(num[1..], s);
      assert (num + s)[1..] == num[1..] + s && (num + s)[0] == num[0];
    }
  }

  ghost function Word(k: Kind): string
  {
    if k == Passing then "passing" else if k == Pending then "pending" else "failing"
  }

  lemma WordIsFound(k: Kind, rest: string)
    requires NoLetter(rest)
    ensures KindAt(Word(k) + rest) == Some(k) && !IsSpace((Word(k) + rest)[0])
  {
    var s := Word(k) + rest;
    assert s[..7] == Word(k) && (rest != "" ==> s[7] == rest[0]);
    assert s[0] == Word(k)[0] && s[1] == Word(k)[1];
    assert "pending"[1] == 'e' && "passing"[1] == 'a' && "failing"[0] == 'f' && "passing"[0] == 'p';
    assert |s| >= 7 && s[..7][0] == s[0] && s[..7][1] == s[1];
  }

  /** A line is read as a summary when it is white space or none, figures, white space, and one of the
      three words on its own: as the number the figures make. */
  lemma SummaryIsRead(pre: string, num: string, gap: string, k: Kind, rest: string)
    requires Blank(pre) && Figures(num) && gap != "" && Blank(gap) && NoLetter(rest)
    ensures ParseLine(pre + (num + (gap + (Word(k) + rest)))) == Some((k, ValueOf(num)))
  {
    var word := Word(k) + rest;
    var tail := gap + word;
    var s := num + tail;
    WordIsFound(k, rest);
    assert s[0] == num[0] && tail[0] == gap[0];
    FigureIsNoSpace(num[0]);
    SkipsBlank(pre, s);
    FiguresEnd(num, tail);
    SkipsBlank(gap, word);
    assert s[..|num|] == num && s[|num|..] == tail && s[|num|] == gap[0];
  }

  /** But not when a letter, a figure or an underscore goes on the word. */
  lemma LongerWordIsNone(pre: string, num: string, gap: string, k: Kind, rest: string)
    requires Blank(pre) && Figures(num) && gap != "" && Blank(gap) && !NoLetter(rest)
    ensures ParseLine(pre + (num + (gap + (Word(k) + rest)))) == None
  {
    var word := Word(k) + rest;
    var tail := gap + word;
    var s := num + tail;
    LongerWord(k, rest);
    assert s[0] == num[0] && tail[0] == gap[0];
    FigureIsNoSpace(num[0]);
    SkipsBlank(pre, s);
    FiguresEnd(num, tail);
    SkipsBlank(gap, word);
    assert s[..|num|] == num && s[|num|..] == tail && s[|num|] == gap[0];
  }

  lemma LongerWord(k: Kind, rest: string)
    requires !NoLetter(rest)
    ensures KindAt(Word(k) + rest) == None && !IsSpace((Word(k) + rest)[0])
  {
    var s := Word(k) + rest;
    assert s[7] == rest[0] && IsWord(rest[0]) && s[0] == Word(k)[0];
    assert |"passing"| == 7 && |"pending"| == 7 && |"failing"| == 7;
  }

  lemma FigureIsNoSpace(c: char)
    requires 48 <= c as int <= 57 || c as int == 44
    ensures !IsSpace(c)
  {
  }

  /** Figures are read in tens, and commas between them do not count. */
  lemma FiguresMean(num: string, c: char)
    ensures ValueOf("") == 0
    ensures 48 <= c as int <= 57 ==> ValueOf(num + [c]) == 10 * ValueOf(num) + (c as int - 48)
    ensures c == ',' ==> ValueOf(num + [c]) == ValueOf(num)
  {
    assert (num + [c])[..|num|] == num && (num + [c])[|num|] == c;
  }

  // ----- a clean shard --------------------------------------------------------------------

  /** The log's summary has a passing line, more than no test, and no failing one. */
  ghost predicate AllPassed(log: string)
  {
    var c := CountSummaryOf(log);
    c.passing.Some? && c.passing.value > 0 && c.failing == 0
  }

  ghost predicate ExtraPassed(leg: string, run: Leg)
  {
    && run.exit == Some("0") && run.log.Some? && AllPassed(run.log.value)
    && ((leg == "security" && run.banner == Some("test:security"))
        || (leg == "performance" && run.banner == Some("test:perf:budget")))
  }

  /** A shard is clean exactly when its artifact has a status file, for this coin, shard and pattern, whose
      action suite ended with 0 and passed, and every extra suite the plan gives it did too, under its own
      banner. */
  lemma CleanMeans(coin: string, n: int, entry: Entry, artifact: Artifact)
    ensures ShardClean(coin, n, entry, artifact) <==>
      && artifact.With? && artifact.status.coin == coin && artifact.status.shard == n
      && artifact.status.pattern == entry.pattern && artifact.status.actionExit == Some("0")
      && artifact.status.actionLog.Some? && AllPassed(artifact.status.actionLog.value)
      && forall leg :: leg in entry.extras ==>
           leg in artifact.status.legs && ExtraPassed(leg, artifact.status.legs[leg])
  {
  }

  // ----- the merged log -------------------------------------------------------------------

  ghost function Total3(counts: seq<Counts>): (nat, nat, nat)
  {
    if counts == [] then (0, 0, 0)
    else
      var c, rest := counts[0], Total3(counts[1..]);
      ((match c.passing case Some(p) => p case None => 0) + rest.0, c.pending + rest.1, c.failing + rest.2)
  }

  lemma {:induction false} Total3Snoc(counts: seq<Counts>, c: Counts)
    ensures var t, r := Total3(counts), Total3(counts + [c]);
      r.0 == t.0 + (match c.passing case Some(p) => p case None => 0)
      && r.1 == t.1 + c.pending && r.2 == t.2 + c.failing
  {
    if counts == [] {
      assert (counts + [c])[1..] == [];
    } else {
      Total3Snoc(counts[1..], c);
      assert (counts + [c])[1..] == counts[1..] + [c];
    }
  }

  lemma {:induction false} SumsMean(counts: seq<Counts>)
    ensures var s, t := SumOf(counts), Total3(counts);
            s.passing == t.0 && s.pending == t.1 && s.failing == t.2
  {
    if counts != [] {
      var n := |counts| - 1;
      SumsMean(counts[..n]);
      Total3Snoc(counts[..n], counts[n]);
      assert counts == counts[..n] + [counts[n]];
    }
  }

  lemma {:induction false} JoinOfFour(a: string, b: string, c: string, d: string)
    ensures Join([a, b, c, d], '\n') == a + ("\n" + b + ("\n" + c + ("\n" + d)))
  {
    assert [a, b, c, d][1..] == [b, c, d] && [b, c, d][1..] == [c, d] && [c, d][1..] == [d];
    assert Join([c, d], '\n') == c + ['\n'] + d;
    assert Join([b, c, d], '\n') == b + ['\n'] + Join([c, d], '\n');
    assert Join([a, b, c, d], '\n') == a + ['\n'] + Join([b, c, d], '\n');
  }

  /** The banner the whole suite is known by, or for a single suite one that is not, and the command. */
  ghost function HeadText(plan: Plan): string
  {
    "\n> xchain-e2e-test@" + plan.version + " test" + (if plan.suite == "" then "" else " [" + plan.suite + " only]")
    + "\n" + "> mocha --timeout 0 --exit --require ./test/initialCheck.test.js 'test/actions/**/*.test.js'"
    + " (sharded " + plan.count + " ways by nightly-e2e.yml; per-shard output follows)\n"
  }

  ghost function TailText(p: nat, q: nat, r: nat): string
  {
    "  " + Decimal(p) + " passing\n  " + Decimal(q) + " pending\n  " + Decimal(r) + " failing\n"
  }

  /** The merged log opens with its heading, and ends with its own header and the three totals. */
  lemma MergedLogReads(plan: Plan, artifacts: map<int, Artifact>, numeral: int -> string)
      returns (middle: string)
    ensures var t := Total3(AllCounts(artifacts, plan.shards));
      MergedLog(plan, artifacts, numeral)
      == HeadText(plan) + "\n" + (middle + ("=== merged summary over " + plan.count + " shard(s) ==="))
         + "\n" + TailText(t.0, t.1, t.2)
  {
    var sums := Sums(artifacts, plan.shards);
    SumsMean(AllCounts(artifacts, plan.shards));
    HeadingReads(plan);
    TailReads(sums.passing, sums.pending, sums.failing);
    middle := JoinMiddle(Heading(plan), Bodies(plan, artifacts, plan.shards, numeral), SummaryHeader(plan),
                         SummaryTail(sums.passing, sums.pending, sums.failing));
  }

  lemma JoinMiddle(head: seq<string>, body: seq<string>, over: string, tail: seq<string>) returns (middle: string)
    requires head != [] && tail != []
    ensures Join(head + body + [over] + tail, '\n')
            == Join(head, '\n') + "\n" + (middle + over) + "\n" + Join(tail, '\n')
  {
    JoinAppend(head + body + [over], tail, '\n');
    if body == [] {
      middle := "";
      assert head + body + [over] == head + [over] && middle + over == over;
      JoinAppend(head, [over], '\n');
    } else {
      middle := Join(body, '\n') + "\n";
      JoinAppend(body, [over], '\n');
      JoinAppend(head, body + [over], '\n');
      assert head + body + [over] == head + (body + [over]);
    }
  }

  lemma HeadingReads(plan: Plan)
    ensures Join(Heading(plan), '\n') == HeadText(plan)
  {
    var command := MOCHA + " (sharded " + plan.count + SHARDED_BY;
    JoinOfFour("", Banner(plan), command, "");
    HeadSpelled(plan.version, if plan.suite == "" then "" else " [" + plan.suite + " only]", MOCHA, plan.count);
    assert "" + ("\n" + Banner(plan) + ("\n" + command + ("\n" + ""))) == "\n" + Banner(plan) + ("\n" + command + "\n");
  }

  lemma HeadSpelled(version: string, only: string, mocha: string, count: string)
    ensures "\n> xchain-e2e-test@" + version + " test" + only
            + "\n" + mocha + " (sharded " + count + " ways by nightly-e2e.yml; per-shard output follows)\n"
            == "\n" + ("> xchain-e2e-test@" + version + " test" + only)
               + ("\n" + (mocha + " (sharded " + count + SHARDED_BY) + "\n")
  {
    assert "\n> xchain-e2e-test@" == "\n" + "> xchain-e2e-test@";
    assert " ways by nightly-e2e.yml; per-shard output follows)\n" == SHARDED_BY + "\n";
  }

  lemma TailReads(p: nat, q: nat, r: nat)
    ensures Join(SummaryTail(p, q, r), '\n') == TailText(p, q, r)
  {
    JoinOfFour(SummaryLine(Passing, p), SummaryLine(Pending, q), SummaryLine(Failing, r), "");
    TailSpelled(Decimal(p), Decimal(q), Decimal(r));
  }

  lemma TailSpelled(p: string, q: string, r: string)
    ensures "  " + p + " passing\n  " + q + " pending\n  " + r + " failing\n"
            == "  " + (p + (" " + "passing")) + ("\n" + ("  " + (q + (" " + "pending")))
               + ("\n" + ("  " + (r + (" " + "failing"))) + ("\n" + "")))
  {
    assert " passing\n  " == " " + "passing" + "\n" + "  ";
    assert " pending\n  " == " " + "pending" + "\n" + "  ";
    assert " failing\n" == " " + "failing" + "\n";
  }

  /** Every shard's log is in it unabridged, after a line with its number, how many there are, and its
      groups. */
  lemma ShardIsNamed(plan: Plan, artifacts: map<int, Artifact>, numeral: int -> string, i: nat)
    requires i < |plan.shards| && HasLog(artifacts, plan, plan.shards[i])
    ensures var n := plan.shards[i];
      HoldsLog(MergedLog(plan, artifacts, numeral),
               "=== shard " + numeral(n) + "/" + plan.count + ": " + plan.entries[n].groups + " ===",
               artifacts[n].status.actionLog.value)
  {
    ShardLogIsWhole(plan, artifacts, numeral, i);
  }
}
