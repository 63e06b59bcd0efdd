/** The two scanners on the text they are for: comments, literals and code, brackets and commas. */
module CommentText {
  import opened Base
  import opened CommentScan

  ghost predicate Quote(q: char) { q as int == 39 || q as int == 34 || q as int == 96 }

  // ----- comments -------------------------------------------------------------------------

  lemma {:induction false} LineEnds(a: string, t: string)
    requires '\n' !in a
    ensures LineLength(a) == |a| && LineLength(a + ("\n" + t)) == |a|
  {
    var s := a + ("\n" + t);
    if a == "" {
      assert s[0] == '\n';
    } else {
      assert a == [a[0]] + a[1..];
      LineEnds(a[1..], t);
      assert s[0] == a[0] && s[1..] == a[1..] + ("\n" + t);
    }
  }

  /** A line comment becomes as many spaces, up to the newline, which stays or is added. */
  lemma LineCommentIsBlanked(a: string, t: string) returns (r: string)
    requires '\n' !in a
    ensures |r| == |a| + 2 && forall i :: 0 <= i < |r| ==> r[i] == ' '
    ensures Scan("//" + (a + ("\n" + t)), None) == r + "\n" + Scan(t, None)
    ensures Scan("//" + a, None) == r + "\n"
  {
    var c := "//" + a;
    assert c[0] == '/' && c[1] == '/' && '\n' !in c;
    assert "//" + (a + ("\n" + t)) == c + ("\n" + t);
    LineEnds(c, t);
    SlashesToNewline(c, t, c + ("\n" + t));
    SlashesToEnd(c);
    r := Spaces(|c|);
    assert forall i :: 0 <= i < |r| ==> r[i] in r;
  }

  lemma SlashesToNewline(c: string, t: string, s: string)
    requires Opens(c, '/') && s == c + ("\n" + t) && LineLength(s) == |c|
    ensures Scan(s, None) == Spaces(|c|) + "\n" + Scan(t, None)
  {
    SlashesOpen(c, t, s);
    ScanLine(s, t);
  }

  lemma SlashesOpen(c: string, t: string, s: string)
    requires Opens(c, '/') && s == c + ("\n" + t)
    ensures Opens(s, '/') && Rest(s, |c| + 1) == t
  {
    assert s[0] == c[0] && s[1] == c[1] && s[|c| + 1..] == t;
  }

  lemma SlashesToEnd(c: string)
    requires Opens(c, '/') && LineLength(c) == |c|
    ensures Scan(c, None) == Spaces(|c|) + "\n"
  {
    ScanLine(c, "");
    assert Scan("", None) == "";
  }

  /** Nowhere at or after `from` is the end of a block comment. */
  ghost predicate NoEnd(s: string, from: nat)
  {
    forall i :: from <= i < |s| - 1 ==> !(s[i] == '*' && s[i + 1] == '/')
  }

  lemma {:induction false} BlockEnds(s: string, from: nat, end: nat)
    requires from <= end && end + 2 <= |s| && s[end] == '*' && s[end + 1] == '/'
    requires forall i :: from <= i < end ==> !(s[i] == '*' && s[i + 1] == '/')
    ensures BlockLength(s, from) == end + 2
    decreases end - from
  {
    if from < end { BlockEnds(s, from + 1, end); }
  }

  lemma {:induction false} BlockRuns(s: string, from: nat)
    requires from <= |s| && NoEnd(s, from)
    ensures BlockLength(s, from) == |s|
    decreases |s| - from
  {
    if from + 2 <= |s| { BlockRuns(s, from + 1); }
  }

  /** What blanking leaves of a comment: its newlines. */
  ghost predicate BlankOf(r: string, s: string)
  {
    |r| == |s| && forall i :: 0 <= i < |s| ==> r[i] == if s[i] as int == 10 then '\n' else ' '
  }

  /** A block comment becomes blanks up to the first end after its opening, and its newlines stay; one that
      is never closed runs to the end of the text. */
  lemma BlockCommentIsBlanked(a: string, t: string) returns (r: string)
    requires NoEnd("/*" + (a + "*"), 2)
    ensures BlankOf(r, "/*" + (a + "*/")) && Scan("/*" + (a + ("*/" + t)), None) == r + Scan(t, None)
  {
    var c, s, end := "/*" + (a + "*/"), "/*" + (a + ("*/" + t)), |a| + 2;
    assert s == c + t && s[0] == '/' && s[1] == '*' && s[end] == '*' && s[end + 1] == '/';
    var open := "/*" + (a + "*");
    forall i | 2 <= i < end ensures !(s[i] == '*' && s[i + 1] == '/') {
      assert s[i] == open[i] && s[i + 1] == open[i + 1];
    }
    BlockEnds(s, 2, end);
    assert s[..end + 2] == c && s[end + 2..] == t;
    r := Blanked(c);
  }

  lemma OpenCommentIsBlanked(a: string) returns (r: string)
    requires NoEnd("/*" + a, 2)
    ensures BlankOf(r, "/*" + a) && Scan("/*" + a, None) == r
  {
    var s := "/*" + a;
    assert s[0] == '/' && s[1] == '*';
    BlockRuns(s, 2);
    assert s[..|s|] == s && s[|s|..] == "";
    r := Blanked(s);
    assert r + "" == r;
  }

  /** Code stays: a character that opens neither a literal nor a comment comes out as it is, and so does a
      literal of any of the three quotes, whatever stands in it. */
  lemma CodeStays(c: char, body: string, q: char, t: string)
    ensures !Quote(c) && !(c == '/' && t != "" && (t[0] == '/' || t[0] == '*')) ==>
              Scan([c] + t, None) == [c] + Scan(t, None)
    ensures Quote(q) && LiteralBody(body, q) ==>
              Scan([q] + (body + ([q] + t)), None) == [q] + (body + ([q] + Scan(t, None)))
  {
    var s := [c] + t;
    assert s[0] == c && s[1..] == t && (t != "" ==> s[1] == t[0]);
    if Quote(q) && LiteralBody(body, q) { LiteralsKept(body, q, t); }
  }

  /** Which insides a literal can have: nothing, an escaped pair and then such an inside, or a character that
      is neither the quote nor a backslash and then such an inside. */
  lemma LiteralsAre(body: string, q: char, c: char)
    ensures LiteralBody("", q)
    ensures LiteralBody("\\" + ([c] + body), q) <==> LiteralBody(body, q)
    ensures c as int != 92 ==> (LiteralBody([c] + body, q) <==> c != q && LiteralBody(body, q))
    ensures !LiteralBody("\\", q)
  {
    assert ("\\" + ([c] + body))[2..] == body && ([c] + body)[1..] == body;
  }

  // ----- brackets and commas --------------------------------------------------------------

  function After(s: string): Nesting { NestingAt(s, |s|) }

  lemma {:induction false} PrefixNests(s: string, t: string, k: nat)
    requires k <= |s|
    ensures NestingAt(s + t, k) == NestingAt(s, k)
  {
    if k > 0 {
      PrefixNests(s, t, k - 1);
      assert (s + t)[k - 1] == s[k - 1] && (k > 1 ==> (s + t)[k - 2] == s[k - 2]);
    }
  }

  /** Outside a literal an opening bracket goes one deeper, a closing one comes one back, a quote begins a
      literal, and nothing else changes where the scan is. */
  lemma OneCharacter(s: string, c: char)
    requires After(s).quote.None?
    ensures var u := c as int;
      After(s + [c]) ==
        if u == 91 || u == 123 || u == 40 then Nesting(After(s).depth + 1, None)
        else if u == 93 || u == 125 || u == 41 then Nesting(After(s).depth - 1, None)
        else if Quote(c) then Nesting(After(s).depth, Some(c))
        else After(s)
  {
    PrefixNests(s, [c], |s|);
    assert (s + [c])[|s|] == c;
    assert c in "[{(" <==> c == '[' || c == '{' || c == '(';
    assert c in "]})" <==> c == ']' || c == '}' || c == ')';
  }

  /** A literal's text as this scan takes it: the quote stands in it only right behind a backslash, and a
      backslash does not end it. */
  ghost predicate Inside(lit: string, q: char)
  {
    && (forall i :: 0 <= i < |lit| && lit[i] == q ==> i > 0 && lit[i - 1] as int == 92)
    && (lit != "" ==> lit[|lit| - 1] as int != 92)
  }

  lemma {:induction false} WithinLiteral(s: string, q: char, lit: string, k: nat)
    requires After(s).quote.None? && Quote(q) && k <= |lit|
    requires forall i :: 0 <= i < |lit| && lit[i] == q ==> i > 0 && lit[i - 1] as int == 92
    ensures After(s + ([q] + lit[..k])) == Nesting(After(s).depth, Some(q))
  {
    var t := s + ([q] + lit[..k]);
    if k == 0 {
      OneCharacter(s, q);
      assert t == s + [q];
    } else {
      WithinLiteral(s, q, lit, k - 1);
      var before := s + ([q] + lit[..k - 1]);
      assert t == before + [lit[k - 1]];
      PrefixNests(before, [lit[k - 1]], |before|);
      assert t[|before|] == lit[k - 1];
      assert k > 1 ==> t[|before| - 1] == lit[k - 2];
    }
  }

  /** A literal changes nothing, whatever brackets and commas stand in it. */
  lemma LiteralsPass(s: string, q: char, lit: string)
    requires After(s).quote.None? && Quote(q) && Inside(lit, q)
    ensures After(s + ([q] + lit) + [q]) == After(s)
  {
    var before := s + ([q] + lit);
    assert lit[..|lit|] == lit;
    WithinLiteral(s, q, lit, |lit|);
    PrefixNests(before, [q], |before|);
    assert (before + [q])[|before|] == q;
    assert lit != "" ==> (before + [q])[|before| - 1] == lit[|lit| - 1];
    assert lit == "" ==> (before + [q])[|before| - 1] == q;
  }

  /** And nowhere in it does a comma divide. */
  lemma LiteralsHideCommas(s: string, q: char, lit: string, t: string, k: nat)
    requires After(s).quote.None? && Quote(q) && Inside(lit, q) && k < |lit|
    ensures !TopComma(s + ([q] + (lit + t)), |s| + 1 + k)
  {
    var inner := s + ([q] + lit[..k]);
    WithinLiteral(s, q, lit, k);
    assert s + ([q] + (lit + t)) == inner + (lit[k..] + t);
    PrefixNests(inner, lit[k..] + t, |inner|);
  }

  /** A piece is dropped when it is white space only, or nothing. */
  lemma BlankMeans(s: string)
    ensures CommentScan.Blank(s) <==> forall i :: 0 <= i < |s| ==> WhiteUnit(s[i] as int)
  {
    if CommentScan.Blank(s) {
      forall i | 0 <= i < |s| ensures WhiteUnit(s[i] as int) { assert s[i] in s && IsSpace(s[i]); }
    }
    if forall i :: 0 <= i < |s| ==> WhiteUnit(s[i] as int) {
      forall c | c in s ensures IsSpace(c) {
        var i :| 0 <= i < |s| && s[i] == c;
        WhiteIsSpace(c);
      }
    }
  }

  ghost predicate WhiteUnit(u: int)
  {
    9 <= u <= 13 || u == 32 || u == 160 || u == 5760 || 8192 <= u <= 8202 || u == 8232 || u == 8233 || u == 8239
    || u == 8287 || u == 12288 || u == 65279
  }

  lemma WhiteIsSpace(c: char)
    ensures WhiteUnit(c as int) <==> IsSpace(c)
  {
    assert c in " \t\n\r" <==> c == ' ' || c == '\t' || c == '\n' || c == '\r';
    assert c in "\U{b}\U{c}\U{a0}\U{1680}\U{2028}\U{2029}\U{202f}\U{205f}\U{3000}\U{feff}"
      <==> c == '\U{b}' || c == '\U{c}' || c == '\U{a0}' || c == '\U{1680}' || c == '\U{2028}' || c == '\U{2029}'
           || c == '\U{202f}' || c == '\U{205f}' || c == '\U{3000}' || c == '\U{feff}';
  }

  /** Where nothing is open a comma ends a piece; where something is, it does not. */
  lemma CommasDivide(s: string, t: string)
    requires After(s).quote.None?
    ensures TopComma(s + ("," + t), |s|) <==> After(s).depth == 0
  {
    PrefixNests(s, "," + t, |s|);
    assert (s + ("," + t))[|s|] == ',';
  }
}
