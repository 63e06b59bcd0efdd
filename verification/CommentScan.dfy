/** Two scanners of the reference map: blanking JavaScript comments in place, so that a match still
    points at the original line and column, and splitting a list body on the commas that are outside
    every bracket and string literal. */
module CommentScan {
  import opened Base

  // ----- blanking comments ----------------------------------------------------------------

  predicate IsQuote(c: char) { c == '\'' || c == '"' || c == '`' }

  predicate Opens(s: string, second: char) { |s| >= 2 && s[0] == '/' && s[1] == second }

  /** How much of a text a line comment covers: up to the newline or the end. */
  function LineLength(s: string): (n: nat)
    ensures n <= |s| && '\n' !in s[..n] && (n < |s| ==> s[n] == '\n')
  {
    if s == "" || s[0] == '\n' then 0
    else
      assert s == [s[0]] + s[1..];
      1 + LineLength(s[1..])
  }

  /** How much of a text a block comment covers, `from` being where its end is looked for. */
  function BlockLength(s: string, from: nat): (n: nat)
    requires from <= |s|
    ensures from <= n <= |s|
    decreases |s| - from
  {
    if from + 2 > |s| then |s|
    else if s[from] == '*' && s[from + 1] == '/' then from + 2
    else BlockLength(s, from + 1)
  }

  function Spaces(n: nat): (r: string)
    ensures |r| == n && forall c :: c in r ==> c == ' '
  {
    seq(n, _ => ' ')
  }

  function Blanked(s: string): (r: string)
    ensures |r| == |s|
    ensures forall k :: 0 <= k < |s| ==> r[k] == if s[k] == '\n' then '\n' else ' '
  {
    seq(|s|, k requires 0 <= k < |s| => if s[k] == '\n' then '\n' else ' ')
  }

  function Rest(s: string, n: nat): string { if n <= |s| then s[n..] else "" }

  /** What the scanner writes for the rest of a text, inside a literal of the given quote or not. */
  function Scan(s: string, quote: Option<char>): string
    decreases |s|
  {
    if s == "" then ""
    else if quote.Some? then
      if s[0] == '\\' then s[..if |s| == 1 then 1 else 2] + Scan(Rest(s, 2), quote)
      else [s[0]] + Scan(s[1..], if s[0] == quote.value then None else quote)
    else if IsQuote(s[0]) then [s[0]] + Scan(s[1..], Some(s[0]))
    else if Opens(s, '/') then Spaces(LineLength(s)) + "\n" + Scan(Rest(s, LineLength(s) + 1), None)
    else if Opens(s, '*') then Blanked(s[..BlockLength(s, 2)]) + Scan(s[BlockLength(s, 2)..], None)
    else [s[0]] + Scan(s[1..], None)
  }

  /** The loop, an index into the text and the quote it is inside of. */
  method StripComments(text: string) returns (out: string)
    ensures out == Scan(text, None)
  {
    out := "";
    var quote: Option<char> := None;
    var i := 0;
    while i < |text|
      invariant out + Scan(Rest(text, i), quote) == Scan(text, None)
      decreases |text| - i
    {
      var written, next, quote' := StripOne(text, i, quote);
      ConcatAssociates(out, written, Scan(Rest(text, next), quote'));
      out, i, quote := out + written, next, quote';
    }
  }

  lemma RestOfRest(text: string, i: nat, n: nat)
    requires i < |text|
    ensures Rest(Rest(text, i), n) == Rest(text, i + n)
  {
  }

  lemma ScanLine(s: string, rest: string)
    requires Opens(s, '/') && rest == Rest(s, LineLength(s) + 1)
    ensures Scan(s, None) == Spaces(LineLength(s)) + "\n" + Scan(rest, None)
  {
  }

  lemma ScanBlock(s: string, rest: string)
    requires Opens(s, '*') && rest == Rest(s, BlockLength(s, 2))
    ensures Scan(s, None) == Blanked(s[..BlockLength(s, 2)]) + Scan(rest, None)
  {
  }

  lemma ScanPlain(s: string)
    requires s != "" && !Opens(s, '/') && !Opens(s, '*')
    ensures Scan(s, None) == [s[0]] + Scan(Rest(s, 1), if IsQuote(s[0]) then Some(s[0]) else None)
  {
  }

  /** One turn of the loop: what it writes, where it goes on, and inside of which quote. */
  method StripOne(text: string, i: nat, quote: Option<char>) returns (written: string, next: nat, quote': Option<char>)
    requires i < |text|
    ensures i < next
    ensures Scan(Rest(text, i), quote) == written + Scan(Rest(text, next), quote')
  {
    if quote.Some? {
      written, next, quote' := StripQuoted(text, i, quote);
      return;
    }
    if text[i] == '/' && i + 1 < |text| && text[i + 1] == '/' {
      written, next := StripLineComment(text, i, Rest(text, i));
      quote' := None;
    } else if text[i] == '/' && i + 1 < |text| && text[i + 1] == '*' {
      written, next := StripBlockComment(text, i, Rest(text, i));
      quote' := None;
    } else {
      written, next := [text[i]], i + 1;
      quote' := if IsQuote(text[i]) then Some(text[i]) else None;
      ScanPlain(Rest(text, i));
      RestOfRest(text, i, 1);
    }
  }

  method StripLineComment(text: string, i: nat, ghost s: string) returns (written: string, next: nat)
    requires i < |text| && s == Rest(text, i) && Opens(s, '/')
    ensures i < next
    ensures Scan(s, None) == written + Scan(Rest(text, next), None)
  {
    written, next := StripLine(text, i);
    next := next + 1;
    RestOfRest(text, i, LineLength(s) + 1);
    ScanLine(s, Rest(text, next));
  }

  method StripBlockComment(text: string, i: nat, ghost s: string) returns (written: string, next: nat)
    requires i < |text| && s == Rest(text, i) && Opens(s, '*')
    ensures i < next
    ensures Scan(s, None) == written + Scan(Rest(text, next), None)
  {
    written, next := StripBlock(text, i);
    RestOfRest(text, i, BlockLength(s, 2));
    ScanBlock(s, Rest(text, next));
  }

  method StripQuoted(text: string, i: nat, quote: Option<char>)
      returns (written: string, next: nat, quote': Option<char>)
    requires i < |text| && quote.Some?
    ensures i < next
    ensures Scan(Rest(text, i), quote) == written + Scan(Rest(text, next), quote')
  {
    written, next, quote' := [text[i]], i + 1, quote;
    ghost var s := Rest(text, i);
    RestOfRest(text, i, 1);
    RestOfRest(text, i, 2);
    if text[i] == '\\' {
      if i + 1 < |text| { written := written + [text[i + 1]]; }
      assert s[..if |s| == 1 then 1 else 2] == written;
      next := i + 2;
    } else if text[i] == quote.value {
      quote' := None;
    }
  }

  method StripLine(text: string, i: nat) returns (out: string, next: nat)
    requires i < |text| && Opens(Rest(text, i), '/')
    ensures next == i + LineLength(Rest(text, i))
    ensures out == Spaces(LineLength(Rest(text, i))) + "\n"
  {
    next := i;
    out := "";
    while next < |text| && text[next] != '\n'
      invariant i <= next <= |text| && out == Spaces(next - i)
      invariant LineLength(Rest(text, i)) == next - i + LineLength(Rest(text, next))
    {
      out := out + [' '];
      next := next + 1;
    }
    out := out + "\n";
  }

  method StripBlock(text: string, i: nat) returns (out: string, stop: nat)
    requires i < |text| && Opens(Rest(text, i), '*')
    ensures stop == i + BlockLength(Rest(text, i), 2)
    ensures out == Blanked(Rest(text, i)[..stop - i])
  {
    var end := i + 2;
    while end + 2 <= |text| && !(text[end] == '*' && text[end + 1] == '/')
      invariant i + 2 <= end <= |text|
      invariant BlockLength(Rest(text, i), 2) == BlockLength(Rest(text, i), end - i)
    {
      end := end + 1;
    }
    stop := if end + 2 <= |text| then end + 2 else |text|;
    out := "";
    var j := i;
    while j < stop
      invariant i <= j <= stop && out == Blanked(Rest(text, i)[..j - i])
    {
      out := out + (if text[j] == '\n' then ['\n'] else [' ']);
      j := j + 1;
    }
  }

  // ----- positions ------------------------------------------------------------------------

  /** The text ends inside a line comment. */
  predicate EndsInLine(s: string, quote: Option<char>)
    decreases |s|
  {
    s != "" &&
    if quote.Some? then
      if s[0] == '\\' then EndsInLine(Rest(s, 2), quote)
      else EndsInLine(s[1..], if s[0] == quote.value then None else quote)
    else if IsQuote(s[0]) then EndsInLine(s[1..], Some(s[0]))
    else if Opens(s, '/') then LineLength(s) == |s| || EndsInLine(Rest(s, LineLength(s) + 1), None)
    else if Opens(s, '*') then EndsInLine(s[BlockLength(s, 2)..], None)
    else EndsInLine(s[1..], None)
  }

  /** Each position holds the original character or a space, and newlines are where they were. */
  ghost predicate Aligned(s: string, out: string)
  {
    |s| <= |out| && forall k :: 0 <= k < |s| ==> (out[k] == s[k] || (out[k] == ' ' && s[k] != '\n'))
  }

  lemma AlignedAppend(a: string, x: string, b: string, y: string)
    requires |x| == |a| && Aligned(a, x) && Aligned(b, y)
    ensures Aligned(a + b, x + y)
  {
  }

  /** Positions keep: the output has the original character or a space at every position of the text,
      never for a newline, and is longer by one newline exactly when the text ends in a line comment. */
  lemma {:induction false} PositionsKeep(s: string, quote: Option<char>)
    ensures Aligned(s, Scan(s, quote))
    ensures |Scan(s, quote)| == |s| + if EndsInLine(s, quote) then 1 else 0
    ensures EndsInLine(s, quote) ==> Scan(s, quote)[|s|] == '\n'
    decreases |s|, 1
  {
    if s == "" {
    } else if quote.Some? {
      LiteralKeeps(s, quote);
    } else if Opens(s, '/') {
      LineKeeps(s);
    } else if Opens(s, '*') {
      BlockKeeps(s);
    } else {
      var q := if IsQuote(s[0]) then Some(s[0]) else None;
      PositionsKeep(s[1..], q);
      AlignedAppend([s[0]], [s[0]], s[1..], Scan(s[1..], q));
      assert s == [s[0]] + s[1..];
    }
  }

  lemma {:induction false} LiteralKeeps(s: string, quote: Option<char>)
    requires s != "" && quote.Some?
    ensures Aligned(s, Scan(s, quote))
    ensures |Scan(s, quote)| == |s| + if EndsInLine(s, quote) then 1 else 0
    ensures EndsInLine(s, quote) ==> Scan(s, quote)[|s|] == '\n'
    decreases |s|, 0
  {
    if s[0] == '\\' {
      PositionsKeep(Rest(s, 2), quote);
      var head := s[..if |s| == 1 then 1 else 2];
      AlignedAppend(head, head, Rest(s, 2), Scan(Rest(s, 2), quote));
      assert s == head + Rest(s, 2);
    } else {
      var q := if s[0] == quote.value then None else quote;
      PositionsKeep(s[1..], q);
      AlignedAppend([s[0]], [s[0]], s[1..], Scan(s[1..], q));
      assert s == [s[0]] + s[1..];
    }
  }

  lemma {:induction false} BlockKeeps(s: string)
    requires Opens(s, '*')
    ensures Aligned(s, Scan(s, None))
    ensures |Scan(s, None)| == |s| + if EndsInLine(s, None) then 1 else 0
    ensures EndsInLine(s, None) ==> Scan(s, None)[|s|] == '\n'
    decreases |s|, 0
  {
    var n := BlockLength(s, 2);
    PositionsKeep(s[n..], None);
    AlignedAppend(s[..n], Blanked(s[..n]), s[n..], Scan(s[n..], None));
    assert s == s[..n] + s[n..];
  }

  lemma {:induction false} LineKeeps(s: string)
    requires Opens(s, '/')
    ensures Aligned(s, Scan(s, None))
    ensures |Scan(s, None)| == |s| + if EndsInLine(s, None) then 1 else 0
    ensures EndsInLine(s, None) ==> Scan(s, None)[|s|] == '\n'
    decreases |s|, 0
  {
    var n := LineLength(s);
    if n < |s| {
      PositionsKeep(s[n + 1..], None);
      AlignedAppend(s[..n + 1], Spaces(n) + "\n", s[n + 1..], Scan(s[n + 1..], None));
      assert s == s[..n + 1] + s[n + 1..];
    }
  }

  // ----- idempotence ----------------------------------------------------------------------

  lemma {:induction false} BlanksPass(b: string, t: string)
    requires forall c :: c in b ==> c == ' ' || c == '\n'
    ensures Scan(b + t, None) == b + Scan(t, None)
  {
    if b == "" {
      assert b + t == t;
    } else {
      assert b[0] in b && forall c :: c in b[1..] ==> c in b;
      BlanksPass(b[1..], t);
      assert (b + t)[1..] == b[1..] + t;
      assert !Opens(b + t, '/') && !Opens(b + t, '*') && !IsQuote(b[0]);
    }
  }

  /** What is written first is what stood there, or a blank. */
  lemma HeadKept(t: string)
    ensures t != "" ==> Scan(t, None) != "" && Scan(t, None)[0] in {t[0], ' ', '\n'}
    ensures t == "" ==> Scan(t, None) == ""
  {
    if t != "" {
      if Opens(t, '/') {
        assert LineLength(t) > 0;
      }
    }
  }

  lemma PlainPass(c: char, t: string)
    requires !IsQuote(c) && !Opens([c] + t, '/') && !Opens([c] + t, '*')
    ensures Scan([c] + Scan(t, None), None) == [c] + Scan(Scan(t, None), None)
  {
    HeadKept(t);
    var u := [c] + Scan(t, None);
    assert u[1..] == Scan(t, None);
    if c == '/' && t != "" {
      assert ([c] + t)[1] == t[0];
      assert t[0] != '/' && t[0] != '*';
    }
  }

  /** Blanking a second time changes nothing. */
  lemma {:induction false} Idempotent(s: string, quote: Option<char>)
    ensures Scan(Scan(s, quote), quote) == Scan(s, quote)
    decreases |s|
  {
    if s == "" {
    } else if quote.Some? {
      InLiteral(s, quote);
    } else if IsQuote(s[0]) {
      Idempotent(s[1..], Some(s[0]));
      assert ([s[0]] + Scan(s[1..], Some(s[0])))[1..] == Scan(s[1..], Some(s[0]));
    } else if Opens(s, '/') {
      var t := Rest(s, LineLength(s) + 1);
      Idempotent(t, None);
      BlanksPass(Spaces(LineLength(s)) + "\n", Scan(t, None));
    } else if Opens(s, '*') {
      var n := BlockLength(s, 2);
      Idempotent(s[n..], None);
      BlanksPass(Blanked(s[..n]), Scan(s[n..], None));
    } else {
      Idempotent(s[1..], None);
      assert s == [s[0]] + s[1..];
      PlainPass(s[0], s[1..]);
    }
  }

  lemma {:induction false} InLiteral(s: string, quote: Option<char>)
    requires s != "" && quote.Some?
    ensures Scan(Scan(s, quote), quote) == Scan(s, quote)
    decreases |s|, 0
  {
    if s[0] == '\\' {
      if |s| > 1 {
        var t := Scan(s[2..], quote);
        Idempotent(s[2..], quote);
        var u := s[..2] + t;
        assert u[0] == '\\' && u[..2] == s[..2] && Rest(u, 2) == t && Rest(s, 2) == s[2..];
      }
    } else {
      var q := if s[0] == quote.value then None else quote;
      Idempotent(s[1..], q);
      assert ([s[0]] + Scan(s[1..], q))[1..] == Scan(s[1..], q);
    }
  }

  /** The inside of a literal: a backslash takes the next character with it, and no other character is
      the quote. */
  predicate LiteralBody(body: string, quote: char)
    decreases |body|
  {
    body == "" ||
    if body[0] == '\\' then |body| >= 2 && LiteralBody(body[2..], quote)
    else body[0] != quote && LiteralBody(body[1..], quote)
  }

  /** A string literal is never touched, comment markers and escapes in it included. */
  lemma {:induction false} LiteralsKept(body: string, quote: char, t: string)
    requires IsQuote(quote) && LiteralBody(body, quote)
    ensures Scan([quote] + (body + ([quote] + t)), None) == [quote] + (body + ([quote] + Scan(t, None)))
  {
    var u := body + ([quote] + t);
    assert ([quote] + u)[1..] == u;
    InsideKept(body, quote, t);
  }

  lemma {:induction false} InsideKept(body: string, quote: char, t: string)
    requires LiteralBody(body, quote) && quote != '\\'
    ensures Scan(body + ([quote] + t), Some(quote)) == body + ([quote] + Scan(t, None))
    decreases |body|
  {
    if body == "" {
      assert ([quote] + t)[1..] == t;
      assert body + ([quote] + t) == [quote] + t;
    } else {
      var n := if body[0] == '\\' then 2 else 1;
      var head, rest := body[..n], body[n..];
      assert body == head + rest;
      InsideKept(rest, quote, t);
      InsideStep(head, rest + ([quote] + t), quote);
      ConcatAssociates(head, rest, [quote] + t);
      ConcatAssociates(head, rest, [quote] + Scan(t, None));
    }
  }

  lemma InsideStep(head: string, u: string, quote: char)
    requires if |head| == 2 then head[0] == '\\' else |head| == 1 && head[0] != quote && head[0] != '\\'
    ensures Scan(head + u, Some(quote)) == head + Scan(u, Some(quote))
  {
    assert (head + u)[|head|..] == u && (head + u)[..|head|] == head;
  }

  // ----- top-level commas -----------------------------------------------------------------

  /** The bracket depth, which may go below zero, and the quote, before each position of a body. */
  datatype Nesting = Nesting(depth: int, quote: Option<char>)

  function Enter(n: Nesting, c: char, escaped: bool): Nesting
  {
    if n.quote.Some? then n.(quote := if c == n.quote.value && !escaped then None else n.quote)
    else if IsQuote(c) then n.(quote := Some(c))
    else if c in "[{(" then n.(depth := n.depth + 1)
    else if c in "]})" then n.(depth := n.depth - 1)
    else n
  }

  function Escaped(body: string, i: nat): bool
    requires i < |body|
  {
    i > 0 && body[i - 1] == '\\'
  }

  function NestingAt(body: string, i: nat): Nesting
    requires i <= |body|
  {
    if i == 0 then Nesting(0, None) else Enter(NestingAt(body, i - 1), body[i - 1], Escaped(body, i - 1))
  }

  /** A comma outside every bracket and literal. */
  predicate TopComma(body: string, i: nat)
    requires i < |body|
  {
    body[i] == ',' && NestingAt(body, i) == Nesting(0, None)
  }

  /** Where the piece that holds position `i` begins, and the pieces that end before it. */
  function StartAt(body: string, i: nat): (n: nat)
    requires i <= |body|
    ensures n <= i
  {
    if i == 0 then 0 else if TopComma(body, i - 1) then i else StartAt(body, i - 1)
  }

  function PiecesBefore(body: string, i: nat): seq<string>
    requires i <= |body|
  {
    if i == 0 then []
    else if TopComma(body, i - 1) then PiecesBefore(body, i - 1) + [body[StartAt(body, i - 1)..i - 1]]
    else PiecesBefore(body, i - 1)
  }

  function Pieces(body: string): (r: seq<string>)
    ensures r != []
  {
    PiecesBefore(body, |body|) + [body[StartAt(body, |body|)..]]
  }

  predicate Blank(s: string) { forall c :: c in s ==> IsSpace(c) }

  method SplitTopLevel(body: string) returns (out: seq<string>)
    ensures out == Filter(p => !Blank(p), Pieces(body))
  {
    var pieces: seq<string> := [];
    var depth, start := 0, 0;
    var quote: Option<char> := None;
    var i := 0;
    while i < |body|
      invariant i <= |body|
      invariant NestingAt(body, i) == Nesting(depth, quote)
      invariant start == StartAt(body, i) && pieces == PiecesBefore(body, i)
    {
      var c := body[i];
      if quote.Some? {
        if c == quote.value && !Escaped(body, i) { quote := None; }
      } else if IsQuote(c) {
        quote := Some(c);
      } else if c in "[{(" {
        depth := depth + 1;
      } else if c in "]})" {
        depth := depth - 1;
      } else if c == ',' && depth == 0 {
        pieces := pieces + [body[start..i]];
        start := i + 1;
      }
      i := i + 1;
    }
    pieces := pieces + [body[start..]];
    out := Filter(p => !Blank(p), pieces);
  }

  lemma {:induction false} JoinSnoc(parts: seq<string>, last: string, sep: char)
    requires parts != []
    ensures Join(parts + [last], sep) == Join(parts, sep) + [sep] + last
  {
    assert (parts + [last])[1..] == parts[1..] + [last];
    if |parts| > 1 {
      JoinSnoc(parts[1..], last, sep);
      ConcatAssociates(parts[0] + [sep], Join(parts[1..], sep) + [sep], last);
    }
  }

  lemma {:induction false} JoinLonger(parts: seq<string>, last: string, c: char, sep: char)
    ensures Join(parts + [last + [c]], sep) == Join(parts + [last], sep) + [c]
  {
    if parts == [] {
      assert [] + [last + [c]] == [last + [c]] && [] + [last] == [last];
    } else {
      JoinSnoc(parts, last, sep);
      JoinSnoc(parts, last + [c], sep);
    }
  }

  /** No character is lost: the pieces joined with commas are the body. */
  lemma {:induction false} PiecesRejoin(body: string, i: nat)
    requires i <= |body|
    ensures Join(PiecesBefore(body, i) + [body[StartAt(body, i)..i]], ',') == body[..i]
  {
    if i > 0 {
      PiecesRejoin(body, i - 1);
      var before, current := PiecesBefore(body, i - 1), body[StartAt(body, i - 1)..i - 1];
      assert body[..i] == body[..i - 1] + [body[i - 1]];
      if TopComma(body, i - 1) {
        JoinSnoc(before + [current], "", ',');
        assert body[i..i] == "";
      } else {
        JoinLonger(before, current, body[i - 1], ',');
        assert body[StartAt(body, i)..i] == current + [body[i - 1]];
      }
    }
  }

  lemma RejoinAll(body: string)
    ensures Join(Pieces(body), ',') == body
  {
    PiecesRejoin(body, |body|);
    assert body[..|body|] == body;
    assert body[StartAt(body, |body|)..] == body[StartAt(body, |body|)..|body|];
  }

  /** A piece nests on its own as it does in the body. */
  lemma {:induction false} NestingInside(body: string, start: nat, end: nat, k: nat)
    requires start + k <= end <= |body| && NestingAt(body, start) == Nesting(0, None)
    ensures NestingAt(body[start..end], k) == NestingAt(body, start + k)
  {
    if k > 0 {
      NestingInside(body, start, end, k - 1);
      assert body[start..end][k - 1] == body[start + k - 1];
    }
  }

  lemma {:induction false} StartIsTop(body: string, i: nat)
    requires i <= |body|
    ensures NestingAt(body, StartAt(body, i)) == Nesting(0, None)
    ensures forall k :: StartAt(body, i) <= k < i ==> !TopComma(body, k)
  {
    if i > 0 { StartIsTop(body, i - 1); }
  }

  lemma PieceIndivisible(body: string, i: nat, k: nat)
    requires i <= |body| && k < i - StartAt(body, i)
    ensures !TopComma(body[StartAt(body, i)..i], k)
  {
    var start := StartAt(body, i);
    StartIsTop(body, i);
    NestingInside(body, start, i, k);
    assert body[start..i][k] == body[start + k] && !TopComma(body, start + k);
  }

  /** Every piece is a whole one: split on its own it stays as it is. */
  lemma {:induction false} PiecesAreWhole(body: string, i: nat, p: string)
    requires i <= |body| && (p in PiecesBefore(body, i) || p == body[StartAt(body, i)..i])
    ensures Pieces(p) == [p]
  {
    if p == body[StartAt(body, i)..i] {
      forall k | 0 <= k < |p| ensures !TopComma(p, k) { PieceIndivisible(body, i, k); }
      Whole(p, |p|);
      assert p[0..] == p;
    } else {
      PiecesAreWhole(body, i - 1, p);
    }
  }

  lemma {:induction false} Whole(p: string, i: nat)
    requires i <= |p| && forall k :: 0 <= k < |p| ==> !TopComma(p, k)
    ensures PiecesBefore(p, i) == [] && StartAt(p, i) == 0
  {
    if i > 0 { Whole(p, i - 1); }
  }

  /** The split of a list body: rejoined with commas it is the body, and each piece, split again, is
      itself, so neither too few nor too many commas were taken. */
  lemma SplitIsExact(body: string, p: string)
    requires p in Pieces(body)
    ensures Join(Pieces(body), ',') == body && Pieces(p) == [p]
  {
    RejoinAll(body);
    assert body[StartAt(body, |body|)..] == body[StartAt(body, |body|)..|body|];
    PiecesAreWhole(body, |body|, p);
  }
}
