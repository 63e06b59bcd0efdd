/** The incremental reader of a bootstrap archive's leading member. */
module TarReader {
  // It walks tar headers as far as the bytes received so far allow, skips a bounded number of extension
  // entries, and stops on the first decision. Headers follow the ustar interchange format of IEEE Std 1003.1.

  import opened Base

  type Byte = b: int | 0 <= b < 256

  type Bytes = seq<Byte>

  datatype Header = Header(name: Bytes, size: nat, typeflag: Byte)

  /** What the caller asks for: the member's name, the most bytes an entry may claim, and how many
      extension entries may precede it. */
  datatype Request = Request(member: Bytes, maxBytes: nat, maxSkipped: nat)

  // ----- one header block -----------------------------------------------------------------

  function UpToZero(t: Bytes): Bytes
  {
    if t == [] || t[0] == 0 then [] else [t[0]] + UpToZero(t[1..])
  }

  /** A NUL-terminated field of a block. */
  function CString(block: Bytes, offset: nat, length: nat): Bytes
    requires offset + length <= |block|
  {
    UpToZero(block[offset..offset + length])
  }

  predicate Space(b: Byte) { 9 <= b <= 13 || b == 32 }

  function TrimStart(t: Bytes): Bytes { if t != [] && Space(t[0]) then TrimStart(t[1..]) else t }

  function TrimEnd(t: Bytes): Bytes
  {
    if t != [] && Space(t[|t| - 1]) then TrimEnd(t[..|t| - 1]) else t
  }

  predicate OctalDigit(b: Byte) { 48 <= b <= 55 }

  /** How many octal digits a text starts with. */
  function DigitRun(t: Bytes): (n: nat)
    ensures n <= |t|
  {
    if t == [] || !OctalDigit(t[0]) then 0 else 1 + DigitRun(t[1..])
  }

  function OctalValue(digits: Bytes): int
  {
    if digits == [] then 0 else 8 * OctalValue(digits[..|digits| - 1]) + (digits[|digits| - 1] as int - 48)
  }

  /** `parseInt(text, 8)`: a sign, then the longest run of octal digits; None is NaN. */
  function ParseOctal(t: Bytes): Option<int>
  {
    var signed := t != [] && (t[0] == 43 || t[0] == 45);
    var digits := if signed then t[1..] else t;
    var n := DigitRun(digits);
    if n == 0 then None
    else if signed && t[0] == 45 then Some(-OctalValue(digits[..n]))
    else Some(OctalValue(digits[..n]))
  }

  function StripDotSlash(name: Bytes): Bytes
  {
    if |name| >= 2 && name[0] == 46 && name[1] == 47 then name[2..] else name
  }

  /** One header block, or None for an end-of-archive block or anything that does not parse. */
  function ParseHeader(block: Bytes): Option<Header>
  {
    if |block| < 512 then None
    else if forall i :: 0 <= i < 512 ==> block[i] == 0 then None
    else
      var field := TrimEnd(TrimStart(CString(block, 124, 12)));
      var size := if field == [] then Some(0) else ParseOctal(field);
      if size.None? || size.value < 0 then None
      else Some(Header(StripDotSlash(CString(block, 0, 100)), size.value, if block[156] == 0 then 48 else block[156]))
  }

  /** pax extended, pax global, GNU long name and GNU long link entries. */
  predicate Extension(typeflag: Byte) { typeflag == 120 || typeflag == 103 || typeflag == 76 || typeflag == 75 }

  function RoundUp(size: nat): (r: nat)
    ensures size <= r < size + 512 && r % 512 == 0
  {
    (size + 511) / 512 * 512
  }

  // ----- the walk -------------------------------------------------------------------------

  datatype Decision =
    | Done(content: Option<Bytes>)
    | NeedMore(offset: nat, skipped: nat)

  /** Walk the headers of `s` from `offset`, `skipped` extension entries already behind. */
  function Decide(s: Bytes, offset: nat, skipped: nat, q: Request): Decision
    requires skipped <= q.maxSkipped
    decreases q.maxSkipped - skipped
  {
    if |s| < offset + 512 then NeedMore(offset, skipped)
    else
      match ParseHeader(s[offset..offset + 512])
      case None => Done(None)
      case Some(h) =>
        if Extension(h.typeflag) then
          if skipped + 1 > q.maxSkipped || h.size > q.maxBytes then Done(None)
          else Decide(s, offset + 512 + RoundUp(h.size), skipped + 1, q)
        else if h.name != q.member || h.size > q.maxBytes then Done(None)
        else if |s| < offset + 512 + h.size then NeedMore(offset, skipped)
        else Done(Some(s[offset + 512..offset + 512 + h.size]))
  }

  /** What a reader holding the whole archive answers. */
  function OneShot(s: Bytes, q: Request): Option<Bytes>
  {
    match Decide(s, 0, 0, q)
    case Done(content) => content
    case NeedMore(_, _) => None
  }

  function Concat(chunks: seq<Bytes>): Bytes
  {
    if chunks == [] then [] else Concat(chunks[..|chunks| - 1]) + chunks[|chunks| - 1]
  }

  /** The stream handler's state. */
  class Reader {
    const q: Request
    var buffered: Bytes
    var offset: nat
    var skipped: nat
    var settled: bool
    var value: Option<Bytes>

    /** The reader agrees with the whole stream received so far. */
    ghost predicate Follows(stream: Bytes)
      reads this
    {
      && skipped <= q.maxSkipped
      && (!settled ==> buffered == stream && Decide(stream, 0, 0, q) == NeedMore(offset, skipped))
      && (settled ==> Decide(stream, 0, 0, q) == Done(value))
    }

    constructor (q: Request)
      ensures this.q == q && Follows([]) && !settled
    {
      this.q := q;
      buffered, offset, skipped, settled, value := [], 0, 0, false, None;
    }

    method Finish(v: Option<Bytes>)
      modifies this`settled, this`value
      ensures settled && value == if old(settled) then old(value) else v
    {
      if !settled { settled, value := true, v; }
    }

    method OnData(chunk: Bytes, ghost stream: Bytes)
      requires Follows(stream)
      modifies this
      ensures Follows(stream + chunk)
      ensures !settled ==> |buffered| < BufferBound(q)
    {
      if settled {
        DecisionStands(stream, chunk, 0, 0, q);
        return;
      }
      buffered := buffered + chunk;
      WalkResumes(stream, chunk, 0, 0, q, offset, skipped);
      WalkHeaders();
      if !settled { BufferStaysBounded(stream + chunk, q); }
    }

    /** Walk as far as the buffered bytes allow; stop on the first decision. */
    method WalkHeaders()
      requires !settled && skipped <= q.maxSkipped
      modifies this`offset, this`skipped, this`settled, this`value
      ensures skipped <= q.maxSkipped
      ensures !settled ==> Decide(buffered, old(offset), old(skipped), q) == NeedMore(offset, skipped)
      ensures settled ==> Decide(buffered, old(offset), old(skipped), q) == Done(value)
    {
      while true
        invariant !settled && skipped <= q.maxSkipped
        invariant Decide(buffered, old(offset), old(skipped), q) == Decide(buffered, offset, skipped, q)
        decreases q.maxSkipped - skipped
      {
        if |buffered| < offset + 512 { return; }
        var header := ParseHeader(buffered[offset..offset + 512]);
        if header.None? {
          Finish(None);
          return;
        }
        var h := header.value;
        if !Extension(h.typeflag) {
          if h.name != q.member || h.size > q.maxBytes {
            Finish(None);
          } else if |buffered| >= offset + 512 + h.size {
            Finish(Some(buffered[offset + 512..offset + 512 + h.size]));
          }
          return;
        }
        if skipped + 1 > q.maxSkipped || h.size > q.maxBytes {
          Finish(None);
          return;
        }
        skipped := skipped + 1;
        offset := offset + 512 + RoundUp(h.size);
      }
    }

    /** The stream ended, or failed: whatever is not decided by now is "no metadata". */
    method OnEnd(ghost stream: Bytes)
      requires Follows(stream)
      modifies this
      ensures settled && value == OneShot(stream, q)
    {
      Finish(None);
    }
  }

  /** Feed an archive in any pieces; the answer is the one-shot answer on what was delivered. */
  method ReadLeadingMember(chunks: seq<Bytes>, q: Request) returns (r: Option<Bytes>)
    ensures r == OneShot(Concat(chunks), q)
  {
    var reader := new Reader(q);
    for i := 0 to |chunks|
      invariant fresh(reader) && reader.q == q && reader.Follows(Concat(chunks[..i]))
    {
      assert chunks[..i + 1][..i] == chunks[..i];
      reader.OnData(chunks[i], Concat(chunks[..i]));
    }
    assert chunks[..|chunks|] == chunks;
    reader.OnEnd(Concat(chunks));
    r := reader.value;
  }

  // ----- chunking does not matter ---------------------------------------------------------

  lemma SamePart(s: Bytes, t: Bytes, from: nat, to: nat)
    requires from <= to <= |s|
    ensures (s + t)[from..to] == s[from..to]
  {
  }

  /** A decision, once reached, stands whatever else arrives. */
  lemma {:induction false} DecisionStands(s: Bytes, t: Bytes, offset: nat, skipped: nat, q: Request)
    requires skipped <= q.maxSkipped && Decide(s, offset, skipped, q).Done?
    ensures Decide(s + t, offset, skipped, q) == Decide(s, offset, skipped, q)
    decreases q.maxSkipped - skipped
  {
    SamePart(s, t, offset, offset + 512);
    var h := ParseHeader(s[offset..offset + 512]);
    if h.Some? {
      if Extension(h.value.typeflag) {
        if skipped + 1 <= q.maxSkipped && h.value.size <= q.maxBytes {
          DecisionStands(s, t, offset + 512 + RoundUp(h.value.size), skipped + 1, q);
        }
      } else if h.value.name == q.member && h.value.size <= q.maxBytes {
        SamePart(s, t, offset + 512, offset + 512 + h.value.size);
      }
    }
  }

  /** One step of the walk, by the header it meets. */
  lemma DecideHere(s: Bytes, offset: nat, skipped: nat, q: Request, header: Option<Header>)
    requires skipped <= q.maxSkipped && offset + 512 <= |s| && ParseHeader(s[offset..offset + 512]) == header
    ensures Decide(s, offset, skipped, q) ==
      if header.None? then Done(None)
      else if Extension(header.value.typeflag) then
        if skipped + 1 > q.maxSkipped || header.value.size > q.maxBytes then Done(None)
        else Decide(s, offset + 512 + RoundUp(header.value.size), skipped + 1, q)
      else if header.value.name != q.member || header.value.size > q.maxBytes then Done(None)
      else if |s| < offset + 512 + header.value.size then NeedMore(offset, skipped)
      else Done(Some(s[offset + 512..offset + 512 + header.value.size]))
  {
  }

  /** An extension entry is walked over; a waiting walk has only met acceptable ones. */
  lemma DecideSkips(s: Bytes, offset: nat, skipped: nat, q: Request, h: Header)
    requires skipped < q.maxSkipped && h.size <= q.maxBytes && Extension(h.typeflag)
    requires offset + 512 <= |s| && ParseHeader(s[offset..offset + 512]) == Some(h)
    ensures Decide(s, offset, skipped, q) == Decide(s, offset + 512 + RoundUp(h.size), skipped + 1, q)
  {
  }

  /** Waiting for more, the walk may resume where it stopped. */
  lemma {:induction false} WalkResumes(s: Bytes, t: Bytes, offset: nat, skipped: nat, q: Request, at: nat, entries: nat)
    requires skipped <= q.maxSkipped && Decide(s, offset, skipped, q) == NeedMore(at, entries)
    ensures entries <= q.maxSkipped
    ensures Decide(s + t, offset, skipped, q) == Decide(s + t, at, entries, q)
    decreases q.maxSkipped - skipped
  {
    if offset + 512 <= |s| {
      var h := ParseHeader(s[offset..offset + 512]).value;
      DecideHere(s, offset, skipped, q, Some(h));
      if Extension(h.typeflag) {
        var next := offset + 512 + RoundUp(h.size);
        SamePart(s, t, offset, offset + 512);
        DecideSkips(s + t, offset, skipped, q, h);
        WalkResumes(s, t, next, skipped + 1, q, at, entries);
      }
    }
  }

  // ----- what is buffered -----------------------------------------------------------------

  /** The most a waiting reader can hold. */
  function BufferBound(q: Request): nat
  {
    q.maxSkipped * (512 + RoundUp(q.maxBytes)) + 512 + q.maxBytes
  }

  lemma RoundUpMonotone(a: nat, b: nat)
    requires a <= b
    ensures RoundUp(a) <= RoundUp(b)
  {
  }

  lemma {:induction false} WaitingIsBounded(s: Bytes, offset: nat, skipped: nat, q: Request)
    requires skipped <= q.maxSkipped && Decide(s, offset, skipped, q).NeedMore?
    requires offset <= skipped * (512 + RoundUp(q.maxBytes))
    ensures |s| < BufferBound(q)
    decreases q.maxSkipped - skipped
  {
    var step := 512 + RoundUp(q.maxBytes);
    ScaleMonotone(step, skipped, q.maxSkipped);
    if offset + 512 <= |s| {
      var h := ParseHeader(s[offset..offset + 512]).value;
      if Extension(h.typeflag) {
        RoundUpMonotone(h.size, q.maxBytes);
        assert (skipped + 1) * step == skipped * step + step;
        WaitingIsBounded(s, offset + 512 + RoundUp(h.size), skipped + 1, q);
      }
    }
  }

  /** Whatever the archive claims, a reader that waits for more has buffered less than this. */
  lemma BufferStaysBounded(s: Bytes, q: Request)
    requires Decide(s, 0, 0, q).NeedMore?
    ensures |s| < BufferBound(q)
  {
    WaitingIsBounded(s, 0, 0, q);
  }

  // ----- what is returned -----------------------------------------------------------------

  /** At `offset`, `s` holds `k` extension entries of acceptable size and then the named member,
      whole, with this content. */
  ghost predicate Leads(s: Bytes, offset: nat, k: nat, q: Request, content: Bytes)
    decreases k
  {
    && offset + 512 <= |s| && ParseHeader(s[offset..offset + 512]).Some?
    && var h := ParseHeader(s[offset..offset + 512]).value;
       && h.size <= q.maxBytes
       && if k == 0 then
            && !Extension(h.typeflag) && h.name == q.member
            && offset + 512 + h.size <= |s| && content == s[offset + 512..offset + 512 + h.size]
          else
            Extension(h.typeflag) && Leads(s, offset + 512 + RoundUp(h.size), k - 1, q, content)
  }

  lemma {:induction false} LeadingMemberIsFound(s: Bytes, offset: nat, skipped: nat, k: nat, q: Request, content: Bytes)
    requires skipped + k <= q.maxSkipped && Leads(s, offset, k, q, content)
    ensures Decide(s, offset, skipped, q) == Done(Some(content))
    decreases k
  {
    if k > 0 {
      var h := ParseHeader(s[offset..offset + 512]).value;
      LeadingMemberIsFound(s, offset + 512 + RoundUp(h.size), skipped + 1, k - 1, q, content);
    }
  }

  lemma {:induction false} FoundMemberLeads(s: Bytes, offset: nat, skipped: nat, q: Request, content: Bytes)
      returns (k: nat)
    requires skipped <= q.maxSkipped && Decide(s, offset, skipped, q) == Done(Some(content))
    ensures skipped + k <= q.maxSkipped && Leads(s, offset, k, q, content)
    decreases q.maxSkipped - skipped
  {
    var h := ParseHeader(s[offset..offset + 512]).value;
    if Extension(h.typeflag) {
      var j := FoundMemberLeads(s, offset + 512 + RoundUp(h.size), skipped + 1, q, content);
      k := j + 1;
    } else {
      k := 0;
    }
  }

  ghost predicate LeadsSomehow(s: Bytes, q: Request, content: Bytes)
  {
    exists k: nat :: k <= q.maxSkipped && Leads(s, 0, k, q, content)
  }

  /** The reader returns a member's content exactly when the archive leads with it, behind at most
      the allowed number of extension entries. */
  lemma ReturnsExactlyTheLeadingMember(s: Bytes, q: Request, content: Bytes)
    ensures OneShot(s, q) == Some(content) <==> LeadsSomehow(s, q, content)
  {
    if OneShot(s, q) == Some(content) {
      var k := FoundMemberLeads(s, 0, 0, q, content);
      assert k <= q.maxSkipped && Leads(s, 0, k, q, content);
    } else if LeadsSomehow(s, q, content) {
      var k: nat :| k <= q.maxSkipped && Leads(s, 0, k, q, content);
      LeadingMemberIsFound(s, 0, 0, k, q, content);
      assert false;
    }
  }

  // ----- archives as they are written -----------------------------------------------------

  function Octal(n: nat, width: nat): (r: Bytes)
    ensures |r| == width && forall i :: 0 <= i < width ==> OctalDigit(r[i])
  {
    if width == 0 then [] else Octal(n / 8, width - 1) + [48 + n % 8]
  }

  function Zeros(n: nat): (r: Bytes)
    ensures |r| == n && forall i :: 0 <= i < n ==> r[i] == 0
  {
    seq(n, _ => 0)
  }

  /** One tar entry: the fields the reader looks at, the rest of the header as it comes, and the
      content padded to whole blocks. */
  datatype Entry = Entry(name: Bytes, typeflag: Byte, content: Bytes,
                         modeOwner: Bytes, timeSum: Bytes, linkOn: Bytes, padding: Bytes)

  function Pow8(n: nat): nat { if n == 0 then 1 else 8 * Pow8(n - 1) }

  ghost predicate ValidEntry(e: Entry)
  {
    && e.name != [] && |e.name| <= 100 && (forall i :: 0 <= i < |e.name| ==> e.name[i] != 0)
    && e.typeflag != 0 && |e.content| < Pow8(11)
    && |e.modeOwner| == 24 && |e.timeSum| == 20 && |e.linkOn| == 355
    && |e.padding| == RoundUp(|e.content|) - |e.content|
  }

  /** The ustar header block: name, mode and owners, size, time and checksum, type, the rest. */
  function HeaderBlock(e: Entry): (r: Bytes)
    requires |e.name| <= 100
  {
    e.name + Zeros(100 - |e.name|) + e.modeOwner + (Octal(|e.content|, 11) + [0]) + e.timeSum + [e.typeflag] + e.linkOn
  }

  lemma HeaderLayout(e: Entry)
    requires ValidEntry(e)
    ensures var b := HeaderBlock(e);
            && |b| == 512
            && b[0..100] == e.name + Zeros(100 - |e.name|)
            && b[124..136] == Octal(|e.content|, 11) + [0]
            && b[156] == e.typeflag && b[0] == e.name[0]
  {
  }

  lemma {:induction false} UpToZeroStops(t: Bytes, rest: Bytes)
    requires (forall i :: 0 <= i < |t| ==> t[i] != 0) && (rest == [] || rest[0] == 0)
    ensures UpToZero(t + rest) == t
  {
    if t == [] {
      assert t + rest == rest;
    } else {
      assert (t + rest)[1..] == t[1..] + rest;
      UpToZeroStops(t[1..], rest);
    }
  }

  lemma {:induction false} OctalReadsBack(n: nat, width: nat)
    requires n < Pow8(width)
    ensures OctalValue(Octal(n, width)) == n
  {
    if width > 0 {
      OctalReadsBack(n / 8, width - 1);
      var high := Octal(n / 8, width - 1);
      assert (high + [48 + n % 8])[..width - 1] == high;
    }
  }

  lemma {:induction false} AllDigits(t: Bytes)
    requires forall i :: 0 <= i < |t| ==> OctalDigit(t[i])
    ensures DigitRun(t) == |t|
  {
    if t != [] { AllDigits(t[1..]); }
  }

  lemma SizeReadsBack(n: nat)
    requires n < Pow8(11)
    ensures TrimEnd(TrimStart(Octal(n, 11))) == Octal(n, 11) && ParseOctal(Octal(n, 11)) == Some(n)
  {
    var t := Octal(n, 11);
    AllDigits(t);
    OctalReadsBack(n, 11);
    assert t[..11] == t && OctalDigit(t[0]) && OctalDigit(t[10]);
  }

  /** A written header parses back to its name, size and type. */
  lemma HeaderRoundTrip(e: Entry)
    requires ValidEntry(e)
    ensures ParseHeader(HeaderBlock(e)) == Some(Header(StripDotSlash(e.name), |e.content|, e.typeflag))
  {
    var b := HeaderBlock(e);
    HeaderLayout(e);
    UpToZeroStops(e.name, Zeros(100 - |e.name|));
    UpToZeroStops(Octal(|e.content|, 11), [0]);
    SizeReadsBack(|e.content|);
    assert b[0] != 0;
  }

  function EntryBytes(e: Entry): Bytes
    requires |e.name| <= 100
  {
    HeaderBlock(e) + e.content + e.padding
  }

  function Archive(extensions: seq<Entry>, member: Entry, rest: Bytes): Bytes
    requires |member.name| <= 100 && forall i :: 0 <= i < |extensions| ==> |extensions[i].name| <= 100
  {
    if extensions == [] then HeaderBlock(member) + member.content + rest
    else EntryBytes(extensions[0]) + Archive(extensions[1..], member, rest)
  }

  ghost predicate Acceptable(extensions: seq<Entry>, member: Entry, q: Request)
  {
    && ValidEntry(member) && !Extension(member.typeflag)
    && StripDotSlash(member.name) == q.member && |member.content| <= q.maxBytes
    && forall i :: 0 <= i < |extensions| ==>
         ValidEntry(extensions[i]) && Extension(extensions[i].typeflag) && |extensions[i].content| <= q.maxBytes
  }

  lemma EntryAt(s: Bytes, offset: nat, e: Entry, tail: Bytes)
    requires ValidEntry(e) && offset <= |s| && s[offset..] == HeaderBlock(e) + tail
    ensures offset + 512 <= |s| && s[offset..offset + 512] == HeaderBlock(e) && s[offset + 512..] == tail
  {
    HeaderLayout(e);
    var b := HeaderBlock(e);
    assert s[offset..][..512] == b && s[offset..][512..] == tail;
  }

  lemma ArchiveSplits(extensions: seq<Entry>, member: Entry, rest: Bytes, q: Request)
    requires extensions != [] && Acceptable(extensions, member, q)
    ensures ValidEntry(extensions[0]) && Extension(extensions[0].typeflag) && |extensions[0].content| <= q.maxBytes
    ensures Acceptable(extensions[1..], member, q)
    ensures Archive(extensions, member, rest) == EntryBytes(extensions[0]) + Archive(extensions[1..], member, rest)
  {
  }

  lemma {:induction false} ArchiveLeads(s: Bytes, offset: nat, extensions: seq<Entry>, member: Entry, rest: Bytes,
                                        q: Request)
    requires Acceptable(extensions, member, q)
    requires offset <= |s| && s[offset..] == Archive(extensions, member, rest)
    ensures Leads(s, offset, |extensions|, q, member.content)
    decreases |extensions|
  {
    if extensions == [] {
      MemberLeads(s, offset, member, rest, q);
    } else {
      ArchiveSplits(extensions, member, rest, q);
      var next := ExtensionLeads(s, offset, extensions[0], Archive(extensions[1..], member, rest));
      ArchiveLeads(s, next, extensions[1..], member, rest, q);
      OneMore(s, offset, next, |extensions[1..]|, q, member.content, extensions[0]);
    }
  }

  /** An acceptable extension entry in front of what leads to the member leads to it too. */
  lemma OneMore(s: Bytes, offset: nat, next: nat, k: nat, q: Request, content: Bytes, e: Entry)
    requires Extension(e.typeflag) && |e.content| <= q.maxBytes && offset + 512 <= |s|
    requires ParseHeader(s[offset..offset + 512]) == Some(Header(StripDotSlash(e.name), |e.content|, e.typeflag))
    requires next == offset + 512 + RoundUp(|e.content|) && Leads(s, next, k, q, content)
    ensures Leads(s, offset, k + 1, q, content)
  {
  }

  lemma MemberLeads(s: Bytes, offset: nat, member: Entry, rest: Bytes, q: Request)
    requires Acceptable([], member, q)
    requires offset <= |s| && s[offset..] == HeaderBlock(member) + member.content + rest
    ensures Leads(s, offset, 0, q, member.content)
  {
    HeaderRoundTrip(member);
    ConcatAssociates(HeaderBlock(member), member.content, rest);
    EntryAt(s, offset, member, member.content + rest);
    TakeContent(s, offset + 512, member.content, rest);
  }

  lemma ExtensionLeads(s: Bytes, offset: nat, e: Entry, after: Bytes) returns (next: nat)
    requires ValidEntry(e) && offset <= |s| && s[offset..] == EntryBytes(e) + after
    ensures next == offset + 512 + RoundUp(|e.content|) && next <= |s| && offset + 512 <= |s|
    ensures ParseHeader(s[offset..offset + 512]) == Some(Header(StripDotSlash(e.name), |e.content|, e.typeflag))
    ensures s[next..] == after
  {
    var body := e.content + e.padding;
    next := offset + 512 + RoundUp(|e.content|);
    HeaderRoundTrip(e);
    ConcatAssociates(HeaderBlock(e), e.content, e.padding);
    ConcatAssociates(HeaderBlock(e), body, after);
    EntryAt(s, offset, e, body + after);
    TakeContent(s, offset + 512, body, after);
  }

  lemma TakeContent(s: Bytes, offset: nat, content: Bytes, rest: Bytes)
    requires offset <= |s| && s[offset..] == content + rest
    ensures offset + |content| <= |s| && s[offset..offset + |content|] == content && s[offset + |content|..] == rest
  {
    var t := s[offset..];
    assert t[..|content|] == content && t[|content|..] == rest;
  }

  /** From an archive written with the member first, behind any extension entries the limit
      allows, every chunking reads back exactly the member's content. */
  lemma WrittenMemberReadsBack(extensions: seq<Entry>, member: Entry, rest: Bytes, q: Request)
    requires Acceptable(extensions, member, q) && |extensions| <= q.maxSkipped
    ensures OneShot(Archive(extensions, member, rest), q) == Some(member.content)
  {
    var s := Archive(extensions, member, rest);
    assert s[0..] == s;
    ArchiveLeads(s, 0, extensions, member, rest, q);
    LeadingMemberIsFound(s, 0, 0, |extensions|, q, member.content);
  }
}
