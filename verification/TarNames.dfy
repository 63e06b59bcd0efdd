/** Which member of a written archive the reader finds, and how it reads headers others wrote. */
module TarNames {
  import opened Base
  import opened TarReader

  // ----- which member is found ------------------------------------------------------------

  /** pax headers and GNU long names, by their type codes: x, g, L and K. */
  ghost predicate Skippable(typeflag: Byte) { typeflag in {120, 103, 76, 75} }

  /** The wanted name as it stands in a header: as it is, or behind "./". */
  ghost predicate Wanted(name: Bytes, q: Request)
  {
    || name == [46, 47] + q.member
    || (name == q.member && !(|name| >= 2 && name[0] == 46 && name[1] == 47))
  }

  ghost predicate Skips(extensions: seq<Entry>)
  {
    forall i :: 0 <= i < |extensions| ==> ValidEntry(extensions[i]) && Skippable(extensions[i].typeflag)
  }

  /** No more entries in front than allowed, and none that claims too much. */
  ghost predicate Fits(extensions: seq<Entry>, member: Entry, q: Request)
  {
    && |extensions| <= q.maxSkipped && |member.content| <= q.maxBytes
    && forall i :: 0 <= i < |extensions| ==> |extensions[i].content| <= q.maxBytes
  }

  lemma WantedName(name: Bytes, q: Request)
    ensures StripDotSlash(name) == q.member <==> Wanted(name, q)
  {
    if |name| >= 2 && name[0] == 46 && name[1] == 47 { assert name == [46, 47] + name[2..]; }
  }

  /** At `offset` stand headers that are skipped, of these sizes, and then another one with its content. */
  ghost predicate Chain(s: Bytes, offset: nat, sizes: seq<nat>, last: Header, content: Bytes)
    decreases |sizes|
  {
    && offset + 512 <= |s|
    && if sizes == [] then
         && ParseHeader(s[offset..offset + 512]) == Some(last) && !Skippable(last.typeflag)
         && offset + 512 + last.size <= |s| && content == s[offset + 512..offset + 512 + last.size]
       else
         && ParseHeader(s[offset..offset + 512]).Some?
         && Skippable(ParseHeader(s[offset..offset + 512]).value.typeflag)
         && ParseHeader(s[offset..offset + 512]).value.size == sizes[0]
         && Chain(s, offset + 512 + RoundUp(sizes[0]), sizes[1..], last, content)
  }

  ghost predicate Allowed(sizes: seq<nat>, last: Header, q: Request, skipped: nat)
  {
    && skipped + |sizes| <= q.maxSkipped && last.size <= q.maxBytes && last.name == q.member
    && forall i :: 0 <= i < |sizes| ==> sizes[i] <= q.maxBytes
  }

  lemma AllowedStep(sizes: seq<nat>, last: Header, q: Request, skipped: nat)
    requires sizes != []
    ensures Allowed(sizes, last, q, skipped) ==> Allowed(sizes[1..], last, q, skipped + 1)
    ensures Allowed(sizes[1..], last, q, skipped + 1) && sizes[0] <= q.maxBytes ==> Allowed(sizes, last, q, skipped)
    ensures Allowed(sizes, last, q, skipped) ==> skipped + 1 <= q.maxSkipped && sizes[0] <= q.maxBytes
  {
    assert sizes == [sizes[0]] + sizes[1..];
  }

  lemma {:induction false} ChainDecides(s: Bytes, offset: nat, skipped: nat, sizes: seq<nat>, last: Header,
                                        content: Bytes, q: Request)
    requires Chain(s, offset, sizes, last, content) && skipped <= q.maxSkipped
    ensures Decide(s, offset, skipped, q)
            == Done(if Allowed(sizes, last, q, skipped) then Some(content) else None)
    decreases |sizes|
  {
    var header := ParseHeader(s[offset..offset + 512]);
    DecideHere(s, offset, skipped, q, header);
    if sizes != [] {
      AllowedStep(sizes, last, q, skipped);
      if skipped + 1 <= q.maxSkipped && sizes[0] <= q.maxBytes {
        ChainDecides(s, offset + 512 + RoundUp(sizes[0]), skipped + 1, sizes[1..], last, content, q);
      }
    }
  }

  function Sizes(extensions: seq<Entry>): (r: seq<nat>)
    ensures |r| == |extensions| && forall i :: 0 <= i < |r| ==> r[i] == |extensions[i].content|
  {
    seq(|extensions|, i requires 0 <= i < |extensions| => |extensions[i].content|)
  }

  function HeaderOf(e: Entry): Header { Header(StripDotSlash(e.name), |e.content|, e.typeflag) }

  lemma MemberChains(s: Bytes, offset: nat, member: Entry, rest: Bytes)
    requires ValidEntry(member) && !Skippable(member.typeflag)
    requires offset <= |s| && s[offset..] == HeaderBlock(member) + member.content + rest
    ensures Chain(s, offset, [], HeaderOf(member), member.content)
  {
    HeaderRoundTrip(member);
    ConcatAssociates(HeaderBlock(member), member.content, rest);
    EntryAt(s, offset, member, member.content + rest);
    TakeContent(s, offset + 512, member.content, rest);
  }

  lemma ExtensionChains(s: Bytes, offset: nat, next: nat, sizes: seq<nat>, last: Header, content: Bytes, e: Entry)
    requires Skippable(e.typeflag) && offset + 512 <= |s|
    requires ParseHeader(s[offset..offset + 512]) == Some(HeaderOf(e))
    requires next == offset + 512 + RoundUp(|e.content|) && Chain(s, next, sizes, last, content)
    ensures Chain(s, offset, [|e.content|] + sizes, last, content)
  {
    assert ([|e.content|] + sizes)[1..] == sizes;
  }

  lemma {:induction false} ArchiveChains(s: Bytes, offset: nat, extensions: seq<Entry>, member: Entry, rest: Bytes)
    requires Skips(extensions) && ValidEntry(member) && !Skippable(member.typeflag)
    requires offset <= |s| && s[offset..] == Archive(extensions, member, rest)
    ensures Chain(s, offset, Sizes(extensions), HeaderOf(member), member.content)
    decreases |extensions|
  {
    if extensions == [] {
      MemberChains(s, offset, member, rest);
    } else {
      var e, more := extensions[0], extensions[1..];
      SkipsSplit(extensions, member, rest);
      var next := ExtensionLeads(s, offset, e, Archive(more, member, rest));
      ArchiveChains(s, next, more, member, rest);
      ExtensionChains(s, offset, next, Sizes(more), HeaderOf(member), member.content, e);
    }
  }

  lemma SkipsSplit(extensions: seq<Entry>, member: Entry, rest: Bytes)
    requires extensions != [] && Skips(extensions) && |member.name| <= 100
    ensures ValidEntry(extensions[0]) && Skippable(extensions[0].typeflag) && Skips(extensions[1..])
    ensures Sizes(extensions) == [|extensions[0].content|] + Sizes(extensions[1..])
    ensures Archive(extensions, member, rest) == EntryBytes(extensions[0]) + Archive(extensions[1..], member, rest)
  {
  }

  lemma FitsAllowed(extensions: seq<Entry>, member: Entry, q: Request)
    ensures Allowed(Sizes(extensions), HeaderOf(member), q, 0)
            <==> StripDotSlash(member.name) == q.member && Fits(extensions, member, q)
  {
    assert forall i :: 0 <= i < |extensions| ==> Sizes(extensions)[i] == |extensions[i].content|;
  }

  /** Of every archive that begins with pax or GNU entries and then some other member: the member's
      content is returned exactly when its name is the wanted one, as it is or behind "./", and neither
      the entries in front of it nor any size exceeds its limit; else nothing is. */
  lemma LeadingNameDecides(extensions: seq<Entry>, member: Entry, rest: Bytes, q: Request)
    requires Skips(extensions) && ValidEntry(member) && !Skippable(member.typeflag)
    ensures OneShot(Archive(extensions, member, rest), q)
            == if Wanted(member.name, q) && Fits(extensions, member, q) then Some(member.content) else None
  {
    var s := Archive(extensions, member, rest);
    assert s[0..] == s;
    ArchiveChains(s, 0, extensions, member, rest);
    ChainDecides(s, 0, 0, Sizes(extensions), HeaderOf(member), member.content, q);
    WantedName(member.name, q);
    FitsAllowed(extensions, member, q);
  }

  // ----- a header as others write it ------------------------------------------------------

  ghost predicate Blank(t: Bytes) { forall i :: 0 <= i < |t| ==> t[i] == 32 || 9 <= t[i] <= 13 }

  ghost predicate Octals(t: Bytes) { t != [] && forall i :: 0 <= i < |t| ==> 48 <= t[i] <= 55 }

  /** Nothing, or something that does not begin with an octal digit. */
  ghost predicate NoDigit(t: Bytes) { t != [] ==> t[0] < 48 || t[0] > 55 }

  lemma {:induction false} UpToZeroOver(t: Bytes, rest: Bytes)
    requires forall i :: 0 <= i < |t| ==> t[i] != 0
    ensures UpToZero(t + rest) == t + UpToZero(rest)
  {
    if t == [] {
      assert t + rest == rest;
    } else {
      assert (t + rest)[1..] == t[1..] + rest;
      UpToZeroOver(t[1..], rest);
    }
  }

  lemma {:induction false} TrimStartOver(pre: Bytes, t: Bytes)
    requires Blank(pre) && (t == [] || !Space(t[0]))
    ensures TrimStart(pre + t) == t
  {
    if pre == [] {
      assert pre + t == t;
    } else {
      assert (pre + t)[1..] == pre[1..] + t;
      TrimStartOver(pre[1..], t);
    }
  }

  lemma {:induction false} TrimEndKeeps(t: Bytes, post: Bytes) returns (kept: Bytes)
    requires t != [] && !Space(t[|t| - 1]) && NoDigit(post)
    ensures TrimEnd(t + post) == t + kept && NoDigit(kept)
  {
    kept := post;
    if post == [] {
      assert t + post == t;
    } else if Space(post[|post| - 1]) {
      assert (t + post)[..|t + post| - 1] == t + post[..|post| - 1];
      kept := TrimEndKeeps(t, post[..|post| - 1]);
    }
  }

  lemma {:induction false} RunStops(digits: Bytes, rest: Bytes)
    requires (forall i :: 0 <= i < |digits| ==> 48 <= digits[i] <= 55) && NoDigit(rest)
    ensures DigitRun(digits + rest) == |digits|
  {
    if digits == [] {
      assert digits + rest == rest;
    } else {
      assert (digits + rest)[1..] == digits[1..] + rest;
      RunStops(digits[1..], rest);
    }
  }

  lemma FieldReads(pre: Bytes, digits: Bytes, post: Bytes)
    requires Blank(pre) && Octals(digits) && NoDigit(post)
    ensures ParseOctal(TrimEnd(TrimStart(UpToZero(pre + digits + post)))) == Some(OctalValue(digits))
    ensures TrimEnd(TrimStart(UpToZero(pre + digits + post))) != []
  {
    var tail := UpToZero(post);
    ConcatAssociates(pre, digits, post);
    UpToZeroOver(pre, digits + post);
    UpToZeroOver(digits, post);
    assert digits[|digits| - 1] >= 48 && (digits + tail)[0] == digits[0];
    TrimStartOver(pre, digits + tail);
    var kept := TrimEndKeeps(digits, tail);
    RunStops(digits, kept);
    assert (digits + kept)[..|digits|] == digits;
  }

  /** A header whose size is octal digits, after white space or not, ended by anything that is no octal
      digit: the size is what the digits say, the type NUL reads as the plain `0`, and every other type
      as itself. A size field of white space means no content; a block of zeros ends the archive. */
  lemma HeaderReads(block: Bytes, pre: Bytes, digits: Bytes, post: Bytes)
    requires |block| == 512
    ensures (forall i :: 0 <= i < 512 ==> block[i] == 0) ==> ParseHeader(block) == None
    ensures block[124..136] == pre + digits + post && Blank(pre) && Octals(digits) && NoDigit(post) ==>
      ParseHeader(block).Some?
      && ParseHeader(block).value.size == OctalValue(digits)
      && ParseHeader(block).value.typeflag == (if block[156] == 0 then 48 else block[156])
    ensures Blank(block[124..136]) ==> ParseHeader(block).Some? && ParseHeader(block).value.size == 0
  {
    if block[124..136] == pre + digits + post && Blank(pre) && Octals(digits) && NoDigit(post) {
      FieldReads(pre, digits, post);
      assert block[124 + |pre|] == block[124..136][|pre|] == digits[0];
      DigitsAreNatural(digits);
    }
    if Blank(block[124..136]) {
      var t := block[124..136];
      assert t[0] == block[124];
      UpToZeroOver(t, []);
      TrimStartOver(t, []);
      assert t + [] == t && t + UpToZero([]) == t;
    }
  }

  lemma {:induction false} DigitsAreNatural(digits: Bytes)
    requires forall i :: 0 <= i < |digits| ==> 48 <= digits[i] <= 55
    ensures OctalValue(digits) >= 0
  {
    if digits != [] { DigitsAreNatural(digits[..|digits| - 1]); }
  }

  /** A size with a sign: plus reads as without it, and minus before anything but zero does not parse;
      neither does a field that begins with anything else. */
  lemma OddSizes(block: Bytes, first: Byte, digits: Bytes, post: Bytes)
    requires |block| == 512 && first != 0 && block[124..136] == [first] + digits + post
    ensures first == 43 && Octals(digits) && NoDigit(post) ==>
              ParseHeader(block).Some? && ParseHeader(block).value.size == OctalValue(digits)
    ensures first == 45 && Octals(digits) && NoDigit(post) && OctalValue(digits) > 0 ==> ParseHeader(block) == None
    ensures first !in {43, 45, 32} && !(9 <= first <= 13) && !(48 <= first <= 55) ==> ParseHeader(block) == None
  {
    assert block[124] == block[124..136][0] == first;
    var tail := UpToZero(digits + post);
    assert [first] + digits + post == [first] + (digits + post);
    UpToZeroOver([first], digits + post);
    if first != 32 && !(9 <= first <= 13) {
      assert ([first] + tail)[0] == first;
      var kept := TrimEndStarts(first, tail);
      if Octals(digits) && NoDigit(post) && (first == 43 || first == 45) {
        UpToZeroOver(digits, post);
        assert [first] + (digits + UpToZero(post)) == [first] + digits + UpToZero(post);
        kept := TrimEndKeeps([first] + digits, UpToZero(post));
        SignedReads(first, digits, kept);
        DigitsAreNatural(digits);
      }
    }
  }

  lemma {:induction false} TrimEndStarts(first: Byte, t: Bytes) returns (kept: Bytes)
    requires !Space(first)
    ensures TrimEnd([first] + t) == [first] + kept
  {
    kept := t;
    if t == [] {
      assert [first] + t == [first];
    } else if Space(t[|t| - 1]) {
      assert ([first] + t)[..|t|] == [first] + t[..|t| - 1];
      kept := TrimEndStarts(first, t[..|t| - 1]);
    }
  }

  lemma SignedReads(sign: Byte, digits: Bytes, kept: Bytes)
    requires (sign == 43 || sign == 45) && Octals(digits) && NoDigit(kept)
    ensures ParseOctal([sign] + digits + kept)
            == Some(if sign == 45 then -OctalValue(digits) else OctalValue(digits))
  {
    var t := [sign] + digits + kept;
    assert t[1..] == digits + kept;
    RunStops(digits, kept);
    assert (digits + kept)[..|digits|] == digits;
  }
}
