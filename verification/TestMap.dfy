/** The suite identity check: a pinned map of test titles against a fresh one, script by script and
    file by file, through declared renames, and with declared splits graded in front of it. */
module TestMap {
  import opened Base

  /** A script's files with the titles each one collects. */
  type Files = map<string, seq<string>>

  /** The rename map: old path to new, and per new path old title to new. */
  datatype Renames = Renames(paths: map<string, string>, titles: map<string, map<string, string>>)

  // ----- renames --------------------------------------------------------------------------

  function NewName(r: Renames, rel: string): string
  {
    if rel in r.paths && r.paths[rel] != "" then r.paths[rel] else rel
  }

  function NewTitle(r: Renames, name: string, title: string): string
  {
    if name in r.titles && title in r.titles[name] && r.titles[name][title] != "" then r.titles[name][title] else title
  }

  function Retitled(r: Renames, name: string, titles: seq<string>): (t: seq<string>)
  {
    if titles == [] then [] else [NewTitle(r, name, titles[0])] + Retitled(r, name, titles[1..])
  }

  ghost predicate Injective(r: Renames, before: Files)
  {
    forall a, b :: a in before && b in before && NewName(r, a) == NewName(r, b) ==> a == b
  }

  /** The pinned files under their new names and titles. */
  ghost function Mapped(r: Renames, before: Files): Files
    requires Injective(r, before)
  {
    map a | a in before :: NewName(r, a) := Retitled(r, NewName(r, a), before[a])
  }

  /** Each pinned file in turn; a later file takes the place of an earlier one of the same new name. */
  function Viewed(r: Renames, before: Files, order: seq<string>): Files
    requires forall a :: a in order ==> a in before
  {
    if order == [] then map[]
    else
      var rel := order[|order| - 1];
      Viewed(r, before, order[..|order| - 1])[NewName(r, rel) := Retitled(r, NewName(r, rel), before[rel])]
  }

  lemma {:induction false} ViewedHolds(r: Renames, before: Files, order: seq<string>)
    requires Injective(r, before) && forall a :: a in order ==> a in before
    ensures forall name :: name in Viewed(r, before, order) <==> exists a :: a in order && NewName(r, a) == name
    ensures forall a :: a in order ==>
      NewName(r, a) in Viewed(r, before, order)
      && Viewed(r, before, order)[NewName(r, a)] == Retitled(r, NewName(r, a), before[a])
  {
    if order != [] {
      var rest := order[..|order| - 1];
      assert order == rest + [order[|order| - 1]];
      ViewedHolds(r, before, rest);
    }
  }

  /** One-to-one renames lose nothing: in whatever order the pinned files come, each is there under
      its new name. */
  lemma ViewIsMapped(r: Renames, before: Files, order: seq<string>)
    requires Injective(r, before) && forall a :: a in order <==> a in before
    ensures Viewed(r, before, order) == Mapped(r, before)
  {
    ViewedHolds(r, before, order);
  }

  // ----- one script, file by file ---------------------------------------------------------

  datatype Finding =
    | FileAdded(file: string)
    | FileDropped(file: string)
    | TitleDropped(file: string, title: string)
    | TitleAdded(file: string, title: string)
    | PartCollides(file: string, source: string)
    | SplitMissing(source: string, title: string, elsewhere: set<string>)
    | SplitSurplus(source: string, title: string, holders: seq<string>, known: bool)

  function FileOf(d: Finding): string
  {
    match d
    case FileAdded(f) => f
    case FileDropped(f) => f
    case TitleDropped(f, _) => f
    case TitleAdded(f, _) => f
    case PartCollides(f, _) => f
    case SplitMissing(f, _, _) => f
    case SplitSurplus(f, _, _, _) => f
  }

  predicate Differs(mapped: Files, after: Files, d: Finding)
  {
    match d
    case FileAdded(f) => f in after && f !in mapped
    case FileDropped(f) => f in mapped && f !in after
    case TitleDropped(f, t) => f in mapped && f in after && t in mapped[f] && t !in after[f]
    case TitleAdded(f, t) => f in mapped && f in after && t in after[f] && t !in mapped[f]
    case _ => false
  }

  /** The same files, each with the same titles, repeats aside. */
  ghost predicate SameFiles(mapped: Files, after: Files)
  {
    && mapped.Keys == after.Keys
    && forall f :: f in mapped ==> forall t :: t in mapped[f] <==> t in after[f]
  }

  lemma NoDifference(mapped: Files, after: Files)
    ensures (forall d :: !Differs(mapped, after, d)) <==> SameFiles(mapped, after)
  {
    if forall d :: !Differs(mapped, after, d) {
      forall f ensures f in mapped <==> f in after {
        assert !Differs(mapped, after, FileAdded(f)) && !Differs(mapped, after, FileDropped(f));
      }
      forall f, t | f in mapped ensures t in mapped[f] <==> t in after[f] {
        assert !Differs(mapped, after, TitleDropped(f, t)) && !Differs(mapped, after, TitleAdded(f, t));
      }
    }
  }

  method CompareTitles(file: string, mapped: seq<string>, after: seq<string>) returns (out: seq<Finding>)
    ensures forall d :: d in out <==>
      (exists t :: t in mapped && t !in after && d == TitleDropped(file, t))
      || (exists t :: t in after && t !in mapped && d == TitleAdded(file, t))
  {
    out := [];
    for i := 0 to |mapped|
      invariant forall d ::
                  d in out
                  <==> exists k :: 0 <= k < i && mapped[k] !in after && d == TitleDropped(file, mapped[k])
    {
      if mapped[i] !in after { out := out + [TitleDropped(file, mapped[i])]; }
    }
    ghost var gone := out;
    for i := 0 to |after|
      invariant forall d :: d in out <==>
        d in gone || exists k :: 0 <= k < i && after[k] !in mapped && d == TitleAdded(file, after[k])
    {
      if after[i] !in mapped { out := out + [TitleAdded(file, after[i])]; }
    }
  }

  method CompareFile(mapped: Files, after: Files, rel: string) returns (out: seq<Finding>)
    requires rel in mapped || rel in after
    ensures forall d :: d in out <==> FileOf(d) == rel && Differs(mapped, after, d)
  {
    if rel !in mapped {
      out := [FileAdded(rel)];
    } else if rel !in after {
      out := [FileDropped(rel)];
    } else {
      out := CompareTitles(rel, mapped[rel], after[rel]);
    }
  }

  method CompareFiles(mapped: Files, after: Files) returns (out: seq<Finding>)
    ensures forall d :: d in out <==> Differs(mapped, after, d)
  {
    out := [];
    var names := Listing(mapped.Keys + after.Keys);
    for i := 0 to |names|
      invariant forall d :: d in out <==> FileOf(d) in names[..i] && Differs(mapped, after, d)
    {
      assert names[..i + 1] == names[..i] + [names[i]];
      assert names[i] in names;
      var more := CompareFile(mapped, after, names[i]);
      out := out + more;
    }
    assert names[..|names|] == names;
  }

  // ----- splits ---------------------------------------------------------------------------

  /** The titles of some lists taken together, repeats counted. */
  function Together(lists: seq<seq<string>>): multiset<string>
  {
    if lists == [] then multiset{} else Together(lists[..|lists| - 1]) + multiset(lists[|lists| - 1])
  }

  /** A count per title, and only titles that occur. */
  ghost predicate Counts(counts: map<string, nat>, m: multiset<string>)
  {
    forall t :: (t in counts <==> t in m) && (t in counts ==> counts[t] == m[t])
  }

  function Occurs(counts: map<string, nat>, t: string): nat { if t in counts then counts[t] else 0 }

  lemma CountsMore(counts: map<string, nat>, m: multiset<string>, t: string)
    requires Counts(counts, m)
    ensures Counts(counts[t := Occurs(counts, t) + 1], m + multiset{t})
  {
  }

  method CountTitles(lists: seq<seq<string>>) returns (counts: map<string, nat>)
    ensures Counts(counts, Together(lists))
  {
    counts := map[];
    for i := 0 to |lists|
      invariant Counts(counts, Together(lists[..i]))
    {
      var list := lists[i];
      assert lists[..i + 1][..i] == lists[..i];
      for j := 0 to |list|
        invariant Counts(counts, Together(lists[..i]) + multiset(list[..j]))
      {
        MultisetOfTake(list, j);
        CountsMore(counts, Together(lists[..i]) + multiset(list[..j]), list[j]);
        counts := counts[list[j] := Occurs(counts, list[j]) + 1];
      }
      assert list[..|list|] == list;
    }
    assert lists[..|lists|] == lists;
  }

  predicate AboutSplit(d: Finding) { d.SplitMissing? || d.SplitSurplus? }

  function TitleOf(d: Finding): string { if AboutSplit(d) then d.title else "" }

  function TitlesOf(out: seq<Finding>): (r: seq<string>)
    ensures |r| == |out|
  {
    seq(|out|, i requires 0 <= i < |out| => TitleOf(out[i]))
  }

  function Copies<T>(x: T, n: nat): (r: seq<T>)
    ensures |r| == n && forall y :: y in r ==> y == x
  {
    seq(n, _ => x)
  }

  lemma {:induction false} CopiesCount<T>(x: T, n: nat, y: T)
    ensures multiset(Copies(x, n))[y] == if y == x then n else 0
  {
    if n > 0 {
      CopiesCount(x, n - 1, y);
      assert Copies(x, n) == Copies(x, n - 1) + [x];
    }
  }

  lemma TitlesOfCopies(out: seq<Finding>, d: Finding, n: nat, t: string)
    ensures multiset(TitlesOf(out + Copies(d, n)))[t] == multiset(TitlesOf(out))[t] + if t == TitleOf(d) then n else 0
  {
    assert TitlesOf(out + Copies(d, n)) == TitlesOf(out) + Copies(TitleOf(d), n);
    CopiesCount(TitleOf(d), n, t);
  }

  /** The tree's titles for a file, none when it was not collected. */
  function Collected(after: Files, rel: string): seq<string> { if rel in after then after[rel] else [] }

  function Elsewhere(after: Files, parts: seq<string>, title: string): (r: set<string>)
    ensures forall rel :: rel in r <==> rel in after && rel !in parts && title in after[rel]
  {
    set rel | rel in after && rel !in parts && title in after[rel]
  }

  ghost predicate MissingOf(d: Finding, source: string, parts: seq<string>, after: Files)
  {
    d.SplitMissing? && d.source == source && d.elsewhere == Elsewhere(after, parts, d.title)
  }

  /** The findings carry each of the first titles as often as `m` does, and no other. */
  ghost predicate Covers(out: seq<Finding>, titles: seq<string>, m: multiset<string>)
  {
    forall t :: multiset(TitlesOf(out))[t] == if t in titles then m[t] else 0
  }

  lemma CoversSnoc(out: seq<Finding>, titles: seq<string>, m: multiset<string>, d: Finding)
    requires Covers(out, titles, m) && TitleOf(d) !in titles
    ensures Covers(out + Copies(d, m[TitleOf(d)]), titles + [TitleOf(d)], m)
  {
    var n := m[TitleOf(d)];
    forall t ensures multiset(TitlesOf(out + Copies(d, n)))[t] == if t in titles + [TitleOf(d)] then m[t] else 0 {
      TitlesOfCopies(out, d, n, t);
    }
  }

  lemma CoversAll(out: seq<Finding>, titles: seq<string>, m: multiset<string>)
    requires Covers(out, titles, m) && forall t :: t in m ==> t in titles
    ensures multiset(TitlesOf(out)) == m
  {
    forall t ensures multiset(TitlesOf(out))[t] == m[t] {
      assert t !in titles ==> m[t] == 0;
    }
  }

  function Excess(want: nat, have: nat): nat { if have >= want then 0 else want - have }

  lemma CountsDiffer(expected: map<string, nat>, got: map<string, nat>, e: multiset<string>, g: multiset<string>,
                     t: string)
    requires Counts(expected, e) && Counts(got, g)
    ensures (e - g)[t] == Excess(Occurs(expected, t), Occurs(got, t))
    ensures t in e - g ==> t in expected
  {
  }

  method Push(d: Finding, n: nat) returns (out: seq<Finding>)
    ensures out == Copies(d, n)
  {
    out := [];
    for k := 0 to n
      invariant out == Copies(d, k)
    {
      out := out + [d];
    }
  }

  lemma NextTitle(titles: seq<string>, i: nat)
    requires Distinct(titles) && i < |titles|
    ensures titles[..i + 1] == titles[..i] + [titles[i]] && titles[i] in titles && titles[i] !in titles[..i]
  {
  }

  method MissingTitles(source: string, parts: seq<string>, after: Files,
                       expected: map<string, nat>, got: map<string, nat>,
                       ghost e: multiset<string>, ghost g: multiset<string>)
      returns (out: seq<Finding>)
    requires Counts(expected, e) && Counts(got, g)
    ensures forall d :: d in out ==> MissingOf(d, source, parts, after)
    ensures multiset(TitlesOf(out)) == e - g
  {
    out := [];
    var titles := Listing(expected.Keys);
    for i := 0 to |titles|
      invariant forall d :: d in out ==> MissingOf(d, source, parts, after)
      invariant Covers(out, titles[..i], e - g)
    {
      NextTitle(titles, i);
      CountsDiffer(expected, got, e, g, titles[i]);
      var d := SplitMissing(source, titles[i], Elsewhere(after, parts, titles[i]));
      CoversSnoc(out, titles[..i], e - g, d);
      var more := Push(d, Excess(Occurs(expected, titles[i]), Occurs(got, titles[i])));
      out := out + more;
    }
    assert titles[..|titles|] == titles;
    CoversAll(out, titles, e - g);
  }

  function Holders(after: Files, parts: seq<string>, title: string): (r: seq<string>)
    ensures forall p :: p in r <==> p in parts && title in Collected(after, p)
  {
    Filter(p => title in Collected(after, p), parts)
  }

  ghost predicate SurplusOf(d: Finding, source: string, parts: seq<string>, after: Files, e: multiset<string>)
  {
    d.SplitSurplus? && d.source == source && d.holders == Holders(after, parts, d.title) && (d.known <==> d.title in e)
  }

  method SurplusTitles(source: string, parts: seq<string>, after: Files,
                       expected: map<string, nat>, got: map<string, nat>,
                       ghost e: multiset<string>, ghost g: multiset<string>)
      returns (out: seq<Finding>)
    requires Counts(expected, e) && Counts(got, g)
    ensures forall d :: d in out ==> SurplusOf(d, source, parts, after, e)
    ensures multiset(TitlesOf(out)) == g - e
  {
    out := [];
    var titles := Listing(got.Keys);
    for i := 0 to |titles|
      invariant forall d :: d in out ==> SurplusOf(d, source, parts, after, e)
      invariant Covers(out, titles[..i], g - e)
    {
      NextTitle(titles, i);
      CountsDiffer(got, expected, g, e, titles[i]);
      var d := SplitSurplus(source, titles[i], Holders(after, parts, titles[i]), Occurs(expected, titles[i]) > 0);
      CoversSnoc(out, titles[..i], g - e, d);
      var more := Push(d, Excess(Occurs(got, titles[i]), Occurs(expected, titles[i])));
      out := out + more;
    }
    assert titles[..|titles|] == titles;
    CoversAll(out, titles, g - e);
  }

  function PartLists(after: Files, parts: seq<string>): (r: seq<seq<string>>)
    ensures |r| == |parts|
  {
    seq(|parts|, i requires 0 <= i < |parts| => Collected(after, parts[i]))
  }

  /** What the named parts collect, taken together. */
  function Union(after: Files, parts: seq<string>): multiset<string> { Together(PartLists(after, parts)) }

  lemma ExcessSizes(e: multiset<string>, g: multiset<string>)
    ensures |g - e| - |e - g| == |g| - |e|
    ensures e - g == multiset{} && g - e == multiset{} <==> e == g
  {
    assert e == (e - g) + e * g;
    assert g == (g - e) + e * g;
  }

  /** One split of one script. The findings for lost titles are the pinned titles less the collected
      ones and those for surplus ones the reverse, each as often as it is short or over, so that
      surplus less missing is the difference in size. */
  method GradeSplit(source: string, parts: seq<string>, mapped: Files, after: Files)
      returns (collisions: seq<Finding>, missing: seq<Finding>, surplus: seq<Finding>)
    requires source in mapped
    ensures forall d ::
              d in collisions
              <==> exists p :: p in parts && p != source && p in mapped && d == PartCollides(p, source)
    ensures forall d :: d in missing ==> MissingOf(d, source, parts, after)
    ensures forall d :: d in surplus ==> SurplusOf(d, source, parts, after, multiset(mapped[source]))
    ensures multiset(TitlesOf(missing)) == multiset(mapped[source]) - Union(after, parts)
    ensures multiset(TitlesOf(surplus)) == Union(after, parts) - multiset(mapped[source])
    ensures |surplus| - |missing| == |Union(after, parts)| - |mapped[source]|
    ensures missing == [] && surplus == [] <==> Union(after, parts) == multiset(mapped[source])
  {
    collisions := [];
    for i := 0 to |parts|
      invariant forall d :: d in collisions <==>
        exists k :: 0 <= k < i && parts[k] != source && parts[k] in mapped && d == PartCollides(parts[k], source)
    {
      if parts[i] != source && parts[i] in mapped {
        collisions := collisions + [PartCollides(parts[i], source)];
      }
    }
    ghost var e, g := multiset(mapped[source]), Union(after, parts);
    var expected := CountTitles([mapped[source]]);
    assert Together([mapped[source]]) == e by { assert [mapped[source]][..0] == []; }
    var got := CountTitles(PartLists(after, parts));
    missing := MissingTitles(source, parts, after, expected, got, e, g);
    surplus := SurplusTitles(source, parts, after, expected, got, e, g);
    ExcessSizes(e, g);
    SizesOf(missing, e - g);
    SizesOf(surplus, g - e);
  }

  lemma SizesOf(out: seq<Finding>, m: multiset<string>)
    requires multiset(TitlesOf(out)) == m
    ensures |out| == |m|
    ensures out == [] <==> m == multiset{}
  {
    assert |multiset(TitlesOf(out))| == |TitlesOf(out)|;
  }

  // ----- the split record -----------------------------------------------------------------

  /** The value under one key of the record; a part that is not a string reads as the empty one. */
  datatype Parts = NotAList | List(paths: seq<string>)

  type Record = map<string, Parts>

  datatype Problem =
    | BadParts(source: string)
    | NamedTwice(part: string, first: string, second: string)
    | AlsoSplit(part: string, source: string)

  predicate Usable(parts: Parts) { parts.List? && |parts.paths| >= 2 && "" !in parts.paths }

  predicate Names(record: Record, source: string, part: string)
  {
    source in record && Usable(record[source]) && part in record[source].paths
  }

  /** Every list is usable and without repeats, no part has two sources, and no other file's part is
      itself split. */
  ghost predicate Valid(record: Record)
  {
    && (forall s :: s in record ==> Usable(record[s]) && Distinct(record[s].paths))
    && (forall s, u, p :: Names(record, s, p) && Names(record, u, p) ==> s == u)
    && (forall s, p :: Names(record, s, p) && p in record ==> p == s)
  }

  /** The part of validity that the first pass settles, for the sources seen so far. */
  ghost predicate Claimed(record: Record, done: seq<string>, owner: map<string, string>)
    requires forall s :: s in done ==> s in record
  {
    && (forall s :: s in done ==> Usable(record[s]) && Distinct(record[s].paths))
    && (forall p, s :: s in done && Names(record, s, p) ==> p in owner && owner[p] == s)
    && (forall p :: p in owner ==> owner[p] in done && Names(record, owner[p], p))
  }

  method ClaimParts(source: string, paths: seq<string>, owner: map<string, string>)
      returns (claimed: map<string, string>, problems: seq<Problem>)
    ensures problems == [] <==> Distinct(paths) && forall p :: p in paths ==> p !in owner
    ensures problems == [] ==> forall p :: p in claimed <==> p in owner || p in paths
    ensures problems == [] ==> forall p :: p in claimed ==> claimed[p] == if p in owner then owner[p] else source
  {
    claimed, problems := owner, [];
    for i := 0 to |paths|
      invariant problems == [] <==> Distinct(paths[..i]) && forall p :: p in paths[..i] ==> p !in owner
      invariant problems == [] ==> forall p :: p in claimed <==> p in owner || p in paths[..i]
      invariant problems == [] ==> forall p :: p in claimed ==> claimed[p] == if p in owner then owner[p] else source
      invariant forall p :: p in owner || p in paths[..i] ==> p in claimed
      invariant problems != [] ==> !(Distinct(paths) && forall p :: p in paths ==> p !in owner)
    {
      PrefixDistinct(paths, i);
      if paths[i] in claimed {
        problems := problems + [NamedTwice(paths[i], claimed[paths[i]], source)];
      } else {
        claimed := claimed[paths[i] := source];
      }
    }
    assert paths[..|paths|] == paths;
  }

  lemma PrefixDistinct(paths: seq<string>, i: nat)
    requires i < |paths|
    ensures paths[..i + 1] == paths[..i] + [paths[i]]
    ensures Distinct(paths[..i + 1]) <==> Distinct(paths[..i]) && paths[i] !in paths[..i]
    ensures Distinct(paths) ==> Distinct(paths[..i + 1])
  {
  }

  lemma ClaimedSnoc(record: Record, done: seq<string>, owner: map<string, string>, source: string,
                    claimed: map<string, string>)
    requires (forall s :: s in done ==> s in record) && source in record && source !in done
    requires Claimed(record, done, owner) && Usable(record[source])
    requires Distinct(record[source].paths) && forall p :: p in record[source].paths ==> p !in owner
    requires forall p :: p in claimed <==> p in owner || p in record[source].paths
    requires forall p :: p in claimed ==> claimed[p] == if p in owner then owner[p] else source
    ensures Claimed(record, done + [source], claimed)
  {
  }

  /** A record with a problem found while claiming one source's parts is not valid. */
  lemma ClaimFails(record: Record, done: seq<string>, owner: map<string, string>, source: string)
    requires (forall s :: s in done ==> s in record) && source in record && source !in done
    requires Claimed(record, done, owner) && Usable(record[source])
    requires !(Distinct(record[source].paths) && forall p :: p in record[source].paths ==> p !in owner)
    ensures !Valid(record)
  {
    if Distinct(record[source].paths) {
      var p :| p in record[source].paths && p in owner;
      assert Names(record, source, p) && Names(record, owner[p], p);
    }
  }

  method ValidateSplits(record: Record) returns (problems: seq<Problem>)
    ensures problems == [] <==> Valid(record)
  {
    problems := [];
    var owner: map<string, string> := map[];
    var sources := Listing(record.Keys);
    for i := 0 to |sources|
      invariant problems == [] ==> Claimed(record, sources[..i], owner)
      invariant problems != [] ==> !Valid(record)
    {
      NextTitle(sources, i);
      var parts := record[sources[i]];
      if !Usable(parts) {
        problems := problems + [BadParts(sources[i])];
      } else {
        var claimed, more := ClaimParts(sources[i], parts.paths, owner);
        if problems == [] {
          if more == [] {
            ClaimedSnoc(record, sources[..i], owner, sources[i], claimed);
          } else {
            ClaimFails(record, sources[..i], owner, sources[i]);
          }
        }
        owner := claimed;
        problems := problems + more;
      }
    }
    assert sources[..|sources|] == sources;
    ghost var claims := problems == [];
    var parts := Listing(owner.Keys);
    for i := 0 to |parts|
      invariant problems == [] ==> claims
      invariant problems == [] ==> forall p :: p in parts[..i] && p in record ==> p == owner[p]
      invariant problems != [] ==> !Valid(record)
    {
      NextTitle(parts, i);
      if parts[i] != owner[parts[i]] && parts[i] in record {
        if problems == [] {
          assert Names(record, owner[parts[i]], parts[i]);
        }
        problems := problems + [AlsoSplit(parts[i], owner[parts[i]])];
      }
    }
    assert parts[..|parts|] == parts;
    if problems == [] {
      ClaimedValid(record, sources, owner);
    }
  }

  lemma ClaimedValid(record: Record, sources: seq<string>, owner: map<string, string>)
    requires forall s :: s in sources <==> s in record
    requires Claimed(record, sources, owner) && forall p :: p in owner && p in record ==> p == owner[p]
    ensures Valid(record)
  {
  }

  // ----- whole maps -----------------------------------------------------------------------

  /** A title map as it is stored: per script and file the key of a title list; None is a script
      whose titles could not be collected as files. */
  datatype SuiteMap = SuiteMap(titleSets: map<string, seq<string>>, scripts: map<string, Option<map<string, string>>>)

  function Expand(m: SuiteMap, name: string): Option<Files>
  {
    if name !in m.scripts || m.scripts[name].None? then None
    else
      var files := m.scripts[name].value;
      Some(map rel | rel in files :: if files[rel] in m.titleSets then m.titleSets[files[rel]] else [])
  }

  datatype Difference =
    | ScriptAdded(script: string)
    | ScriptRemoved(script: string)
    | InScript(script: string, finding: Finding)
    | InRecord(problem: Problem)

  predicate InScope(only: Option<string>, name: string) { only.None? || only.value == name }

  ghost predicate OneToOne(pin: SuiteMap, r: Renames)
  {
    forall name :: Expand(pin, name).Some? ==> Injective(r, Expand(pin, name).value)
  }

  ghost predicate Genuine(pin: SuiteMap, tree: SuiteMap, r: Renames, only: Option<string>, d: Difference)
    requires OneToOne(pin, r)
  {
    match d
    case ScriptAdded(s) => InScope(only, s) && Expand(pin, s).None? && Expand(tree, s).Some?
    case ScriptRemoved(s) => InScope(only, s) && Expand(pin, s).Some? && Expand(tree, s).None?
    case InScript(s, f) => InScope(only, s) && Expand(pin, s).Some? && Expand(tree, s).Some?
      && Differs(Mapped(r, Expand(pin, s).value), Expand(tree, s).value, f)
    case InRecord(_) => false
  }

  function Origins(r: Renames, rels: seq<string>, name: string): (o: set<string>)
    ensures forall rel :: rel in o <==> rel in rels && NewName(r, rel) == name
  {
    set rel | rel in rels && NewName(r, rel) == name
  }

  lemma OriginsSnoc(r: Renames, rels: seq<string>, i: nat, name: string)
    requires i < |rels|
    ensures Origins(r, rels[..i + 1], name)
            == Origins(r, rels[..i], name) + if NewName(r, rels[i]) == name then {rels[i]} else {}
  {
    assert rels[..i + 1] == rels[..i] + [rels[i]];
  }

  ghost predicate OriginOf(r: Renames, rels: seq<string>, mapped: Files, origin: map<string, set<string>>)
  {
    origin.Keys == mapped.Keys
    && (forall name :: name in origin ==> origin[name] == Origins(r, rels, name))
    && (forall name :: name !in origin ==> Origins(r, rels, name) == {})
  }

  lemma OriginSnoc(r: Renames, rels: seq<string>, i: nat, mapped: Files, origin: map<string, set<string>>,
                   titles: seq<string>)
    requires i < |rels| && OriginOf(r, rels[..i], mapped, origin)
    ensures var name := NewName(r, rels[i]);
      OriginOf(r, rels[..i + 1], mapped[name := titles],
               origin[name := (if name in origin then origin[name] else {}) + {rels[i]}])
  {
    forall name ensures Origins(r, rels[..i + 1], name)
            == Origins(r, rels[..i], name) + if NewName(r, rels[i]) == name then {rels[i]} else {} {
      OriginsSnoc(r, rels, i, name);
    }
  }

  method RenamedView(before: Files, r: Renames) returns (mapped: Files, origin: map<string, set<string>>)
    ensures Injective(r, before) ==> mapped == Mapped(r, before)
    ensures origin.Keys == mapped.Keys
    ensures forall name, rel :: name in origin ==> (rel in origin[name] <==> rel in before && NewName(r, rel) == name)
  {
    mapped, origin := map[], map[];
    var order := Listing(before.Keys);
    for i := 0 to |order|
      invariant mapped == Viewed(r, before, order[..i])
      invariant OriginOf(r, order[..i], mapped, origin)
    {
      assert order[..i + 1][..i] == order[..i] && order[i] in order;
      var rel := order[i];
      var name := NewName(r, rel);
      var titles := Retitled(r, name, before[rel]);
      OriginSnoc(r, order, i, mapped, origin, titles);
      mapped := mapped[name := titles];
      origin := origin[name := (if name in origin then origin[name] else {}) + {rel}];
    }
    assert order[..|order|] == order;
    ViewIsMappedIfInjective(r, before, order);
  }

  lemma ViewIsMappedIfInjective(r: Renames, before: Files, order: seq<string>)
    requires forall a :: a in order <==> a in before
    ensures Injective(r, before) ==> Viewed(r, before, order) == Mapped(r, before)
  {
    if Injective(r, before) { ViewIsMapped(r, before, order); }
  }

  /** The ordinary comparison: with one-to-one renames it reports exactly the genuine differences. */
  method Compare(pin: SuiteMap, tree: SuiteMap, r: Renames, only: Option<string>) returns (out: seq<Difference>)
    ensures OneToOne(pin, r) ==> forall d :: d in out <==> Genuine(pin, tree, r, only, d)
  {
    out := [];
    var names := Listing(pin.scripts.Keys + tree.scripts.Keys);
    for i := 0 to |names|
      invariant OneToOne(pin, r) ==>
        forall d :: d in out <==> ScriptOf(d) in names[..i] && Genuine(pin, tree, r, only, d)
    {
      NextTitle(names, i);
      var more := CompareScript(pin, tree, r, only, names[i]);
      out := out + more;
    }
    assert names[..|names|] == names;
  }

  function ScriptOf(d: Difference): string
  {
    match d
    case ScriptAdded(s) => s
    case ScriptRemoved(s) => s
    case InScript(s, _) => s
    case InRecord(_) => ""
  }

  function Tagged(script: string, findings: seq<Finding>): (r: seq<Difference>)
    ensures |r| == |findings|
    ensures forall d :: d in r <==> d.InScript? && d.script == script && d.finding in findings
  {
    if findings == [] then [] else [InScript(script, findings[0])] + Tagged(script, findings[1..])
  }

  method CompareScript(pin: SuiteMap, tree: SuiteMap, r: Renames, only: Option<string>, name: string)
      returns (out: seq<Difference>)
    ensures OneToOne(pin, r) ==> forall d :: d in out <==> ScriptOf(d) == name && Genuine(pin, tree, r, only, d)
  {
    out := [];
    if !InScope(only, name) { return; }
    var before, after := Expand(pin, name), Expand(tree, name);
    if before.None? && after.None? { return; }
    if before.None? || after.None? {
      out := [if before.Some? then ScriptRemoved(name) else ScriptAdded(name)];
      return;
    }
    var mapped, _ := RenamedView(before.value, r);
    var findings := CompareFiles(mapped, after.value);
    out := Tagged(name, findings);
  }

  lemma NoGenuine(pin: SuiteMap, tree: SuiteMap, r: Renames, only: Option<string>)
    requires OneToOne(pin, r)
    ensures (forall d :: !Genuine(pin, tree, r, only, d))
            <==> forall name :: InScope(only, name) ==> ScriptSame(Expand(pin, name), Expand(tree, name), r)
  {
    if forall d :: !Genuine(pin, tree, r, only, d) {
      forall name | InScope(only, name) ensures ScriptSame(Expand(pin, name), Expand(tree, name), r) {
        assert !Genuine(pin, tree, r, only, ScriptAdded(name)) && !Genuine(pin, tree, r, only, ScriptRemoved(name));
        var p, t := Expand(pin, name), Expand(tree, name);
        if p.Some? && t.Some? {
          forall f ensures !Differs(Mapped(r, p.value), t.value, f) {
            assert !Genuine(pin, tree, r, only, InScript(name, f));
          }
          NoDifference(Mapped(r, p.value), t.value);
        }
      }
    } else {
      var d :| Genuine(pin, tree, r, only, d);
      var p, t := Expand(pin, ScriptOf(d)), Expand(tree, ScriptOf(d));
      if d.InScript? {
        NoDifference(Mapped(r, p.value), t.value);
      }
      assert !ScriptSame(p, t, r);
    }
  }

  ghost predicate ScriptSame(p: Option<Files>, t: Option<Files>, r: Renames)
    requires p.Some? ==> Injective(r, p.value)
  {
    (p.None? && t.None?) || (p.Some? && t.Some? && SameFiles(Mapped(r, p.value), t.value))
  }

  // ----- splits in front of the comparison ------------------------------------------------

  function PartsOf(record: Record, source: string): seq<string>
    requires source in record
  {
    if record[source].List? then record[source].paths else []
  }

  /** A split keeps its file: the parts take over exactly its titles, repeats counted, and none of
      them is another pinned file. */
  ghost predicate SplitHolds(mapped: Files, after: Files, source: string, parts: seq<string>)
    requires source in mapped
  {
    Union(after, parts) == multiset(mapped[source]) && forall p :: p in parts && p != source ==> p !in mapped
  }

  ghost predicate SplitsHold(mapped: Files, after: Files, record: Record, sources: set<string>)
  {
    forall s :: s in sources && s in record && s in mapped ==> SplitHolds(mapped, after, s, PartsOf(record, s))
  }

  /** The tree's files that some graded split names. */
  function GradedParts(record: Record, mapped: Files, sources: set<string>): (g: set<string>)
    ensures forall p :: p in g <==> exists s :: s in sources && s in record && s in mapped && p in PartsOf(record, s)
  {
    set s, p | s in sources && s in record && s in mapped && p in PartsOf(record, s) :: p
  }

  /** The pinned files that some graded split takes out. */
  function GradedFiles(r: Renames, before: Files, sources: set<string>): (g: set<string>)
    ensures forall rel :: rel in g <==> rel in before && NewName(r, rel) in sources
  {
    set rel | rel in before && NewName(r, rel) in sources
  }

  /** What grading the splits of some sources has found and taken out. */
  ghost predicate Graded(r: Renames, before: Files, after: Files, record: Record, mapped: Files, sources: set<string>,
                         clean: bool, dropPin: set<string>, dropTree: set<string>)
  {
    && dropPin == GradedFiles(r, before, sources * mapped.Keys)
    && dropTree == GradedParts(record, mapped, sources)
    && (clean <==> SplitsHold(mapped, after, record, sources))
  }

  lemma GradedSnoc(r: Renames, before: Files, after: Files, record: Record, mapped: Files, sources: set<string>,
                   clean: bool, dropPin: set<string>, dropTree: set<string>, source: string, origin: set<string>,
                   ok: bool)
    requires Graded(r, before, after, record, mapped, sources, clean, dropPin, dropTree)
    requires source in record && source in mapped
    requires forall rel :: rel in origin <==> rel in before && NewName(r, rel) == source
    requires ok <==> SplitHolds(mapped, after, source, PartsOf(record, source))
    ensures Graded(r, before, after, record, mapped, sources + {source}, clean && ok,
                   dropPin + origin, dropTree + Elements(PartsOf(record, source)))
  {
    assert GradedFiles(r, before, (sources + {source}) * mapped.Keys) == dropPin + origin;
    assert GradedParts(record, mapped, sources + {source}) == dropTree + Elements(PartsOf(record, source));
  }

  lemma GradedSkip(r: Renames, before: Files, after: Files, record: Record, mapped: Files, sources: set<string>,
                   clean: bool, dropPin: set<string>, dropTree: set<string>, source: string)
    requires Graded(r, before, after, record, mapped, sources, clean, dropPin, dropTree) && source !in mapped
    ensures Graded(r, before, after, record, mapped, sources + {source}, clean, dropPin, dropTree)
  {
    assert (sources + {source}) * mapped.Keys == sources * mapped.Keys;
    assert GradedParts(record, mapped, sources + {source}) == GradedParts(record, mapped, sources);
  }

  method GradeOne(source: string, parts: seq<string>, mapped: Files, after: Files) returns (findings: seq<Finding>)
    requires source in mapped
    ensures findings == [] <==> SplitHolds(mapped, after, source, parts)
  {
    var collisions, missing, surplus := GradeSplit(source, parts, mapped, after);
    findings := collisions + missing + surplus;
    if collisions == [] {
      forall p | p in parts && p != source ensures p !in mapped {
        assert PartCollides(p, source) !in collisions;
      }
    } else {
      assert collisions[0] in collisions;
    }
  }

  method GradeSource(r: Renames, ghost before: Files, after: Files, record: Record, mapped: Files,
                     origin: map<string, set<string>>, source: string, ghost done: set<string>,
                     findings: seq<Finding>, dropPin: set<string>, dropTree: set<string>)
      returns (findings': seq<Finding>, dropPin': set<string>, dropTree': set<string>)
    requires source in record && origin.Keys == mapped.Keys
    requires forall name, rel :: name in origin ==> (rel in origin[name] <==> rel in before && NewName(r, rel) == name)
    requires Graded(r, before, after, record, mapped, done, findings == [], dropPin, dropTree)
    ensures Graded(r, before, after, record, mapped, done + {source}, findings' == [], dropPin', dropTree')
  {
    findings', dropPin', dropTree' := findings, dropPin, dropTree;
    if source in mapped {
      var more := GradeOne(source, PartsOf(record, source), mapped, after);
      GradedSnoc(r, before, after, record, mapped, done, findings == [], dropPin, dropTree,
                 source, origin[source], more == []);
      findings' := findings + more;
      dropPin' := dropPin + origin[source];
      dropTree' := dropTree + Elements(PartsOf(record, source));
    } else {
      GradedSkip(r, before, after, record, mapped, done, findings == [], dropPin, dropTree, source);
    }
  }

  method GradeScript(before: Files, after: Files, r: Renames, record: Record)
      returns (findings: seq<Finding>, dropPin: set<string>, dropTree: set<string>)
    ensures Injective(r, before) ==>
      ScriptGraded(Some(before), Some(after), r, record, findings == [], dropPin, dropTree)
  {
    findings, dropPin, dropTree := [], {}, {};
    var mapped, origin := RenamedView(before, r);
    var sources := Listing(record.Keys);
    for i := 0 to |sources|
      invariant Graded(r, before, after, record, mapped, Elements(sources[..i]), findings == [], dropPin, dropTree)
    {
      NextTitle(sources, i);
      assert Elements(sources[..i + 1]) == Elements(sources[..i]) + {sources[i]};
      findings, dropPin, dropTree := GradeSource(r, before, after, record, mapped, origin, sources[i],
        Elements(sources[..i]), findings, dropPin, dropTree);
    }
    assert Elements(sources[..|sources|]) == record.Keys;
    if Injective(r, before) {
      GradedAll(r, before, record);
    }
  }

  lemma GradedAll(r: Renames, before: Files, record: Record)
    requires Injective(r, before)
    ensures GradedFiles(r, before, record.Keys * Mapped(r, before).Keys) == GradedFiles(r, before, record.Keys)
  {
    forall rel | rel in before ensures NewName(r, rel) in Mapped(r, before) {
    }
  }

  /** What the grading of one script contributes, when it is graded at all. */
  ghost predicate ScriptGraded(p: Option<Files>, t: Option<Files>, r: Renames, record: Record,
                               clean: bool, dropPin: set<string>, dropTree: set<string>)
    requires p.Some? ==> Injective(r, p.value)
  {
    if p.None? || t.None? then clean && dropPin == {} && dropTree == {}
    else
      && dropPin == GradedFiles(r, p.value, record.Keys)
      && dropTree == GradedParts(record, Mapped(r, p.value), record.Keys)
      && (clean <==> SplitsHold(Mapped(r, p.value), t.value, record, record.Keys))
  }

  // ----- taking the graded files out ------------------------------------------------------

  function WithoutFiles(m: SuiteMap, drops: map<string, set<string>>): SuiteMap
  {
    m.(scripts := map name | name in m.scripts ::
         if name in drops && m.scripts[name].Some? then Some(m.scripts[name].value - drops[name]) else m.scripts[name])
  }

  function Dropped(drops: map<string, set<string>>, name: string): set<string>
  {
    if name in drops then drops[name] else {}
  }

  lemma ExpandWithout(m: SuiteMap, drops: map<string, set<string>>, name: string)
    ensures Expand(WithoutFiles(m, drops), name)
            == if Expand(m, name).Some? then Some(Expand(m, name).value - Dropped(drops, name)) else None
  {
    if Expand(m, name).Some? {
      assert Expand(WithoutFiles(m, drops), name).value == Expand(m, name).value - Dropped(drops, name);
    }
  }

  lemma MappedAt(r: Renames, before: Files, a: string)
    requires Injective(r, before) && a in before
    ensures NewName(r, a) in Mapped(r, before)
            && Mapped(r, before)[NewName(r, a)] == Retitled(r, NewName(r, a), before[a])
  {
  }

  lemma OriginIn(r: Renames, before: Files, name: string) returns (a: string)
    requires Injective(r, before) && name in Mapped(r, before)
    ensures a in before && NewName(r, a) == name
  {
    a :| a in before && NewName(r, a) == name;
  }

  lemma RestInjective(r: Renames, before: Files, drop: set<string>)
    requires Injective(r, before)
    ensures Injective(r, before - drop)
  {
  }

  /** Taking the graded files out of the pin takes their sources out of the renamed view. */
  lemma MappedWithout(r: Renames, before: Files, sources: set<string>)
    requires Injective(r, before)
    ensures Injective(r, before - GradedFiles(r, before, sources))
    ensures Mapped(r, before - GradedFiles(r, before, sources)) == Mapped(r, before) - sources
  {
    var rest := before - GradedFiles(r, before, sources);
    RestInjective(r, before, GradedFiles(r, before, sources));
    var u, v := Mapped(r, rest), Mapped(r, before) - sources;
    forall name | name in v ensures name in u {
      var a := OriginIn(r, before, name);
      MappedAt(r, rest, a);
    }
    forall name | name in u ensures name in v && u[name] == v[name] {
      var a := OriginIn(r, rest, name);
      MappedAt(r, rest, a);
      MappedAt(r, before, a);
    }
    assert u.Keys == v.Keys;
  }

  // ----- the comparison with splits -------------------------------------------------------

  /** A script of the pin lives on in the tree: its split files' titles are all in their parts, and
      every other file is there under its new name with its titles. */
  ghost predicate FilesHold(mapped: Files, after: Files, record: Record)
  {
    && SplitsHold(mapped, after, record, record.Keys)
    && SameFiles(mapped - record.Keys, after - GradedParts(record, mapped, record.Keys))
  }

  ghost predicate ScriptHolds(p: Option<Files>, t: Option<Files>, r: Renames, record: Record)
    requires p.Some? ==> Injective(r, p.value)
  {
    (p.None? && t.None?) || (p.Some? && t.Some? && FilesHold(Mapped(r, p.value), t.value, record))
  }

  /** What grading some scripts leaves: which were clean, and what was taken out of which. */
  ghost predicate GradedScripts(pin: SuiteMap, tree: SuiteMap, r: Renames, record: Record, clean: map<string, bool>,
                                dropPin: map<string, set<string>>, dropTree: map<string, set<string>>)
    requires OneToOne(pin, r)
  {
    forall name :: name in clean ==>
      ScriptGraded(Expand(pin, name), Expand(tree, name), r, record, clean[name],
                   Dropped(dropPin, name), Dropped(dropTree, name))
  }

  lemma DroppedAfter(drops: map<string, set<string>>, name: string, more: set<string>, n: string)
    ensures Dropped(drops[name := more], n) == if n == name then more else Dropped(drops, n)
  {
  }

  lemma GradedScriptsSnoc(pin: SuiteMap, tree: SuiteMap, r: Renames, record: Record, clean: map<string, bool>,
                          dropPin: map<string, set<string>>, dropTree: map<string, set<string>>,
                          name: string, ok: bool, p: set<string>, t: set<string>)
    requires OneToOne(pin, r) && GradedScripts(pin, tree, r, record, clean, dropPin, dropTree)
    requires ScriptGraded(Expand(pin, name), Expand(tree, name), r, record, ok, p, t)
    ensures GradedScripts(pin, tree, r, record, clean[name := ok], dropPin[name := p], dropTree[name := t])
  {
    var clean', dropPin', dropTree' := clean[name := ok], dropPin[name := p], dropTree[name := t];
    forall n | n in clean'
      ensures ScriptGraded(Expand(pin, n), Expand(tree, n), r, record, clean'[n],
                           Dropped(dropPin', n), Dropped(dropTree', n))
    {
      DroppedAfter(dropPin, name, p, n);
      DroppedAfter(dropTree, name, t, n);
    }
  }

  ghost predicate AllClean(clean: map<string, bool>) { forall name :: name in clean ==> clean[name] }

  lemma AllCleanSnoc(clean: map<string, bool>, name: string, ok: bool)
    requires name !in clean
    ensures AllClean(clean[name := ok]) <==> AllClean(clean) && ok
  {
    var more := clean[name := ok];
    assert AllClean(more) ==> more[name];
    assert forall n :: n in clean ==> n in more && more[n] == clean[n];
  }

  method GradeAll(pin: SuiteMap, tree: SuiteMap, r: Renames, record: Record, only: Option<string>)
      returns (out: seq<Difference>, dropPin: map<string, set<string>>, dropTree: map<string, set<string>>,
               ghost clean: map<string, bool>)
    ensures out == [] <==> AllClean(clean)
    ensures forall name :: name in clean <==> InScope(only, name) && name in pin.scripts
    ensures dropPin.Keys <= clean.Keys && dropTree.Keys <= clean.Keys
    ensures OneToOne(pin, r) ==> GradedScripts(pin, tree, r, record, clean, dropPin, dropTree)
  {
    out, dropPin, dropTree, clean := [], map[], map[], map[];
    var names := Listing(pin.scripts.Keys);
    for i := 0 to |names|
      invariant out == [] <==> AllClean(clean)
      invariant forall name :: name in clean <==> InScope(only, name) && name in names[..i]
      invariant dropPin.Keys <= clean.Keys && dropTree.Keys <= clean.Keys
      invariant OneToOne(pin, r) ==> GradedScripts(pin, tree, r, record, clean, dropPin, dropTree)
    {
      NextTitle(names, i);
      if InScope(only, names[i]) {
        var findings, p, t := GradeNamed(pin, tree, r, record, names[i]);
        AllCleanSnoc(clean, names[i], findings == []);
        if OneToOne(pin, r) {
          GradedScriptsSnoc(pin, tree, r, record, clean, dropPin, dropTree, names[i], findings == [], p, t);
        }
        out := out + Tagged(names[i], findings);
        dropPin := dropPin[names[i] := p];
        dropTree := dropTree[names[i] := t];
        clean := clean[names[i] := findings == []];
      }
    }
    assert names[..|names|] == names;
  }

  method GradeNamed(pin: SuiteMap, tree: SuiteMap, r: Renames, record: Record, name: string)
      returns (findings: seq<Finding>, dropPin: set<string>, dropTree: set<string>)
    ensures OneToOne(pin, r) ==>
      ScriptGraded(Expand(pin, name), Expand(tree, name), r, record, findings == [], dropPin, dropTree)
  {
    var before, after := Expand(pin, name), Expand(tree, name);
    if before.None? || after.None? { return [], {}, {}; }
    findings, dropPin, dropTree := GradeScript(before.value, after.value, r, record);
  }

  // ----- the theorem ----------------------------------------------------------------------

  lemma RestIsCompared(pin: SuiteMap, tree: SuiteMap, r: Renames, record: Record, name: string,
                       dropPin: map<string, set<string>>, dropTree: map<string, set<string>>, clean: bool)
    requires OneToOne(pin, r)
    requires ScriptGraded(Expand(pin, name), Expand(tree, name), r, record, clean,
                          Dropped(dropPin, name), Dropped(dropTree, name))
    ensures var p := Expand(WithoutFiles(pin, dropPin), name);
      p.Some? ==> Injective(r, p.value)
    ensures clean && ScriptSame(Expand(WithoutFiles(pin, dropPin), name), Expand(WithoutFiles(tree, dropTree), name), r)
            <==> ScriptHolds(Expand(pin, name), Expand(tree, name), r, record)
  {
    ExpandWithout(pin, dropPin, name);
    ExpandWithout(tree, dropTree, name);
    var p, t := Expand(pin, name), Expand(tree, name);
    if p.Some? && t.Some? {
      MappedWithout(r, p.value, record.Keys);
    }
  }

  lemma NotGraded(pin: SuiteMap, tree: SuiteMap, r: Renames, record: Record, name: string)
    requires OneToOne(pin, r) && name !in pin.scripts
    ensures ScriptGraded(Expand(pin, name), Expand(tree, name), r, record, true, {}, {})
  {
  }

  /** Whatever is graded first and compared after, no difference is left exactly when every script in
      scope holds. */
  lemma NothingLeft(pin: SuiteMap, tree: SuiteMap, r: Renames, record: Record, only: Option<string>,
                    clean: map<string, bool>, dropPin: map<string, set<string>>, dropTree: map<string, set<string>>)
    requires OneToOne(pin, r) && GradedScripts(pin, tree, r, record, clean, dropPin, dropTree)
    requires forall name :: name in clean <==> InScope(only, name) && name in pin.scripts
    requires dropPin.Keys <= clean.Keys && dropTree.Keys <= clean.Keys
    ensures OneToOne(WithoutFiles(pin, dropPin), r)
    ensures AllClean(clean)
            && (forall d :: !Genuine(WithoutFiles(pin, dropPin), WithoutFiles(tree, dropTree), r, only, d))
            <==> forall name :: InScope(only, name) ==> ScriptHolds(Expand(pin, name), Expand(tree, name), r, record)
  {
    var pin', tree' := WithoutFiles(pin, dropPin), WithoutFiles(tree, dropTree);
    forall name
      ensures Expand(pin', name).Some? ==> Injective(r, Expand(pin', name).value)
    {
      ExpandWithout(pin, dropPin, name);
    }
    NoGenuine(pin', tree', r, only);
    forall name | InScope(only, name)
      ensures (name in clean ==> clean[name]) && ScriptSame(Expand(pin', name), Expand(tree', name), r)
              <==> ScriptHolds(Expand(pin, name), Expand(tree, name), r, record)
    {
      if name in clean {
        RestIsCompared(pin, tree, r, record, name, dropPin, dropTree, clean[name]);
      } else {
        NotGraded(pin, tree, r, record, name);
        RestIsCompared(pin, tree, r, record, name, dropPin, dropTree, true);
      }
    }
  }

  lemma GradedWithoutSplits(p: Option<Files>, t: Option<Files>, r: Renames, record: Record,
                            clean: bool, dropPin: set<string>, dropTree: set<string>)
    requires p.Some? ==> Injective(r, p.value)
    requires record == map[] && ScriptGraded(p, t, r, record, clean, dropPin, dropTree)
    ensures clean && dropPin == {} && dropTree == {}
  {
    if p.Some? && t.Some? {
      assert forall rel :: rel !in GradedFiles(r, p.value, record.Keys);
      assert forall part :: part !in GradedParts(record, Mapped(r, p.value), record.Keys);
    }
  }

  lemma DropsNothing(m: SuiteMap, drops: map<string, set<string>>)
    requires forall name :: Dropped(drops, name) == {}
    ensures forall name :: Expand(WithoutFiles(m, drops), name) == Expand(m, name)
  {
    forall name ensures Expand(WithoutFiles(m, drops), name) == Expand(m, name) {
      ExpandWithout(m, drops, name);
      if Expand(m, name).Some? {
        assert Expand(m, name).value - {} == Expand(m, name).value;
      }
    }
  }

  /** Grading without splits takes nothing out. */
  lemma NoSplits(pin: SuiteMap, tree: SuiteMap, r: Renames, record: Record, only: Option<string>,
                 clean: map<string, bool>,
                 dropPin: map<string, set<string>>, dropTree: map<string, set<string>>)
    requires record == map[] && OneToOne(pin, r) && GradedScripts(pin, tree, r, record, clean, dropPin, dropTree)
    requires dropPin.Keys <= clean.Keys && dropTree.Keys <= clean.Keys
    ensures AllClean(clean) && OneToOne(WithoutFiles(pin, dropPin), r)
    ensures forall d ::
      Genuine(WithoutFiles(pin, dropPin), WithoutFiles(tree, dropTree), r, only, d) <==> Genuine(pin, tree, r, only, d)
  {
    forall name
      ensures Dropped(dropPin, name) == {} && Dropped(dropTree, name) == {} && (name in clean ==> clean[name])
    {
      NothingDropped(pin, tree, r, record, clean, dropPin, dropTree, name);
    }
    DropsNothing(pin, dropPin);
    DropsNothing(tree, dropTree);
    SameGenuine(pin, tree, WithoutFiles(pin, dropPin), WithoutFiles(tree, dropTree), r, only);
  }

  lemma NothingDropped(pin: SuiteMap, tree: SuiteMap, r: Renames, record: Record, clean: map<string, bool>,
                       dropPin: map<string, set<string>>, dropTree: map<string, set<string>>, name: string)
    requires record == map[] && OneToOne(pin, r) && GradedScripts(pin, tree, r, record, clean, dropPin, dropTree)
    requires dropPin.Keys <= clean.Keys && dropTree.Keys <= clean.Keys
    ensures Dropped(dropPin, name) == {} && Dropped(dropTree, name) == {} && (name in clean ==> clean[name])
  {
    if name in clean {
      GradedWithoutSplits(Expand(pin, name), Expand(tree, name), r, record, clean[name],
                          Dropped(dropPin, name), Dropped(dropTree, name));
    }
  }

  /** The comparison sees a map only through its scripts' files. */
  lemma SameGenuine(pin: SuiteMap, tree: SuiteMap, pin': SuiteMap, tree': SuiteMap, r: Renames, only: Option<string>)
    requires OneToOne(pin, r)
    requires (forall name :: Expand(pin', name) == Expand(pin, name))
             && (forall name :: Expand(tree', name) == Expand(tree, name))
    ensures OneToOne(pin', r)
    ensures forall d :: Genuine(pin', tree', r, only, d) <==> Genuine(pin, tree, r, only, d)
  {
  }

  lemma EmptyOut(a: seq<Difference>, b: seq<Difference>)
    ensures a + b == [] <==> a == [] && forall d :: d !in b
  {
    if b != [] { assert b[0] in b; }
  }

  /** The comparison with splits. A record with a problem is refused whole. Otherwise, for one-to-one
      renames, nothing is reported exactly when every script in scope holds, and without splits the
      report is the ordinary comparison's. */
  method CompareWithSplits(pin: SuiteMap, tree: SuiteMap, r: Renames, record: Record, only: Option<string>)
      returns (out: seq<Difference>)
    ensures !Valid(record) ==> out != [] && forall d :: d in out ==> d.InRecord?
    ensures Valid(record) && OneToOne(pin, r) ==>
      (out == [] <==>
         forall name :: InScope(only, name) ==> ScriptHolds(Expand(pin, name), Expand(tree, name), r, record))
    ensures record == map[] && OneToOne(pin, r) ==> forall d :: d in out <==> Genuine(pin, tree, r, only, d)
  {
    var problems := ValidateSplits(record);
    if problems != [] {
      out := seq(|problems|, i requires 0 <= i < |problems| => InRecord(problems[i]));
      return;
    }
    var differences, dropPin, dropTree, clean := GradeAll(pin, tree, r, record, only);
    var rest := Compare(WithoutFiles(pin, dropPin), WithoutFiles(tree, dropTree), r, only);
    out := differences + rest;
    EmptyOut(differences, rest);
    if OneToOne(pin, r) {
      NothingLeft(pin, tree, r, record, only, clean, dropPin, dropTree);
      if record == map[] {
        NoSplits(pin, tree, r, record, only, clean, dropPin, dropTree);
        assert differences == [];
      }
    }
  }

  /** Some pinned title, under its new name, is nowhere in the tree. */
  ghost predicate Lost(r: Renames, before: Files, after: Files, rel: string, title: string)
  {
    rel in before && title in Retitled(r, NewName(r, rel), before[rel]) && forall f :: f in after ==> title !in after[f]
  }

  ghost predicate Hides(r: Renames, before: Files, order: seq<string>, after: Files, rel: string, title: string)
  {
    && (forall a :: a in order <==> a in before) && Distinct(order)
    && SameFiles(Viewed(r, before, order), after) && Lost(r, before, after, rel, title)
  }

  lemma {:induction false} ViewedFrom(r: Renames, before: Files, order: seq<string>, f: string)
    requires (forall a :: a in order ==> a in before) && f in Viewed(r, before, order)
    ensures exists a :: a in order && NewName(r, a) == f && Viewed(r, before, order)[f] == Retitled(r, f, before[a])
  {
    var last := order[|order| - 1];
    if f != NewName(r, last) {
      ViewedFrom(r, before, order[..|order| - 1], f);
      var a :| a in order[..|order| - 1] && NewName(r, a) == f
               && Viewed(r, before, order)[f] == Retitled(r, f, before[a]);
      assert a in order;
    }
  }

  lemma {:induction false} Listed(names: set<string>) returns (order: seq<string>)
    ensures Distinct(order) && forall x :: x in order <==> x in names
  {
    order := [];
    if x :| x in names {
      var rest := Listed(names - {x});
      order := rest + [x];
    }
  }

  lemma NothingHidden(r: Renames, before: Files, order: seq<string>, after: Files, rel: string, title: string)
    requires Injective(r, before)
    ensures !Hides(r, before, order, after, rel, title)
  {
    if (forall a :: a in order <==> a in before) && SameFiles(Viewed(r, before, order), after) {
      ViewIsMapped(r, before, order);
      if rel in before {
        assert NewName(r, rel) in Mapped(r, before);
        assert Mapped(r, before)[NewName(r, rel)] == Retitled(r, NewName(r, rel), before[rel]);
      }
    }
  }

  /** Two pinned files under one new name: the later takes the earlier one's place, and a title only
      the earlier one has is missed by nobody. */
  lemma SharedNameHides(r: Renames, names: set<string>, a: string, b: string)
    requires a in names && b in names && a != b && NewName(r, a) == NewName(r, b)
    ensures exists before: Files, order, after, rel, title ::
              before.Keys == names && Hides(r, before, order, after, rel, title)
  {
    var before: Files := map x | x in names :: if x == a then ["lost"] else [];
    var rest := Listed(names - {b});
    var order := rest + [b];
    var after := Viewed(r, before, order);
    var title := NewTitle(r, NewName(r, a), "lost");
    assert order[..|rest|] == rest && order[|rest|] == b;
    forall f | f in after ensures after[f] == [] {
      if f != NewName(r, b) {
        ViewedFrom(r, before, order, f);
        var x :| x in order && NewName(r, x) == f && after[f] == Retitled(r, f, before[x]);
        assert x != a;
      }
    }
    assert before[a] == ["lost"] && Retitled(r, NewName(r, a), ["lost"]) == [title];
    assert Lost(r, before, after, a, title);
    assert Hides(r, before, order, after, a, title);
  }

  /** Renames of some pinned files are one-to-one exactly when, whatever titles those files collect,
      none is ever lost unseen. */
  lemma OneToOneExactly(r: Renames, pinned: Files)
    ensures Injective(r, pinned)
            <==> !exists before: Files, order, after, rel, title ::
                   before.Keys == pinned.Keys && Hides(r, before, order, after, rel, title)
  {
    if Injective(r, pinned) {
      forall before: Files, order, after, rel, title | before.Keys == pinned.Keys
        ensures !Hides(r, before, order, after, rel, title)
      {
        NothingHidden(r, before, order, after, rel, title);
      }
    } else {
      var a, b :| a in pinned && b in pinned && NewName(r, a) == NewName(r, b) && a != b;
      SharedNameHides(r, pinned.Keys, a, b);
    }
  }

  /** For instance: two pinned files renamed onto one path leave a single entry, so the tree that lost
      the other file's titles compares clean. */
  lemma ManyToOneRenameHidesATitle()
    ensures exists r, before, order, after, rel, title :: Hides(r, before, order, after, rel, title)
  {
    var r := Renames(map["a.js" := "c.js", "b.js" := "c.js"], map[]);
    var before: Files := map["a.js" := ["lost"], "b.js" := ["kept"]];
    var order := ["a.js", "b.js"];
    var after: Files := map["c.js" := ["kept"]];
    assert order[..1] == ["a.js"] && order[..1][..0] == [];
    assert Retitled(r, "c.js", ["lost"]) == ["lost"] && Retitled(r, "c.js", ["kept"]) == ["kept"];
    assert Viewed(r, before, order) == after;
    assert "lost" in Retitled(r, NewName(r, "a.js"), before["a.js"]);
    assert Hides(r, before, order, after, "a.js", "lost");
  }

  // ----- titles that become one -----------------------------------------------------------

  ghost predicate TitlesOneToOne(r: Renames, before: Files)
  {
    forall rel :: rel in before ==> DistinctAfter(r, NewName(r, rel), Elements(before[rel]))
  }

  /** No two of some titles become one under the renames of a file. */
  ghost predicate DistinctAfter(r: Renames, name: string, titles: set<string>)
  {
    forall s, t :: s in titles && t in titles && NewTitle(r, name, s) == NewTitle(r, name, t) ==> s == t
  }

  function NewTitles(r: Renames, name: string, titles: set<string>): (n: set<string>)
    ensures forall t :: t in titles ==> NewTitle(r, name, t) in n
    ensures forall u :: u in n ==> exists t :: t in titles && NewTitle(r, name, t) == u
  {
    set t | t in titles :: NewTitle(r, name, t)
  }

  lemma NewTitlesOne(r: Renames, name: string, titles: set<string>, t: string)
    requires t in titles
    ensures NewTitles(r, name, titles) == NewTitles(r, name, titles - {t}) + {NewTitle(r, name, t)}
  {
    assert titles == titles - {t} + {t};
  }

  /** Some titles stay as many exactly when no two of them become one. */
  lemma {:induction false} AsManyTitles(r: Renames, name: string, titles: set<string>)
    ensures |NewTitles(r, name, titles)| <= |titles|
    ensures |NewTitles(r, name, titles)| == |titles| <==> DistinctAfter(r, name, titles)
  {
    if t :| t in titles {
      var rest := titles - {t};
      NewTitlesOne(r, name, titles, t);
      AsManyTitles(r, name, rest);
      var u := NewTitle(r, name, t);
      if DistinctAfter(r, name, titles) {
        assert u !in NewTitles(r, name, rest);
      } else if DistinctAfter(r, name, rest) {
        assert u in NewTitles(r, name, rest);
      }
    }
  }

  lemma {:induction false} RetitledElements(r: Renames, name: string, titles: seq<string>)
    ensures Elements(Retitled(r, name, titles)) == NewTitles(r, name, Elements(titles))
  {
    if titles != [] {
      var t, rest := titles[0], titles[1..];
      RetitledElements(r, name, rest);
      assert titles == [t] + rest && Retitled(r, name, titles) == [NewTitle(r, name, t)] + Retitled(r, name, rest);
      assert Elements(titles) == {t} + Elements(rest);
    }
  }

  /** A tree that compares clean although one of its files has fewer titles than the pin has for it. */
  ghost predicate Shrinks(r: Renames, before: Files, order: seq<string>, after: Files, rel: string)
  {
    && (forall a :: a in order <==> a in before) && Distinct(order)
    && SameFiles(Viewed(r, before, order), after)
    && rel in before && NewName(r, rel) in after
    && |Elements(after[NewName(r, rel)])| < |Elements(before[rel])|
  }

  lemma CleanTitles(r: Renames, before: Files, order: seq<string>, after: Files, rel: string)
    requires Injective(r, before) && (forall a :: a in order <==> a in before)
    requires SameFiles(Viewed(r, before, order), after) && rel in before
    ensures NewName(r, rel) in after
    ensures |Elements(after[NewName(r, rel)])| <= |Elements(before[rel])|
    ensures |Elements(after[NewName(r, rel)])| == |Elements(before[rel])|
            <==> DistinctAfter(r, NewName(r, rel), Elements(before[rel]))
  {
    var name := NewName(r, rel);
    ViewIsMapped(r, before, order);
    assert Mapped(r, before)[name] == Retitled(r, name, before[rel]);
    assert Elements(after[name]) == Elements(Retitled(r, name, before[rel]));
    RetitledElements(r, name, before[rel]);
    AsManyTitles(r, name, Elements(before[rel]));
  }

  /** Where no two pinned files become one, no two titles of a file do exactly when a tree that
      compares clean has as many titles in every file as were pinned. */
  lemma TitlesOneToOneExactly(r: Renames, before: Files)
    requires Injective(r, before)
    ensures TitlesOneToOne(r, before) <==> !exists order, after, rel :: Shrinks(r, before, order, after, rel)
  {
    if TitlesOneToOne(r, before) {
      forall order, after, rel ensures !Shrinks(r, before, order, after, rel) {
        if Shrinks(r, before, order, after, rel) { CleanTitles(r, before, order, after, rel); }
      }
    } else {
      var rel :| rel in before && !DistinctAfter(r, NewName(r, rel), Elements(before[rel]));
      var order := Listed(before.Keys);
      CleanTitles(r, before, order, Viewed(r, before, order), rel);
      assert Shrinks(r, before, order, Viewed(r, before, order), rel);
    }
  }

  /** For instance: two titles renamed to one, and a tree that has only one of the two tests. */
  lemma MergedTitlesHideATest()
    ensures var r := Renames(map[], map["a.js" := map["A" := "X", "B" := "X"]]);
            Injective(r, map["a.js" := ["A", "B"]])
            && Shrinks(r, map["a.js" := ["A", "B"]], ["a.js"], map["a.js" := ["X"]], "a.js")
  {
    var r := Renames(map[], map["a.js" := map["A" := "X", "B" := "X"]]);
    var before: Files := map["a.js" := ["A", "B"]];
    assert ["a.js"][..0] == [] && ["A", "B"][1..] == ["B"] && ["B"][1..] == [];
    assert Retitled(r, "a.js", ["A", "B"]) == ["X", "X"];
    assert Viewed(r, before, ["a.js"]) == map["a.js" := ["X", "X"]];
    assert Elements(["A", "B"]) == {"A", "B"} && Elements(["X"]) == {"X"};
  }

  // ----- the vocabulary written out -------------------------------------------------------

  /** A rename counts when it names something: a file or a title without one, or with an empty one,
      keeps its name. */
  lemma RenamesMean(r: Renames, rel: string, to: string, title: string, toTitle: string)
    ensures rel !in r.paths || |r.paths[rel]| == 0 ==> NewName(r, rel) == rel
    ensures rel in r.paths && r.paths[rel] == to && |to| > 0 ==> NewName(r, rel) == to
    ensures rel !in r.titles || title !in r.titles[rel] || |r.titles[rel][title]| == 0 ==>
              NewTitle(r, rel, title) == title
    ensures rel in r.titles && title in r.titles[rel] && r.titles[rel][title] == toTitle && |toTitle| > 0 ==>
              NewTitle(r, rel, title) == toTitle
  {
  }

  /** A run narrowed to one script looks at that one, and any other run at every script. */
  lemma ScopeMeans(named: string, name: string)
    ensures InScope(None, name) && (InScope(Some(named), name) <==> name == named)
  {
  }

  /** A list names `part` at position `i`. */
  ghost predicate NamesAt(record: Record, source: string, i: int, part: string)
  {
    source in record && record[source].List? && 0 <= i < |record[source].paths| && record[source].paths[i] == part
  }

  /** A record is valid exactly when every value is a list of two paths or more, none of them empty, no path
      is named twice, in one list or in two, and none is a key of the record but perhaps its own source. */
  lemma ValidMeans(record: Record)
    ensures Valid(record) <==>
      && (forall s :: s in record ==> record[s].List? && |record[s].paths| > 1)
      && (forall s, i, p :: NamesAt(record, s, i, p) ==> |p| > 0)
      && (forall s, i, u, j, p :: NamesAt(record, s, i, p) && NamesAt(record, u, j, p) ==> s == u && i == j)
      && (forall s, i, p :: NamesAt(record, s, i, p) && p in record ==> p == s)
  {
    if Valid(record) {
      forall s, i, p | NamesAt(record, s, i, p) ensures Names(record, s, p) && |p| > 0 {
        assert p in record[s].paths;
      }
    } else if forall s :: s in record ==> record[s].List? && |record[s].paths| > 1 {
      PathsAreNamed(record);
    }
  }

  lemma PathsAreNamed(record: Record)
    requires forall s :: s in record ==> record[s].List?
    ensures forall s, p :: Names(record, s, p) ==> exists i :: NamesAt(record, s, i, p)
    ensures (forall s, i, p :: NamesAt(record, s, i, p) ==> |p| > 0) ==>
              forall s :: s in record ==> "" !in record[s].paths
    ensures (forall s, i, u, j, p :: NamesAt(record, s, i, p) && NamesAt(record, u, j, p) ==> s == u && i == j) ==>
              forall s :: s in record ==> Distinct(record[s].paths)
  {
    forall s, p | Names(record, s, p) ensures exists i :: NamesAt(record, s, i, p) {
      var i :| 0 <= i < |record[s].paths| && record[s].paths[i] == p;
      assert NamesAt(record, s, i, p);
    }
    if forall s, i, p :: NamesAt(record, s, i, p) ==> |p| > 0 {
      forall s | s in record ensures "" !in record[s].paths {
        forall i | 0 <= i < |record[s].paths| ensures record[s].paths[i] != "" {
          assert NamesAt(record, s, i, record[s].paths[i]);
        }
      }
    }
    if forall s, i, u, j, p :: NamesAt(record, s, i, p) && NamesAt(record, u, j, p) ==> s == u && i == j {
      forall s | s in record ensures Distinct(record[s].paths) {
        forall i, j | 0 <= i < j < |record[s].paths| ensures record[s].paths[i] != record[s].paths[j] {
          assert NamesAt(record, s, i, record[s].paths[i]) && NamesAt(record, s, j, record[s].paths[j]);
        }
      }
    }
  }

  /** How often a title stands in a list, and in some lists. */
  ghost function TimesIn(list: seq<string>, t: string): nat
  {
    if list == [] then 0 else (if list[0] == t then 1 else 0) + TimesIn(list[1..], t)
  }

  ghost function TimesInAll(lists: seq<seq<string>>, t: string): nat
  {
    if lists == [] then 0 else TimesInAll(lists[..|lists| - 1], t) + TimesIn(lists[|lists| - 1], t)
  }

  lemma {:induction false} TimesMean(list: seq<string>, t: string)
    ensures multiset(list)[t] == TimesIn(list, t)
  {
    if list != [] {
      TimesMean(list[1..], t);
      assert list == [list[0]] + list[1..];
    }
  }

  /** Taken together, lists have a title as often as they have it one by one. */
  lemma {:induction false} TogetherMeans(lists: seq<seq<string>>, t: string)
    ensures Together(lists)[t] == TimesInAll(lists, t)
  {
    if lists != [] {
      TogetherMeans(lists[..|lists| - 1], t);
      TimesMean(lists[|lists| - 1], t);
    }
  }
}
