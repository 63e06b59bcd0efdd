/** The dead-file verdict: Node's resolution of a relative require, the stack walk over the require
    graph, who requires whom, and what deleting the flagged files leaves unchanged. */
module Reachability {
  import opened Base

  /** A checkout: the regular files on disk, the tracked ones, and for each file that can be read the
      normalised base paths of its literal relative requires, in order. */
  datatype Repo = Repo(disk: set<string>, tracked: set<string>, texts: map<string, seq<string>>)

  predicate IsTest(rel: string) { StartsWith(rel, "test/") }

  predicate IsSource(rel: string) { StartsWith(rel, "src/") }

  predicate IsTooling(rel: string)
  {
    StartsWith(rel, "bin/") || StartsWith(rel, "scripts/") || StartsWith(rel, "tools/")
  }

  function FileSet(repo: Repo): (r: set<string>)
    ensures forall f :: f in r <==> f in repo.tracked && EndsWith(f, ".js")
  {
    set f | f in repo.tracked && EndsWith(f, ".js")
  }

  // ----- resolution -----------------------------------------------------------------------

  /** A base is a normalised path, so its only `.` segment is the whole of it. */
  function IndexOf(base: string): string
  {
    if base == "." || base == "./" then "index.js"
    else if EndsWith(base, "/") then base + "index.js"
    else base + "/index.js"
  }

  function Candidates(base: string): seq<string>
  {
    [base, base + ".js", IndexOf(base)]
  }

  predicate Loads(disk: set<string>, c: string) { c in disk && EndsWith(c, ".js") }

  /** The first candidate that is a file of the right kind, tracked or not. */
  function FirstOf(disk: set<string>, candidates: seq<string>): Option<string>
  {
    if candidates == [] then None
    else if Loads(disk, candidates[0]) then Some(candidates[0])
    else FirstOf(disk, candidates[1..])
  }

  function Resolve(disk: set<string>, base: string): Option<string> { FirstOf(disk, Candidates(base)) }

  lemma {:induction false} FirstOfWithout(disk: set<string>, gone: set<string>, candidates: seq<string>)
    ensures FirstOf(disk - gone, candidates) == FirstOf(disk, candidates)
            <==> FirstOf(disk, candidates).None? || FirstOf(disk, candidates).value !in gone
    ensures FirstOf(disk, candidates).Some? ==> Loads(disk, FirstOf(disk, candidates).value)
    ensures FirstOf(disk - gone, candidates).Some? ==> Loads(disk - gone, FirstOf(disk - gone, candidates).value)
  {
    if candidates != [] { FirstOfWithout(disk, gone, candidates[1..]); }
  }

  /** Deleting files changes what a require resolves to exactly when it resolved to one of them. */
  lemma ResolveWithout(disk: set<string>, gone: set<string>, base: string)
    ensures Resolve(disk - gone, base) == Resolve(disk, base)
            <==> Resolve(disk, base).None? || Resolve(disk, base).value !in gone
  {
    FirstOfWithout(disk, gone, Candidates(base));
  }

  // ----- edges ----------------------------------------------------------------------------

  predicate Requires(repo: Repo, rel: string, target: string)
  {
    rel in repo.texts && target in FileSet(repo)
    && exists i :: 0 <= i < |repo.texts[rel]| && Resolve(repo.disk, repo.texts[rel][i]) == Some(target)
  }

  method EdgesFrom(repo: Repo, rel: string) returns (out: seq<string>)
    ensures Distinct(out) && forall t :: t in out <==> Requires(repo, rel, t)
  {
    out := [];
    if rel !in repo.texts { return; }
    var bases := repo.texts[rel];
    for i := 0 to |bases|
      invariant Distinct(out)
      invariant forall t :: t in out <==>
        t in FileSet(repo) && exists k :: 0 <= k < i && Resolve(repo.disk, bases[k]) == Some(t)
    {
      var target := Resolve(repo.disk, bases[i]);
      if target.Some? && target.value in FileSet(repo) && target.value !in out {
        DistinctSnoc(out, target.value);
        out := out + [target.value];
      }
    }
  }

  // ----- the walk -------------------------------------------------------------------------

  /** A chain of requires from a tracked entry. */
  predicate Chain(repo: Repo, entries: set<string>, path: seq<string>)
  {
    && path != [] && path[0] in entries && path[0] in FileSet(repo)
    && forall i :: 0 <= i < |path| - 1 ==> Requires(repo, path[i], path[i + 1])
  }

  ghost predicate Reachable(repo: Repo, entries: set<string>, rel: string)
  {
    exists path :: Chain(repo, entries, path) && path[|path| - 1] == rel
  }

  lemma ReachableStep(repo: Repo, entries: set<string>, rel: string, next: string)
    requires Reachable(repo, entries, rel) && Requires(repo, rel, next)
    ensures Reachable(repo, entries, next)
  {
    var path :| Chain(repo, entries, path) && path[|path| - 1] == rel;
    var longer := path + [next];
    assert Chain(repo, entries, longer) && longer[|longer| - 1] == next;
  }

  lemma ReachableEntry(repo: Repo, entries: set<string>, rel: string)
    requires rel in entries && rel in FileSet(repo)
    ensures Reachable(repo, entries, rel)
  {
    assert Chain(repo, entries, [rel]) && [rel][|[rel]| - 1] == rel;
  }

  /** A set that holds the entries and is closed under requires holds everything reachable. */
  lemma {:induction false} ClosedHolds(repo: Repo, entries: set<string>, seen: set<string>, path: seq<string>)
    requires entries * FileSet(repo) <= seen
    requires forall a, b :: a in seen && Requires(repo, a, b) ==> b in seen
    requires Chain(repo, entries, path)
    ensures path[|path| - 1] in seen
  {
    if |path| > 1 {
      var shorter := path[..|path| - 1];
      ClosedHolds(repo, entries, seen, shorter);
      assert Requires(repo, shorter[|shorter| - 1], path[|path| - 1]);
    }
  }

  /** What the walk keeps: the stack and the seen files are reachable, and every entry and every
      require of a seen file is seen or waiting. */
  ghost predicate Walking(repo: Repo, entries: set<string>, seen: set<string>, stack: seq<string>)
  {
    && seen <= FileSet(repo)
    && (forall rel :: rel in stack ==> rel in FileSet(repo))
    && (forall rel :: rel in stack || rel in seen ==> Reachable(repo, entries, rel))
    && (forall rel :: rel in entries && rel in FileSet(repo) ==> rel in seen || rel in stack)
    && (forall a, b :: a in seen && Requires(repo, a, b) ==> b in seen || b in stack)
  }

  lemma VisitKeepsWalking(repo: Repo, entries: set<string>, seen: set<string>, rest: seq<string>, cur: string,
                          next: seq<string>)
    requires Walking(repo, entries, seen, rest + [cur])
    requires forall t :: t in next <==> Requires(repo, cur, t) && t !in seen + {cur}
    ensures Walking(repo, entries, seen + {cur}, rest + next)
  {
    assert cur in rest + [cur];
    forall rel | rel in next ensures Reachable(repo, entries, rel) {
      ReachableStep(repo, entries, cur, rel);
    }
  }

  lemma SkipKeepsWalking(repo: Repo, entries: set<string>, seen: set<string>, rest: seq<string>, cur: string)
    requires Walking(repo, entries, seen, rest + [cur]) && cur in seen
    ensures Walking(repo, entries, seen, rest)
  {
  }

  /** The depth-first walk: it stops, and returns exactly the files reachable from the entries. */
  method Closure(repo: Repo, entries: seq<string>) returns (seen: set<string>)
    ensures forall rel :: rel in seen <==> Reachable(repo, Elements(entries), rel)
  {
    seen := {};
    var stack := Filter(e => e in FileSet(repo), entries);
    forall rel | rel in stack ensures Reachable(repo, Elements(entries), rel) {
      ReachableEntry(repo, Elements(entries), rel);
    }
    while stack != []
      invariant Walking(repo, Elements(entries), seen, stack)
      decreases FileSet(repo) - seen, |stack|
    {
      var cur := stack[|stack| - 1];
      assert stack == stack[..|stack| - 1] + [cur];
      stack := stack[..|stack| - 1];
      if cur in seen {
        SkipKeepsWalking(repo, Elements(entries), seen, stack, cur);
      } else {
        var next := Unseen(repo, cur, seen + {cur});
        VisitKeepsWalking(repo, Elements(entries), seen, stack, cur, next);
        assert cur in FileSet(repo) - seen;
        stack := stack + next;
        seen := seen + {cur};
      }
    }
    WalkIsDone(repo, Elements(entries), seen);
  }

  method Unseen(repo: Repo, rel: string, seen: set<string>) returns (next: seq<string>)
    ensures forall t :: t in next <==> Requires(repo, rel, t) && t !in seen
  {
    var all := EdgesFrom(repo, rel);
    next := Filter(n => n !in seen, all);
  }

  lemma WalkIsDone(repo: Repo, entries: set<string>, seen: set<string>)
    requires Walking(repo, entries, seen, [])
    ensures forall rel :: rel in seen <==> Reachable(repo, entries, rel)
  {
    forall rel | Reachable(repo, entries, rel) ensures rel in seen {
      var path :| Chain(repo, entries, path) && path[|path| - 1] == rel;
      ClosedHolds(repo, entries, seen, path);
    }
  }

  // ----- who requires a file --------------------------------------------------------------

  function At(back: map<string, seq<string>>, t: string): seq<string> { if t in back then back[t] else [] }

  ghost predicate CallersOf(repo: Repo, rels: seq<string>, back: map<string, seq<string>>)
  {
    && (forall t :: t in back ==> back[t] != [])
    && (forall t, rel :: rel in At(back, t) <==> rel in rels && !IsTest(rel) && Requires(repo, rel, t))
  }

  /** The non-test callers of one file, each once and sorted. */
  ghost predicate ReverseAt(repo: Repo, list: seq<string>, t: string)
  {
    && Distinct(list) && SortedBy(StrLe, list)
    && forall rel :: rel in list <==> rel in FileSet(repo) && !IsTest(rel) && Requires(repo, rel, t)
  }

  /** The callers of every file; a file without one has no entry. */
  ghost predicate ReverseOf(repo: Repo, back: map<string, seq<string>>)
  {
    && (forall t :: t in back ==> back[t] != [])
    && (forall t :: ReverseAt(repo, At(back, t), t))
  }

  method AddCallers(back: map<string, seq<string>>, targets: seq<string>, rel: string)
      returns (more: map<string, seq<string>>)
    requires Distinct(targets)
    requires forall t :: t in back ==> back[t] != []
    ensures forall t :: t in more ==> more[t] != []
    ensures forall t :: At(more, t) == At(back, t) + if t in targets then [rel] else []
  {
    more := back;
    for i := 0 to |targets|
      invariant forall t :: t in more ==> more[t] != []
      invariant forall t :: At(more, t) == At(back, t) + if t in targets[..i] then [rel] else []
    {
      assert targets[..i + 1] == targets[..i] + [targets[i]];
      assert targets[i] !in targets[..i];
      more := more[targets[i] := At(more, targets[i]) + [rel]];
    }
    assert targets[..|targets|] == targets;
  }

  function Tidy(list: seq<string>): seq<string> { SortBy(StrLe, Dedup(list)) }

  lemma TidyList(list: seq<string>)
    ensures Distinct(Tidy(list)) && SortedBy(StrLe, Tidy(list))
    ensures forall r :: r in Tidy(list) <==> r in list
    ensures Tidy(list) == [] <==> list == []
  {
    StrLeTotalOrder();
    SortSorted(StrLe, Dedup(list));
    DistinctPermutes(Dedup(list), Tidy(list));
    SameMembers(Dedup(list), Tidy(list));
    if list != [] { assert list[0] in Tidy(list); }
  }

  function TidyMap(raw: map<string, seq<string>>): map<string, seq<string>>
  {
    map t | t in raw :: Tidy(raw[t])
  }

  lemma TidyAt(raw: map<string, seq<string>>, t: string)
    ensures At(TidyMap(raw), t) == Tidy(At(raw, t)) && (At(TidyMap(raw), t) == [] <==> At(raw, t) == [])
  {
    TidyList(At(raw, t));
  }

  lemma TidyReverse(repo: Repo, list: seq<string>, t: string)
    requires forall rel :: rel in list <==> rel in FileSet(repo) && !IsTest(rel) && Requires(repo, rel, t)
    ensures ReverseAt(repo, Tidy(list), t)
  {
    TidyList(list);
  }

  lemma TidyAll(repo: Repo, rels: seq<string>, raw: map<string, seq<string>>)
    requires CallersOf(repo, rels, raw) && forall r :: r in rels <==> r in FileSet(repo)
    ensures ReverseOf(repo, TidyMap(raw))
  {
    forall t ensures ReverseAt(repo, At(TidyMap(raw), t), t) {
      TidyReverse(repo, At(raw, t), t);
      TidyAt(raw, t);
    }
    forall t | t in TidyMap(raw) ensures TidyMap(raw)[t] != [] {
      TidyAt(raw, t);
    }
  }

  lemma CallersSnoc(repo: Repo, rels: seq<string>, back: map<string, seq<string>>, rel: string, targets: seq<string>,
                    more: map<string, seq<string>>)
    requires CallersOf(repo, rels, back) && forall t :: t in targets <==> !IsTest(rel) && Requires(repo, rel, t)
    requires forall t :: t in more ==> more[t] != []
    requires forall t :: At(more, t) == At(back, t) + if t in targets then [rel] else []
    ensures CallersOf(repo, rels + [rel], more)
  {
    forall t, r ensures r in At(more, t) <==> r in rels + [rel] && !IsTest(r) && Requires(repo, r, t) {
      Appended(At(back, t), rel, t in targets, r);
      assert r in At(back, t) <==> r in rels && !IsTest(r) && Requires(repo, r, t);
    }
  }

  lemma Appended(list: seq<string>, x: string, also: bool, y: string)
    ensures y in list + (if also then [x] else []) <==> y in list || (also && y == x)
  {
  }

  method ReverseEdges(repo: Repo) returns (back: map<string, seq<string>>)
    ensures ReverseOf(repo, back)
  {
    back := map[];
    var rels := Listing(FileSet(repo));
    for i := 0 to |rels|
      invariant CallersOf(repo, rels[..i], back)
    {
      assert rels[..i + 1] == rels[..i] + [rels[i]];
      var targets: seq<string> := [];
      if !IsTest(rels[i]) { targets := EdgesFrom(repo, rels[i]); }
      var more := AddCallers(back, targets, rels[i]);
      CallersSnoc(repo, rels[..i], back, rels[i], targets, more);
      back := more;
    }
    assert rels[..|rels|] == rels;
    TidyAll(repo, rels, back);
    back := TidyMap(back);
  }

  // ----- the verdict ----------------------------------------------------------------------

  /** What holds a file from outside the checkout: the sibling references and the vendored copies. */
  datatype Outside = Outside(roots: seq<string>, siblings: set<string>, twins: set<string>)

  /** What the service starts, and every script under the tooling directories. */
  function RuntimeEntries(repo: Repo, o: Outside): set<string> { Elements(o.roots) * FileSet(repo) }

  function ToolingEntries(repo: Repo): set<string> { set f | f in FileSet(repo) && IsTooling(f) }

  ghost predicate Unreferenced(repo: Repo, o: Outside, rel: string)
  {
    && rel in FileSet(repo) && IsSource(rel)
    && !Reachable(repo, RuntimeEntries(repo, o), rel) && !Reachable(repo, ToolingEntries(repo), rel)
    && rel !in o.siblings && rel !in o.twins
    && forall caller :: caller in FileSet(repo) && !IsTest(caller) ==> !Requires(repo, caller, rel)
  }

  lemma NoCallers(repo: Repo, back: map<string, seq<string>>, rel: string)
    requires ReverseOf(repo, back)
    ensures At(back, rel) == []
            <==> forall caller :: caller in FileSet(repo) && !IsTest(caller) ==> !Requires(repo, caller, rel)
  {
    forall caller
      ensures caller in At(back, rel) <==> caller in FileSet(repo) && !IsTest(caller) && Requires(repo, caller, rel)
    {
    }
    if At(back, rel) != [] { assert At(back, rel)[0] in At(back, rel); }
  }

  method ClosureOf(repo: Repo, entries: set<string>) returns (seen: set<string>)
    ensures forall rel :: rel in seen <==> Reachable(repo, entries, rel)
  {
    var list := Listing(entries);
    assert Elements(list) == entries;
    seen := Closure(repo, list);
  }

  /** The files `analyse` flags: exactly the unreferenced ones. */
  method UnreferencedAcrossPlatform(repo: Repo, o: Outside) returns (flagged: set<string>)
    ensures forall rel :: rel in flagged <==> Unreferenced(repo, o, rel)
  {
    var runtime := ClosureOf(repo, RuntimeEntries(repo, o));
    var tooling := ClosureOf(repo, ToolingEntries(repo));
    var back := ReverseEdges(repo);
    flagged := set rel | rel in FileSet(repo) && IsSource(rel) && rel !in runtime && rel !in tooling
                         && rel !in o.siblings && rel !in o.twins && At(back, rel) == [];
    forall rel ensures rel in flagged <==> Unreferenced(repo, o, rel) {
      NoCallers(repo, back, rel);
    }
  }

  // ----- deletion -------------------------------------------------------------------------

  function Delete(repo: Repo, gone: set<string>): Repo
  {
    Repo(repo.disk - gone, repo.tracked - gone, repo.texts - gone)
  }

  /** Deleting files leaves a kept file's requires resolving as they did exactly when none of them
      resolved to a deleted one. */
  lemma KeptRequires(repo: Repo, gone: set<string>, rel: string)
    requires rel in repo.texts && rel !in gone
    ensures (forall i :: 0 <= i < |repo.texts[rel]| ==>
               Resolve(Delete(repo, gone).disk, repo.texts[rel][i]) == Resolve(repo.disk, repo.texts[rel][i]))
            <==> forall i :: 0 <= i < |repo.texts[rel]| ==>
               Resolve(repo.disk, repo.texts[rel][i]).None? || Resolve(repo.disk, repo.texts[rel][i]).value !in gone
  {
    forall i | 0 <= i < |repo.texts[rel]|
      ensures Resolve(repo.disk - gone, repo.texts[rel][i]) == Resolve(repo.disk, repo.texts[rel][i])
              <==> Resolve(repo.disk, repo.texts[rel][i]).None? || Resolve(repo.disk, repo.texts[rel][i]).value !in gone
    {
      ResolveWithout(repo.disk, gone, repo.texts[rel][i]);
    }
  }

  predicate KeptResolves(repo: Repo, gone: set<string>, rel: string, i: nat)
    requires rel in repo.texts && i < |repo.texts[rel]|
  {
    Resolve(repo.disk - gone, repo.texts[rel][i]) == Resolve(repo.disk, repo.texts[rel][i])
  }

  /** A kept non-test file resolves none of its requires to a flagged one. */
  lemma NoneResolvesToFlagged(repo: Repo, o: Outside, gone: set<string>, rel: string, i: nat)
    requires forall g :: g in gone ==> Unreferenced(repo, o, g)
    requires rel in FileSet(repo) && !IsTest(rel) && rel in repo.texts && i < |repo.texts[rel]|
    ensures Resolve(repo.disk, repo.texts[rel][i]).Some? ==> Resolve(repo.disk, repo.texts[rel][i]).value !in gone
  {
    var target := Resolve(repo.disk, repo.texts[rel][i]);
    if target.Some? && target.value in FileSet(repo) {
      assert Requires(repo, rel, target.value);
    }
  }

  lemma SafeForRequires(repo: Repo, o: Outside, gone: set<string>, rel: string)
    requires forall g :: g in gone ==> Unreferenced(repo, o, g)
    requires rel in FileSet(repo) - gone && !IsTest(rel)
    ensures rel in repo.texts ==> forall i :: 0 <= i < |repo.texts[rel]| ==> KeptResolves(repo, gone, rel, i)
    ensures forall t :: Requires(Delete(repo, gone), rel, t) <==> Requires(repo, rel, t)
  {
    if rel in repo.texts {
      forall i | 0 <= i < |repo.texts[rel]| ensures KeptResolves(repo, gone, rel, i) {
        NoneResolvesToFlagged(repo, o, gone, rel, i);
        ResolveWithout(repo.disk, gone, repo.texts[rel][i]);
      }
      forall t ensures Requires(Delete(repo, gone), rel, t) <==> Requires(repo, rel, t) {
        SameRequires(repo, o, gone, rel, t);
      }
    }
  }

  lemma SameRequires(repo: Repo, o: Outside, gone: set<string>, rel: string, t: string)
    requires forall g :: g in gone ==> Unreferenced(repo, o, g)
    requires rel in FileSet(repo) - gone && !IsTest(rel) && rel in repo.texts
    requires forall i :: 0 <= i < |repo.texts[rel]| ==> KeptResolves(repo, gone, rel, i)
    ensures Requires(Delete(repo, gone), rel, t) <==> Requires(repo, rel, t)
  {
    if Requires(repo, rel, t) {
      var i :| 0 <= i < |repo.texts[rel]| && Resolve(repo.disk, repo.texts[rel][i]) == Some(t);
      assert KeptResolves(repo, gone, rel, i);
      NoneResolvesToFlagged(repo, o, gone, rel, i);
    }
    if Requires(Delete(repo, gone), rel, t) {
      var i :| 0 <= i < |repo.texts[rel]| && Resolve(repo.disk - gone, repo.texts[rel][i]) == Some(t);
      assert KeptResolves(repo, gone, rel, i);
    }
  }

  lemma OnTheChain(repo: Repo, entries: set<string>, path: seq<string>, i: nat)
    requires Chain(repo, entries, path) && i < |path|
    ensures Reachable(repo, entries, path[i]) && path[i] in FileSet(repo)
  {
    var part := path[..i + 1];
    assert Chain(repo, entries, part) && part[|part| - 1] == path[i];
    if i > 0 { assert Requires(repo, path[i - 1], path[i]); }
  }

  lemma RequireSurvives(repo: Repo, gone: set<string>, rel: string, t: string)
    requires Requires(repo, rel, t) && rel !in gone && t !in gone
    ensures Requires(Delete(repo, gone), rel, t)
  {
    var i :| 0 <= i < |repo.texts[rel]| && Resolve(repo.disk, repo.texts[rel][i]) == Some(t);
    ResolveWithout(repo.disk, gone, repo.texts[rel][i]);
  }

  /** A file that a walk reaches requires nothing that the walk does not, so nothing deleted; no
      require of it can come to mean another file. */
  lemma NoNewRequire(repo: Repo, gone: set<string>, entries: set<string>, rel: string, t: string)
    requires gone <= FileSet(repo) && forall g :: g in gone ==> !Reachable(repo, entries, g)
    requires Reachable(repo, entries, rel) && Requires(Delete(repo, gone), rel, t)
    ensures Requires(repo, rel, t)
  {
    var i :| 0 <= i < |repo.texts[rel]| && Resolve(repo.disk - gone, repo.texts[rel][i]) == Some(t);
    var was := Resolve(repo.disk, repo.texts[rel][i]);
    ResolveWithout(repo.disk, gone, repo.texts[rel][i]);
    if was.Some? && was.value in FileSet(repo) {
      assert Requires(repo, rel, was.value);
      ReachableStep(repo, entries, rel, was.value);
    }
  }

  /** Deleting files that no walk from some entries reaches leaves that walk as it was. Test files on
      the way do not matter: what they required would be reached. */
  lemma WalkSurvives(repo: Repo, gone: set<string>, entries: set<string>, rel: string)
    requires gone <= FileSet(repo) && forall g :: g in gone ==> !Reachable(repo, entries, g)
    ensures Reachable(Delete(repo, gone), entries, rel) <==> Reachable(repo, entries, rel)
  {
    if Reachable(repo, entries, rel) {
      var path :| Chain(repo, entries, path) && path[|path| - 1] == rel;
      forall i | 0 <= i < |path| ensures path[i] !in gone && path[i] in FileSet(repo) {
        OnTheChain(repo, entries, path, i);
      }
      forall i | 0 <= i < |path| - 1 ensures Requires(Delete(repo, gone), path[i], path[i + 1]) {
        RequireSurvives(repo, gone, path[i], path[i + 1]);
      }
      assert Chain(Delete(repo, gone), entries, path);
    }
    if Reachable(Delete(repo, gone), entries, rel) {
      var path :| Chain(Delete(repo, gone), entries, path) && path[|path| - 1] == rel;
      NoNewChain(repo, gone, entries, path);
    }
  }

  lemma {:induction false} NoNewChain(repo: Repo, gone: set<string>, entries: set<string>, path: seq<string>)
    requires gone <= FileSet(repo) && forall g :: g in gone ==> !Reachable(repo, entries, g)
    requires Chain(Delete(repo, gone), entries, path)
    ensures Reachable(repo, entries, path[|path| - 1])
  {
    var n := |path| - 1;
    if n == 0 {
      ReachableEntry(repo, entries, path[0]);
    } else {
      var shorter := path[..n];
      assert Chain(Delete(repo, gone), entries, shorter);
      NoNewChain(repo, gone, entries, shorter);
      assert shorter[|shorter| - 1] == path[n - 1];
      assert Requires(Delete(repo, gone), path[n - 1], path[n]);
      NoNewRequire(repo, gone, entries, path[n - 1], path[n]);
      ReachableStep(repo, entries, path[n - 1], path[n]);
    }
  }

  /** Deletion is safe. Remove any of the flagged files, all of them at once if you like: every kept
      non-test file's requires mean what they meant, the service and the tooling start from the same
      files and reach the same files. */
  lemma DeletionIsSafe(repo: Repo, o: Outside, gone: set<string>)
    requires forall g :: g in gone ==> Unreferenced(repo, o, g)
    ensures forall rel, t :: rel in FileSet(repo) - gone && !IsTest(rel) ==>
      (Requires(Delete(repo, gone), rel, t) <==> Requires(repo, rel, t))
    ensures RuntimeEntries(Delete(repo, gone), o) == RuntimeEntries(repo, o)
    ensures ToolingEntries(Delete(repo, gone)) == ToolingEntries(repo)
    ensures forall rel ::
              Reachable(Delete(repo, gone), RuntimeEntries(repo, o), rel)
              <==> Reachable(repo, RuntimeEntries(repo, o), rel)
    ensures forall rel ::
              Reachable(Delete(repo, gone), ToolingEntries(repo), rel)
              <==> Reachable(repo, ToolingEntries(repo), rel)
  {
    forall rel, t | rel in FileSet(repo) - gone && !IsTest(rel)
      ensures Requires(Delete(repo, gone), rel, t) <==> Requires(repo, rel, t)
    {
      SafeForRequires(repo, o, gone, rel);
    }
    SameEntries(repo, o, gone);
    forall rel
      ensures Reachable(Delete(repo, gone), RuntimeEntries(repo, o), rel)
              <==> Reachable(repo, RuntimeEntries(repo, o), rel)
      ensures Reachable(Delete(repo, gone), ToolingEntries(repo), rel) <==> Reachable(repo, ToolingEntries(repo), rel)
    {
      WalkSurvives(repo, gone, RuntimeEntries(repo, o), rel);
      WalkSurvives(repo, gone, ToolingEntries(repo), rel);
    }
  }

  lemma SameEntries(repo: Repo, o: Outside, gone: set<string>)
    requires forall g :: g in gone ==> Unreferenced(repo, o, g)
    ensures RuntimeEntries(Delete(repo, gone), o) == RuntimeEntries(repo, o)
    ensures ToolingEntries(Delete(repo, gone)) == ToolingEntries(repo)
  {
    forall g | g in gone ensures g !in RuntimeEntries(repo, o) && g !in ToolingEntries(repo) {
      if g in RuntimeEntries(repo, o) { ReachableEntry(repo, RuntimeEntries(repo, o), g); }
      if g in ToolingEntries(repo) { ReachableEntry(repo, ToolingEntries(repo), g); }
    }
    assert FileSet(Delete(repo, gone)) == FileSet(repo) - gone;
  }

  /** The next verdict: a flagged file that was kept stays flagged, and a file is newly flagged exactly
      when the deleted files were its last non-test callers. */
  lemma VerdictIsStable(repo: Repo, o: Outside, gone: set<string>, rel: string)
    requires forall g :: g in gone ==> Unreferenced(repo, o, g)
    requires rel in FileSet(repo) - gone
    ensures Unreferenced(repo, o, rel) ==> Unreferenced(Delete(repo, gone), o, rel)
    ensures Unreferenced(Delete(repo, gone), o, rel) <==>
      && IsSource(rel) && rel !in o.siblings && rel !in o.twins
      && !Reachable(repo, RuntimeEntries(repo, o), rel) && !Reachable(repo, ToolingEntries(repo), rel)
      && forall caller :: caller in FileSet(repo) && !IsTest(caller) && Requires(repo, caller, rel) ==> caller in gone
  {
    DeletionIsSafe(repo, o, gone);
    assert FileSet(Delete(repo, gone)) == FileSet(repo) - gone;
  }

  // ----- the verdict written out ----------------------------------------------------------

  ghost predicate Under(rel: string, dir: string) { |dir| <= |rel| && rel[..|dir|] == dir }

  ghost predicate Script(rel: string) { |rel| >= 3 && rel[|rel| - 3..] == ".js" }

  /** The three places a require of `base` is looked for: the path itself, the path with `.js`, and the
      index of the directory it names. */
  ghost predicate Place(base: string, i: int, c: string)
  {
    || (i == 0 && c == base)
    || (i == 1 && c == base + ".js")
    || (i == 2 && c == if base == "." || base == "./" then "index.js"
                       else if base != "" && base[|base| - 1] == '/' then base[..|base| - 1] + "/index.js"
                       else base + "/index.js")
  }

  /** The first of those places that has a script. */
  ghost predicate LoadsFrom(disk: set<string>, base: string, target: string)
  {
    exists i :: 0 <= i < 3 && FoundAt(disk, base, target, i)
  }

  ghost predicate FoundAt(disk: set<string>, base: string, target: string, i: int)
  {
    && Place(base, i, target) && target in disk && Script(target)
    && forall j, c :: 0 <= j < i && Place(base, j, c) ==> !(c in disk && Script(c))
  }

  lemma EndsInSlash(base: string)
    ensures EndsWith(base, "/") <==> base != "" && base[|base| - 1] == '/'
  {
    if base != "" { assert base[|base| - 1..] == [base[|base| - 1]]; }
  }

  lemma IndexPlace(base: string, c: string)
    ensures Place(base, 2, c) <==> c == IndexOf(base)
  {
    EndsInSlash(base);
    if base != "" && base[|base| - 1] == '/' {
      var dir := base[..|base| - 1];
      assert base == dir + "/";
      assert dir + "/index.js" == base + "index.js";
    }
  }

  /** The first of three candidates that loads. */
  lemma FirstOfThree(disk: set<string>, cs: seq<string>)
    requires |cs| == 3
    ensures FirstOf(disk, cs) == if Loads(disk, cs[0]) then Some(cs[0]) else if Loads(disk, cs[1]) then Some(cs[1])
                                 else if Loads(disk, cs[2]) then Some(cs[2]) else None
  {
    var two, one := cs[1..], cs[2..];
    assert two[0] == cs[1] && two[1..] == one && one[0] == cs[2] && one[1..] == [];
    assert FirstOf(disk, one) == if Loads(disk, cs[2]) then Some(cs[2]) else None;
    assert FirstOf(disk, two) == if Loads(disk, cs[1]) then Some(cs[1]) else FirstOf(disk, one);
  }

  /** Resolution is Node's: the first place with a script, and nothing when none has one. */
  lemma ResolveMeans(disk: set<string>, base: string, target: string)
    ensures Resolve(disk, base) == Some(target) <==> LoadsFrom(disk, base, target)
  {
    var cs := Candidates(base);
    FirstOfThree(disk, cs);
    PlacesAre(base, cs);
    if Resolve(disk, base) == Some(target) {
      var i := if Loads(disk, cs[0]) then 0 else if Loads(disk, cs[1]) then 1 else 2;
      assert FoundAt(disk, base, target, i);
    }
    if LoadsFrom(disk, base, target) {
      var i :| 0 <= i < 3 && FoundAt(disk, base, target, i);
      assert forall j :: 0 <= j < i ==> Place(base, j, cs[j]);
    }
  }

  lemma PlacesAre(base: string, cs: seq<string>)
    requires cs == Candidates(base)
    ensures |cs| == 3 && forall j, c :: 0 <= j < 3 ==> (Place(base, j, c) <==> c == cs[j])
  {
    forall j, c | 0 <= j < 3 ensures Place(base, j, c) <==> c == cs[j] { IndexPlace(base, c); }
  }

  /** `caller` has a literal require that loads `target`, a tracked script. */
  ghost predicate Needs(repo: Repo, caller: string, target: string)
  {
    && caller in repo.texts && target in repo.tracked && Script(target)
    && exists i :: 0 <= i < |repo.texts[caller]| && LoadsFrom(repo.disk, repo.texts[caller][i], target)
  }

  /** Something that is run: a root of the service, or a tracked script of a tooling directory. */
  ghost predicate Entry(repo: Repo, o: Outside, rel: string)
  {
    && rel in repo.tracked && Script(rel)
    && (rel in o.roots || Under(rel, "bin/") || Under(rel, "scripts/") || Under(rel, "tools/"))
  }

  /** A chain of requires from something that is run. */
  ghost predicate Reaches(repo: Repo, o: Outside, path: seq<string>)
  {
    && path != [] && Entry(repo, o, path[0])
    && forall i :: 0 <= i < |path| - 1 ==> Needs(repo, path[i], path[i + 1])
  }

  /** A tracked script under `src/` that nothing run leads to, no sibling names, no other checkout has a
      copy of, and no tracked script outside `test/` requires. */
  ghost predicate Dead(repo: Repo, o: Outside, rel: string)
  {
    && rel in repo.tracked && Script(rel) && Under(rel, "src/")
    && !(exists path :: Reaches(repo, o, path) && path[|path| - 1] == rel)
    && rel !in o.siblings && rel !in o.twins
    && forall caller :: caller in repo.tracked && Script(caller) && !Under(caller, "test/") ==>
         !Needs(repo, caller, rel)
  }

  lemma RequiresMeans(repo: Repo, caller: string, target: string)
    ensures Requires(repo, caller, target) <==> Needs(repo, caller, target)
  {
    assert target in FileSet(repo) <==> target in repo.tracked && Script(target);
    if caller in repo.texts {
      var bases := repo.texts[caller];
      forall i | 0 <= i < |bases|
        ensures Resolve(repo.disk, bases[i]) == Some(target) <==> LoadsFrom(repo.disk, bases[i], target)
      {
        ResolveMeans(repo.disk, bases[i], target);
      }
    }
  }

  lemma EntryMeans(repo: Repo, o: Outside, rel: string)
    ensures rel in RuntimeEntries(repo, o) || rel in ToolingEntries(repo) <==> Entry(repo, o, rel)
  {
  }

  lemma ChainMeans(repo: Repo, o: Outside, path: seq<string>)
    ensures Chain(repo, RuntimeEntries(repo, o), path) || Chain(repo, ToolingEntries(repo), path)
            <==> Reaches(repo, o, path)
  {
    if path != [] {
      EntryMeans(repo, o, path[0]);
      forall i | 0 <= i < |path| - 1
        ensures Requires(repo, path[i], path[i + 1]) <==> Needs(repo, path[i], path[i + 1])
      {
        RequiresMeans(repo, path[i], path[i + 1]);
      }
    }
  }

  lemma ReachesMeans(repo: Repo, o: Outside, rel: string)
    ensures Reachable(repo, RuntimeEntries(repo, o), rel) || Reachable(repo, ToolingEntries(repo), rel)
            <==> exists path :: Reaches(repo, o, path) && path[|path| - 1] == rel
  {
    if Reachable(repo, RuntimeEntries(repo, o), rel) {
      var path :| Chain(repo, RuntimeEntries(repo, o), path) && path[|path| - 1] == rel;
      ChainMeans(repo, o, path);
    } else if Reachable(repo, ToolingEntries(repo), rel) {
      var path :| Chain(repo, ToolingEntries(repo), path) && path[|path| - 1] == rel;
      ChainMeans(repo, o, path);
    }
    if path :| Reaches(repo, o, path) && path[|path| - 1] == rel {
      ChainMeans(repo, o, path);
      assert Reachable(repo, RuntimeEntries(repo, o), rel) || Reachable(repo, ToolingEntries(repo), rel);
    }
  }

  /** The flagged files are the dead ones. */
  lemma UnreferencedMeansDead(repo: Repo, o: Outside, rel: string)
    ensures Unreferenced(repo, o, rel) <==> Dead(repo, o, rel)
  {
    ReachesMeans(repo, o, rel);
    forall caller ensures Requires(repo, caller, rel) <==> Needs(repo, caller, rel) {
      RequiresMeans(repo, caller, rel);
    }
    forall f ensures f in FileSet(repo) <==> f in repo.tracked && Script(f) { }
  }
}
