/** The shard planner of the nightly end-to-end workflow. */
module ShardPlan {
  // Test files are grouped, the groups are placed longest-first on shards of which the first starts loaded,
  // and the plan is checked for coverage before it is returned.

  import opened Base
  import opened ShardSchedule

  /** Measured seconds per group; a group missing from `table` counts as `default`. */
  datatype Weights = Weights(table: map<string, real>, default: real, preload: real)
  {
    function Of(g: string): real { if g in table then table[g] else default }
  }

  /** One shard while it is being filled. */
  datatype Bin = Bin(groups: seq<string>, load: real)

  datatype Shard = Shard(groups: seq<string>, pattern: string, load: real, runsExtras: bool)

  datatype Plan =
    | SingleSuite(suite: string)
    | Sharded(shards: seq<Shard>, groups: seq<string>, unweighted: seq<string>)

  datatype PlanError = NoSuites | BadNames(names: seq<string>) | TooManyShards | NotAPartition | EmptyShard

  // ----- grouping the files ---------------------------------------------------------------

  function UpTo(s: string, c: char): string
  {
    if s == [] || s[0] == c then [] else [s[0]] + UpTo(s[1..], c)
  }

  /** The group of a test file: its first path segment without `.test.js` or `.test`. */
  function GroupOf(file: string): string
  {
    var head := UpTo(file, '/');
    if EndsWith(head, ".test.js") then head[..|head| - 8]
    else if EndsWith(head, ".test") then head[..|head| - 5]
    else head
  }

  lemma {:induction false} UpToStops(s: string, c: char, rest: string)
    requires c !in s
    ensures UpTo(s, c) == s
    ensures UpTo(s + [c] + rest, c) == s
  {
    if s != [] {
      assert (s + [c] + rest)[1..] == s[1..] + [c] + rest;
      UpToStops(s[1..], c, rest);
    }
  }

  /** A suite and the part files beside it, at any depth, belong to one group. */
  lemma PartFilesShareTheGroup(stem: string, part: string)
    requires GroupName(stem)
    ensures GroupOf(stem + ".test.js") == stem
    ensures GroupOf(stem + ".test/" + part) == stem
  {
    UpToStops(stem + ".test.js", '/', []);
    UpToStops(stem + ".test", '/', part);
    assert stem + ".test/" + part == (stem + ".test") + ['/'] + part;
    EndsInLetter(stem + ".test");
    var file := stem + ".test.js";
    assert file[|file| - 8..] == ".test.js" && file[..|file| - 8] == stem;
    assert (stem + ".test")[|stem|..] == ".test" && (stem + ".test")[..|stem|] == stem;
  }

  /** The group of any file: that of its first segment, which is the segment without one `.test.js` or
      `.test` at its end, when it has one. */
  lemma GroupOfMeans(stem: string, rest: string)
    requires '/' !in stem
    ensures GroupOf(stem + "/" + rest) == GroupOf(stem)
    ensures GroupOf(stem + ".test.js") == stem && GroupOf(stem + ".test") == stem
    ensures !(|stem| >= 8 && stem[|stem| - 8..] == ".test.js") && !(|stem| >= 5 && stem[|stem| - 5..] == ".test") ==>
              GroupOf(stem) == stem
  {
    UpToStops(stem, '/', rest);
    assert stem + "/" + rest == stem + ['/'] + rest;
    var file, dir := stem + ".test.js", stem + ".test";
    UpToStops(file, '/', []);
    UpToStops(dir, '/', []);
    assert file[|file| - 8..] == ".test.js" && file[..|file| - 8] == stem;
    EndsInLetter(dir);
    assert dir[|dir| - 5..] == ".test" && dir[..|dir| - 5] == stem;
  }

  lemma EndsInLetter(s: string)
    requires s != [] && s[|s| - 1] == 't'
    ensures !EndsWith(s, ".test.js")
  {
    if 8 <= |s| { assert s[|s| - 8..][7] == 't'; }
  }

  predicate NameChar(c: char)
  {
    'A' <= c <= 'Z' || 'a' <= c <= 'z' || '0' <= c <= '9' || c == '_' || c == '-'
  }

  predicate GroupName(g: string) { g != [] && forall i :: 0 <= i < |g| ==> NameChar(g[i]) }

  function GroupsOf(files: seq<string>): seq<string>
  {
    SortBy(StrLe, Dedup(seq(|files|, i requires 0 <= i < |files| => GroupOf(files[i]))))
  }

  /** Part files share state, so both halves of a group go in one pattern. */
  function ShardPattern(groups: seq<string>): string
  {
    "{" + Alternatives(groups) + "}"
  }

  function Alternatives(groups: seq<string>): string
  {
    if groups == [] then ""
    else
      groups[0] + "," + groups[0] + ".test/**/*"
      + (if |groups| == 1 then "" else "," + Alternatives(groups[1..]))
  }

  // ----- placing the groups ---------------------------------------------------------------

  /** Heavier groups first, names breaking ties. */
  function PlacedBefore(wt: Weights): (string, string) -> bool
  {
    (a: string, b: string) => wt.Of(b) < wt.Of(a) || (wt.Of(a) == wt.Of(b) && StrLe(a, b))
  }

  function Ordered(wt: Weights, groups: seq<string>): seq<string>
  {
    SortBy(PlacedBefore(wt), groups)
  }

  function WeightsOf(wt: Weights, gs: seq<string>): (w: seq<real>)
    ensures |w| == |gs| && forall t :: 0 <= t < |gs| ==> w[t] == wt.Of(gs[t])
  {
    seq(|gs|, t requires 0 <= t < |gs| => wt.Of(gs[t]))
  }

  /** The groups an assignment sends to shard `j`, in placement order. */
  function PlacedOn(gs: seq<string>, a: seq<nat>, j: nat): (r: seq<string>)
    requires |a| <= |gs|
  {
    if a == [] then []
    else
      var t := |a| - 1;
      PlacedOn(gs, a[..t], j) + (if a[t] == j then [gs[t]] else [])
  }

  /** The bins after the first `n` groups of `ordered` have been placed. */
  function BinsAfter(wt: Weights, ordered: seq<string>, n: nat, m: nat): seq<Bin>
    requires n <= |ordered| && 1 <= m
  {
    var a := Greedy(WeightsOf(wt, ordered), n, m, wt.preload);
    seq(m, j requires 0 <= j =>
      Bin(PlacedOn(ordered, a, j), Load(WeightsOf(wt, ordered), a, wt.preload, 0, j)))
  }

  function ShardOf(bin: Bin, j: nat): Shard
  {
    var groups := SortBy(StrLe, bin.groups);
    Shard(groups, ShardPattern(groups), bin.load, j == 0)
  }

  function ShardsOf(bins: seq<Bin>): (r: seq<Shard>)
    ensures |r| == |bins|
  {
    seq(|bins|, j requires 0 <= j < |bins| => ShardOf(bins[j], j))
  }

  function Flatten(shards: seq<Shard>): seq<string>
  {
    if shards == [] then [] else Flatten(shards[..|shards| - 1]) + shards[|shards| - 1].groups
  }

  /** The shards longest-first placement produces, before the closing checks. */
  function Planned(groups: seq<string>, m: nat, wt: Weights): (r: seq<Shard>)
    requires 1 <= m
    ensures |r| == m
  {
    ShardsOf(BinsAfter(wt, Ordered(wt, groups), |groups|, m))
  }

  /** The closing checks: every group in exactly one shard, and no shard empty. */
  function Checked(groups: seq<string>, shards: seq<Shard>, wt: Weights): Result<Plan, PlanError>
  {
    var seen := Flatten(shards);
    if |seen| != |groups| || |Elements(seen)| != |groups| then Err(NotAPartition)
    else if exists j :: 0 <= j < |shards| && shards[j].groups == [] then Err(EmptyShard)
    else Ok(Sharded(shards, groups, Filter((g: string) => g !in wt.table, groups)))
  }

  /** What the planner returns. */
  function PlanOf(files: seq<string>, m: nat, suite: string, wt: Weights): Result<Plan, PlanError>
    requires 1 <= m
  {
    var groups := GroupsOf(files);
    var bad := Filter((g: string) => !GroupName(g), groups);
    if groups == [] then Err(NoSuites)
    else if bad != [] then Err(BadNames(bad))
    else if suite != "" then Ok(SingleSuite(suite))
    else if m > |groups| then Err(TooManyShards)
    else Checked(groups, Planned(groups, m, wt), wt)
  }

  // ----- the imperative planner -----------------------------------------------------------

  lemma LeastSnoc(loads: seq<real>, i: nat)
    requires 0 < i < |loads|
    ensures LeastLoaded(loads[..i + 1])
            == if loads[i] < loads[LeastLoaded(loads[..i])] then i else LeastLoaded(loads[..i])
  {
    assert loads[..i + 1][..i] == loads[..i];
  }

  method LeastBin(bins: seq<Bin>) returns (k: nat)
    requires bins != []
    ensures k < |bins|
    ensures k == LeastLoaded(seq(|bins|, j requires 0 <= j < |bins| => bins[j].load))
  {
    k := 0;
    var loads := seq(|bins|, j requires 0 <= j < |bins| => bins[j].load);
    for i := 1 to |bins|
      invariant k < i && k == LeastLoaded(loads[..i])
    {
      LeastSnoc(loads, i);
      assert loads[i] == bins[i].load && loads[k] == bins[k].load;
      if bins[i].load < bins[k].load { k := i; }
    }
    assert loads[..|bins|] == loads;
  }

  method PlaceLongestFirst(wt: Weights, ordered: seq<string>, m: nat) returns (bins: seq<Bin>)
    requires 1 <= m
    ensures bins == BinsAfter(wt, ordered, |ordered|, m)
  {
    ghost var w := WeightsOf(wt, ordered);
    bins := seq(m, j => Bin([], if j == 0 then wt.preload else 0.0));
    for i := 0 to |ordered|
      invariant bins == BinsAfter(wt, ordered, i, m)
    {
      ghost var a := Greedy(w, i, m, wt.preload);
      var k := LeastBin(bins);
      assert seq(|bins|, j requires 0 <= j < |bins| => bins[j].load) == Loads(w, a, wt.preload, 0, m);
      bins := bins[k := Bin(bins[k].groups + [ordered[i]], bins[k].load + wt.Of(ordered[i]))];
      ghost var next := Greedy(w, i + 1, m, wt.preload);
      assert next[..i] == a && next[i] == k;
      forall j | 0 <= j < m ensures bins[j] == BinsAfter(wt, ordered, i + 1, m)[j] {
        assert PlacedOn(ordered, next, j) == PlacedOn(ordered, a, j) + (if j == k then [ordered[i]] else []);
        assert PlacedOn(ordered, a, j) + [] == PlacedOn(ordered, a, j);
      }
    }
  }

  lemma FlattenSnoc(shards: seq<Shard>, shard: Shard)
    ensures Flatten(shards + [shard]) == Flatten(shards) + shard.groups
  {
    assert (shards + [shard])[..|shards|] == shards;
  }

  method CloseShards(groups: seq<string>, bins: seq<Bin>, wt: Weights) returns (r: Result<Plan, PlanError>)
    ensures r == Checked(groups, ShardsOf(bins), wt)
  {
    var shards: seq<Shard>, seen: seq<string> := [], [];
    for j := 0 to |bins|
      invariant |shards| == j && forall k :: 0 <= k < j ==> shards[k] == ShardOf(bins[k], k)
      invariant seen == Flatten(shards)
    {
      var shard := ShardOf(bins[j], j);
      FlattenSnoc(shards, shard);
      shards := shards + [shard];
      seen := seen + shard.groups;
    }
    assert shards == ShardsOf(bins);
    if |seen| != |groups| || |Elements(seen)| != |groups| { return Err(NotAPartition); }
    if exists j :: 0 <= j < |shards| && shards[j].groups == [] { return Err(EmptyShard); }
    return Ok(Sharded(shards, groups, Filter((g: string) => g !in wt.table, groups)));
  }

  method BuildPlan(files: seq<string>, m: nat, suite: string, wt: Weights)
    returns (r: Result<Plan, PlanError>)
    requires 1 <= m
    ensures r == PlanOf(files, m, suite, wt)
  {
    var groups := GroupsOf(files);
    if groups == [] { return Err(NoSuites); }
    var bad := Filter((g: string) => !GroupName(g), groups);
    if bad != [] { return Err(BadNames(bad)); }
    if suite != "" { return Ok(SingleSuite(suite)); }
    if m > |groups| { return Err(TooManyShards); }

    var bins := PlaceLongestFirst(wt, Ordered(wt, groups), m);
    r := CloseShards(groups, bins, wt);
  }

  // ----- what a plan guarantees -----------------------------------------------------------

  /** The weight of some groups together. */
  function WeightOfAll(wt: Weights, gs: seq<string>): real
  {
    if gs == [] then 0.0 else WeightOfAll(wt, gs[..|gs| - 1]) + wt.Of(gs[|gs| - 1])
  }

  lemma {:induction false} WeightSplits(wt: Weights, gs: seq<string>, hs: seq<string>)
    ensures WeightOfAll(wt, gs + hs) == WeightOfAll(wt, gs) + WeightOfAll(wt, hs)
  {
    if hs == [] {
      assert gs + hs == gs;
    } else {
      assert (gs + hs)[..|gs + hs| - 1] == gs + hs[..|hs| - 1];
      WeightSplits(wt, gs, hs[..|hs| - 1]);
    }
  }

  lemma {:induction false} WeightPermutes(wt: Weights, gs: seq<string>, hs: seq<string>)
    requires multiset(gs) == multiset(hs)
    ensures WeightOfAll(wt, gs) == WeightOfAll(wt, hs)
  {
    SameSize(gs, hs);
    if gs != [] {
      SameMembers(gs, hs);
      assert gs[0] in gs && gs[0] in hs;
      var i :| 0 <= i < |hs| && hs[i] == gs[0];
      RemoveAt(hs, i);
      MultisetOfTail(gs);
      WeightPermutes(wt, gs[1..], hs[..i] + hs[i + 1..]);
      WeightHead(wt, gs);
      WeightWithout(wt, hs, i);
    }
  }

  lemma WeightHead(wt: Weights, gs: seq<string>)
    requires gs != []
    ensures WeightOfAll(wt, gs) == WeightOfAll(wt, gs[1..]) + wt.Of(gs[0])
  {
    assert gs == [gs[0]] + gs[1..];
    WeightSplits(wt, [gs[0]], gs[1..]);
    assert WeightOfAll(wt, [gs[0]]) == WeightOfAll(wt, []) + wt.Of(gs[0]);
  }

  lemma WeightWithout(wt: Weights, gs: seq<string>, i: nat)
    requires i < |gs|
    ensures WeightOfAll(wt, gs) == WeightOfAll(wt, gs[..i] + gs[i + 1..]) + wt.Of(gs[i])
  {
    SplitAt(gs, i);
    WeightAround(wt, gs[..i], gs[i], gs[i + 1..]);
  }

  lemma WeightAround(wt: Weights, a: seq<string>, g: string, b: seq<string>)
    ensures WeightOfAll(wt, a + ([g] + b)) == WeightOfAll(wt, a + b) + wt.Of(g)
  {
    WeightSplits(wt, a, [g] + b);
    WeightSplits(wt, [g], b);
    WeightSplits(wt, a, b);
    assert WeightOfAll(wt, [g]) == WeightOfAll(wt, []) + wt.Of(g);
  }

  lemma {:induction false} LoadIsWeight(wt: Weights, gs: seq<string>, a: seq<nat>, home: nat, j: nat)
    requires |a| <= |gs|
    ensures Load(WeightsOf(wt, gs), a, wt.preload, home, j)
            == (if j == home then wt.preload else 0.0) + WeightOfAll(wt, PlacedOn(gs, a, j))
  {
    if a != [] {
      var t := |a| - 1;
      LoadIsWeight(wt, gs, a[..t], home, j);
      var was := PlacedOn(gs, a[..t], j);
      assert (was + [gs[t]])[..|was|] == was && was + [] == was;
    }
  }

  lemma {:induction false} PlacedMembers(gs: seq<string>, a: seq<nat>, j: nat, g: string)
    requires |a| <= |gs|
    ensures g in PlacedOn(gs, a, j) <==> exists t :: 0 <= t < |a| && gs[t] == g && a[t] == j
  {
    if a != [] {
      var n := |a| - 1;
      PlacedMembers(gs, a[..n], j, g);
      if g in PlacedOn(gs, a[..n], j) {
        var t :| 0 <= t < n && gs[t] == g && a[..n][t] == j;
        assert a[t] == j;
      }
      if exists t :: 0 <= t < |a| && gs[t] == g && a[t] == j {
        var t :| 0 <= t < |a| && gs[t] == g && a[t] == j;
        if t < n { assert a[..n][t] == j; }
      }
    }
  }

  lemma OrderedFacts(wt: Weights, groups: seq<string>)
    ensures multiset(Ordered(wt, groups)) == multiset(groups)
    ensures HeaviestFirst(WeightsOf(wt, Ordered(wt, groups)))
  {
    var before := PlacedBefore(wt);
    StrLeTotalOrder();
    SortSorted(before, groups);
    var ordered := Ordered(wt, groups);
    forall s, t | 0 <= s <= t < |ordered| ensures wt.Of(ordered[s]) >= wt.Of(ordered[t]) {
      if s < t { assert before(ordered[s], ordered[t]); }
    }
  }

  lemma GroupsDistinct(files: seq<string>)
    ensures Distinct(GroupsOf(files))
    ensures SortedBy(StrLe, GroupsOf(files))
    ensures forall g :: g in GroupsOf(files) <==> exists i :: 0 <= i < |files| && GroupOf(files[i]) == g
  {
    var mapped := seq(|files|, i requires 0 <= i < |files| => GroupOf(files[i]));
    StrLeTotalOrder();
    SortSorted(StrLe, Dedup(mapped));
    DistinctPermutes(Dedup(mapped), GroupsOf(files));
    SameMembers(Dedup(mapped), GroupsOf(files));
    forall g ensures g in mapped <==> exists i :: 0 <= i < |files| && GroupOf(files[i]) == g {
      MappedMember(files, mapped, g);
    }
  }

  lemma MappedMember(files: seq<string>, mapped: seq<string>, g: string)
    requires |mapped| == |files| && forall i :: 0 <= i < |files| ==> mapped[i] == GroupOf(files[i])
    ensures g in mapped <==> exists i :: 0 <= i < |files| && GroupOf(files[i]) == g
  {
    if g in mapped {
      var i :| 0 <= i < |mapped| && mapped[i] == g;
      assert GroupOf(files[i]) == g;
    }
    if i :| 0 <= i < |files| && GroupOf(files[i]) == g { assert mapped[i] == g; }
  }

  /** Shards that hold the groups `gs` as the assignment `a` sends them. */
  ghost predicate Follows(shards: seq<Shard>, wt: Weights, gs: seq<string>, a: seq<nat>)
  {
    && |a| == |gs| && UsesBins(a, |shards|)
    && (forall j :: 0 <= j < |shards| ==> multiset(shards[j].groups) == multiset(PlacedOn(gs, a, j)))
    && (forall j :: 0 <= j < |shards| ==> shards[j].load == Load(WeightsOf(wt, gs), a, wt.preload, 0, j))
  }

  /** The assignment behind the planned shards. */
  function PlannedAssignment(groups: seq<string>, m: nat, wt: Weights): (a: seq<nat>)
    requires 1 <= m
    ensures |a| == |Ordered(wt, groups)| == |groups|
    ensures a == Greedy(WeightsOf(wt, Ordered(wt, groups)), |groups|, m, wt.preload)
  {
    Greedy(WeightsOf(wt, Ordered(wt, groups)), |groups|, m, wt.preload)
  }

  lemma PlannedFollows(groups: seq<string>, m: nat, wt: Weights)
    requires 1 <= m
    ensures Follows(Planned(groups, m, wt), wt, Ordered(wt, groups), PlannedAssignment(groups, m, wt))
  {
    var bins := BinsAfter(wt, Ordered(wt, groups), |groups|, m);
    var shards := Planned(groups, m, wt);
    forall j | 0 <= j < m
      ensures multiset(shards[j].groups) == multiset(bins[j].groups) && shards[j].load == bins[j].load
    { }
  }

  /** Membership of a group in the shards that follow an assignment. */
  lemma FollowsMembers(shards: seq<Shard>, wt: Weights, gs: seq<string>, a: seq<nat>, j: nat, g: string)
    requires Follows(shards, wt, gs, a) && j < |shards|
    ensures g in shards[j].groups <==> exists t :: 0 <= t < |a| && gs[t] == g && a[t] == j
  {
    SameMembers(shards[j].groups, PlacedOn(gs, a, j));
    PlacedMembers(gs, a, j, g);
  }

  lemma FollowsInUse(shards: seq<Shard>, wt: Weights, gs: seq<string>, a: seq<nat>, j: nat)
    requires Follows(shards, wt, gs, a) && j < |shards|
    ensures shards[j].groups == [] <==> j !in a
  {
    if j in a {
      var t :| 0 <= t < |a| && a[t] == j;
      FollowsMembers(shards, wt, gs, a, j, gs[t]);
    }
    if shards[j].groups != [] {
      FollowsMembers(shards, wt, gs, a, j, shards[j].groups[0]);
    }
  }

  /** A shard's weight is the preload, on the first shard, plus its groups' weights. */
  lemma ShardLoad(groups: seq<string>, m: nat, wt: Weights, j: nat)
    requires j < m
    ensures Planned(groups, m, wt)[j].load
            == (if j == 0 then wt.preload else 0.0) + WeightOfAll(wt, Planned(groups, m, wt)[j].groups)
  {
    PlannedFollows(groups, m, wt);
    var a := PlannedAssignment(groups, m, wt);
    LoadIsWeight(wt, Ordered(wt, groups), a, 0, j);
    WeightPermutes(wt, Planned(groups, m, wt)[j].groups, PlacedOn(Ordered(wt, groups), a, j));
  }

  /** Every group lands in exactly one shard. */
  lemma EachGroupOnce(groups: seq<string>, m: nat, wt: Weights, g: string)
    requires 1 <= m && Distinct(groups)
    ensures g in groups <==> exists j :: 0 <= j < m && g in Planned(groups, m, wt)[j].groups
    ensures forall i, j :: 0 <= i < j < m ==>
              !(g in Planned(groups, m, wt)[i].groups && g in Planned(groups, m, wt)[j].groups)
  {
    PlannedFollows(groups, m, wt);
    OrderedFacts(wt, groups);
    DistinctPermutes(groups, Ordered(wt, groups));
    SameMembers(groups, Ordered(wt, groups));
    FollowsOnce(Planned(groups, m, wt), wt, Ordered(wt, groups), PlannedAssignment(groups, m, wt), g);
  }

  lemma FollowsOnce(shards: seq<Shard>, wt: Weights, gs: seq<string>, a: seq<nat>, g: string)
    requires Follows(shards, wt, gs, a) && Distinct(gs)
    ensures g in gs <==> exists j :: 0 <= j < |shards| && g in shards[j].groups
    ensures forall i, j :: 0 <= i < j < |shards| ==> !(g in shards[i].groups && g in shards[j].groups)
  {
    forall j | 0 <= j < |shards|
      ensures g in shards[j].groups <==> exists t :: 0 <= t < |a| && gs[t] == g && a[t] == j
    { FollowsMembers(shards, wt, gs, a, j, g); }
    if t :| 0 <= t < |gs| && gs[t] == g {
      assert g in shards[a[t]].groups;
      forall j | 0 <= j < |shards| && g in shards[j].groups ensures j == a[t] {
        var u :| 0 <= u < |a| && gs[u] == g && a[u] == j;
        assert u == t;
      }
    }
  }

  function Union(parts: seq<multiset<string>>): multiset<string>
  {
    if parts == [] then multiset{} else Union(parts[..|parts| - 1]) + parts[|parts| - 1]
  }

  /** What an assignment sends to each of `m` shards. */
  function Parts(gs: seq<string>, a: seq<nat>, m: nat): (r: seq<multiset<string>>)
    requires |a| <= |gs|
    ensures |r| == m && forall j :: 0 <= j < m ==> r[j] == multiset(PlacedOn(gs, a, j))
  {
    seq(m, j requires 0 <= j => multiset(PlacedOn(gs, a, j)))
  }

  lemma {:induction false} UnionGrows(parts: seq<multiset<string>>, k: nat, g: string)
    requires k < |parts|
    ensures Union(parts[k := parts[k] + multiset{g}]) == Union(parts) + multiset{g}
  {
    var n := |parts| - 1;
    var more := parts[k := parts[k] + multiset{g}];
    if k == n {
      assert more[..n] == parts[..n];
    } else {
      assert more[..n] == parts[..n][k := parts[k] + multiset{g}];
      UnionGrows(parts[..n], k, g);
    }
  }

  lemma {:induction false} UnionOfNothing(parts: seq<multiset<string>>)
    requires forall j :: 0 <= j < |parts| ==> parts[j] == multiset{}
    ensures Union(parts) == multiset{}
  {
    if parts != [] { UnionOfNothing(parts[..|parts| - 1]); }
  }

  lemma {:induction false} PartsMakeAll(gs: seq<string>, a: seq<nat>, m: nat)
    requires |a| <= |gs| && UsesBins(a, m)
    ensures Union(Parts(gs, a, m)) == multiset(gs[..|a|])
  {
    if a == [] {
      UnionOfNothing(Parts(gs, a, m));
    } else {
      var t := |a| - 1;
      var b := a[..t];
      PartsMakeAll(gs, b, m);
      PartsStep(gs, a, m);
      UnionGrows(Parts(gs, b, m), a[t], gs[t]);
      MultisetOfTake(gs, t);
    }
  }

  lemma PartsStep(gs: seq<string>, a: seq<nat>, m: nat)
    requires a != [] && |a| <= |gs| && a[|a| - 1] < m
    ensures var was, k := Parts(gs, a[..|a| - 1], m), a[|a| - 1];
            Parts(gs, a, m) == was[k := was[k] + multiset{gs[|a| - 1]}]
  {
    var was, now, k := Parts(gs, a[..|a| - 1], m), Parts(gs, a, m), a[|a| - 1];
    forall j | 0 <= j < m ensures now[j] == (if j == k then was[j] + multiset{gs[|a| - 1]} else was[j]) {
      PlacedStep(gs, a, j);
    }
  }

  lemma PlacedStep(gs: seq<string>, a: seq<nat>, j: nat)
    requires a != [] && |a| <= |gs|
    ensures multiset(PlacedOn(gs, a, j))
            == multiset(PlacedOn(gs, a[..|a| - 1], j))
               + (if a[|a| - 1] == j then multiset{gs[|a| - 1]} else multiset{})
  {
  }

  lemma {:induction false} FlattenIsUnion(shards: seq<Shard>, parts: seq<multiset<string>>)
    requires |shards| == |parts|
    requires forall j :: 0 <= j < |shards| ==> multiset(shards[j].groups) == parts[j]
    ensures multiset(Flatten(shards)) == Union(parts)
  {
    if shards != [] { FlattenIsUnion(shards[..|shards| - 1], parts[..|parts| - 1]); }
  }

  /** The planned shards together hold each group once. */
  lemma PlannedIsPartition(groups: seq<string>, m: nat, wt: Weights)
    requires 1 <= m
    ensures multiset(Flatten(Planned(groups, m, wt))) == multiset(groups)
  {
    var shards, gs, a := Planned(groups, m, wt), Ordered(wt, groups), PlannedAssignment(groups, m, wt);
    PlannedFollows(groups, m, wt);
    OrderedFacts(wt, groups);
    FlattenIsUnion(shards, Parts(gs, a, m));
    PartsMakeAll(gs, a, m);
    assert gs[..|a|] == gs;
  }

  /** So the first closing check cannot fail. */
  lemma AlwaysAPartition(files: seq<string>, m: nat, suite: string, wt: Weights)
    requires 1 <= m
    ensures PlanOf(files, m, suite, wt) != Err(NotAPartition)
  {
    var groups := GroupsOf(files);
    var seen := Flatten(Planned(groups, m, wt));
    GroupsDistinct(files);
    PlannedIsPartition(groups, m, wt);
    assert |seen| == |multiset(seen)| == |groups|;
    DistinctPermutes(groups, seen);
    DistinctSize(seen);
  }

  ghost predicate PositiveWeights(wt: Weights, groups: seq<string>)
  {
    wt.preload >= 0.0 && forall g :: g in groups ==> wt.Of(g) > 0.0
  }

  ghost predicate NonNegativeWeights(wt: Weights, groups: seq<string>)
  {
    wt.preload >= 0.0 && forall g :: g in groups ==> wt.Of(g) >= 0.0
  }

  lemma WeightsKept(wt: Weights, groups: seq<string>)
    ensures NonNegativeWeights(wt, groups) ==> NonNegative(WeightsOf(wt, Ordered(wt, groups)))
    ensures PositiveWeights(wt, groups) ==> Positive(WeightsOf(wt, Ordered(wt, groups)))
  {
    SameMembers(Ordered(wt, groups), groups);
    var ordered := Ordered(wt, groups);
    assert forall t :: 0 <= t < |ordered| ==> ordered[t] in groups;
  }

  /** Exactly when the second closing check fires, for positive weights: the preload is heavier
      than the least of the other shards once all but the lightest group is placed on them. */
  lemma EmptyShardErrorExactly(files: seq<string>, m: nat, wt: Weights)
    requires 1 <= m <= |GroupsOf(files)| && PositiveWeights(wt, GroupsOf(files))
    requires forall g :: g in GroupsOf(files) ==> GroupName(g)
    ensures var w := WeightsOf(wt, Ordered(wt, GroupsOf(files)));
            PlanOf(files, m, "", wt) == Err(EmptyShard)
            <==> (2 <= m && LeastWithoutFirst(w, |w| - 1, m) < wt.preload)
  {
    NothingKept((g: string) => !GroupName(g), GroupsOf(files));
    PlanOutcome(files, m, wt);
    EmptyShardPlanned(GroupsOf(files), m, wt);
  }

  /** Two suites of one weight, two shards and a preload above that weight: the second shard takes
      both suites and the plan is refused, although there was one suite for each. */
  lemma HeavyPreloadEmptiesAShard(files: seq<string>, wt: Weights, x: real)
    requires |GroupsOf(files)| == 2 && 0.0 < x < wt.preload
    requires forall g :: g in GroupsOf(files) ==> GroupName(g) && wt.Of(g) == x
    ensures PlanOf(files, 2, "", wt) == Err(EmptyShard)
  {
    var ordered := Ordered(wt, GroupsOf(files));
    OrderedFacts(wt, GroupsOf(files));
    SameMembers(ordered, GroupsOf(files));
    SameSize(ordered, GroupsOf(files));
    assert ordered[0] in GroupsOf(files);
    OneJobAlone(WeightsOf(wt, ordered));
    EmptyShardErrorExactly(files, 2, wt);
  }

  lemma OneJobAlone(w: seq<real>)
    requires |w| == 2
    ensures LeastWithoutFirst(w, 1, 2) == w[0]
  {
    var a := Greedy(w, 1, 1, 0.0);
    assert a[0] == 0 && a[..0] == [];
    assert Load(w, a, 0.0, 0, 0) == Load(w, a[..0], 0.0, 0, 0) + w[0];
  }

  lemma HeavyPreloadWitness()
    ensures PlanOf(["a.test.js", "b.test.js"], 2, "", Weights(map[], 1.0, 2.0)) == Err(EmptyShard)
  {
    var a, b := "a.test.js", "b.test.js";
    assert a == "a" + ".test.js" && b == "b" + ".test.js";
    TwoGroups("a", "b");
    HeavyPreloadEmptiesAShard([a, b], Weights(map[], 1.0, 2.0), 1.0);
  }

  lemma TwoGroups(a: string, b: string)
    requires a != b && GroupName(a) && GroupName(b)
    ensures var groups := GroupsOf([a + ".test.js", b + ".test.js"]);
            |groups| == 2 && forall g :: g in groups ==> g == a || g == b
  {
    var files := [a + ".test.js", b + ".test.js"];
    var groups := GroupsOf(files);
    PartFilesShareTheGroup(a, []);
    PartFilesShareTheGroup(b, []);
    GroupsDistinct(files);
    assert GroupOf(files[0]) == a && GroupOf(files[1]) == b;
    assert a in groups && b in groups;
    assert forall g :: g in groups ==> g == a || g == b;
    DistinctPair(groups, a, b);
  }

  lemma DistinctPair(s: seq<string>, a: string, b: string)
    requires Distinct(s) && a != b && a in s && b in s && forall g :: g in s ==> g == a || g == b
    ensures |s| == 2
  {
    DistinctSize(s);
    assert Elements(s) == {a, b};
  }

  lemma EmptyShardPlanned(groups: seq<string>, m: nat, wt: Weights)
    requires 1 <= m <= |groups| && PositiveWeights(wt, groups)
    ensures var w := WeightsOf(wt, Ordered(wt, groups));
            (exists j :: 0 <= j < m && Planned(groups, m, wt)[j].groups == [])
            <==> (2 <= m && LeastWithoutFirst(w, |w| - 1, m) < wt.preload)
  {
    var w := WeightsOf(wt, Ordered(wt, groups));
    var a := PlannedAssignment(groups, m, wt);
    assert |w| == |groups| && a == Greedy(w, |w|, m, wt.preload);
    WeightsKept(wt, groups);
    EmptyShardExactly(w, m, wt.preload);
    EmptyIffUnused(groups, m, wt);
    assert (exists j :: 0 <= j < m && j !in a) <==> (2 <= m && LeastWithoutFirst(w, |w| - 1, m) < wt.preload);
  }

  lemma EmptyIffUnused(groups: seq<string>, m: nat, wt: Weights)
    requires 1 <= m
    ensures (exists j :: 0 <= j < m && Planned(groups, m, wt)[j].groups == [])
            <==> exists j :: 0 <= j < m && j !in PlannedAssignment(groups, m, wt)
  {
    var shards, gs, a := Planned(groups, m, wt), Ordered(wt, groups), PlannedAssignment(groups, m, wt);
    PlannedFollows(groups, m, wt);
    forall j | 0 <= j < m ensures shards[j].groups == [] <==> j !in a {
      FollowsInUse(shards, wt, gs, a, j);
    }
  }

  /** Past the earlier checks, the plan is refused exactly for an empty shard. */
  lemma PlanOutcome(files: seq<string>, m: nat, wt: Weights)
    requires 1 <= m <= |GroupsOf(files)|
    requires Filter((g: string) => !GroupName(g), GroupsOf(files)) == []
    ensures PlanOf(files, m, "", wt) == Err(EmptyShard)
            <==> exists j :: 0 <= j < m && Planned(GroupsOf(files), m, wt)[j].groups == []
    ensures PlanOf(files, m, "", wt) == Err(EmptyShard) || PlanOf(files, m, "", wt).Ok?
  {
    AlwaysAPartition(files, m, "", wt);
  }

  /** A preload no heavier than the (m-1)-th heaviest group never costs a run its plan. */
  lemma SmallPreloadAlwaysPlans(files: seq<string>, m: nat, wt: Weights)
    requires 1 <= m <= |GroupsOf(files)| && PositiveWeights(wt, GroupsOf(files))
    requires forall g :: g in GroupsOf(files) ==> GroupName(g)
    requires m >= 2 ==> wt.preload <= WeightsOf(wt, Ordered(wt, GroupsOf(files)))[m - 2]
    ensures PlanOf(files, m, "", wt).Ok?
  {
    NothingKept((g: string) => !GroupName(g), GroupsOf(files));
    SmallPreloadNoneEmpty(GroupsOf(files), m, wt);
    PlanOutcome(files, m, wt);
  }

  lemma SmallPreloadNoneEmpty(groups: seq<string>, m: nat, wt: Weights)
    requires 1 <= m <= |groups| && PositiveWeights(wt, groups)
    requires m >= 2 ==> wt.preload <= WeightsOf(wt, Ordered(wt, groups))[m - 2]
    ensures forall j :: 0 <= j < m ==> Planned(groups, m, wt)[j].groups != []
  {
    var w := WeightsOf(wt, Ordered(wt, groups));
    var a := PlannedAssignment(groups, m, wt);
    assert |w| == |groups| && a == Greedy(w, |w|, m, wt.preload);
    WeightsKept(wt, groups);
    OrderedFacts(wt, groups);
    SmallPreloadFillsEveryShard(w, m, wt.preload);
    EmptyIffUnused(groups, m, wt);
  }

  // ----- what a plan says -----------------------------------------------------------------

  ghost predicate LegalUnit(u: int) { 48 <= u <= 57 || 65 <= u <= 90 || 97 <= u <= 122 || u == 45 || u == 95 }

  /** Digits, letters, hyphens and underscores, and at least one of them. */
  ghost predicate LegalName(g: string) { g != "" && forall c :: c in g ==> LegalUnit(c as int) }

  lemma LegalNames(g: string)
    ensures LegalName(g) <==> GroupName(g)
  {
    if LegalName(g) {
      forall i | 0 <= i < |g| ensures NameChar(g[i]) { assert g[i] in g; }
    }
  }

  /** The groups of some files, named in order. */
  ghost predicate AreGroups(files: seq<string>, groups: seq<string>)
  {
    Ascending(groups) && forall g :: g in groups <==> HasGroup(files, g)
  }

  ghost predicate HasGroup(files: seq<string>, g: string) { exists file :: file in files && GroupOf(file) == g }

  lemma GroupMember(files: seq<string>, g: string)
    ensures g in GroupsOf(files) <==> HasGroup(files, g)
  {
    GroupsDistinct(files);
    if i :| 0 <= i < |files| && GroupOf(files[i]) == g { assert files[i] in files; }
    if file :| file in files && GroupOf(file) == g {
      var i :| 0 <= i < |files| && files[i] == file;
      assert GroupOf(files[i]) == g;
    }
  }

  lemma GroupsAre(files: seq<string>)
    ensures AreGroups(files, GroupsOf(files)) && Distinct(GroupsOf(files))
    ensures GroupsOf(files) == [] <==> files == []
  {
    var groups := GroupsOf(files);
    GroupsDistinct(files);
    SortedIsAscending(groups);
    forall g ensures g in groups <==> HasGroup(files, g) { GroupMember(files, g); }
    if files != [] { assert files[0] in files && HasGroup(files, GroupOf(files[0])); }
    if groups != [] { assert HasGroup(files, groups[0]); }
  }

  lemma {:induction false} FilterKeepsOrder(keep: string -> bool, names: seq<string>)
    requires SortedBy(StrLe, names) && Distinct(names)
    ensures SortedBy(StrLe, Filter(keep, names)) && Distinct(Filter(keep, names))
  {
    if names != [] {
      var rest := Filter(keep, names[1..]);
      FilterKeepsOrder(keep, names[1..]);
      forall i | 0 <= i < |rest| ensures StrLe(names[0], rest[i]) && names[0] != rest[i] {
        assert rest[i] in names[1..];
      }
    }
  }

  lemma FilterAscends(keep: string -> bool, files: seq<string>)
    ensures Ascending(Filter(keep, GroupsOf(files)))
  {
    GroupsDistinct(files);
    FilterKeepsOrder(keep, GroupsOf(files));
    SortedIsAscending(Filter(keep, GroupsOf(files)));
  }

  ghost predicate AllLegal(files: seq<string>) { forall file :: file in files ==> LegalName(GroupOf(file)) }

  function BadNamesOf(files: seq<string>): seq<string> { Filter((g: string) => !GroupName(g), GroupsOf(files)) }

  lemma IllegalGroups(files: seq<string>)
    ensures Ascending(BadNamesOf(files))
    ensures forall g :: g in BadNamesOf(files) <==> !LegalName(g) && HasGroup(files, g)
    ensures BadNamesOf(files) == [] <==> AllLegal(files)
  {
    var bad := BadNamesOf(files);
    FilterAscends((g: string) => !GroupName(g), files);
    forall g ensures g in bad <==> !LegalName(g) && HasGroup(files, g) {
      LegalNames(g);
      GroupMember(files, g);
    }
    if bad != [] {
      assert bad[0] in bad;
      var file :| file in files && GroupOf(file) == bad[0];
    }
    if file :| file in files && !LegalName(GroupOf(file)) {
      assert HasGroup(files, GroupOf(file));
      assert GroupOf(file) in bad;
    }
  }

  /** Every answer of the planner but a sharded plan, and when it is given. */
  lemma PlanRefusals(files: seq<string>, m: nat, suite: string, wt: Weights)
    requires 1 <= m
    ensures var r := PlanOf(files, m, suite, wt);
      && (r == Err(NoSuites) <==> files == [])
      && (r.Err? && r.error.BadNames? <==> !AllLegal(files))
      && (r.Err? && r.error.BadNames? ==>
            && Ascending(r.error.names)
            && forall g :: g in r.error.names <==> !LegalName(g) && HasGroup(files, g))
      && (r.Ok? && r.value.SingleSuite? <==> files != [] && AllLegal(files) && suite != "")
      && (r.Ok? && r.value.SingleSuite? ==> r.value.suite == suite)
      && (r == Err(TooManyShards) <==> files != [] && AllLegal(files) && suite == "" && m > |GroupsOf(files)|)
  {
    GroupsAre(files);
    IllegalGroups(files);
    var bad := BadNamesOf(files);
    assert bad == Filter((g: string) => !GroupName(g), GroupsOf(files));
  }

  /** A group's measured seconds, or the default when it has none, summed over some groups. */
  ghost function Seconds(wt: Weights, gs: seq<string>): real
  {
    if gs == [] then 0.0
    else (if gs[0] in wt.table then wt.table[gs[0]] else wt.default) + Seconds(wt, gs[1..])
  }

  lemma {:induction false} SecondsAreWeight(wt: Weights, gs: seq<string>)
    ensures Seconds(wt, gs) == WeightOfAll(wt, gs)
  {
    if gs != [] {
      SecondsAreWeight(wt, gs[1..]);
      WeightHead(wt, gs);
    }
  }

  /** A sharded plan lists the groups and those without a measurement, in order; and each shard's groups
      are in order, its load is their seconds, on the first shard after the preload, and the first shard
      alone runs the security and performance suites. */
  lemma PlanIsMeasured(files: seq<string>, m: nat, wt: Weights)
    requires 1 <= m && PlanOf(files, m, "", wt).Ok?
    ensures PlanOf(files, m, "", wt).value.Sharded?
    ensures var plan := PlanOf(files, m, "", wt).value;
      && AreGroups(files, plan.groups)
      && Ascending(plan.unweighted)
      && (forall g :: g in plan.unweighted <==> g in plan.groups && g !in wt.table)
      && |plan.shards| == m
      && forall j :: 0 <= j < m ==>
           && Ascending(plan.shards[j].groups)
           && plan.shards[j].load == (if j == 0 then wt.preload else 0.0) + Seconds(wt, plan.shards[j].groups)
           && (plan.shards[j].runsExtras <==> j == 0)
  {
    var groups := GroupsOf(files);
    GroupsAre(files);
    FilterAscends((g: string) => g !in wt.table, files);
    forall j | 0 <= j < m
      ensures var shard := Planned(groups, m, wt)[j];
        && Ascending(shard.groups) && (shard.runsExtras <==> j == 0)
        && shard.load == (if j == 0 then wt.preload else 0.0) + Seconds(wt, shard.groups)
    {
      var shard := Planned(groups, m, wt)[j];
      ShardLoad(groups, m, wt, j);
      SecondsAreWeight(wt, shard.groups);
      ShardAscends(groups, m, wt, j);
    }
  }

  lemma ShardAscends(groups: seq<string>, m: nat, wt: Weights, j: nat)
    requires j < m && Distinct(groups)
    ensures Ascending(Planned(groups, m, wt)[j].groups)
  {
    var gs, a := Ordered(wt, groups), PlannedAssignment(groups, m, wt);
    var placed := PlacedOn(gs, a, j);
    OrderedFacts(wt, groups);
    DistinctPermutes(groups, gs);
    PlacedDistinct(gs, a, j);
    StrLeTotalOrder();
    SortSorted(StrLe, placed);
    DistinctPermutes(placed, SortBy(StrLe, placed));
    SortedIsAscending(SortBy(StrLe, placed));
  }

  lemma {:induction false} PlacedDistinct(gs: seq<string>, a: seq<nat>, j: nat)
    requires |a| <= |gs| && Distinct(gs)
    ensures Distinct(PlacedOn(gs, a, j))
  {
    if a != [] {
      var n := |a| - 1;
      PlacedDistinct(gs, a[..n], j);
      PlacedMembers(gs, a[..n], j, gs[n]);
      if a[n] == j { DistinctSnoc(PlacedOn(gs, a[..n], j), gs[n]); }
    }
  }

  /** Groups are placed heaviest first, and those of one weight by name. */
  lemma PlacementOrder(wt: Weights, groups: seq<string>, s: nat, t: nat)
    requires Distinct(groups) && s < t < |Ordered(wt, groups)|
    ensures var g, h := Ordered(wt, groups)[s], Ordered(wt, groups)[t];
            wt.Of(g) > wt.Of(h) || (wt.Of(g) == wt.Of(h) && ComesBefore(g, h))
  {
    var before := PlacedBefore(wt);
    StrLeTotalOrder();
    SortSorted(before, groups);
    DistinctPermutes(groups, Ordered(wt, groups));
    var g, h := Ordered(wt, groups)[s], Ordered(wt, groups)[t];
    assert before(g, h) && g != h;
    StrLeMeans(g, h);
  }

  // ----- what a shard runs ----------------------------------------------------------------

  /** No segment of a path is empty or starts with a dot: what the stars of a glob range over. */
  ghost predicate Visible(path: string)
  {
    && path != "" && path[0] != '.' && path[0] != '/' && path[|path| - 1] != '/'
    && forall i :: 0 <= i < |path| - 1 && path[i] == '/' ==> path[i + 1] != '.' && path[i + 1] != '/'
  }

  /** Whether one alternative of a brace set, with `.test.js` behind it, matches a file: any file at any
      depth below the directory for one that ends in two stars and a star, else only itself. */
  ghost predicate AlternativeSelects(x: string, file: string)
  {
    if |x| >= 5 && x[|x| - 5..] == "/**/*" then
      var dir := x[..|x| - 4];
      |dir| <= |file| && file[..|dir|] == dir && Visible(file[|dir|..])
      && |file| >= 8 && file[|file| - 8..] == ".test.js"
    else file == x + ".test.js"
  }

  ghost predicate Selects(pattern: string, file: string)
  {
    && |pattern| >= 2 && pattern[0] == '{' && pattern[|pattern| - 1] == '}'
    && exists x :: x in Split(pattern[1..|pattern| - 1], ',') && AlternativeSelects(x, file)
  }

  /** A test file where a suite keeps them: at the top, or below a directory named `.test`. */
  ghost predicate InPlace(file: string)
  {
    && Visible(file) && |file| >= 8 && file[|file| - 8..] == ".test.js"
    && ('/' !in file || exists stem: string, rest: string :: '/' !in stem && file == stem + (".test/" + rest))
  }

  function Both(groups: seq<string>): seq<string>
  {
    if groups == [] then [] else [groups[0], groups[0] + ".test/**/*"] + Both(groups[1..])
  }

  lemma NoComma(g: string)
    requires GroupName(g)
    ensures ',' !in g && '/' !in g && '.' !in g && ',' !in g + ".test/**/*"
  {
    assert ',' !in ".test/**/*";
    assert forall c :: c in g ==> NameChar(c);
  }

  lemma {:induction false} AlternativesSplit(groups: seq<string>)
    requires groups != [] && forall g :: g in groups ==> GroupName(g)
    ensures Split(Alternatives(groups), ',') == Both(groups)
  {
    var g, rest := groups[0], groups[1..];
    NoComma(g);
    var star := g + ".test/**/*";
    if rest == [] {
      assert Alternatives(groups) == g + [','] + star;
      SplitHead(g, star, ',');
      SplitWhole(star, ',');
      assert Both(groups) == [g, star] + [];
    } else {
      AlternativesSplit(rest);
      assert Alternatives(groups) == g + [','] + (star + [','] + Alternatives(rest));
      SplitHead(g, star + [','] + Alternatives(rest), ',');
      SplitHead(star, Alternatives(rest), ',');
      assert [g] + ([star] + Both(rest)) == [g, star] + Both(rest);
    }
  }

  lemma {:induction false} BothHolds(groups: seq<string>, x: string)
    ensures x in Both(groups) <==> exists g :: g in groups && (x == g || x == g + ".test/**/*")
  {
    if groups != [] {
      BothHolds(groups[1..], x);
      assert x in Both(groups) <==> x == groups[0] || x == groups[0] + ".test/**/*" || x in Both(groups[1..]);
      assert forall g :: g in groups <==> g == groups[0] || g in groups[1..];
    }
  }

  ghost predicate EitherSelects(g: string, file: string)
  {
    AlternativeSelects(g, file) || AlternativeSelects(g + ".test/**/*", file)
  }

  lemma PatternSelects(groups: seq<string>, file: string)
    requires groups != [] && forall g :: g in groups ==> GroupName(g)
    ensures Selects(ShardPattern(groups), file) <==> exists g :: g in groups && EitherSelects(g, file)
  {
    var pattern := ShardPattern(groups);
    assert pattern[1..|pattern| - 1] == Alternatives(groups);
    AlternativesSplit(groups);
    if Selects(pattern, file) {
      var x :| x in Both(groups) && AlternativeSelects(x, file);
      BothHolds(groups, x);
      var g :| g in groups && (x == g || x == g + ".test/**/*");
      assert EitherSelects(g, file);
    }
    if g :| g in groups && EitherSelects(g, file) {
      BothHolds(groups, g);
      BothHolds(groups, g + ".test/**/*");
    }
  }

  lemma SuiteFileSelected(g: string, file: string)
    requires GroupName(g)
    ensures AlternativeSelects(g, file) <==> file == g + ".test.js"
    ensures file == g + ".test.js" ==> InPlace(file) && GroupOf(file) == g
  {
    NoComma(g);
    assert |g| >= 5 ==> g[|g| - 5..][0] == g[|g| - 5] && g[|g| - 5] in g;
    if file == g + ".test.js" {
      PartFilesShareTheGroup(g, []);
      assert file[|g|..] == ".test.js" && '/' !in file;
      assert g[0] in g;
    }
  }

  lemma VisibleBelow(g: string, rest: string)
    requires GroupName(g)
    ensures Visible(g + (".test/" + rest)) <==> Visible(rest)
  {
    NoComma(g);
    var file, n := g + (".test/" + rest), |g| + 6;
    assert file[n..] == rest && file[|g|..n] == ".test/";
    assert file[n - 1] == '/' && file[0] == g[0] && g[0] in g;
    if Visible(file) {
      assert rest != "" && rest[0] == file[n];
      forall i | 0 <= i < |rest| - 1 && rest[i] == '/' ensures rest[i + 1] != '.' && rest[i + 1] != '/' {
        assert file[n + i] == '/';
      }
    }
    if Visible(rest) {
      assert forall i :: 0 <= i < |g| ==> file[i] == g[i] && g[i] in g;
      forall i | 0 <= i < |file| - 1 && file[i] == '/' ensures file[i + 1] != '.' && file[i + 1] != '/' {
        if i >= n { assert rest[i - n] == '/'; }
      }
    }
  }

  lemma PartFileSelected(g: string, file: string)
    requires GroupName(g)
    ensures AlternativeSelects(g + ".test/**/*", file)
            <==> InPlace(file) && exists rest: string :: file == g + (".test/" + rest)
  {
    var x, dir := g + ".test/**/*", g + ".test/";
    assert x[|x| - 5..] == "/**/*" && x[..|x| - 4] == dir;
    NoComma(g);
    if |dir| <= |file| && file[..|dir|] == dir {
      var rest := file[|dir|..];
      assert file == g + (".test/" + rest);
      VisibleBelow(g, rest);
    }
    if rest: string :| file == g + (".test/" + rest) {
      assert file[..|dir|] == dir && file[|dir|..] == rest;
      VisibleBelow(g, rest);
    }
  }

  lemma GroupOfInPlace(file: string)
    requires InPlace(file) && GroupName(GroupOf(file))
    ensures var g := GroupOf(file);
            file == g + ".test.js" || exists rest: string :: file == g + (".test/" + rest)
  {
    if '/' !in file {
      UpToStops(file, '/', []);
      assert file == file[..|file| - 8] + ".test.js";
    } else {
      var stem: string, rest: string :| '/' !in stem && file == stem + (".test/" + rest);
      SuiteOfPartFile(stem, rest);
      assert file == stem + (".test/" + rest);
    }
  }

  lemma SuiteOfPartFile(stem: string, rest: string)
    requires '/' !in stem
    ensures GroupOf(stem + (".test/" + rest)) == stem
  {
    var file := stem + (".test/" + rest);
    UpToStops(stem + ".test", '/', rest);
    assert file == (stem + ".test") + ['/'] + rest;
    EndsInLetter(stem + ".test");
    assert (stem + ".test")[|stem|..] == ".test" && (stem + ".test")[..|stem|] == stem;
  }

  lemma PartFileGroup(g: string, file: string)
    requires GroupName(g) && exists rest: string :: file == g + (".test/" + rest)
    ensures GroupOf(file) == g
  {
    var rest: string :| file == g + (".test/" + rest);
    PartFilesShareTheGroup(g, rest);
    assert file == g + ".test/" + rest;
  }

  lemma GroupSelects(g: string, file: string)
    requires GroupName(g)
    ensures EitherSelects(g, file) <==> InPlace(file) && GroupOf(file) == g
  {
    SuiteFileSelected(g, file);
    PartFileSelected(g, file);
    if AlternativeSelects(g + ".test/**/*", file) { PartFileGroup(g, file); }
    if InPlace(file) && GroupOf(file) == g { GroupOfInPlace(file); }
  }

  /** The pattern of a group list selects exactly the files of those groups that are in place. */
  lemma PatternRunsItsGroups(groups: seq<string>, file: string)
    requires groups != [] && forall g :: g in groups ==> GroupName(g)
    ensures Selects(ShardPattern(groups), file) <==> InPlace(file) && GroupOf(file) in groups
  {
    PatternSelects(groups, file);
    forall g | g in groups ensures EitherSelects(g, file) <==> InPlace(file) && GroupOf(file) == g {
      GroupSelects(g, file);
    }
  }

  /** A plan's shard runs exactly the files in place whose group it has. */
  lemma ShardRunsItsGroups(files: seq<string>, m: nat, wt: Weights, j: nat, file: string)
    requires j < m && PlanOf(files, m, "", wt).Ok?
    ensures PlanOf(files, m, "", wt).value.Sharded? && |PlanOf(files, m, "", wt).value.shards| == m
    ensures var shard := PlanOf(files, m, "", wt).value.shards[j];
            Selects(shard.pattern, file) <==> InPlace(file) && GroupOf(file) in shard.groups
  {
    var groups := GroupsOf(files);
    var bins := BinsAfter(wt, Ordered(wt, groups), |groups|, m);
    var shard := Planned(groups, m, wt)[j];
    assert shard == ShardOf(bins[j], j) && shard.groups != [];
    forall g | g in shard.groups ensures GroupName(g) { PlannedNames(files, m, wt, j, g); }
    PatternRunsItsGroups(shard.groups, file);
  }

  lemma PlannedNames(files: seq<string>, m: nat, wt: Weights, j: nat, g: string)
    requires j < m && PlanOf(files, m, "", wt).Ok? && g in Planned(GroupsOf(files), m, wt)[j].groups
    ensures g in GroupsOf(files) && GroupName(g)
  {
    GroupsDistinct(files);
    EachGroupOnce(GroupsOf(files), m, wt, g);
    var bad := Filter((h: string) => !GroupName(h), GroupsOf(files));
    assert bad == [] && (g in GroupsOf(files) && !GroupName(g) ==> g in bad);
  }

  lemma PlannedRunsItsGroups(files: seq<string>, m: nat, wt: Weights, j: nat, file: string)
    requires j < m && PlanOf(files, m, "", wt).Ok?
    ensures PlanOf(files, m, "", wt).value.Sharded?
    ensures PlanOf(files, m, "", wt).value.shards == Planned(GroupsOf(files), m, wt)
    ensures var shard := Planned(GroupsOf(files), m, wt)[j];
            Selects(shard.pattern, file) <==> InPlace(file) && GroupOf(file) in shard.groups
  {
    ShardRunsItsGroups(files, m, wt, j, file);
  }

  lemma FileInOneShard(files: seq<string>, m: nat, wt: Weights, file: string)
    requires 1 <= m && file in files
    ensures var shards := Planned(GroupsOf(files), m, wt);
            && (exists j :: 0 <= j < |shards| && GroupOf(file) in shards[j].groups)
            && forall i, j :: 0 <= i < j < |shards| ==>
                 !(GroupOf(file) in shards[i].groups && GroupOf(file) in shards[j].groups)
  {
    GroupsDistinct(files);
    var i :| 0 <= i < |files| && files[i] == file;
    EachGroupOnce(GroupsOf(files), m, wt, GroupOf(file));
  }

  /** Every listed file in place is run by exactly one shard, and a file out of place by none. */
  lemma EachFileRunsOnce(files: seq<string>, m: nat, wt: Weights, file: string)
    requires 1 <= m && PlanOf(files, m, "", wt).Ok? && file in files
    ensures PlanOf(files, m, "", wt).value.Sharded? && |PlanOf(files, m, "", wt).value.shards| == m
    ensures var shards := PlanOf(files, m, "", wt).value.shards;
            && (InPlace(file) <==> exists j :: 0 <= j < m && Selects(shards[j].pattern, file))
            && forall i, j :: 0 <= i < j < m ==>
                 !(Selects(shards[i].pattern, file) && Selects(shards[j].pattern, file))
  {
    var shards := Planned(GroupsOf(files), m, wt);
    PlannedRunsItsGroups(files, m, wt, 0, file);
    forall j | 0 <= j < m
      ensures Selects(shards[j].pattern, file) <==> InPlace(file) && GroupOf(file) in shards[j].groups
    {
      PlannedRunsItsGroups(files, m, wt, j, file);
    }
    FileInOneShard(files, m, wt, file);
    OnceSelected(shards, file, GroupOf(file));
  }

  lemma OnceSelected(shards: seq<Shard>, file: string, g: string)
    requires exists j :: 0 <= j < |shards| && g in shards[j].groups
    requires forall i, j :: 0 <= i < j < |shards| ==> !(g in shards[i].groups && g in shards[j].groups)
    requires forall j :: 0 <= j < |shards| ==>
               (Selects(shards[j].pattern, file) <==> InPlace(file) && g in shards[j].groups)
    ensures InPlace(file) <==> exists j :: 0 <= j < |shards| && Selects(shards[j].pattern, file)
    ensures forall i, j :: 0 <= i < j < |shards| ==>
              !(Selects(shards[i].pattern, file) && Selects(shards[j].pattern, file))
  {
    var j :| 0 <= j < |shards| && g in shards[j].groups;
    assert InPlace(file) ==> Selects(shards[j].pattern, file);
  }

  lemma HeadOfInPlace(file: string)
    ensures InPlace(file) && '/' in file ==> |UpTo(file, '/')| >= 5
  {
    if stem: string, rest: string :| '/' !in stem && file == stem + (".test/" + rest) {
      UpToStops(stem + ".test", '/', rest);
      assert file == (stem + ".test") + ['/'] + rest;
    }
  }

  /** A file below a plain directory is listed and makes a group, and the plan that has the group runs
      nothing of it. */
  lemma PlainDirectoryIsNotRun(wt: Weights)
    ensures var plan := PlanOf(["a/x.test.js"], 1, "", wt);
            plan.Ok? && plan.value.Sharded? && plan.value.groups == ["a"] && |plan.value.shards| == 1
            && !Selects(plan.value.shards[0].pattern, "a/x.test.js")
  {
    var file := "a/x.test.js";
    UpToStops("a", '/', "x.test.js");
    assert file == "a" + ['/'] + "x.test.js" && GroupOf(file) == "a";
    HeadOfInPlace(file);
    OneGroup(file, "a");
    NothingKept((g: string) => !GroupName(g), ["a"]);
    EachGroupOnce(["a"], 1, wt, "a");
    assert "a" in ["a"];
    PlanOutcome([file], 1, wt);
    ShardRunsItsGroups([file], 1, wt, 0, file);
  }

  lemma OneGroup(file: string, g: string)
    requires GroupOf(file) == g
    ensures GroupsOf([file]) == [g]
  {
    var groups := GroupsOf([file]);
    GroupsDistinct([file]);
    assert GroupOf([file][0]) == g && forall h :: h in groups <==> h == g;
    DistinctSize(groups);
    assert Elements(groups) == {g};
    assert groups[0] in groups;
  }

  // ----- how good a plan is ---------------------------------------------------------------

  /** The weight some other split of the groups puts on shard `j`, its preload on `home`. */
  function OtherLoad(wt: Weights, groups: seq<string>, other: map<string, nat>, home: nat, j: nat): real
    requires forall g :: g in groups ==> g in other
  {
    (if j == home then wt.preload else 0.0)
    + WeightOfAll(wt, Filter((g: string) => g in other && other[g] == j, groups))
  }

  ghost predicate SplitsWithin(wt: Weights, groups: seq<string>, other: map<string, nat>, home: nat, m: nat, cap: real)
  {
    && home < m
    && (forall g :: g in groups ==> g in other && other[g] < m)
    && (forall j :: 0 <= j < m ==> OtherLoad(wt, groups, other, home, j) <= cap)
  }

  function AsAssignment(gs: seq<string>, other: map<string, nat>): (a: seq<nat>)
    requires forall g :: g in gs ==> g in other
    ensures |a| == |gs| && forall t :: 0 <= t < |gs| ==> a[t] == other[gs[t]]
  {
    seq(|gs|, t requires 0 <= t < |gs| => other[gs[t]])
  }

  lemma {:induction false} PlacedIsFilter(gs: seq<string>, n: nat, other: map<string, nat>, j: nat)
    requires n <= |gs| && forall g :: g in gs ==> g in other
    ensures PlacedOn(gs, AsAssignment(gs, other)[..n], j)
            == Filter((g: string) => g in other && other[g] == j, gs[..n])
  {
    var keep := (g: string) => g in other && other[g] == j;
    if n > 0 {
      var a := AsAssignment(gs, other);
      assert a[..n][..n - 1] == a[..n - 1];
      PlacedIsFilter(gs, n - 1, other, j);
      assert gs[..n] == gs[..n - 1] + [gs[n - 1]];
      FilterSplits(keep, gs[..n - 1], [gs[n - 1]]);
    }
  }

  /** Another split of the groups, seen as an assignment of the placement order. */
  lemma OtherAsSchedule(wt: Weights, groups: seq<string>, other: map<string, nat>, home: nat, m: nat, cap: real)
    requires SplitsWithin(wt, groups, other, home, m, cap)
    ensures var ordered := Ordered(wt, groups);
            && (forall g :: g in ordered ==> g in other)
            && UsesBins(AsAssignment(ordered, other), m)
            && Within(WeightsOf(wt, ordered), AsAssignment(ordered, other), wt.preload, home, m, cap)
  {
    var ordered := Ordered(wt, groups);
    OrderedFacts(wt, groups);
    SameMembers(groups, ordered);
    assert forall t :: 0 <= t < |ordered| ==> ordered[t] in groups;
    forall j | 0 <= j < m
      ensures Load(WeightsOf(wt, ordered), AsAssignment(ordered, other), wt.preload, home, j) <= cap
    {
      OtherLoadAsSchedule(wt, groups, ordered, other, home, j);
      assert OtherLoad(wt, groups, other, home, j) <= cap;
    }
  }

  lemma OtherLoadAsSchedule(wt: Weights, groups: seq<string>, ordered: seq<string>, other: map<string, nat>,
                            home: nat, j: nat)
    requires multiset(groups) == multiset(ordered)
    requires (forall g :: g in groups ==> g in other) && forall g :: g in ordered ==> g in other
    ensures Load(WeightsOf(wt, ordered), AsAssignment(ordered, other), wt.preload, home, j)
            == OtherLoad(wt, groups, other, home, j)
  {
    var keep := (g: string) => g in other && other[g] == j;
    var a := AsAssignment(ordered, other);
    LoadIsWeight(wt, ordered, a, home, j);
    PlacedIsFilter(ordered, |ordered|, other, j);
    assert a[..|ordered|] == a && ordered[..|ordered|] == ordered;
    FilterPermutes(keep, ordered, groups);
    WeightPermutes(wt, Filter(keep, ordered), Filter(keep, groups));
  }

  /** No split of the groups, wherever it puts the preload, beats the plan's heaviest shard by
      more than a factor of 2 - 1/m; without a preload, by more than 4/3 - 1/(3m). */
  lemma NearOptimal(groups: seq<string>, m: nat, wt: Weights,
                    other: map<string, nat>, home: nat, cap: real, j: nat)
    requires 1 <= m && j < m
    requires NonNegativeWeights(wt, groups)
    requires SplitsWithin(wt, groups, other, home, m, cap)
    ensures Times(m, Planned(groups, m, wt)[j].load) <= Times(2 * m - 1, cap)
    ensures wt.preload == 0.0 ==>
              Times(3 * m, Planned(groups, m, wt)[j].load) <= Times(4 * m - 1, cap)
  {
    WeightsKept(wt, groups);
    OrderedFacts(wt, groups);
    PlannedFollows(groups, m, wt);
    OtherAsSchedule(wt, groups, other, home, m, cap);
    var w, a := WeightsOf(wt, Ordered(wt, groups)), AsAssignment(Ordered(wt, groups), other);
    MakespanBound(w, m, wt.preload, a, home, cap, j);
    if wt.preload == 0.0 { LongestFirstBound(w, m, a, home, cap, j); }
  }

  /** Without its lightest group a shard is no heavier than any other shard. */
  lemma Balanced(groups: seq<string>, m: nat, wt: Weights, i: nat, j: nat) returns (lightest: string)
    requires i < m && j < m && Distinct(groups)
    requires NonNegativeWeights(wt, groups)
    requires Planned(groups, m, wt)[i].groups != []
    ensures lightest in Planned(groups, m, wt)[i].groups
    ensures forall g :: g in Planned(groups, m, wt)[i].groups ==> wt.Of(lightest) <= wt.Of(g)
    ensures Planned(groups, m, wt)[i].load - wt.Of(lightest) <= Planned(groups, m, wt)[j].load
  {
    var shards, ordered, a := Planned(groups, m, wt), Ordered(wt, groups), PlannedAssignment(groups, m, wt);
    var w := WeightsOf(wt, ordered);
    WeightsKept(wt, groups);
    OrderedFacts(wt, groups);
    PlannedFollows(groups, m, wt);
    FollowsInUse(shards, wt, ordered, a, i);
    var t := Balance(w, m, wt.preload, i, j);
    lightest := ordered[t];
    FollowsMembers(shards, wt, ordered, a, i, lightest);
    forall g | g in shards[i].groups ensures wt.Of(lightest) <= wt.Of(g) {
      FollowsMembers(shards, wt, ordered, a, i, g);
      var u :| 0 <= u < |a| && ordered[u] == g && a[u] == i;
      assert w[t] <= w[u];
    }
  }
}
