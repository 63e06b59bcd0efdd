/** Longest-first list scheduling onto `m` bins. */
module ShardSchedule {
  // One bin starts loaded. The arithmetic behind the shard planner, and how close the result is to every
  // other assignment. Jobs are numbered in placement order; `w[t]` is the weight of job `t`, an assignment
  // `a` sends job `t` to bin `a[t]`, and the preload sits on bin `home`.

  import opened Base

  function Load(w: seq<real>, a: seq<nat>, preload: real, home: nat, j: nat): real
    requires |a| <= |w|
  {
    if a == [] then (if j == home then preload else 0.0)
    else
      var t := |a| - 1;
      Load(w, a[..t], preload, home, j) + (if a[t] == j then w[t] else 0.0)
  }

  function Loads(w: seq<real>, a: seq<nat>, preload: real, home: nat, m: nat): (r: seq<real>)
    requires |a| <= |w|
    ensures |r| == m && forall j :: 0 <= j < m ==> r[j] == Load(w, a, preload, home, j)
  {
    seq(m, j requires 0 <= j => Load(w, a, preload, home, j))
  }

  /** The first bin no other bin is lighter than. */
  function LeastLoaded(loads: seq<real>): (k: nat)
    requires loads != []
    ensures k < |loads|
    ensures forall j :: 0 <= j < |loads| ==> loads[k] <= loads[j]
    ensures forall j :: 0 <= j < k ==> loads[k] < loads[j]
  {
    if |loads| == 1 then 0
    else
      var k := LeastLoaded(loads[..|loads| - 1]);
      if loads[|loads| - 1] < loads[k] then |loads| - 1 else k
  }

  /** The assignment the planner makes of the first `n` jobs. */
  function Greedy(w: seq<real>, n: nat, m: nat, preload: real): (a: seq<nat>)
    requires n <= |w| && 1 <= m
    ensures |a| == n && forall t :: 0 <= t < n ==> a[t] < m
  {
    if n == 0 then []
    else
      var a := Greedy(w, n - 1, m, preload);
      a + [LeastLoaded(Loads(w, a, preload, 0, m))]
  }

  function Sum(s: seq<real>): real
  {
    if s == [] then 0.0 else Sum(s[..|s| - 1]) + s[|s| - 1]
  }

  /** `m` copies of `x`, as a sum: keeps the solver to linear arithmetic. */
  function Times(m: nat, x: real): real
  {
    if m == 0 then 0.0 else Times(m - 1, x) + x
  }

  lemma {:induction false} TimesIsProduct(m: nat, x: real)
    ensures Times(m, x) == m as real * x
  {
    if m > 0 {
      TimesIsProduct(m - 1, x);
      assert m as real * x == (m - 1) as real * x + x;
    }
  }

  ghost predicate NonNegative(w: seq<real>) { forall t :: 0 <= t < |w| ==> w[t] >= 0.0 }

  ghost predicate Positive(w: seq<real>) { forall t :: 0 <= t < |w| ==> w[t] > 0.0 }

  ghost predicate HeaviestFirst(w: seq<real>) { forall s, t :: 0 <= s <= t < |w| ==> w[s] >= w[t] }

  ghost predicate UsesBins(a: seq<nat>, m: nat) { forall t :: 0 <= t < |a| ==> a[t] < m }

  /** No bin of the assignment is loaded above `cap`. */
  ghost predicate Within(w: seq<real>, a: seq<nat>, preload: real, home: nat, m: nat, cap: real)
    requires |a| <= |w|
  {
    forall j :: 0 <= j < m ==> Load(w, a, preload, home, j) <= cap
  }

  // ----- sums -----------------------------------------------------------------------------

  lemma {:induction false} SumBump(s: seq<real>, k: nat, d: real)
    requires k < |s|
    ensures Sum(s[k := s[k] + d]) == Sum(s) + d
  {
    var t := s[k := s[k] + d];
    if k == |s| - 1 {
      assert t[..|t| - 1] == s[..|s| - 1];
    } else {
      assert t[..|t| - 1] == s[..|s| - 1][k := s[k] + d];
      SumBump(s[..|s| - 1], k, d);
    }
  }

  lemma {:induction false} SumOfZeros(s: seq<real>)
    requires forall j :: 0 <= j < |s| ==> s[j] == 0.0
    ensures Sum(s) == 0.0
  {
    if s != [] { SumOfZeros(s[..|s| - 1]); }
  }

  lemma {:induction false} SumMonotone(w: seq<real>, i: nat, n: nat)
    requires i <= n <= |w| && NonNegative(w)
    ensures Sum(w[..i]) <= Sum(w[..n])
  {
    if i < n {
      SumMonotone(w, i, n - 1);
      assert w[..n][..n - 1] == w[..n - 1];
    }
  }

  /** Every assignment carries the same total: the preload plus the jobs placed. */
  lemma {:induction false} LoadsTotal(w: seq<real>, a: seq<nat>, preload: real, home: nat, m: nat)
    requires |a| <= |w| && UsesBins(a, m) && home < m
    ensures Sum(Loads(w, a, preload, home, m)) == preload + Sum(w[..|a|])
  {
    var now := Loads(w, a, preload, home, m);
    if a == [] {
      var zeros := seq(m, _ => 0.0);
      SumOfZeros(zeros);
      SumBump(zeros, home, preload);
      assert now == zeros[home := zeros[home] + preload];
    } else {
      var t := |a| - 1;
      var before := Loads(w, a[..t], preload, home, m);
      LoadsTotal(w, a[..t], preload, home, m);
      SumBump(before, a[t], w[t]);
      assert now == before[a[t] := before[a[t]] + w[t]];
      assert w[..|a|][..t] == w[..t];
    }
  }

  lemma {:induction false} LoadMonotone(w: seq<real>, a: seq<nat>, preload: real, home: nat, j: nat, i: nat)
    requires |a| <= |w| && i <= |a| && NonNegative(w)
    ensures Load(w, a[..i], preload, home, j) <= Load(w, a, preload, home, j)
  {
    if i < |a| {
      LoadMonotone(w, a[..|a| - 1], preload, home, j, i);
      assert a[..|a| - 1][..i] == a[..i];
    } else {
      assert a[..i] == a;
    }
  }

  /** A job, and the preload, weigh no more than the bin they are on. */
  lemma LoadCoversJob(w: seq<real>, a: seq<nat>, preload: real, home: nat, t: nat)
    requires t < |a| <= |w| && NonNegative(w) && preload >= 0.0
    ensures w[t] <= Load(w, a, preload, home, a[t])
    ensures preload <= Load(w, a, preload, home, home)
  {
    assert a[..t + 1][..t] == a[..t];
    LoadMonotone(w, a, preload, home, a[t], t + 1);
    LoadMonotone(w, a[..t], preload, home, a[t], 0);
    LoadMonotone(w, a, preload, home, home, 0);
    assert a[..t][..0] == [] == a[..0];
  }

  // ----- the greedy run -------------------------------------------------------------------

  lemma {:induction false} GreedyPrefix(w: seq<real>, n: nat, m: nat, preload: real, t: nat)
    requires t <= n <= |w| && 1 <= m
    ensures Greedy(w, n, m, preload)[..t] == Greedy(w, t, m, preload)
  {
    if t < n {
      GreedyPrefix(w, n - 1, m, preload, t);
      var a := Greedy(w, n - 1, m, preload);
      assert Greedy(w, n, m, preload)[..t] == a[..t];
    }
  }

  /** What one placement sees: the loads of the jobs before it, and that its bin is the least. */
  lemma GreedyStep(w: seq<real>, n: nat, m: nat, preload: real, t: nat)
    requires t < n <= |w| && 1 <= m
    ensures var a := Greedy(w, n, m, preload);
            var before := Greedy(w, t, m, preload);
            && a[..t] == before && a[..t + 1] == Greedy(w, t + 1, m, preload)
            && a[t] == LeastLoaded(Loads(w, before, preload, 0, m))
            && forall j :: 0 <= j < m ==>
                 Load(w, before, preload, 0, a[t]) <= Load(w, before, preload, 0, j)
  {
    GreedyPrefix(w, n, m, preload, t);
    GreedyPrefix(w, n, m, preload, t + 1);
    var before := Greedy(w, t, m, preload);
    var k := LeastLoaded(Loads(w, before, preload, 0, m));
    assert Greedy(w, n, m, preload)[t] == Greedy(w, n, m, preload)[..t + 1][t] == k;
    forall j | 0 <= j < m
      ensures Load(w, before, preload, 0, k) <= Load(w, before, preload, 0, j)
    {
      assert Loads(w, before, preload, 0, m)[j] == Load(w, before, preload, 0, j);
    }
  }

  /** The last job sent to a bin, when there is one. */
  lemma {:induction false} LastOn(w: seq<real>, a: seq<nat>, preload: real, home: nat, j: nat) returns (t: nat)
    requires |a| <= |w| && j in a
    ensures t < |a| && a[t] == j && forall u :: t < u < |a| ==> a[u] != j
    ensures Load(w, a, preload, home, j) == Load(w, a[..t], preload, home, j) + w[t]
  {
    var n := |a| - 1;
    if a[n] == j {
      t := n;
    } else {
      assert j in a[..n];
      t := LastOn(w, a[..n], preload, home, j);
      assert a[..n][..t] == a[..t];
    }
  }

  lemma {:induction false} UnusedBin(w: seq<real>, a: seq<nat>, preload: real, home: nat, j: nat)
    requires |a| <= |w| && j !in a
    ensures Load(w, a, preload, home, j) == if j == home then preload else 0.0
  {
    if a != [] {
      assert j !in a[..|a| - 1];
      UnusedBin(w, a[..|a| - 1], preload, home, j);
    }
  }

  /** Before its last placement a bin was below the average: `m` times that load, plus the
      placed weight, fits in the total. */
  lemma BelowAverage(w: seq<real>, n: nat, m: nat, preload: real, t: nat)
    requires t < n <= |w| && 1 <= m && NonNegative(w)
    ensures var a := Greedy(w, n, m, preload);
            Times(m, Load(w, a[..t], preload, 0, a[t])) + w[t] <= preload + Sum(w[..n])
  {
    var a := Greedy(w, n, m, preload);
    GreedyStep(w, n, m, preload, t);
    BelowEvery(w, a[..t], m, preload, a[t]);
    assert w[..t + 1][..t] == w[..t];
    SumMonotone(w, t + 1, n);
  }

  lemma BelowEvery(w: seq<real>, a: seq<nat>, m: nat, preload: real, k: nat)
    requires |a| <= |w| && UsesBins(a, m) && k < m
    requires forall j :: 0 <= j < m ==> Load(w, a, preload, 0, k) <= Load(w, a, preload, 0, j)
    ensures Times(m, Load(w, a, preload, 0, k)) <= preload + Sum(w[..|a|])
  {
    LoadsTotal(w, a, preload, 0, m);
    SumFloor(Loads(w, a, preload, 0, m), Load(w, a, preload, 0, k));
  }

  lemma PreloadFits(w: seq<real>, a: seq<nat>, preload: real, home: nat, m: nat, cap: real)
    requires |a| <= |w| && NonNegative(w) && home < m && Within(w, a, preload, home, m, cap)
    ensures preload <= cap
  {
    LoadMonotone(w, a, preload, home, home, 0);
    assert a[..0] == [];
  }

  /** The jobs and the preload of any assignment within `cap` fit in `m` times `cap`. */
  lemma TotalFits(w: seq<real>, a: seq<nat>, preload: real, home: nat, m: nat, cap: real)
    requires |a| == |w| && UsesBins(a, m) && home < m && Within(w, a, preload, home, m, cap)
    ensures preload + Sum(w[..|w|]) <= Times(m, cap)
  {
    LoadsTotal(w, a, preload, home, m);
    SumCeiling(Loads(w, a, preload, home, m), cap);
  }

  lemma {:induction false} SumFloor(s: seq<real>, lo: real)
    requires forall j :: 0 <= j < |s| ==> lo <= s[j]
    ensures Times(|s|, lo) <= Sum(s)
  {
    if s != [] { SumFloor(s[..|s| - 1], lo); }
  }

  lemma {:induction false} SumCeiling(s: seq<real>, hi: real)
    requires forall j :: 0 <= j < |s| ==> s[j] <= hi
    ensures Sum(s) <= Times(|s|, hi)
  {
    if s != [] { SumCeiling(s[..|s| - 1], hi); }
  }

  // ----- approximation bounds -------------------------------------------------------------

  /** Against any assignment with the preload on one bin, the heaviest shard is within a factor
      of 2 - 1/m: `m * load <= (2m - 1) * cap` for every `cap` some assignment achieves. */
  lemma MakespanBound(w: seq<real>, m: nat, preload: real, other: seq<nat>, home: nat, cap: real, j: nat)
    requires 1 <= m && home < m && j < m
    requires NonNegative(w) && preload >= 0.0
    requires |other| == |w| && UsesBins(other, m) && Within(w, other, preload, home, m, cap)
    ensures Times(m, Load(w, Greedy(w, |w|, m, preload), preload, 0, j)) <= Times(2 * m - 1, cap)
  {
    var a := Greedy(w, |w|, m, preload);
    var load := Load(w, a, preload, 0, j);
    PreloadFits(w, other, preload, home, m, cap);
    if j in a {
      var t := LastOn(w, a, preload, 0, j);
      BelowAverage(w, |w|, m, preload, t);
      TotalFits(w, other, preload, home, m, cap);
      LoadCoversJob(w, other, preload, home, t);
      LastJobBound(m, Load(w, a[..t], preload, 0, j), w[t], load, cap);
    } else {
      UnusedBin(w, a, preload, 0, j);
      IdleBinBound(m, load, cap);
    }
  }

  lemma {:induction false} TimesSum(m: nat, x: real, y: real)
    ensures Times(m, x + y) == Times(m, x) + Times(m, y)
  {
    if m > 0 { TimesSum(m - 1, x, y); }
  }

  lemma {:induction false} TimesMore(m: nat, n: nat, x: real)
    ensures Times(m + n, x) == Times(m, x) + Times(n, x)
  {
    if n > 0 {
      TimesMore(m, n - 1, x);
      assert m + n - 1 == m + (n - 1);
    }
  }

  /** `m` loads within `cap` sum to at most `m` times it. */
  lemma {:induction false} TimesMonotone(m: nat, x: real, y: real)
    requires x <= y
    ensures Times(m, x) <= Times(m, y)
  {
    if m > 0 { TimesMonotone(m - 1, x, y); }
  }

  lemma IdleBinBound(m: nat, load: real, cap: real)
    requires 1 <= m && load <= cap && 0.0 <= cap
    ensures Times(m, load) <= Times(2 * m - 1, cap)
  {
    TimesMonotone(m, load, cap);
    TimesMonotone(m - 1, 0.0, cap);
    TimesIsProduct(m - 1, 0.0);
    TimesMore(m, m - 1, cap);
  }

  lemma LastJobBound(m: nat, before: real, last: real, load: real, cap: real)
    requires 1 <= m && Times(m, before) + last <= Times(m, cap) && last <= cap
    requires load == before + last
    ensures Times(m, load) <= Times(2 * m - 1, cap)
  {
    TimesSum(m, before, last);
    TimesMonotone(m - 1, last, cap);
    TimesMore(m, m - 1, cap);
  }

  /** A job counts double when nothing as heavy as `x` fits beside it under `cap`. */
  function Tokens(w: seq<real>, cap: real, x: real): (v: seq<real>)
    ensures |v| == |w|
    ensures forall t :: 0 <= t < |w| ==> v[t] == (if w[t] > cap - x then 2.0 else 1.0)
  {
    seq(|w|, t requires 0 <= t < |w| => if w[t] > cap - x then 2.0 else 1.0)
  }

  /** When every job exceeds a third of `cap`, a bin within `cap` holds at most two tokens, and
      a bin too full for another job holds at least two. */
  lemma {:induction false} TokensPerBin(w: seq<real>, cap: real, x: real, a: seq<nat>, home: nat, j: nat)
    requires |a| <= |w| && 0.0 <= x <= cap < 3.0 * x
    requires forall t :: 0 <= t < |a| ==> w[t] >= x
    ensures var held := Load(Tokens(w, cap, x), a, 0.0, home, j);
            var load := Load(w, a, 0.0, home, j);
            && (held == 0.0 ==> load == 0.0)
            && (held == 1.0 ==> x <= load <= cap - x)
            && (held == 2.0 ==> load > cap - x)
            && (held == 0.0 || held == 1.0 || held == 2.0 || (held >= 3.0 && load > cap))
  {
    if a != [] { TokensPerBin(w, cap, x, a[..|a| - 1], home, j); }
  }

  /** A job above a third of `cap` never overflows `cap` in the greedy run, if any assignment
      of all the jobs fits within `cap`. */
  lemma HeavyJobFits(w: seq<real>, m: nat, other: seq<nat>, home: nat, cap: real, t: nat)
    requires 1 <= m && home < m && t < |w|
    requires NonNegative(w) && HeaviestFirst(w)
    requires |other| == |w| && UsesBins(other, m) && Within(w, other, 0.0, home, m, cap)
    requires Within(w, Greedy(w, t, m, 0.0), 0.0, 0, m, cap)
    requires w[t] <= cap < 3.0 * w[t]
    ensures Within(w, Greedy(w, t + 1, m, 0.0), 0.0, 0, m, cap)
  {
    var before, after := Greedy(w, t, m, 0.0), Greedy(w, t + 1, m, 0.0);
    GreedyStep(w, t + 1, m, 0.0, t);
    assert after[..t] == before;
    var k := after[t];
    if Load(w, before, 0.0, 0, k) + w[t] > cap {
      TwoTokensEverywhere(w, m, cap, t);
      TwoTokensAtMost(w, m, other, home, cap, t);
      assert false;
    }
    forall j | 0 <= j < m ensures Load(w, after, 0.0, 0, j) <= cap {
      assert Load(w, before, 0.0, 0, j) <= cap;
    }
  }

  /** If job `t` overflows the least loaded bin, the jobs before it filled every bin. */
  lemma TwoTokensEverywhere(w: seq<real>, m: nat, cap: real, t: nat)
    requires 1 <= m && t < |w| && NonNegative(w) && HeaviestFirst(w)
    requires w[t] <= cap < 3.0 * w[t]
    requires forall j :: 0 <= j < m ==> cap < Load(w, Greedy(w, t, m, 0.0), 0.0, 0, j) + w[t]
    requires Within(w, Greedy(w, t, m, 0.0), 0.0, 0, m, cap)
    ensures Times(m, 2.0) <= Sum(Tokens(w, cap, w[t])[..t])
  {
    var v, before := Tokens(w, cap, w[t]), Greedy(w, t, m, 0.0);
    var held := Loads(v, before, 0.0, 0, m);
    forall j | 0 <= j < m ensures 2.0 <= held[j] {
      TokensPerBin(w, cap, w[t], before, 0, j);
    }
    SumFloor(held, 2.0);
    LoadsTotal(v, before, 0.0, 0, m);
  }

  /** An assignment that fits has room for two tokens per bin, job `t` included. */
  lemma TwoTokensAtMost(w: seq<real>, m: nat, other: seq<nat>, home: nat, cap: real, t: nat)
    requires 1 <= m && home < m && t < |w| && NonNegative(w) && HeaviestFirst(w)
    requires |other| == |w| && UsesBins(other, m) && Within(w, other, 0.0, home, m, cap)
    requires w[t] <= cap < 3.0 * w[t]
    ensures Sum(Tokens(w, cap, w[t])[..t]) + 1.0 <= Times(m, 2.0)
  {
    var v, upto := Tokens(w, cap, w[t]), other[..t + 1];
    var held := Loads(v, upto, 0.0, home, m);
    forall j | 0 <= j < m ensures held[j] <= 2.0 {
      LoadMonotone(w, other, 0.0, home, j, t + 1);
      TokensPerBin(w, cap, w[t], upto, home, j);
    }
    SumCeiling(held, 2.0);
    LoadsTotal(v, upto, 0.0, home, m);
    assert v[..t + 1][..t] == v[..t];
  }

  lemma {:induction false} FirstOverflow(w: seq<real>, m: nat, cap: real, n: nat) returns (t: nat)
    requires 1 <= m && n <= |w| && 0.0 <= cap
    requires !Within(w, Greedy(w, n, m, 0.0), 0.0, 0, m, cap)
    ensures t < n
    ensures Within(w, Greedy(w, t, m, 0.0), 0.0, 0, m, cap)
    ensures !Within(w, Greedy(w, t + 1, m, 0.0), 0.0, 0, m, cap)
  {
    assert n > 0;
    if Within(w, Greedy(w, n - 1, m, 0.0), 0.0, 0, m, cap) {
      t := n - 1;
    } else {
      t := FirstOverflow(w, m, cap, n - 1);
    }
  }

  /** Without a preload, longest-first is within a factor of 4/3 - 1/(3m) of every assignment:
      `3m * load <= (4m - 1) * cap`. */
  lemma LongestFirstBound(w: seq<real>, m: nat, other: seq<nat>, home: nat, cap: real, j: nat)
    requires 1 <= m && home < m && j < m
    requires NonNegative(w) && HeaviestFirst(w)
    requires |other| == |w| && UsesBins(other, m) && Within(w, other, 0.0, home, m, cap)
    ensures Times(3 * m, Load(w, Greedy(w, |w|, m, 0.0), 0.0, 0, j)) <= Times(4 * m - 1, cap)
  {
    var a := Greedy(w, |w|, m, 0.0);
    var load := Load(w, a, 0.0, 0, j);
    PreloadFits(w, other, 0.0, home, m, cap);
    if load <= cap {
      TimesMonotone(m, load, cap);
      LightLastJob(m, load, 0.0, load, cap);
    } else {
      if j !in a { UnusedBin(w, a, 0.0, 0, j); }
      var t := LastOn(w, a, 0.0, 0, j);
      LateJobsAreLight(w, m, other, home, cap, j, t);
      BelowAverage(w, |w|, m, 0.0, t);
      TotalFits(w, other, 0.0, home, m, cap);
      LightLastJob(m, Load(w, a[..t], 0.0, 0, j), w[t], load, cap);
    }
  }

  lemma LightLastJob(m: nat, before: real, last: real, load: real, cap: real)
    requires 1 <= m && Times(m, before) + last <= Times(m, cap) && 3.0 * last <= cap
    requires load == before + last
    ensures Times(3 * m, load) <= Times(4 * m - 1, cap)
  {
    TimesSum(m, before, last);
    TimesSum(m - 1, last, last);
    TimesSum(m - 1, last + last, last);
    TimesMonotone(m - 1, last + last + last, cap);
    TimesMore(m, m, load);
    TimesMore(2 * m, m, load);
    TimesMore(m, m - 1, cap);
    TimesMore(m, 2 * m - 1, cap);
    TimesMore(m, 3 * m - 1, cap);
  }

  /** The last job of a bin that overflows `cap` weighs at most a third of it. */
  lemma LateJobsAreLight(w: seq<real>, m: nat, other: seq<nat>, home: nat, cap: real, j: nat, t: nat)
    requires 1 <= m && home < m && j < m
    requires NonNegative(w) && HeaviestFirst(w) && 0.0 <= cap
    requires |other| == |w| && UsesBins(other, m) && Within(w, other, 0.0, home, m, cap)
    requires cap < Load(w, Greedy(w, |w|, m, 0.0), 0.0, 0, j)
    requires t < |w| && forall u :: t < u < |w| ==> Greedy(w, |w|, m, 0.0)[u] != j
    ensures 3.0 * w[t] <= cap
  {
    var a := Greedy(w, |w|, m, 0.0);
    var first := FirstOverflow(w, m, cap, |w|);
    LoadCoversJob(w, other, 0.0, home, first);
    if cap < 3.0 * w[first] { HeavyJobFits(w, m, other, home, cap, first); }
    if t < first {
      GreedyPrefix(w, |w|, m, 0.0, first);
      UntouchedSince(w, a, j, first);
      assert false;
    }
  }

  lemma {:induction false} UntouchedSince(w: seq<real>, a: seq<nat>, j: nat, i: nat)
    requires i <= |a| <= |w| && forall u :: i <= u < |a| ==> a[u] != j
    ensures Load(w, a[..i], 0.0, 0, j) == Load(w, a, 0.0, 0, j)
  {
    if i == |a| {
      assert a[..i] == a;
    } else {
      UntouchedSince(w, a[..|a| - 1], j, i);
      assert a[..|a| - 1][..i] == a[..i];
    }
  }

  /** Taking the lightest job off a shard that holds one leaves it no heavier than any shard. */
  lemma Balance(w: seq<real>, m: nat, preload: real, i: nat, j: nat) returns (t: nat)
    requires 1 <= m && i < m && j < m
    requires NonNegative(w) && HeaviestFirst(w)
    requires i in Greedy(w, |w|, m, preload)
    ensures var a := Greedy(w, |w|, m, preload);
            && t < |w| && a[t] == i && (forall u :: 0 <= u < |w| && a[u] == i ==> w[t] <= w[u])
            && Load(w, a, preload, 0, i) - w[t] <= Load(w, a, preload, 0, j)
  {
    var a := Greedy(w, |w|, m, preload);
    t := LastOn(w, a, preload, 0, i);
    GreedyStep(w, |w|, m, preload, t);
    LoadMonotone(w, a, preload, 0, j, t);
  }

  // ----- when no bin stays empty ----------------------------------------------------------

  /** The least load among `m - 1` bins that start empty, after the first `n` jobs. */
  function LeastWithoutFirst(w: seq<real>, n: nat, m: nat): (r: real)
    requires n <= |w| && 2 <= m
    ensures var loads := Loads(w, Greedy(w, n, m - 1, 0.0), 0.0, 0, m - 1);
            r == loads[LeastLoaded(loads)]
  {
    var loads := Loads(w, Greedy(w, n, m - 1, 0.0), 0.0, 0, m - 1);
    loads[LeastLoaded(loads)]
  }

  /** What the last of `n` placements does. */
  lemma GreedyLast(w: seq<real>, n: nat, m: nat, preload: real)
    requires 1 <= n <= |w| && 1 <= m
    ensures var a, b := Greedy(w, n, m, preload), Greedy(w, n - 1, m, preload);
            && a[..n - 1] == b && a[n - 1] == LeastLoaded(Loads(w, b, preload, 0, m))
            && (forall t :: 0 <= t < n - 1 ==> a[t] == b[t])
  {
  }

  lemma GreedyUses(w: seq<real>, n: nat, m: nat, preload: real, j: nat)
    requires 1 <= n <= |w| && 1 <= m
    ensures var before := Greedy(w, n - 1, m, preload);
            j in Greedy(w, n, m, preload)
            <==> j in before || j == LeastLoaded(Loads(w, before, preload, 0, m))
  {
  }

  /** Two assignments that differ by one bin number load the same bins, renumbered. */
  lemma {:induction false} ShiftedLoad(w: seq<real>, a: seq<nat>, b: seq<nat>, preload: real, j: nat)
    requires |a| == |b| <= |w| && 1 <= j
    requires forall t :: 0 <= t < |a| ==> a[t] == b[t] + 1
    ensures Load(w, a, preload, 0, j) == Load(w, b, 0.0, 0, j - 1)
  {
    if a != [] { ShiftedLoad(w, a[..|a| - 1], b[..|b| - 1], preload, j); }
  }

  lemma ShiftedLoads(w: seq<real>, a: seq<nat>, b: seq<nat>, preload: real, m: nat)
    requires |a| == |b| <= |w| && 2 <= m
    requires forall t :: 0 <= t < |a| ==> a[t] == b[t] + 1
    ensures var la, lb := Loads(w, a, preload, 0, m), Loads(w, b, 0.0, 0, m - 1);
            forall j :: 1 <= j < m ==> la[j] == lb[j - 1]
  {
    forall j | 1 <= j < m ensures Load(w, a, preload, 0, j) == Load(w, b, 0.0, 0, j - 1) {
      ShiftedLoad(w, a, b, preload, j);
    }
  }

  /** While bin 0 gets nothing, the other bins are filled exactly as they would be without it. */
  lemma {:induction false} WithoutFirst(w: seq<real>, n: nat, m: nat, preload: real)
    requires n <= |w| && 2 <= m && 0 !in Greedy(w, n, m, preload)
    ensures forall t :: 0 <= t < n ==>
              Greedy(w, n, m, preload)[t] == Greedy(w, n, m - 1, 0.0)[t] + 1
  {
    if n > 0 {
      GreedyLast(w, n, m, preload);
      GreedyLast(w, n, m - 1, 0.0);
      WithoutFirst(w, n - 1, m, preload);
      var a, b := Greedy(w, n - 1, m, preload), Greedy(w, n - 1, m - 1, 0.0);
      ShiftedLoads(w, a, b, preload, m);
      LeastShifted(Loads(w, a, preload, 0, m), Loads(w, b, 0.0, 0, m - 1));
    }
  }

  lemma LeastShifted(la: seq<real>, lb: seq<real>)
    requires lb != [] && |la| == |lb| + 1 && forall j :: 1 <= j < |la| ==> la[j] == lb[j - 1]
    requires LeastLoaded(la) != 0
    ensures LeastLoaded(la) == LeastLoaded(lb) + 1
  {
    var ka, kb := LeastLoaded(la), LeastLoaded(lb);
    assert la[kb + 1] == lb[kb] <= lb[ka - 1] == la[ka] <= la[kb + 1];
  }

  lemma FirstBinLoads(w: seq<real>, n: nat, m: nat, preload: real)
    requires n < |w| && 2 <= m && 0 !in Greedy(w, n, m, preload)
    ensures var la, lb := Loads(w, Greedy(w, n, m, preload), preload, 0, m),
                          Loads(w, Greedy(w, n, m - 1, 0.0), 0.0, 0, m - 1);
      |la| == m && |lb| == m - 1 && la[0] == preload && forall j :: 1 <= j < |la| ==> la[j] == lb[j - 1]
  {
    WithoutFirst(w, n, m, preload);
    var a, b := Greedy(w, n, m, preload), Greedy(w, n, m - 1, 0.0);
    ShiftedLoads(w, a, b, preload, m);
    UnusedBin(w, a, preload, 0, 0);
  }

  /** Bin 0 gets its first job at exactly the first moment every other bin has reached the preload. */
  lemma FirstBinServed(w: seq<real>, n: nat, m: nat, preload: real)
    requires n < |w| && 2 <= m && 0 !in Greedy(w, n, m, preload)
    ensures LeastLoaded(Loads(w, Greedy(w, n, m, preload), preload, 0, m)) == 0
            <==> preload <= LeastWithoutFirst(w, n, m)
  {
    FirstBinLoads(w, n, m, preload);
    FirstIsLeast(Loads(w, Greedy(w, n, m, preload), preload, 0, m), Loads(w, Greedy(w, n, m - 1, 0.0), 0.0, 0, m - 1));
  }

  lemma FirstIsLeast(la: seq<real>, lb: seq<real>)
    requires lb != [] && |la| == |lb| + 1 && forall j :: 1 <= j < |la| ==> la[j] == lb[j - 1]
    ensures LeastLoaded(la) == 0 <==> la[0] <= lb[LeastLoaded(lb)]
  {
    var ka, kb := LeastLoaded(la), LeastLoaded(lb);
    assert la[kb + 1] == lb[kb];
  }

  lemma {:induction false} LeastGrows(w: seq<real>, i: nat, n: nat, m: nat)
    requires i <= n <= |w| && 2 <= m && NonNegative(w)
    ensures LeastWithoutFirst(w, i, m) <= LeastWithoutFirst(w, n, m)
  {
    var a := Greedy(w, n, m - 1, 0.0);
    GreedyPrefix(w, n, m - 1, 0.0, i);
    var now, was := Loads(w, a, 0.0, 0, m - 1), Loads(w, a[..i], 0.0, 0, m - 1);
    var k := LeastLoaded(now);
    LoadMonotone(w, a, 0.0, 0, k, i);
    assert was[k] <= now[k];
  }

  /** Distinct bins below `m`, none of them `j`, number fewer than `m`. */
  lemma DistinctBinsFit(a: seq<nat>, m: nat, j: nat)
    requires UsesBins(a, m) && j < m && j !in a
    requires Distinct(a)
    ensures |a| < m
  {
    DistinctSize(a);
    SubsetSize(Elements(a), Below(m) - {j});
  }

  /** Exactly when a plan of positive weights over enough groups leaves a shard empty: the
      preload exceeds what the least of the other shards carries once all but the last group
      has been placed on them alone. */
  lemma EmptyShardExactly(w: seq<real>, m: nat, preload: real)
    requires 1 <= m <= |w| && Positive(w) && preload >= 0.0
    ensures (exists j :: 0 <= j < m && j !in Greedy(w, |w|, m, preload))
            <==> (2 <= m && LeastWithoutFirst(w, |w| - 1, m) < preload)
  {
    var n := |w|;
    var a := Greedy(w, n, m, preload);
    if m == 1 {
      assert a[0] == 0;
    } else if LeastWithoutFirst(w, n - 1, m) < preload {
      FirstNeverServed(w, n, m, preload);
      assert 0 !in a;
    } else {
      FirstServed(w, n, m, preload);
      forall j | 0 <= j < m ensures j in a {
        if j !in a {
          EmptyBinsFillFirst(w, n, m, preload, j);
        }
      }
    }
  }

  lemma {:induction false} FirstNeverServed(w: seq<real>, n: nat, m: nat, preload: real)
    requires 1 <= n <= |w| && 2 <= m && NonNegative(w)
    requires LeastWithoutFirst(w, n - 1, m) < preload
    ensures 0 !in Greedy(w, n, m, preload)
  {
    if n > 1 {
      LeastGrows(w, n - 2, n - 1, m);
      FirstNeverServed(w, n - 1, m, preload);
    }
    GreedyUses(w, n, m, preload, 0);
    FirstBinServed(w, n - 1, m, preload);
  }

  lemma FirstServed(w: seq<real>, n: nat, m: nat, preload: real)
    requires 1 <= n <= |w| && 2 <= m
    requires preload <= LeastWithoutFirst(w, n - 1, m)
    ensures 0 in Greedy(w, n, m, preload)
  {
    GreedyUses(w, n, m, preload, 0);
    if 0 !in Greedy(w, n - 1, m, preload) {
      FirstBinServed(w, n - 1, m, preload);
    }
  }

  /** A bin the jobs before `n` left non-empty is heavier than an empty, unloaded one, so it
      is not the least loaded. */
  lemma UsedBinNotLeast(w: seq<real>, n: nat, m: nat, preload: real, j: nat, k: nat)
    requires n <= |w| && 1 <= m && j < m && Positive(w) && preload >= 0.0
    requires j == 0 ==> preload == 0.0
    requires j !in Greedy(w, n, m, preload) && k in Greedy(w, n, m, preload)
    ensures Load(w, Greedy(w, n, m, preload), preload, 0, j)
            < Load(w, Greedy(w, n, m, preload), preload, 0, k)
  {
    var a := Greedy(w, n, m, preload);
    UnusedBin(w, a, preload, 0, j);
    var t :| 0 <= t < |a| && a[t] == k;
    LoadCoversJob(w, a, preload, 0, t);
  }

  lemma OpensOwnBin(w: seq<real>, n: nat, m: nat, preload: real, j: nat)
    requires 1 <= n <= |w| && 1 <= m && j < m && Positive(w) && preload >= 0.0
    requires j == 0 ==> preload == 0.0
    requires j !in Greedy(w, n - 1, m, preload) && Distinct(Greedy(w, n - 1, m, preload))
    ensures Distinct(Greedy(w, n, m, preload))
  {
    var before := Greedy(w, n - 1, m, preload);
    var loads := Loads(w, before, preload, 0, m);
    var k := LeastLoaded(loads);
    assert loads[k] <= loads[j];
    if k in before { UsedBinNotLeast(w, n - 1, m, preload, j, k); }
    DistinctSnoc(before, k);
  }

  /** With positive weights, while some unloaded bin stays empty every job opened a bin of its
      own, so fewer than `m` jobs have been placed. */
  lemma {:induction false} EmptyBinsFillFirst(w: seq<real>, n: nat, m: nat, preload: real, j: nat)
    requires n <= |w| && 1 <= m && j < m && Positive(w) && preload >= 0.0
    requires j == 0 ==> preload == 0.0
    requires j !in Greedy(w, n, m, preload)
    ensures Distinct(Greedy(w, n, m, preload))
    ensures n < m
  {
    if n > 0 {
      GreedyUses(w, n, m, preload, j);
      EmptyBinsFillFirst(w, n - 1, m, preload, j);
      OpensOwnBin(w, n, m, preload, j);
    }
    DistinctBinsFit(Greedy(w, n, m, preload), m, j);
  }

  /** After as many jobs as bins, none of them loaded at the start, every bin holds a job. */
  lemma FirstRoundFills(w: seq<real>, m: nat, j: nat)
    requires j < m <= |w| && Positive(w) && HeaviestFirst(w)
    ensures w[m - 1] <= Load(w, Greedy(w, m, m, 0.0), 0.0, 0, j)
  {
    var a := Greedy(w, m, m, 0.0);
    if j !in a { EmptyBinsFillFirst(w, m, m, 0.0, j); }
    var t :| 0 <= t < |a| && a[t] == j;
    LoadCoversJob(w, a, 0.0, 0, t);
    assert w[t] >= w[m - 1];
  }

  /** A sufficient condition: a preload no heavier than the (m-1)-th largest weight
      leaves no shard empty. */
  lemma SmallPreloadFillsEveryShard(w: seq<real>, m: nat, preload: real)
    requires 1 <= m <= |w| && Positive(w) && HeaviestFirst(w) && preload >= 0.0
    requires m >= 2 ==> preload <= w[m - 2]
    ensures forall j :: 0 <= j < m ==> j in Greedy(w, |w|, m, preload)
  {
    if m >= 2 {
      var n := m - 1;
      var a := Greedy(w, n, n, 0.0);
      forall j | 0 <= j < n ensures preload <= Load(w, a, 0.0, 0, j) {
        FirstRoundFills(w, n, j);
      }
      LeastGrows(w, n, |w| - 1, m);
    }
    EmptyShardExactly(w, m, preload);
  }
}
