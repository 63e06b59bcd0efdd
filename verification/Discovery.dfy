/** The module registry scan: container names and the identities they carry, the running-first pass
    over `docker ps -a`, and the purge of rows that no container backs. */
module Discovery {
  import opened Base

  datatype Row = Row(service: string, coin: string, network: string)

  /** A line of `docker ps -a`: its first name, as docker prints it, its state and its id. */
  datatype Container = Container(name: string, state: string, id: string)

  const SHARED := {"database", "xchain-hub", "xchain-explorer", "xchain-sync"}
  const COINS := {"bitcoin", "litecoin", "dogecoin"}
  const NETWORKS := {"mainnet", "testnet", "regtest"}
  const SERVICES := {"xchain-encoder", "xchain-decoder", "xchain-utxo-tracker", "xchain-regtest-miner",
                     "xchain-indexer", "xchain-e2e-test"}

  // ----- names ----------------------------------------------------------------------------

  function NameOf(c: Container): string
  {
    if c.name != "" && c.name[0] == '/' then c.name[1..] else c.name
  }

  /** What classification makes of the part of a name after the prefix. */
  function Identify(rest: string): Option<Row>
  {
    if rest in SHARED then Some(Row(rest, "", ""))
    else
      var parts := Split(rest, '-');
      if |parts| < 3 then None
      else
        var service := Join(parts[2..], '-');
        if parts[0] !in COINS || parts[1] !in NETWORKS then None
        else if service in SERVICES then
          if service == "xchain-e2e-test" then None else Some(Row(service, parts[0], parts[1]))
        else if service == "node" then Some(Row(service, parts[0], parts[1]))
        else None
  }

  function Classify(prefix: string, c: Container): Option<Row>
  {
    if StartsWith(NameOf(c), prefix + "-") then Identify(NameOf(c)[|prefix| + 1..]) else None
  }

  /** The name the CLI gives the container of a module. */
  function ImageName(prefix: string, row: Row): string
  {
    if row.service in SHARED then prefix + "-" + row.service
    else prefix + "-" + row.coin + "-" + row.network + "-" + row.service
  }

  /** A module that has a registry row: a shared one, or any per-network one but the test runner. */
  predicate Registrable(row: Row)
  {
    (row.service in SHARED && row.coin == "" && row.network == "")
    || ((row.service in SERVICES || row.service == "node") && row.service != "xchain-e2e-test"
        && row.coin in COINS && row.network in NETWORKS)
  }

  lemma SecondLetter(rest: string)
    requires rest in SHARED
    ensures rest[1] in {'a', 'c'}
  {
  }

  lemma PerNetworkNotShared(row: Row)
    requires row.coin in COINS
    ensures row.coin + "-" + row.network + "-" + row.service !in SHARED
  {
    var rest := row.coin + "-" + row.network + "-" + row.service;
    assert rest[1] == row.coin[1];
    if rest in SHARED { SecondLetter(rest); }
  }

  lemma PerNetworkParts(row: Row)
    requires row.coin in COINS && row.network in NETWORKS
    ensures var rest := row.coin + "-" + row.network + "-" + row.service;
      && rest !in SHARED
      && Split(rest, '-') == [row.coin] + ([row.network] + Split(row.service, '-'))
  {
    PerNetworkNotShared(row);
    NoDash(row);
    SplitHead(row.network, row.service, '-');
    SplitHead(row.coin, row.network + "-" + row.service, '-');
    assert row.coin + "-" + row.network + "-" + row.service == row.coin + "-" + (row.network + "-" + row.service);
  }

  lemma NoDash(row: Row)
    requires row.coin in COINS && row.network in NETWORKS
    ensures '-' !in row.coin && '-' !in row.network
  {
  }

  /** Naming and classification are inverse: a container is classified as a module exactly when it
      carries the name the CLI gives that module's container. No other name, prefix or image does. */
  lemma ClassifyInvertsNaming(prefix: string, c: Container, row: Row)
    ensures Classify(prefix, c) == Some(row) <==> Registrable(row) && NameOf(c) == ImageName(prefix, row)
  {
    if Registrable(row) && NameOf(c) == ImageName(prefix, row) {
      ClassifiedAsNamed(prefix, c, row);
    }
    if Classify(prefix, c) == Some(row) {
      NamedAsClassified(prefix, c, row);
    }
  }

  lemma AfterPrefix(prefix: string, rest: string)
    ensures StartsWith(prefix + "-" + rest, prefix + "-") && (prefix + "-" + rest)[|prefix| + 1..] == rest
  {
  }

  lemma BeforeRest(prefix: string, name: string)
    requires StartsWith(name, prefix + "-")
    ensures name == prefix + "-" + name[|prefix| + 1..]
  {
  }

  function Suffix(row: Row): string
  {
    if row.service in SHARED then row.service else row.coin + "-" + row.network + "-" + row.service
  }

  lemma IdentifySuffix(row: Row)
    requires Registrable(row)
    ensures Identify(Suffix(row)) == Some(row)
  {
    if row.service !in SHARED {
      PerNetworkParts(row);
      JoinSplit(row.service, '-');
      IdentifyParts(Suffix(row), row, Split(row.service, '-'));
    }
  }

  lemma IdentifyParts(rest: string, row: Row, tail: seq<string>)
    requires rest !in SHARED && tail != [] && Split(rest, '-') == [row.coin] + ([row.network] + tail)
    requires Join(tail, '-') == row.service && row.service != "xchain-e2e-test"
    requires row.coin in COINS && row.network in NETWORKS && (row.service in SERVICES || row.service == "node")
    ensures Identify(rest) == Some(row)
  {
    assert Split(rest, '-')[2..] == tail;
  }

  lemma ClassifiedAsNamed(prefix: string, c: Container, row: Row)
    requires Registrable(row) && NameOf(c) == ImageName(prefix, row)
    ensures Classify(prefix, c) == Some(row)
  {
    IdentifySuffix(row);
    NameIsPrefixed(prefix, row);
    AfterPrefix(prefix, Suffix(row));
  }

  lemma NameIsPrefixed(prefix: string, row: Row)
    ensures ImageName(prefix, row) == prefix + "-" + Suffix(row)
  {
    if row.service !in SHARED {
      assert prefix + "-" + row.coin + "-" + row.network + "-" + row.service
          == prefix + "-" + (row.coin + "-" + row.network + "-" + row.service);
    }
  }

  lemma JoinThree(parts: seq<string>, sep: char)
    requires |parts| >= 3
    ensures Join(parts, sep) == parts[0] + [sep] + parts[1] + [sep] + Join(parts[2..], sep)
  {
    assert parts[1..][1..] == parts[2..];
    assert Join(parts[1..], sep) == parts[1] + [sep] + Join(parts[2..], sep);
  }

  lemma SuffixOfIdentified(rest: string, row: Row)
    requires Identify(rest) == Some(row)
    ensures Registrable(row) && rest == Suffix(row)
  {
    if rest !in SHARED {
      JoinSplit(rest, '-');
      JoinThree(Split(rest, '-'), '-');
      NotShared(row.service);
    }
  }

  lemma NotShared(service: string)
    requires service in SERVICES || service == "node"
    ensures service !in SHARED
  {
  }

  lemma NamedAsClassified(prefix: string, c: Container, row: Row)
    requires Classify(prefix, c) == Some(row)
    ensures Registrable(row) && NameOf(c) == ImageName(prefix, row)
  {
    var rest := NameOf(c)[|prefix| + 1..];
    BeforeRest(prefix, NameOf(c));
    SuffixOfIdentified(rest, row);
    NameIsPrefixed(prefix, row);
  }

  // ----- keys -----------------------------------------------------------------------------

  function Key(row: Row): string { row.service + "|" + row.coin + "|" + row.network }

  lemma KeyCount(row: Row, x: char)
    ensures multiset(Key(row))[x]
            == multiset(row.service)[x] + multiset(row.coin)[x] + multiset(row.network)[x] + (if x == '|' then 2 else 0)
  {
    assert multiset(Key(row))
        == multiset(row.service) + multiset("|") + multiset(row.coin) + multiset("|") + multiset(row.network);
  }

  lemma BarInside(a: string, b: string, c: string, d: string)
    requires a + "|" + b == c + "|" + d && |a| < |c|
    ensures c[|a|] == '|'
  {
    assert (a + "|" + b)[|a|] == '|';
    assert (c + "|" + d)[|a|] == c[|a|];
  }

  lemma CutUnique(a: string, b: string, c: string, d: string)
    requires '|' !in a && '|' !in c && a + "|" + b == c + "|" + d
    ensures a == c && b == d
  {
    if |a| < |c| { BarInside(a, b, c, d); }
    if |c| < |a| { BarInside(c, d, a, b); }
    assert (a + "|" + b)[..|a|] == a && (c + "|" + d)[..|c|] == c;
    assert (a + "|" + b)[|a| + 1..] == b && (c + "|" + d)[|c| + 1..] == d;
  }

  lemma SharedHasNoBar(service: string)
    requires service in SHARED
    ensures '|' !in service
  {
  }

  lemma ServiceHasNoBar(service: string)
    requires service in SERVICES || service == "node"
    ensures '|' !in service
  {
  }

  lemma PartsHaveNoBar(row: Row)
    requires Registrable(row)
    ensures '|' !in row.service && '|' !in row.coin && '|' !in row.network
  {
    if row.service in SHARED {
      SharedHasNoBar(row.service);
    } else {
      ServiceHasNoBar(row.service);
    }
  }

  lemma SameKeyNoBar(a: Row, b: Row)
    requires Key(a) == Key(b)
    requires '|' !in a.service && '|' !in a.coin && '|' !in a.network
    ensures '|' !in b.service && '|' !in b.coin && '|' !in b.network
  {
    KeyCount(a, '|');
    KeyCount(b, '|');
    assert '|' !in multiset(b.service) && '|' !in multiset(b.coin) && '|' !in multiset(b.network);
  }

  /** Among all rows the table could hold, only the row of the classified identity has its key. */
  lemma KeyIdentifies(a: Row, b: Row)
    requires Registrable(a) && Key(a) == Key(b)
    ensures a == b
  {
    PartsHaveNoBar(a);
    SameKeyNoBar(a, b);
    ConcatAssociates(a.service + "|", a.coin + "|", a.network);
    ConcatAssociates(b.service + "|", b.coin + "|", b.network);
    assert Key(a) == a.service + "|" + (a.coin + "|" + a.network);
    assert Key(b) == b.service + "|" + (b.coin + "|" + b.network);
    CutUnique(a.service, a.coin + "|" + a.network, b.service, b.coin + "|" + b.network);
    CutUnique(a.coin, a.network, b.coin, b.network);
  }

  // ----- the running-first pass -----------------------------------------------------------

  function Lower(s: string): string
  {
    if s == "" then "" else [if 'A' <= s[0] <= 'Z' then (s[0] as int + 32) as char else s[0]] + Lower(s[1..])
  }

  predicate Running(c: Container) { Lower(c.state) == "running" }

  predicate NotRunning(c: Container) { !Running(c) }

  predicate RankLe(a: Container, b: Container) { Running(a) || NotRunning(b) }

  lemma {:induction false} InsertPast<T>(le: (T, T) -> bool, x: T, r: seq<T>, n: seq<T>)
    requires forall c :: c in r ==> !le(x, c)
    requires n == [] || le(x, n[0])
    ensures Insert(le, x, r + n) == r + ([x] + n)
  {
    if r == [] {
      InsertBefore(le, x, n);
      assert r + n == n;
    } else {
      var head, rest := r[0], r[1..];
      assert r == [head] + rest;
      InsertPast(le, x, rest, n);
      InsertAfterHead(le, x, head, rest + n);
      ConcatAssociates([head], rest, n);
      ConcatAssociates([head], rest, [x] + n);
    }
  }

  lemma InsertRanked(x: Container, r: seq<Container>, n: seq<Container>)
    requires (forall c :: c in r ==> Running(c)) && (forall c :: c in n ==> NotRunning(c))
    ensures Insert(RankLe, x, r + n) == if Running(x) then [x] + r + n else r + ([x] + n)
  {
    if Running(x) {
      InsertBefore(RankLe, x, r + n);
      ConcatAssociates([x], r, n);
    } else {
      InsertPast(RankLe, x, r, n);
    }
  }

  /** The in-place sort by rank is the running containers followed by the others, each in docker's order. */
  lemma {:induction false} RunningFirst(cs: seq<Container>)
    ensures SortBy(RankLe, cs) == Filter(Running, cs) + Filter(NotRunning, cs)
  {
    if cs != [] {
      var r, n := Filter(Running, cs[1..]), Filter(NotRunning, cs[1..]);
      RunningFirst(cs[1..]);
      InsertRanked(cs[0], r, n);
      assert SortBy(RankLe, cs) == Insert(RankLe, cs[0], r + n);
      if Running(cs[0]) {
        assert Filter(Running, cs) == [cs[0]] + r && Filter(NotRunning, cs) == n;
      } else {
        assert Filter(Running, cs) == r && Filter(NotRunning, cs) == [cs[0]] + n;
      }
    }
  }

  type Table = map<Row, string>

  /** Each classified identity with the first container that carries it. */
  function Target(prefix: string, cs: seq<Container>): (t: Table)
  {
    if cs == [] then map[]
    else
      var rest := Target(prefix, cs[..|cs| - 1]);
      var identity := Classify(prefix, cs[|cs| - 1]);
      if identity.None? || identity.value in rest then rest
      else rest[identity.value := cs[|cs| - 1].id]
  }

  function Matching(prefix: string, row: Row, cs: seq<Container>): (r: seq<Container>)
    ensures forall c :: c in r <==> c in cs && Classify(prefix, c) == Some(row)
  {
    Filter(c => Classify(prefix, c) == Some(row), cs)
  }

  lemma {:induction false} TargetIsFirst(prefix: string, cs: seq<Container>, row: Row)
    ensures row in Target(prefix, cs) <==> Matching(prefix, row, cs) != []
    ensures row in Target(prefix, cs) ==> Target(prefix, cs)[row] == Matching(prefix, row, cs)[0].id
  {
    if cs != [] {
      var n := |cs| - 1;
      TargetIsFirst(prefix, cs[..n], row);
      FilterTake(c => Classify(prefix, c) == Some(row), cs, n);
      assert cs[..n + 1] == cs;
    }
  }

  lemma {:induction false} TargetRegistrable(prefix: string, cs: seq<Container>)
    ensures forall row :: row in Target(prefix, cs) ==> Registrable(row)
  {
    if cs != [] {
      TargetRegistrable(prefix, cs[..|cs| - 1]);
      var identity := Classify(prefix, cs[|cs| - 1]);
      if identity.Some? { ClassifyInvertsNaming(prefix, cs[|cs| - 1], identity.value); }
    }
  }

  /** The row a scan leaves for a module: the newest running container of that name, else the newest
      of that name, else no row. */
  lemma ScanPicksRunning(prefix: string, cs: seq<Container>, row: Row)
    ensures var t := Target(prefix, SortBy(RankLe, cs));
      && (row in t <==> Matching(prefix, row, cs) != [])
      && (row in t ==>
            var up := Matching(prefix, row, Filter(Running, cs));
            t[row] == (if up != [] then up[0] else Matching(prefix, row, cs)[0]).id)
  {
    var sorted := SortBy(RankLe, cs);
    var fits := (c: Container) => Classify(prefix, c) == Some(row);
    RunningFirst(cs);
    TargetIsFirst(prefix, sorted, row);
    FilterSplits(fits, Filter(Running, cs), Filter(NotRunning, cs));
    var up := Matching(prefix, row, Filter(Running, cs));
    assert Matching(prefix, row, sorted) == up + Matching(prefix, row, Filter(NotRunning, cs));
    if up == [] {
      forall c | c in cs && fits(c) ensures NotRunning(c) {
        assert Running(c) ==> c in up;
      }
      FilterTwice(fits, NotRunning, cs);
    } else {
      assert up[0] in Filter(Running, cs);
      assert up[0] in Matching(prefix, row, cs);
    }
  }

  // ----- the target written out -----------------------------------------------------------

  /** A state docker calls running, in whatever case. */
  ghost predicate SaysRunning(state: string)
  {
    |state| == 7 && forall i :: 0 <= i < 7 ==> state[i] == "running"[i] || state[i] == "RUNNING"[i]
  }

  /** The container has this name, which docker prints with a slash in front or without. */
  ghost predicate Carries(c: Container, name: string)
  {
    c.name == "/" + name || (c.name == name && !(name != "" && name[0] == '/'))
  }

  /** The container has the name this install gives the module of a row. */
  ghost predicate NamedFor(prefix: string, c: Container, row: Row)
  {
    || (&& row.service in {"database", "xchain-hub", "xchain-explorer", "xchain-sync"}
        && row.coin == "" && row.network == "" && Carries(c, prefix + ("-" + row.service)))
    || (&& row.service in {"node", "xchain-encoder", "xchain-decoder", "xchain-utxo-tracker",
                           "xchain-regtest-miner", "xchain-indexer"}
        && row.coin in {"bitcoin", "litecoin", "dogecoin"} && row.network in {"mainnet", "testnet", "regtest"}
        && Carries(c, prefix + ("-" + row.coin + ("-" + row.network + ("-" + row.service)))))
  }

  lemma {:induction false} LowerAt(s: string)
    ensures |Lower(s)| == |s|
    ensures forall i :: 0 <= i < |s| ==> Lower(s)[i] == Lower([s[i]])[0]
  {
    if s != "" {
      LowerAt(s[1..]);
      assert [s[0]][1..] == "";
      forall i | 0 <= i < |s| ensures Lower(s)[i] == Lower([s[i]])[0] {
        if i > 0 { assert s[i] == s[1..][i - 1]; }
      }
    }
  }

  lemma LowerLetter(c: char, low: char, up: char)
    requires 'a' <= low <= 'z' && up as int + 32 == low as int
    ensures Lower([c])[0] == low <==> c == low || c == up
  {
    assert [c][1..] == "";
  }

  lemma RunningMeans(c: Container)
    ensures Running(c) <==> SaysRunning(c.state)
  {
    var s, low, up := c.state, "running", "RUNNING";
    LowerAt(s);
    if |s| == 7 {
      forall i | 0 <= i < 7 ensures Lower(s)[i] == low[i] <==> s[i] == low[i] || s[i] == up[i] {
        assert up[i] as int + 32 == low[i] as int && 'a' <= low[i] <= 'z';
        LowerLetter(s[i], low[i], up[i]);
      }
      assert Lower(s) == low <==> forall i :: 0 <= i < 7 ==> Lower(s)[i] == low[i];
    }
  }

  lemma CarriesMeans(c: Container, name: string)
    ensures NameOf(c) == name <==> Carries(c, name)
  {
    if c.name != "" && c.name[0] == '/' { assert c.name == "/" + c.name[1..]; }
    assert ("/" + name)[1..] == name;
  }

  lemma NamedForMeans(prefix: string, c: Container, row: Row)
    ensures Classify(prefix, c) == Some(row) <==> NamedFor(prefix, c, row)
  {
    ClassifyInvertsNaming(prefix, c, row);
    CarriesMeans(c, ImageName(prefix, row));
    RegistrableMeans(row);
    if Registrable(row) { ImageNameMeans(prefix, row); }
  }

  lemma ImageNameMeans(prefix: string, row: Row)
    ensures ImageName(prefix, row) == prefix + if row.service in SHARED then "-" + row.service
                                               else "-" + row.coin + ("-" + row.network + ("-" + row.service))
  {
    assert prefix + "-" + row.service == prefix + ("-" + row.service);
    assert prefix + "-" + row.coin + "-" + row.network + "-" + row.service
        == prefix + ("-" + row.coin + ("-" + row.network + ("-" + row.service)));
  }

  lemma RegistrableMeans(row: Row)
    ensures Registrable(row) <==>
      || (row.service in {"database", "xchain-hub", "xchain-explorer", "xchain-sync"}
          && row.coin == "" && row.network == "")
      || (row.service in {"node", "xchain-encoder", "xchain-decoder", "xchain-utxo-tracker",
                          "xchain-regtest-miner", "xchain-indexer"}
          && row.coin in {"bitcoin", "litecoin", "dogecoin"} && row.network in {"mainnet", "testnet", "regtest"})
    ensures row.service in SHARED <==> row.service in {"database", "xchain-hub", "xchain-explorer", "xchain-sync"}
  {
  }

  lemma {:induction false} FirstKept(keep: Container -> bool, cs: seq<Container>) returns (i: nat)
    requires Filter(keep, cs) != []
    ensures i < |cs| && keep(cs[i]) && Filter(keep, cs)[0] == cs[i]
    ensures forall j :: 0 <= j < i ==> !keep(cs[j])
  {
    if keep(cs[0]) {
      i := 0;
    } else {
      var k := FirstKept(keep, cs[1..]);
      i := k + 1;
    }
  }

  lemma {:induction false} FilterBoth(f: Container -> bool, g: Container -> bool, both: Container -> bool,
                                      cs: seq<Container>)
    requires forall c :: both(c) <==> f(c) && g(c)
    ensures Filter(f, Filter(g, cs)) == Filter(both, cs)
  {
    if cs != [] {
      var kept := if g(cs[0]) then [cs[0]] else [];
      FilterBoth(f, g, both, cs[1..]);
      FilterSplits(f, kept, Filter(g, cs[1..]));
    }
  }

  /** The first that both fits and runs, else the first that fits. */
  ghost predicate FirstByRank(fits: Container -> bool, runs: Container -> bool, cs: seq<Container>, i: nat)
    requires i < |cs|
  {
    && fits(cs[i])
    && if runs(cs[i]) then forall j :: 0 <= j < i ==> !(fits(cs[j]) && runs(cs[j]))
       else (forall j :: 0 <= j < i ==> !fits(cs[j])) && forall j :: 0 <= j < |cs| && fits(cs[j]) ==> !runs(cs[j])
  }

  lemma RankedFirst(fits: Container -> bool, runs: Container -> bool, cs: seq<Container>) returns (i: nat)
    requires Filter(fits, cs) != []
    ensures i < |cs| && FirstByRank(fits, runs, cs, i)
    ensures var up := Filter(fits, Filter(runs, cs));
            cs[i] == if up != [] then up[0] else Filter(fits, cs)[0]
  {
    var both := (c: Container) => fits(c) && runs(c);
    FilterBoth(fits, runs, both, cs);
    if Filter(both, cs) != [] {
      i := FirstKept(both, cs);
    } else {
      i := FirstKept(fits, cs);
      forall j | 0 <= j < |cs| && fits(cs[j]) ensures !runs(cs[j]) {
        assert cs[j] in cs && cs[j] !in Filter(both, cs);
      }
    }
  }

  /** The container that decides a module's row: the first of its name that runs, else the first. */
  ghost predicate Decides(prefix: string, cs: seq<Container>, row: Row, i: nat)
    requires i < |cs|
  {
    && NamedFor(prefix, cs[i], row)
    && if SaysRunning(cs[i].state) then
         forall j :: 0 <= j < i ==> !(NamedFor(prefix, cs[j], row) && SaysRunning(cs[j].state))
       else
         && (forall j :: 0 <= j < i ==> !NamedFor(prefix, cs[j], row))
         && (forall j :: 0 <= j < |cs| && NamedFor(prefix, cs[j], row) ==> !SaysRunning(cs[j].state))
  }

  /** The table a scan works towards has a row for exactly the modules some container is named for, with
      the id of the container that decides. */
  lemma TargetMeans(prefix: string, cs: seq<Container>, row: Row)
    ensures var t := Target(prefix, SortBy(RankLe, cs));
      && (row in t <==> exists i :: 0 <= i < |cs| && NamedFor(prefix, cs[i], row))
      && (row in t ==> exists i :: 0 <= i < |cs| && Decides(prefix, cs, row, i) && t[row] == cs[i].id)
  {
    var t := Target(prefix, SortBy(RankLe, cs));
    var all := Matching(prefix, row, cs);
    ScanPicksRunning(prefix, cs, row);
    if row in t {
      assert all[0] in all;
      var k :| 0 <= k < |cs| && cs[k] == all[0];
      NamedForMeans(prefix, cs[k], row);
      var i := RankedFirst(c => Classify(prefix, c) == Some(row), Running, cs);
      RankDecides(prefix, cs, row, i);
    }
    if i :| 0 <= i < |cs| && NamedFor(prefix, cs[i], row) {
      NamedForMeans(prefix, cs[i], row);
      assert cs[i] in all;
    }
  }

  lemma RankDecides(prefix: string, cs: seq<Container>, row: Row, i: nat)
    requires i < |cs| && FirstByRank(c => Classify(prefix, c) == Some(row), Running, cs, i)
    ensures Decides(prefix, cs, row, i)
  {
    forall j | 0 <= j < |cs|
      ensures Classify(prefix, cs[j]) == Some(row) <==> NamedFor(prefix, cs[j], row)
      ensures Running(cs[j]) <==> SaysRunning(cs[j].state)
    {
      NamedForMeans(prefix, cs[j], row);
      RunningMeans(cs[j]);
    }
  }

  // ----- the registry, as the scan updates it ---------------------------------------------

  function Get(t: Table, row: Row): Option<string> { if row in t then Some(t[row]) else None }

  /** The keys that differ between two tables: added, repointed or removed. */
  function Changed(t: Table, u: Table): (r: set<Row>)
    ensures forall row :: row in r <==> Get(t, row) != Get(u, row)
  {
    set row | row in t.Keys + u.Keys && Get(t, row) != Get(u, row)
  }

  /** The modules table. `readOnly` holds the rows whose upsert the database refuses, and `stuck`
      those whose delete it refuses. */
  class Registry {
    var rows: Table
    const readOnly: set<Row>
    const stuck: set<Row>

    constructor (rows: Table, readOnly: set<Row>, stuck: set<Row>)
      ensures this.rows == rows && this.readOnly == readOnly && this.stuck == stuck
    {
      this.rows, this.readOnly, this.stuck := rows, readOnly, stuck;
    }

    method Set(row: Row, id: string) returns (ok: bool)
      modifies this
      ensures ok <==> row !in readOnly
      ensures rows == if ok then old(rows)[row := id] else old(rows)
    {
      ok := row !in readOnly;
      if ok { rows := rows[row := id]; }
    }

    /** Every row, in whatever order the query returns them. */
    method AllRows() returns (all: seq<Row>)
      ensures Distinct(all) && forall row :: row in all <==> row in rows
    {
      all := Listing(rows.Keys);
    }

    method Delete(row: Row)
      modifies this
      ensures rows == if row in stuck then old(rows) else old(rows) - {row}
    {
      if row !in stuck { rows := rows - {row}; }
    }
  }

  /** The identities that a pass would have to write and cannot. */
  ghost predicate Refuses(readOnly: set<Row>, rows: Table, target: Table)
  {
    exists row :: row in target && row in readOnly && Get(rows, row) != Some(target[row])
  }

  lemma ChangedSnoc(t: Table, u: Table, row: Row, id: string)
    requires Get(u, row) == Get(t, row) && Get(t, row) != Some(id)
    ensures Changed(t, u[row := id]) == Changed(t, u) + {row} && row !in Changed(t, u)
  {
  }

  lemma Overwrite(t: Table, target: Table, row: Row, id: string)
    requires row !in target
    ensures t + target[row := id] == (t + target)[row := id]
    ensures Get(t, row) == Some(id) ==> (t + target)[row := id] == t + target
  {
  }

  function Keys(t: Table): (r: set<string>)
    ensures forall row :: row in t ==> Key(row) in r
  {
    set row | row in t :: Key(row)
  }

  lemma KeysSnoc(t: Table, row: Row, id: string)
    ensures Keys(t[row := id]) == Keys(t) + {Key(row)}
  {
    assert forall k :: k in Keys(t) + {Key(row)} ==> k in Keys(t[row := id]);
  }

  lemma SeenExactly(t: Table, row: Row)
    requires Registrable(row)
    ensures Key(row) in Keys(t) <==> row in t
  {
    if Key(row) in Keys(t) {
      var other :| other in t && Key(other) == Key(row);
      KeyIdentifies(row, other);
    }
  }

  lemma RefusesSnoc(readOnly: set<Row>, rows: Table, target: Table, row: Row, id: string)
    requires row !in target
    ensures Refuses(readOnly, rows, target[row := id])
            <==> Refuses(readOnly, rows, target) || (row in readOnly && Get(rows, row) != Some(id))
  {
    var u := target[row := id];
    if Refuses(readOnly, rows, target) {
      var k :| k in target && k in readOnly && Get(rows, k) != Some(target[k]);
      assert k in u && u[k] == target[k];
    }
    if row in readOnly && Get(rows, row) != Some(id) {
      assert row in u && u[row] == id;
    }
  }

  lemma {:induction false} TargetGrows(prefix: string, cs: seq<Container>, n: nat)
    requires n <= |cs|
    ensures forall row :: row in Target(prefix, cs[..n]) ==>
              row in Target(prefix, cs) && Target(prefix, cs)[row] == Target(prefix, cs[..n])[row]
    decreases |cs|
  {
    if n < |cs| {
      TargetGrows(prefix, cs[..|cs| - 1], n);
      assert cs[..|cs| - 1][..n] == cs[..n];
    } else {
      assert cs[..n] == cs;
    }
  }

  lemma RefusesEarly(readOnly: set<Row>, rows: Table, prefix: string, cs: seq<Container>, n: nat)
    requires n <= |cs| && Refuses(readOnly, rows, Target(prefix, cs[..n]))
    ensures Refuses(readOnly, rows, Target(prefix, cs))
  {
    TargetGrows(prefix, cs, n);
  }

  lemma TargetSnoc(prefix: string, cs: seq<Container>, n: nat)
    requires n < |cs|
    ensures var rest, identity := Target(prefix, cs[..n]), Classify(prefix, cs[n]);
      Target(prefix, cs[..n + 1])
      == if identity.None? || identity.value in rest then rest else rest[identity.value := cs[n].id]
  {
    assert cs[..n + 1][..n] == cs[..n];
  }

  /** One container's turn: what it registers, and whether that changes the table. */
  method Register(db: Registry, row: Row, id: string) returns (ok: bool, change: bool)
    modifies db
    ensures ok <==> Get(old(db.rows), row) == Some(id) || row !in db.readOnly
    ensures db.rows == if ok then old(db.rows)[row := id] else old(db.rows)
    ensures ok ==> (change <==> Get(old(db.rows), row) != Some(id))
  {
    change := row !in db.rows || db.rows[row] != id;
    if change {
      ok := db.Set(row, id);
    } else {
      ok := true;
      assert db.rows == db.rows[row := id];
    }
  }

  /** What the pass over the first containers has done to a table. */
  ghost predicate Registered(before: Table, after: Table, target: Table, changes: nat, seen: set<string>)
  {
    after == before + target && changes == |Changed(before, after)| && seen == Keys(target)
  }

  lemma RegisteredSnoc(before: Table, after: Table, target: Table, changes: nat, seen: set<string>, row: Row,
                       id: string)
    requires Registered(before, after, target, changes, seen) && row !in target
    ensures Registered(before, after[row := id], target[row := id],
                       changes + (if Get(before, row) != Some(id) then 1 else 0), seen + {Key(row)})
    ensures Get(after, row) == Get(before, row)
  {
    Overwrite(before, target, row, id);
    KeysSnoc(target, row, id);
    if Get(before, row) != Some(id) {
      ChangedSnoc(before, after, row, id);
    }
  }

  lemma NextContainer(readOnly: set<Row>, before: Table, prefix: string, cs: seq<Container>, i: nat)
    requires i < |cs| && Classify(prefix, cs[i]).Some?
    ensures var target, row := Target(prefix, cs[..i]), Classify(prefix, cs[i]).value;
      && (Key(row) in Keys(target) <==> row in target)
      && Target(prefix, cs[..i + 1]) == (if row in target then target else target[row := cs[i].id])
      && (row !in target ==>
            (Refuses(readOnly, before, Target(prefix, cs[..i + 1]))
             <==> Refuses(readOnly, before, target) || (row in readOnly && Get(before, row) != Some(cs[i].id))))
  {
    var target, row := Target(prefix, cs[..i]), Classify(prefix, cs[i]).value;
    TargetSnoc(prefix, cs, i);
    ClassifyInvertsNaming(prefix, cs[i], row);
    SeenExactly(target, row);
    if row !in target {
      RefusesSnoc(readOnly, before, target, row, cs[i].id);
    }
  }

  /** Where the pass stands before its `i`th container. */
  ghost predicate PassAt(db: Registry, before: Table, prefix: string, sorted: seq<Container>, i: nat,
                         changes: nat, seen: set<string>)
    requires i <= |sorted|
    reads db
  {
    && Registered(before, db.rows, Target(prefix, sorted[..i]), changes, seen)
    && !Refuses(db.readOnly, before, Target(prefix, sorted[..i]))
  }

  /** The pass ended at its `i`th container, whose row had to be written and could not be, with the
      containers before it registered and nothing else done. */
  ghost predicate StoppedAt(readOnly: set<Row>, before: Table, after: Table, prefix: string,
                            sorted: seq<Container>, i: nat, row: Row)
    requires i < |sorted|
  {
    var target := Target(prefix, sorted[..i]);
    && Classify(prefix, sorted[i]) == Some(row) && row !in target
    && row in readOnly && Get(before, row) != Some(sorted[i].id)
    && !Refuses(readOnly, before, target)
    && after == before + target
  }

  ghost predicate Stopped(readOnly: set<Row>, before: Table, after: Table, prefix: string,
                          sorted: seq<Container>, row: Row)
  {
    exists i :: 0 <= i < |sorted| && StoppedAt(readOnly, before, after, prefix, sorted, i, row)
  }

  method RegisterContainer(db: Registry, ghost before: Table, prefix: string, sorted: seq<Container>, i: nat,
                           changes: nat, seen: set<string>)
      returns (refused: Option<Row>, changes': nat, seen': set<string>)
    requires i < |sorted| && PassAt(db, before, prefix, sorted, i, changes, seen)
    modifies db
    ensures refused.None? ==> PassAt(db, before, prefix, sorted, i + 1, changes', seen')
    ensures refused.Some? ==> StoppedAt(db.readOnly, before, db.rows, prefix, sorted, i, refused.value)
    ensures refused.Some? ==> Refuses(db.readOnly, before, Target(prefix, sorted[..i + 1]))
  {
    refused, changes', seen' := None, changes, seen;
    var identity := Classify(prefix, sorted[i]);
    if identity.None? {
      TargetSnoc(prefix, sorted, i);
      return;
    }
    var row := identity.value;
    NextContainer(db.readOnly, before, prefix, sorted, i);
    if Key(row) in seen { return; }
    seen' := seen + {Key(row)};
    RegisteredSnoc(before, db.rows, Target(prefix, sorted[..i]), changes, seen, row, sorted[i].id);
    var ok, change := Register(db, row, sorted[i].id);
    if !ok {
      refused := Some(row);
    } else if change {
      changes' := changes + 1;
    }
  }

  /** The first pass: it fails exactly when some identity's row has to be written and cannot be, and
      then stops there with the containers before it registered; otherwise it lays the target over
      the table and counts the rows it changed. */
  method RegisterContainers(db: Registry, prefix: string, containers: seq<Container>)
      returns (r: Result<nat, Row>, seen: set<string>)
    modifies db
    ensures r.Err? <==> Refuses(db.readOnly, old(db.rows), Target(prefix, SortBy(RankLe, containers)))
    ensures r.Err? ==>
              Stopped(db.readOnly, old(db.rows), db.rows, prefix, SortBy(RankLe, containers), r.error)
    ensures r.Ok? ==> Registered(old(db.rows), db.rows, Target(prefix, SortBy(RankLe, containers)), r.value, seen)
  {
    var sorted := SortBy(RankLe, containers);
    var changes: nat := 0;
    seen := {};
    var i := 0;
    while i < |sorted|
      invariant i <= |sorted|
      invariant PassAt(db, old(db.rows), prefix, sorted, i, changes, seen)
    {
      var refused;
      refused, changes, seen := RegisterContainer(db, old(db.rows), prefix, sorted, i, changes, seen);
      if refused.Some? {
        RefusesEarly(db.readOnly, old(db.rows), prefix, sorted, i + 1);
        return Err(refused.value), seen;
      }
      i := i + 1;
    }
    assert sorted[..i] == sorted;
    r := Ok(changes);
  }

  // ----- the purge ------------------------------------------------------------------------

  /** The rows no container backs. */
  function Orphans(rows: Table, seen: set<string>): (r: set<Row>)
    ensures forall row :: row in r <==> row in rows && Key(row) !in seen
  {
    set row | row in rows && Key(row) !in seen
  }

  function Unseen(rows: seq<Row>, seen: set<string>): (r: set<Row>)
    ensures forall row :: row in r <==> row in rows && Key(row) !in seen
  {
    set row | row in rows && Key(row) !in seen
  }

  lemma UnseenSnoc(all: seq<Row>, i: nat, seen: set<string>)
    requires i < |all| && Distinct(all)
    ensures all[i] !in Unseen(all[..i], seen)
    ensures Unseen(all[..i + 1], seen) == Unseen(all[..i], seen) + (if Key(all[i]) in seen then {} else {all[i]})
  {
    assert all[..i + 1] == all[..i] + [all[i]];
  }

  /** A table after the deletes of some rows, of which the stuck ones stay. */
  function Without(rows: Table, gone: set<Row>, stuck: set<Row>): Table
  {
    rows - (gone - stuck)
  }

  lemma WithoutOne(rows: Table, gone: set<Row>, stuck: set<Row>, row: Row)
    ensures Without(rows, gone + {row}, stuck)
            == if row in stuck then Without(rows, gone, stuck) else Without(rows, gone, stuck) - {row}
  {
    if row in stuck {
      assert (gone + {row}) - stuck == gone - stuck;
    } else {
      assert (gone + {row}) - stuck == (gone - stuck) + {row};
    }
  }

  /** The second pass: it visits the rows in whatever order the query returns them, and counts a row
      as removed without looking at the delete's answer. */
  method RemoveOrphanRows(db: Registry, seen: set<string>, all: seq<Row>) returns (removed: nat)
    requires Distinct(all) && forall row :: row in all <==> row in db.rows
    modifies db
    ensures db.rows == Without(old(db.rows), Orphans(old(db.rows), seen), db.stuck)
    ensures removed == |Orphans(old(db.rows), seen)|
  {
    removed := 0;
    var i := 0;
    while i < |all|
      invariant i <= |all|
      invariant removed == |Unseen(all[..i], seen)|
      invariant db.rows == Without(old(db.rows), Unseen(all[..i], seen), db.stuck)
    {
      UnseenSnoc(all, i, seen);
      if Key(all[i]) !in seen {
        WithoutOne(old(db.rows), Unseen(all[..i], seen), db.stuck, all[i]);
        db.Delete(all[i]);
        removed := removed + 1;
      }
      i := i + 1;
    }
    assert all[..i] == all;
    assert Unseen(all, seen) == Orphans(old(db.rows), seen);
  }

  // ----- the whole scan -------------------------------------------------------------------

  /** The rows outside the target that the database would not delete. */
  function Kept(rows: Table, target: Table, stuck: set<Row>): (r: set<Row>)
    ensures forall row :: row in r <==> row in rows && row !in target && row in stuck
  {
    set row | row in rows && row !in target && row in stuck
  }

  function AfterScan(rows: Table, target: Table, stuck: set<Row>): (r: Table)
    ensures forall row :: Get(r, row) ==
              if row in target then Some(target[row])
              else if row in Kept(rows, target, stuck) then Some(rows[row]) else None
  {
    (map row | row in Kept(rows, target, stuck) :: rows[row]) + target
  }

  lemma OrphansAreOutside(rows: Table, target: Table)
    requires forall row :: row in target ==> Registrable(row)
    ensures Orphans(rows, Keys(target)) == rows.Keys - target.Keys
  {
    forall row | row in rows ensures Key(row) in Keys(target) <==> row in target {
      if Key(row) in Keys(target) {
        var other :| other in target && Key(other) == Key(row);
        KeyIdentifies(other, row);
      }
    }
  }

  lemma ChangesSplit(rows: Table, target: Table)
    ensures Changed(rows, target) == Changed(rows, rows + target) + (rows.Keys - target.Keys)
    ensures Changed(rows, rows + target) !! rows.Keys - target.Keys
  {
    var u := rows + target;
    forall row ensures Get(u, row) == if row in target then Some(target[row]) else Get(rows, row) {
    }
  }

  lemma ChangesAddUp(rows: Table, target: Table)
    ensures |Changed(rows, target)| == |Changed(rows, rows + target)| + |rows.Keys - target.Keys|
  {
    ChangesSplit(rows, target);
    DisjointSize(Changed(rows, rows + target), rows.Keys - target.Keys);
  }

  lemma PurgedTable(rows: Table, target: Table, stuck: set<Row>)
    ensures Without(rows + target, rows.Keys - target.Keys, stuck) == AfterScan(rows, target, stuck)
  {
    var u, v := Without(rows + target, rows.Keys - target.Keys, stuck), AfterScan(rows, target, stuck);
    SameTable(u, v);
  }

  lemma KeepsOrphans(rows: Table, target: Table)
    ensures (rows + target).Keys - target.Keys == rows.Keys - target.Keys
  {
  }

  /** A scan: it fails exactly when an identity's row cannot be written; otherwise the table becomes
      the target, but for rows the database would not delete, and the returned number is the number
      of keys on which the table differed from the target. */
  method ScanAndRegisterModules(db: Registry, prefix: string, containers: seq<Container>) returns (r: Result<nat, Row>)
    modifies db
    ensures r.Err? <==> Refuses(db.readOnly, old(db.rows), Target(prefix, SortBy(RankLe, containers)))
    ensures r.Err? ==>
              Stopped(db.readOnly, old(db.rows), db.rows, prefix, SortBy(RankLe, containers), r.error)
    ensures r.Ok? ==> db.rows == AfterScan(old(db.rows), Target(prefix, SortBy(RankLe, containers)), db.stuck)
    ensures r.Ok? ==> r.value == |Changed(old(db.rows), Target(prefix, SortBy(RankLe, containers)))|
  {
    ghost var target := Target(prefix, SortBy(RankLe, containers));
    ghost var before := db.rows;
    var registered, seen := RegisterContainers(db, prefix, containers);
    if registered.Err? { return registered; }
    TargetRegistrable(prefix, SortBy(RankLe, containers));
    OrphansAreOutside(db.rows, target);
    KeepsOrphans(before, target);
    ChangesAddUp(before, target);
    PurgedTable(before, target, db.stuck);
    var all := db.AllRows();
    var removed := RemoveOrphanRows(db, seen, all);
    r := Ok(registered.value + removed);
  }

  /** The returned number is the number of keys that changed exactly when the database kept no row
      the scan wanted gone, and the next scan of the same list returns 0 on the same condition:
      otherwise each scan counts every kept row as removed, again. */
  lemma CountIsExactUnlessKept(rows: Table, target: Table, stuck: set<Row>)
    ensures var after := AfterScan(rows, target, stuck);
      && (|Changed(rows, target)| == |Changed(rows, after)| <==> Kept(rows, target, stuck) == {})
      && |Changed(after, target)| == |Kept(rows, target, stuck)|
      && AfterScan(after, target, stuck) == after
      && (Kept(rows, target, stuck) == {} ==> after == target)
  {
    var after, kept := AfterScan(rows, target, stuck), Kept(rows, target, stuck);
    assert Changed(rows, target) == Changed(rows, after) + kept;
    assert Changed(rows, after) !! kept;
    assert Changed(after, target) == kept;
    assert Kept(after, target, stuck) == kept;
    SameTable(AfterScan(after, target, stuck), after);
    if kept == {} { SameTable(after, target); }
  }

  /** So a row that is the only one, backed by no container and not to be deleted, is reported as one
      change by every scan, and none of them changes anything. */
  lemma StuckOrphanIsCountedForEver(prefix: string, row: Row, id: string)
    ensures var rows, target, stuck := map[row := id], Target(prefix, SortBy(RankLe, [])), {row};
      && AfterScan(rows, target, stuck) == rows
      && |Changed(rows, target)| == 1
      && |Changed(rows, AfterScan(rows, target, stuck))| == 0
  {
    var rows, target: Table, stuck := map[row := id], Target(prefix, SortBy(RankLe, [])), {row};
    assert target == map[];
    SameTable(AfterScan(rows, target, stuck), rows);
    assert Changed(rows, target) == {row};
    assert Changed(rows, rows) == {};
  }

  lemma SameTable(t: Table, u: Table)
    requires forall row :: Get(t, row) == Get(u, row)
    ensures t == u
  {
    assert forall row :: row in t <==> Get(t, row).Some?;
    assert forall row :: row in u <==> Get(u, row).Some?;
  }
}
