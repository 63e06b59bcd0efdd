/** The checkpoint reset of every rail hub: the stacks found among the containers, the tables to
    rebuild, and the stop, rebuild, restart procedure in which any docker call may fail. */
module HubReset {
  import opened Base

  datatype Container = Container(id: string, name: string, up: bool)

  datatype Stack = Stack(hub: Container, database: Container, mirrors: seq<Container>)

  const HUB_SUFFIX := "-xchain-hub"
  const COINS := {"bitcoin", "litecoin", "dogecoin"}
  const NETWORKS := {"mainnet", "testnet", "regtest"}
  const HUB_TABLES := ["state_checkpoints", "snapshot_checkpoints", "anchor_published_checkpoints"]
  const MIRROR_TABLE := "state_checkpoints"

  // ----- the stacks -----------------------------------------------------------------------

  predicate IsIndexer(prefix: string, name: string)
  {
    exists coin, network :: coin in COINS && network in NETWORKS
      && name == prefix + "-" + coin + "-" + network + "-xchain-indexer"
  }

  predicate IsMirror(prefix: string, name: string)
  {
    IsIndexer(prefix, name) || name == prefix + "-xchain-explorer"
  }

  function Prefix(hub: Container): string
    requires EndsWith(hub.name, HUB_SUFFIX)
  {
    hub.name[..|hub.name| - |HUB_SUFFIX|]
  }

  function Find(cs: seq<Container>, name: string): Option<Container>
  {
    if cs == [] then None else if cs[0].name == name then Some(cs[0]) else Find(cs[1..], name)
  }

  function StackOf(cs: seq<Container>, hub: Container): Option<Stack>
    requires EndsWith(hub.name, HUB_SUFFIX)
  {
    var database := Find(cs, Prefix(hub) + "-database");
    if database.None? then None
    else Some(Stack(hub, database.value, Filter((c: Container) => IsMirror(Prefix(hub), c.name), cs)))
  }

  function StacksOf(cs: seq<Container>, hubs: seq<Container>): Option<seq<Stack>>
    requires forall h :: h in hubs ==> EndsWith(h.name, HUB_SUFFIX)
  {
    if hubs == [] then Some([])
    else
      var first, rest := StackOf(cs, hubs[0]), StacksOf(cs, hubs[1..]);
      if first.None? || rest.None? then None else Some([first.value] + rest.value)
  }

  function Hubs(cs: seq<Container>): seq<Container> { Filter((c: Container) => EndsWith(c.name, HUB_SUFFIX), cs) }

  /** None: no hub at all, or a hub whose database container is missing. */
  function RailStacks(cs: seq<Container>): Option<seq<Stack>>
  {
    if Hubs(cs) == [] then None else StacksOf(cs, Hubs(cs))
  }

  // ----- distinct hubs have distinct mirrors ----------------------------------------------

  lemma SameSuffixSamePrefix(p: string, q: string, s: string)
    requires p + s == q + s
    ensures p == q
  {
    assert |p| == |q|;
    assert (p + s)[..|p|] == p && (q + s)[..|q|] == q;
  }

  /** The last dash-separated words of an indexer's name are its coin and network. */
  lemma IndexerPrefix(p: string, q: string, coin: string, network: string, coin': string, network': string)
    requires coin in COINS && network in NETWORKS && coin' in COINS && network' in NETWORKS
    requires p + "-" + coin + "-" + network + "-xchain-indexer" == q + "-" + coin' + "-" + network' + "-xchain-indexer"
    ensures p == q
  {
    SameSuffixSamePrefix(p + "-" + coin + "-" + network, q + "-" + coin' + "-" + network', "-xchain-indexer");
    LastWord(p + "-" + coin, network, q + "-" + coin', network');
    LastWord(p, coin, q, coin');
  }

  lemma LastWord(a: string, x: string, b: string, y: string)
    requires a + "-" + x == b + "-" + y && '-' !in x && '-' !in y
    ensures a == b && x == y
  {
    var s := a + "-" + x;
    assert s[|a|] == '-' && s[|b|] == '-';
    if |a| < |b| { DashInside(a, x, b, y); }
    if |b| < |a| { DashInside(b, y, a, x); }
    assert (a + "-" + x)[..|a|] == a && (b + "-" + y)[..|b|] == b;
    assert (a + "-" + x)[|a| + 1..] == x && (b + "-" + y)[|b| + 1..] == y;
  }

  lemma DashInside(a: string, x: string, b: string, y: string)
    requires a + "-" + x == b + "-" + y && |a| < |b|
    ensures '-' in x
  {
    assert (b + "-" + y)[|b|] == '-';
    assert (a + "-" + x)[|b|] == x[|b| - |a| - 1];
  }

  lemma LastLetter(p: string, s: string, k: nat)
    requires 0 < k <= |s|
    ensures (p + s)[|p + s| - k] == s[|s| - k]
  {
  }

  lemma HubLetter(name: string)
    requires EndsWith(name, HUB_SUFFIX)
    ensures name[|name| - 3] == 'h'
  {
    assert name[|name| - |HUB_SUFFIX|..][|HUB_SUFFIX| - 3] == name[|name| - 3];
  }

  lemma IndexerIsNoExplorer(p: string, q: string, name: string)
    requires IsIndexer(p, name)
    ensures name != q + "-xchain-explorer" && !EndsWith(name, HUB_SUFFIX)
  {
    var coin, network :| coin in COINS && network in NETWORKS
      && name == p + "-" + coin + "-" + network + "-xchain-indexer";
    LastLetter(p + "-" + coin + "-" + network, "-xchain-indexer", 3);
    LastLetter(q, "-xchain-explorer", 3);
    assert name[|name| - 3] == 'x';
    if EndsWith(name, HUB_SUFFIX) { HubLetter(name); }
  }

  /** A container mirrors at most one hub, and no hub is a mirror. */
  lemma MirrorOfOne(p: string, q: string, name: string)
    requires IsMirror(p, name) && IsMirror(q, name)
    ensures p == q
  {
    if IsIndexer(p, name) {
      IndexerIsNoExplorer(p, q, name);
      var coin, network :| coin in COINS && network in NETWORKS
        && name == p + "-" + coin + "-" + network + "-xchain-indexer";
      var coin', network' :| coin' in COINS && network' in NETWORKS
        && name == q + "-" + coin' + "-" + network' + "-xchain-indexer";
      IndexerPrefix(p, q, coin, network, coin', network');
    } else if IsIndexer(q, name) {
      IndexerIsNoExplorer(q, p, name);
    } else {
      SameSuffixSamePrefix(p, q, "-xchain-explorer");
    }
  }

  lemma ExplorerIsNoHub(p: string)
    ensures !EndsWith(p + "-xchain-explorer", HUB_SUFFIX)
  {
    LastLetter(p, "-xchain-explorer", 3);
    if EndsWith(p + "-xchain-explorer", HUB_SUFFIX) { HubLetter(p + "-xchain-explorer"); }
  }

  lemma HubIsNoMirror(p: string, name: string)
    requires IsMirror(p, name)
    ensures !EndsWith(name, HUB_SUFFIX)
  {
    if IsIndexer(p, name) { IndexerIsNoExplorer(p, p, name); } else { ExplorerIsNoHub(p); }
  }

  /** Docker's own guarantee: no two containers share a name or an id. */
  ghost predicate Listed(cs: seq<Container>)
  {
    forall i, j :: 0 <= i < j < |cs| ==> cs[i].id != cs[j].id && cs[i].name != cs[j].name
  }

  function HubsOf(stacks: seq<Stack>): (r: seq<Container>)
    ensures |r| == |stacks|
  {
    seq(|stacks|, i requires 0 <= i < |stacks| => stacks[i].hub)
  }

  /** The mirrors of every stack, stack by stack. */
  function MirrorsOf(stacks: seq<Stack>): seq<Container>
  {
    if stacks == [] then [] else stacks[0].mirrors + MirrorsOf(stacks[1..])
  }

  function Ids(cs: seq<Container>): (r: seq<string>)
    ensures |r| == |cs|
  {
    seq(|cs|, i requires 0 <= i < |cs| => cs[i].id)
  }

  ghost predicate MirrorOfSome(hubs: seq<Container>, name: string)
    requires forall h :: h in hubs ==> EndsWith(h.name, HUB_SUFFIX)
  {
    exists h :: h in hubs && IsMirror(Prefix(h), name)
  }

  lemma MirrorOfSomeCons(hubs: seq<Container>, name: string)
    requires hubs != [] && forall h :: h in hubs ==> EndsWith(h.name, HUB_SUFFIX)
    ensures MirrorOfSome(hubs, name) <==> IsMirror(Prefix(hubs[0]), name) || MirrorOfSome(hubs[1..], name)
  {
    assert forall h :: h in hubs <==> h == hubs[0] || h in hubs[1..];
  }

  lemma StacksCons(cs: seq<Container>, hubs: seq<Container>)
    requires hubs != [] && forall h :: h in hubs ==> EndsWith(h.name, HUB_SUFFIX)
    requires StacksOf(cs, hubs).Some?
    ensures StackOf(cs, hubs[0]).Some? && StacksOf(cs, hubs[1..]).Some?
    ensures var first, rest := StackOf(cs, hubs[0]).value, StacksOf(cs, hubs[1..]).value;
      && StacksOf(cs, hubs).value == [first] + rest
      && MirrorsOf(StacksOf(cs, hubs).value) == first.mirrors + MirrorsOf(rest)
      && HubsOf(StacksOf(cs, hubs).value) == [hubs[0]] + HubsOf(rest)
  {
    var first, rest := StackOf(cs, hubs[0]).value, StacksOf(cs, hubs[1..]).value;
    assert ([first] + rest)[1..] == rest;
    assert HubsOf([first] + rest) == [first.hub] + HubsOf(rest);
  }

  lemma OwnMirrors(cs: seq<Container>, hub: Container, m: Container)
    requires EndsWith(hub.name, HUB_SUFFIX) && StackOf(cs, hub).Some?
    ensures m in StackOf(cs, hub).value.mirrors <==> m in cs && IsMirror(Prefix(hub), m.name)
  {
  }

  lemma {:induction false} StacksShape(cs: seq<Container>, hubs: seq<Container>)
    requires forall h :: h in hubs ==> EndsWith(h.name, HUB_SUFFIX)
    requires StacksOf(cs, hubs).Some?
    ensures HubsOf(StacksOf(cs, hubs).value) == hubs
    ensures forall m :: m in MirrorsOf(StacksOf(cs, hubs).value) <==> m in cs && MirrorOfSome(hubs, m.name)
  {
    if hubs != [] {
      StacksCons(cs, hubs);
      StacksShape(cs, hubs[1..]);
      assert hubs == [hubs[0]] + hubs[1..];
      forall m ensures m in MirrorsOf(StacksOf(cs, hubs).value) <==> m in cs && MirrorOfSome(hubs, m.name) {
        MirrorOfSomeCons(hubs, m.name);
        OwnMirrors(cs, hubs[0], m);
      }
    }
  }

  lemma ListedCons(x: Container, rest: seq<Container>)
    requires Listed(rest) && forall c :: c in rest ==> c.id != x.id && c.name != x.name
    ensures Listed([x] + rest)
  {
  }

  lemma ListedHead(cs: seq<Container>)
    requires Listed(cs) && cs != []
    ensures Listed(cs[1..]) && forall c :: c in cs[1..] ==> c.id != cs[0].id && c.name != cs[0].name
  {
  }

  lemma {:induction false} FilterListed(keep: Container -> bool, cs: seq<Container>)
    requires Listed(cs)
    ensures Listed(Filter(keep, cs))
  {
    if cs != [] {
      ListedHead(cs);
      FilterListed(keep, cs[1..]);
      if keep(cs[0]) { ListedCons(cs[0], Filter(keep, cs[1..])); }
    }
  }

  lemma HubsDiffer(hubs: seq<Container>, i: nat, j: nat)
    requires Listed(hubs) && i < j < |hubs|
    requires EndsWith(hubs[i].name, HUB_SUFFIX) && EndsWith(hubs[j].name, HUB_SUFFIX)
    ensures Prefix(hubs[i]) != Prefix(hubs[j])
  {
    assert hubs[i].name == Prefix(hubs[i]) + HUB_SUFFIX;
    assert hubs[j].name == Prefix(hubs[j]) + HUB_SUFFIX;
  }

  lemma ListedAppend(a: seq<Container>, b: seq<Container>)
    requires Listed(a) && Listed(b) && forall m, n :: m in a && n in b ==> m.id != n.id && m.name != n.name
    ensures Listed(a + b)
  {
  }

  lemma MirrorsApart(cs: seq<Container>, hubs: seq<Container>, m: Container, n: Container)
    requires Listed(cs) && Listed(hubs) && hubs != []
    requires forall h :: h in hubs ==> EndsWith(h.name, HUB_SUFFIX)
    requires m in cs && IsMirror(Prefix(hubs[0]), m.name)
    requires n in cs && MirrorOfSome(hubs[1..], n.name)
    ensures m.id != n.id && m.name != n.name
  {
    var h :| h in hubs[1..] && IsMirror(Prefix(h), n.name);
    var k :| 0 <= k < |hubs[1..]| && hubs[1..][k] == h;
    HubsDiffer(hubs, 0, k + 1);
    if m == n { MirrorOfOne(Prefix(hubs[0]), Prefix(h), m.name); }
    DifferentMembers(cs, m, n);
  }

  lemma {:induction false} MirrorsListed(cs: seq<Container>, hubs: seq<Container>)
    requires Listed(cs) && Listed(hubs)
    requires forall h :: h in hubs ==> EndsWith(h.name, HUB_SUFFIX)
    requires StacksOf(cs, hubs).Some?
    ensures Listed(MirrorsOf(StacksOf(cs, hubs).value))
  {
    if hubs != [] {
      var first, rest := StackOf(cs, hubs[0]).value, StacksOf(cs, hubs[1..]).value;
      ListedHead(hubs);
      MirrorsListed(cs, hubs[1..]);
      StacksShape(cs, hubs[1..]);
      FilterListed((c: Container) => IsMirror(Prefix(hubs[0]), c.name), cs);
      forall m, n | m in first.mirrors && n in MirrorsOf(rest) ensures m.id != n.id && m.name != n.name {
        MirrorsApart(cs, hubs, m, n);
      }
      ListedAppend(first.mirrors, MirrorsOf(rest));
      assert StacksOf(cs, hubs).value[1..] == rest;
    }
  }

  lemma DifferentMembers(cs: seq<Container>, m: Container, n: Container)
    requires Listed(cs) && m in cs && n in cs && m != n
    ensures m.id != n.id && m.name != n.name
  {
    var i :| 0 <= i < |cs| && cs[i] == m;
    var j :| 0 <= j < |cs| && cs[j] == n;
    assert i < j || j < i;
  }

  /** The stacks of distinct hubs have disjoint mirrors, and no hub is one: the run has no container
      twice on its lists. */
  lemma StacksAreDisjoint(cs: seq<Container>)
    requires Listed(cs) && RailStacks(cs).Some?
    ensures Listed(HubsOf(RailStacks(cs).value) + MirrorsOf(RailStacks(cs).value))
    ensures forall c :: c in HubsOf(RailStacks(cs).value) + MirrorsOf(RailStacks(cs).value) ==> c in cs
  {
    var hubs, stacks := Hubs(cs), RailStacks(cs).value;
    FilterListed((c: Container) => EndsWith(c.name, HUB_SUFFIX), cs);
    StacksShape(cs, hubs);
    MirrorsListed(cs, hubs);
    forall h, m | h in hubs && m in MirrorsOf(stacks) ensures h.id != m.id && h.name != m.name {
      var g :| g in hubs && IsMirror(Prefix(g), m.name);
      HubIsNoMirror(Prefix(g), m.name);
      DifferentMembers(cs, h, m);
    }
  }

  // ----- the tables -----------------------------------------------------------------------

  datatype Table = Table(container: string, database: string, name: string)

  /** What the read-only calls answer: the database names in the containers' environments, absent when
      the inspection failed, and the tables that can be shown. */
  datatype Answers = Answers(hubDatabase: map<string, string>, indexerDatabase: map<string, string>, tables: set<Table>)

  predicate SafeName(name: string)
  {
    name != "" && forall c :: c in name ==>
      'A' <= c <= 'Z' || 'a' <= c <= 'z' || '0' <= c <= '9' || c == '_' || c == '$'
  }

  function NameIn(names: map<string, string>, id: string): Option<string>
  {
    if id in names && SafeName(names[id]) then Some(names[id]) else None
  }

  /** The hub's own tables; None when its database is not known or one of them is missing. */
  function HubTables(a: Answers, stack: Stack): Option<seq<Table>>
  {
    var database := NameIn(a.hubDatabase, stack.hub.id);
    if database.None? then None
    else
      var tables := seq(|HUB_TABLES|,
                        i requires 0 <= i < |HUB_TABLES| => Table(stack.database.id, database.value, HUB_TABLES[i]));
      if forall i :: 0 <= i < |tables| ==> tables[i] in a.tables then Some(tables) else None
  }

  /** The databases an indexer may mirror the checkpoints into, each once. */
  function MirrorDatabases(a: Answers, indexers: seq<Container>): Option<seq<string>>
  {
    if indexers == [] then Some([])
    else
      var rest, database := MirrorDatabases(a, indexers[..|indexers| - 1]),
                            NameIn(a.indexerDatabase, indexers[|indexers| - 1].id);
      if rest.None? || database.None? then None
      else Some(Dedup(rest.value + [database.value, database.value + "_HubMirror"]))
  }

  function MirrorTables(a: Answers, stack: Stack): Option<seq<Table>>
  {
    var databases := MirrorDatabases(a, Filter((c: Container) => EndsWith(c.name, "-xchain-indexer"), stack.mirrors));
    if databases.None? then None
    else
      var tables := seq(|databases.value|, i requires 0 <= i < |databases.value| =>
        Table(stack.database.id, databases.value[i], MIRROR_TABLE));
      Some(Filter(t => t in a.tables, tables))
  }

  /** Every hub's tables, then every hub's mirror tables; None refuses the run. */
  function Targets(a: Answers, stacks: seq<Stack>): Option<(seq<Table>, seq<Table>)>
  {
    if stacks == [] then Some(([], []))
    else
      var hub, mirrors, rest := HubTables(a, stacks[0]), MirrorTables(a, stacks[0]), Targets(a, stacks[1..]);
      if hub.None? || mirrors.None? || rest.None? then None
      else Some((hub.value + rest.value.0, mirrors.value + rest.value.1))
  }

  // ----- the calls ------------------------------------------------------------------------

  datatype Event =
    | Stopped(id: string) | StopFailed(id: string)
    | Started(id: string) | StartFailed(id: string)
    | Rebuilt(table: Table) | RebuildFailed(table: Table)

  predicate Failure(e: Event) { e.StopFailed? || e.StartFailed? || e.RebuildFailed? }

  predicate NoneFails(events: seq<Event>) { forall e :: e in events ==> !Failure(e) }

  predicate IsRebuild(e: Event) { e.Rebuilt? || e.RebuildFailed? }

  /** What runs after one call; a failed one counts when it took effect. */
  function Effect(running: set<string>, e: Event, took: bool): set<string>
  {
    match e
    case Stopped(id) => running - {id}
    case StopFailed(id) => if took then running - {id} else running
    case Started(id) => running + {id}
    case StartFailed(id) => if took then running + {id} else running
    case _ => running
  }

  /** What runs after some calls, when the failed ones at the positions in `took` took effect. */
  function RunningAfter(start: set<string>, events: seq<Event>, took: set<nat>): set<string>
  {
    if events == [] then start
    else
      var n := |events| - 1;
      Effect(RunningAfter(start, events[..n], took), events[n], n in took)
  }

  lemma {:induction false} LaterCallsDoNotMatter(start: set<string>, events: seq<Event>, took: set<nat>, n: nat)
    requires |events| <= n
    ensures RunningAfter(start, events, took + {n}) == RunningAfter(start, events, took)
  {
    if events != [] { LaterCallsDoNotMatter(start, events[..|events| - 1], took, n); }
  }

  lemma AfterOneMore(start: set<string>, events: seq<Event>, took: set<nat>, e: Event, effect: bool)
    requires forall k :: k in took ==> k < |events|
    ensures RunningAfter(start, events + [e], if effect then took + {|events|} else took)
            == Effect(RunningAfter(start, events, took), e, effect)
  {
    LaterCallsDoNotMatter(start, events, took, |events|);
    assert (events + [e])[..|events|] == events;
  }

  /** The docker host. A call that fails may or may not have had its effect; `took` has the positions
      of those that did. */
  class Docker {
    const first: set<string>
    var running: set<string>
    var rebuilt: set<Table>
    var trace: seq<Event>
    var took: set<nat>

    ghost predicate Valid()
      reads this
    {
      running == RunningAfter(first, trace, took) && forall k :: k in took ==> k < |trace|
    }

    constructor (running: set<string>)
      ensures first == running && this.running == running && rebuilt == {} && trace == [] && took == {}
      ensures Valid()
    {
      first, this.running, rebuilt, trace, took := running, running, {}, [], {};
    }

    method Call(e: Event, effect: bool)
      requires Valid()
      modifies this
      ensures Valid()
      ensures trace == old(trace) + [e] && running == Effect(old(running), e, effect)
      ensures rebuilt == old(rebuilt)
    {
      AfterOneMore(first, trace, took, e, effect);
      if effect { took := took + {|trace|}; }
      running, trace := Effect(running, e, effect), trace + [e];
    }

    method Stop(id: string) returns (ok: bool)
      requires Valid()
      modifies this
      ensures Valid()
      ensures trace == old(trace) + [if ok then Stopped(id) else StopFailed(id)]
      ensures running == old(running) - {id} || (!ok && running == old(running))
      ensures rebuilt == old(rebuilt)
    {
      ok := *;
      var stopped: bool := *;
      Call(if ok then Stopped(id) else StopFailed(id), stopped);
    }

    method Start(id: string) returns (ok: bool)
      requires Valid()
      modifies this
      ensures Valid()
      ensures trace == old(trace) + [if ok then Started(id) else StartFailed(id)]
      ensures running == old(running) + {id} || (!ok && running == old(running))
      ensures rebuilt == old(rebuilt)
    {
      ok := *;
      var started: bool := *;
      Call(if ok then Started(id) else StartFailed(id), started);
    }

    method Rebuild(table: Table) returns (ok: bool)
      requires Valid()
      modifies this
      ensures Valid()
      ensures trace == old(trace) + [if ok then Rebuilt(table) else RebuildFailed(table)]
      ensures rebuilt == old(rebuilt) + {table} || (!ok && rebuilt == old(rebuilt))
      ensures running == old(running)
    {
      ok := *;
      var done: bool := *;
      Call(if ok then Rebuilt(table) else RebuildFailed(table), done);
      if ok || done { rebuilt := rebuilt + {table}; }
    }
  }

  function Up(cs: seq<Container>): seq<Container> { Filter((c: Container) => c.up, cs) }

  function Stops(cs: seq<Container>): (r: seq<Event>)
    ensures |r| == |cs|
  {
    seq(|cs|, i requires 0 <= i < |cs| => Stopped(cs[i].id))
  }

  function IdSet(cs: seq<Container>): (r: set<string>)
    ensures forall id :: id in r <==> exists c :: c in cs && c.id == id
  {
    set c | c in cs :: c.id
  }

  predicate StartsFor(events: seq<Event>, cs: seq<Container>)
  {
    |events| == |cs| && forall k :: 0 <= k < |cs| ==> events[k] in {Started(cs[k].id), StartFailed(cs[k].id)}
  }

  predicate RebuildsFor(events: seq<Event>, tables: seq<Table>)
  {
    && |events| <= |tables|
    && (forall k :: 0 <= k < |events| - 1 ==> events[k] == Rebuilt(tables[k]))
    && (events != [] ==> events[|events| - 1] in {Rebuilt(tables[|events| - 1]), RebuildFailed(tables[|events| - 1])})
    && (|events| < |tables| ==> events != [] && events[|events| - 1].RebuildFailed?)
  }

  lemma AnyFailure(events: seq<Event>, e: Event)
    ensures NoneFails(events + [e]) <==> NoneFails(events) && !Failure(e)
  {
    assert e in events + [e];
  }

  lemma StopsSnoc(cs: seq<Container>, i: nat)
    requires i < |cs|
    ensures cs[..i + 1] == cs[..i] + [cs[i]]
    ensures Stops(cs[..i + 1]) == Stops(cs[..i]) + [Stopped(cs[i].id)]
  {
    assert cs[..i + 1] == cs[..i] + [cs[i]];
  }

  lemma IdSetSnoc(cs: seq<Container>, i: nat)
    requires i < |cs|
    ensures IdSet(cs[..i + 1]) == IdSet(cs[..i]) + {cs[i].id}
  {
    assert cs[..i + 1] == cs[..i] + [cs[i]];
    assert cs[i] in cs[..i + 1];
  }

  lemma StillRunning(running: set<string>, ids: set<string>, id: string)
    ensures running - ids - {id} == running - (ids + {id})
  {
  }

  method StopContainers(docker: Docker, containers: seq<Container>) returns (stopped: seq<Container>, ok: bool)
    requires docker.Valid()
    modifies docker
    ensures docker.Valid()
    ensures docker.rebuilt == old(docker.rebuilt)
    ensures ok ==> stopped == Up(containers) && docker.trace == old(docker.trace) + Stops(stopped)
    ensures ok ==> docker.running == old(docker.running) - IdSet(stopped)
    ensures !ok ==> |stopped| < |Up(containers)| && CutShort(stopped, Up(containers)[|stopped|].id, Up(containers))
    ensures !ok ==> docker.trace == old(docker.trace) + Stops(stopped) + [StopFailed(Up(containers)[|stopped|].id)]
    ensures !ok ==> docker.running >= old(docker.running) - IdSet(stopped) - {Up(containers)[|stopped|].id}
  {
    stopped, ok := [], true;
    var up := Up(containers);
    for i := 0 to |up|
      invariant docker.Valid()
      invariant ok && stopped == up[..i]
      invariant docker.trace == old(docker.trace) + Stops(stopped)
      invariant docker.running == old(docker.running) - IdSet(stopped)
      invariant docker.rebuilt == old(docker.rebuilt)
    {
      StopsSnoc(up, i);
      IdSetSnoc(up, i);
      StillRunning(old(docker.running), IdSet(stopped), up[i].id);
      ConcatAssociates(old(docker.trace), Stops(stopped), [Stopped(up[i].id)]);
      ok := docker.Stop(up[i].id);
      if !ok { return; }
      stopped := stopped + [up[i]];
    }
    assert up[..|up|] == up;
  }

  lemma StartsSnoc(was: seq<Event>, starts: seq<Event>, cs: seq<Container>, i: nat, e: Event)
    requires i < |cs| && StartsFor(starts, cs[..i]) && e in {Started(cs[i].id), StartFailed(cs[i].id)}
    ensures was + starts + [e] == was + (starts + [e]) && StartsFor(starts + [e], cs[..i + 1])
    ensures NoneFails(starts + [e]) <==> NoneFails(starts) && !Failure(e)
    ensures IdSet(cs[..i + 1]) == IdSet(cs[..i]) + {cs[i].id}
  {
    AnyFailure(starts, e);
    IdSetSnoc(cs, i);
    assert cs[..i + 1] == cs[..i] + [cs[i]];
  }

  method StartContainers(docker: Docker, containers: seq<Container>, ghost was: seq<Event>)
      returns (failures: seq<string>, ghost starts: seq<Event>)
    requires docker.trace == was
    requires docker.Valid()
    modifies docker
    ensures docker.Valid()
    ensures docker.rebuilt == old(docker.rebuilt)
    ensures docker.trace == was + starts && StartsFor(starts, containers)
    ensures failures == [] ==> docker.running == old(docker.running) + IdSet(containers)
    ensures failures == [] <==> NoneFails(starts)
  {
    failures, starts := [], [];
    for i := 0 to |containers|
      invariant docker.Valid() && docker.rebuilt == old(docker.rebuilt)
      invariant docker.trace == was + starts && StartsFor(starts, containers[..i])
      invariant failures == [] ==> docker.running == old(docker.running) + IdSet(containers[..i])
      invariant failures == [] <==> NoneFails(starts)
    {
      var ok := docker.Start(containers[i].id);
      ghost var e := if ok then Started(containers[i].id) else StartFailed(containers[i].id);
      StartsSnoc(was, starts, containers, i, e);
      starts := starts + [e];
      if !ok { failures := failures + [containers[i].name]; }
    }
    assert containers[..|containers|] == containers;
  }

  method RebuildTables(docker: Docker, tables: seq<Table>, ghost was: seq<Event>)
      returns (ok: bool, ghost rebuilds: seq<Event>)
    requires docker.trace == was
    requires docker.Valid()
    modifies docker
    ensures docker.Valid()
    ensures docker.running == old(docker.running)
    ensures docker.trace == was + rebuilds && RebuildsFor(rebuilds, tables)
    ensures old(docker.rebuilt) <= docker.rebuilt <= old(docker.rebuilt) + Elements(tables)
    ensures ok ==> docker.rebuilt == old(docker.rebuilt) + Elements(tables)
    ensures ok <==> NoneFails(rebuilds)
  {
    ok, rebuilds := true, [];
    for i := 0 to |tables|
      invariant docker.Valid()
      invariant ok && |rebuilds| == i && forall k :: 0 <= k < i ==> rebuilds[k] == Rebuilt(tables[k])
      invariant docker.trace == was + rebuilds
      invariant NoneFails(rebuilds)
      invariant docker.running == old(docker.running)
      invariant docker.rebuilt == old(docker.rebuilt) + Elements(tables[..i])
    {
      assert Elements(tables[..i + 1]) == Elements(tables[..i]) + {tables[i]};
      ok := docker.Rebuild(tables[i]);
      ghost var e := if ok then Rebuilt(tables[i]) else RebuildFailed(tables[i]);
      AnyFailure(rebuilds, e);
      ConcatAssociates(was, rebuilds, [e]);
      rebuilds := rebuilds + [e];
      if !ok { return; }
    }
    assert tables[..|tables|] == tables;
  }

  // ----- the procedure --------------------------------------------------------------------

  /** What one run did: the containers stopped, in order; the one whose stop failed, if any; the
      rebuild calls; and the restarts, in the order of `order`. */
  datatype Run = Run(stopped: seq<Container>, failed: Option<string>, rebuilds: seq<Event>, order: seq<Container>,
                     starts: seq<Event>)

  function EventsOf(r: Run): seq<Event>
  {
    Stops(r.stopped) + (if r.failed.Some? then [StopFailed(r.failed.value)] else []) + r.rebuilds + r.starts
  }

  predicate CutShort(stopped: seq<Container>, failed: string, up: seq<Container>)
  {
    |stopped| < |up| && stopped == up[..|stopped|] && failed == up[|stopped|].id
  }

  /** A run over the containers that were up: a failed stop is the end of it but for the restarts. */
  ghost predicate RunOf(r: Run, up: seq<Container>, tables: seq<Table>)
  {
    && StartsFor(r.starts, r.order) && multiset(r.order) == multiset(r.stopped)
    && (r.failed.None? ==> r.stopped == up && RebuildsFor(r.rebuilds, tables))
    && (r.failed.Some? ==> CutShort(r.stopped, r.failed.value, up) && r.rebuilds == [])
  }

  datatype Outcome = Refused | Declined | StopFailure | RebuildFailure | StatusFailure | RestartFailure | Done

  predicate Touched(outcome: Outcome) { !outcome.Refused? && !outcome.Declined? }

  /** What the command works on: the containers of every stack, hubs first, and the tables. */
  function Scope(listed: Option<seq<Container>>, a: Answers): Option<(seq<Stack>, seq<Table>, seq<Table>)>
  {
    if listed.None? then None
    else
      var stacks := RailStacks(listed.value);
      if stacks.None? then None
      else
        var targets := Targets(a, stacks.value);
        if targets.None? then None else Some((stacks.value, targets.value.0, targets.value.1))
  }

  function Involved(stacks: seq<Stack>): seq<Container> { Up(HubsOf(stacks)) + Up(MirrorsOf(stacks)) }

  /** Every container listed as up is running. */
  predicate Accurate(cs: seq<Container>, running: set<string>) { forall c :: c in cs && c.up ==> c.id in running }

  lemma InvolvedAreUp(cs: seq<Container>)
    requires RailStacks(cs).Some?
    ensures forall c :: c in Involved(RailStacks(cs).value) ==> c in cs && c.up
  {
    StacksShape(cs, Hubs(cs));
  }

  predicate NoStartFails(r: Run) { NoneFails(r.starts) }

  method ResetHubCheckpoints(docker: Docker, externalDb: bool, listed: Option<seq<Container>>, a: Answers,
                             force: bool, confirmed: bool, statusOk: bool)
      returns (outcome: Outcome, ghost run: Run)
    requires docker.Valid()
    modifies docker
    ensures docker.Valid()
    ensures outcome.Refused? <==> externalDb || Scope(listed, a).None?
    ensures outcome.Declined? <==> !outcome.Refused? && !force && !confirmed
    ensures !Touched(outcome) ==> docker.trace == old(docker.trace) && docker.running == old(docker.running)
    ensures Touched(outcome) ==>
      && docker.trace == old(docker.trace) + EventsOf(run)
      && RunOf(run, Involved(Scope(listed, a).value.0), Scope(listed, a).value.1 + Scope(listed, a).value.2)
      && (outcome.StopFailure? <==> run.failed.Some?)
      && docker.rebuilt <= old(docker.rebuilt) + Elements(Scope(listed, a).value.1 + Scope(listed, a).value.2)
    ensures Touched(outcome) && old(docker.trace) == [] ==>
              docker.running == RunningAfter(docker.first, EventsOf(run), docker.took)
    ensures Touched(outcome) && NoStartFails(run) ==>
      if outcome.StopFailure? then docker.running >= old(docker.running) - {run.failed.value}
      else docker.running == old(docker.running) + IdSet(run.stopped)
    ensures Touched(outcome) && !outcome.StopFailure? && NoStartFails(run)
            && Accurate(listed.value, old(docker.running)) ==>
              docker.running == old(docker.running)
    ensures !Touched(outcome) || outcome.StopFailure? ==> docker.rebuilt == old(docker.rebuilt)
    ensures outcome.Done? ==>
            docker.rebuilt == old(docker.rebuilt) + Elements(Scope(listed, a).value.1 + Scope(listed, a).value.2)
    ensures outcome.Done? <==> Touched(outcome) && statusOk && NoneFails(EventsOf(run))
  {
    run := Run([], None, [], [], []);
    if externalDb || listed.None? { return Refused, run; }
    var stacks := RailStacks(listed.value);
    if stacks.None? { return Refused, run; }
    var targets := Targets(a, stacks.value);
    if targets.None? { return Refused, run; }
    if !force && !confirmed { return Declined, run; }
    var tables := targets.value.0 + targets.value.1;
    outcome, run := RunReset(docker, HubsOf(stacks.value), MirrorsOf(stacks.value), tables, statusOk);
    InvolvedAreUp(listed.value);
    assert [] + EventsOf(run) == EventsOf(run);
  }

  method RunReset(docker: Docker, hubs: seq<Container>, mirrors: seq<Container>, tables: seq<Table>, statusOk: bool)
      returns (outcome: Outcome, ghost run: Run)
    requires docker.Valid()
    modifies docker
    ensures docker.Valid()
    ensures Touched(outcome)
    ensures docker.trace == old(docker.trace) + EventsOf(run)
    ensures RunOf(run, Up(hubs) + Up(mirrors), tables)
    ensures outcome.StopFailure? <==> run.failed.Some?
    ensures docker.rebuilt <= old(docker.rebuilt) + Elements(tables)
    ensures NoStartFails(run) ==>
      if outcome.StopFailure? then docker.running >= old(docker.running) - {run.failed.value}
      else docker.running == old(docker.running) + IdSet(run.stopped)
    ensures outcome.StopFailure? ==> docker.rebuilt == old(docker.rebuilt)
    ensures outcome.Done? ==> docker.rebuilt == old(docker.rebuilt) + Elements(tables)
    ensures outcome.Done? <==> statusOk && NoneFails(EventsOf(run))
  {
    var hubStopped, hubsOk := StopContainers(docker, hubs);
    if !hubsOk {
      var stuck := Up(hubs)[|hubStopped|].id;
      CutShortLeft(hubStopped, stuck, Up(hubs), Up(mirrors));
      run := Abort(docker, hubStopped, old(docker.trace), hubStopped, stuck);
      return StopFailure, run;
    }
    var mirrorStopped, mirrorsOk := StopContainers(docker, mirrors);
    StopsJoin(hubStopped, mirrorStopped);
    if !mirrorsOk {
      var stuck := Up(mirrors)[|mirrorStopped|].id;
      CutShortRight(Up(hubs), mirrorStopped, stuck, Up(mirrors));
      ConcatAssociates(old(docker.trace), Stops(hubStopped), Stops(mirrorStopped));
      run := Abort(docker, mirrorStopped + hubStopped, old(docker.trace), hubStopped + mirrorStopped, stuck);
      return StopFailure, run;
    }
    ConcatAssociates(old(docker.trace), Stops(hubStopped), Stops(mirrorStopped));
    outcome, run := RebuildAndRestart(docker, hubStopped + mirrorStopped, tables, statusOk, old(docker.trace));
  }

  /** The restart after a stop that failed: the containers stopped so far, and only those. */
  method Abort(docker: Docker, order: seq<Container>, ghost was: seq<Event>, ghost stopped: seq<Container>,
               ghost failed: string)
      returns (ghost run: Run)
    requires multiset(order) == multiset(stopped) && IdSet(order) == IdSet(stopped)
    requires docker.trace == was + Stops(stopped) + [StopFailed(failed)]
    requires docker.Valid()
    modifies docker
    ensures docker.Valid()
    ensures run.stopped == stopped && run.failed == Some(failed) && run.rebuilds == [] && run.order == order
    ensures StartsFor(run.starts, order) && docker.trace == was + EventsOf(run)
    ensures !NoneFails(EventsOf(run))
    ensures docker.rebuilt == old(docker.rebuilt)
    ensures NoStartFails(run) ==> docker.running == old(docker.running) + IdSet(stopped)
  {
    var failures, starts := StartContainers(docker, order, docker.trace);
    run := Run(stopped, Some(failed), [], order, starts);
    assert EventsOf(run) == Stops(stopped) + [StopFailed(failed)] + starts;
    assert StopFailed(failed) in EventsOf(run);
  }

  method RebuildAndRestart(docker: Docker, stopped: seq<Container>, tables: seq<Table>, statusOk: bool,
                           ghost was: seq<Event>)
      returns (outcome: Outcome, ghost run: Run)
    requires docker.trace == was + Stops(stopped)
    requires docker.Valid()
    modifies docker
    ensures docker.Valid()
    ensures run.stopped == stopped && run.failed.None? && run.order == stopped
    ensures RebuildsFor(run.rebuilds, tables) && StartsFor(run.starts, stopped) && docker.trace == was + EventsOf(run)
    ensures old(docker.rebuilt) <= docker.rebuilt <= old(docker.rebuilt) + Elements(tables)
    ensures NoStartFails(run) ==> docker.running == old(docker.running) + IdSet(stopped)
    ensures Touched(outcome) && !outcome.StopFailure?
    ensures outcome.Done? ==> docker.rebuilt == old(docker.rebuilt) + Elements(tables)
    ensures outcome.Done? <==> statusOk && NoneFails(EventsOf(run))
  {
    var rebuilt, rebuilds := RebuildTables(docker, tables, docker.trace);
    var failures, starts := StartContainers(docker, stopped, docker.trace);
    run := Run(stopped, None, rebuilds, stopped, starts);
    assert EventsOf(run) == Stops(stopped) + rebuilds + starts;
    outcome := if !statusOk then StatusFailure else if !rebuilt then RebuildFailure
      else if failures != [] then RestartFailure else Done;
    NoFailures(run);
  }

  lemma CutShortLeft(stopped: seq<Container>, failed: string, a: seq<Container>, b: seq<Container>)
    requires CutShort(stopped, failed, a)
    ensures CutShort(stopped, failed, a + b)
  {
    assert (a + b)[..|stopped|] == a[..|stopped|];
  }

  lemma CutShortRight(a: seq<Container>, stopped: seq<Container>, failed: string, b: seq<Container>)
    requires CutShort(stopped, failed, b)
    ensures CutShort(a + stopped, failed, a + b)
  {
    assert (a + b)[..|a + stopped|] == a + b[..|stopped|];
  }

  lemma StopsJoin(a: seq<Container>, b: seq<Container>)
    ensures Stops(a + b) == Stops(a) + Stops(b)
    ensures IdSet(a + b) == IdSet(a) + IdSet(b) && IdSet(b + a) == IdSet(a) + IdSet(b)
  {
  }

  lemma NoFailures(r: Run)
    requires r.failed.None?
    ensures NoneFails(EventsOf(r)) <==> NoneFails(r.rebuilds) && NoneFails(r.starts)
  {
    assert forall e :: e in EventsOf(r) <==> e in Stops(r.stopped) || e in r.rebuilds || e in r.starts;
  }

  // ----- what that means for the data and the services ------------------------------------

  /** Nothing is rebuilt unless every container that was up has been stopped by then and has not been
      started again. */
  ghost predicate QuietRebuilds(events: seq<Event>, up: seq<Container>)
  {
    forall k :: 0 <= k < |events| && IsRebuild(events[k]) ==>
      forall c :: c in up ==>
        Stopped(c.id) in events[..k] && Started(c.id) !in events[..k] && StartFailed(c.id) !in events[..k]
  }

  function StopCount(events: seq<Event>, id: string): nat { multiset(events)[Stopped(id)] }

  function StartCount(events: seq<Event>, id: string): nat
  {
    multiset(events)[Started(id)] + multiset(events)[StartFailed(id)]
  }

  lemma {:induction false} CountStops(cs: seq<Container>, id: string)
    ensures StopCount(Stops(cs), id) == multiset(Ids(cs))[id] && StartCount(Stops(cs), id) == 0
  {
    if cs != [] {
      var n := |cs| - 1;
      CountStops(cs[..n], id);
      assert Stops(cs) == Stops(cs[..n]) + [Stopped(cs[n].id)];
      assert Ids(cs) == Ids(cs[..n]) + [cs[n].id];
    }
  }

  lemma {:induction false} CountStarts(events: seq<Event>, cs: seq<Container>, id: string)
    requires StartsFor(events, cs)
    ensures StartCount(events, id) == multiset(Ids(cs))[id] && StopCount(events, id) == 0
  {
    if cs != [] {
      var n := |cs| - 1;
      CountStarts(events[..n], cs[..n], id);
      assert events == events[..n] + [events[n]];
      assert Ids(cs) == Ids(cs[..n]) + [cs[n].id];
    }
  }

  lemma CountRebuilds(events: seq<Event>, tables: seq<Table>, id: string)
    requires RebuildsFor(events, tables)
    ensures StartCount(events, id) == 0 && StopCount(events, id) == 0
  {
    assert Started(id) !in events && StartFailed(id) !in events && Stopped(id) !in events;
  }

  lemma CountAppend(a: seq<Event>, b: seq<Event>, id: string)
    ensures StopCount(a + b, id) == StopCount(a, id) + StopCount(b, id)
    ensures StartCount(a + b, id) == StartCount(a, id) + StartCount(b, id)
  {
  }

  lemma {:induction false} IdsPermute(a: seq<Container>, b: seq<Container>)
    requires multiset(a) == multiset(b)
    ensures multiset(Ids(a)) == multiset(Ids(b))
  {
    SameSize(a, b);
    if a != [] {
      SameMembers(a, b);
      assert a[0] in a && a[0] in b;
      var i :| 0 <= i < |b| && b[i] == a[0];
      MultisetOfTail(a);
      RemoveAt(b, i);
      IdsPermute(a[1..], b[..i] + b[i + 1..]);
      IdsHead(a);
      IdsAround(b, i);
    }
  }

  lemma IdsHead(a: seq<Container>)
    requires a != []
    ensures multiset(Ids(a)) == multiset(Ids(a[1..])) + multiset{a[0].id}
  {
    assert Ids(a) == [a[0].id] + Ids(a[1..]);
  }

  lemma IdsAround(b: seq<Container>, i: nat)
    requires i < |b|
    ensures multiset(Ids(b)) == multiset(Ids(b[..i] + b[i + 1..])) + multiset{b[i].id}
  {
    assert Ids(b) == Ids(b[..i]) + [b[i].id] + Ids(b[i + 1..]);
    assert Ids(b[..i] + b[i + 1..]) == Ids(b[..i]) + Ids(b[i + 1..]);
  }

  /** On every way out, and whatever failed: every container whose stop went through has exactly one
      start attempt and no other container has any. */
  lemma EveryStopIsMatched(r: Run, up: seq<Container>, tables: seq<Table>, id: string)
    requires RunOf(r, up, tables)
    ensures StartCount(EventsOf(r), id) == StopCount(EventsOf(r), id) == multiset(Ids(r.stopped))[id]
  {
    var f := if r.failed.Some? then [StopFailed(r.failed.value)] else [];
    CountAppend(Stops(r.stopped) + f + r.rebuilds, r.starts, id);
    CountAppend(Stops(r.stopped) + f, r.rebuilds, id);
    CountAppend(Stops(r.stopped), f, id);
    CountStops(r.stopped, id);
    CountStarts(r.starts, r.order, id);
    IdsPermute(r.order, r.stopped);
    if r.failed.None? { CountRebuilds(r.rebuilds, tables, id); }
  }

  lemma NoneRebuiltAfterAFailedStop(r: Run, up: seq<Container>, tables: seq<Table>, k: nat)
    requires RunOf(r, up, tables) && r.failed.Some? && k < |EventsOf(r)|
    ensures !IsRebuild(EventsOf(r)[k])
  {
    assert EventsOf(r) == Stops(r.stopped) + [StopFailed(r.failed.value)] + r.starts;
  }

  lemma RebuildsFollowTheStops(r: Run, up: seq<Container>, tables: seq<Table>, k: nat)
    requires RunOf(r, up, tables) && k < |EventsOf(r)| && IsRebuild(EventsOf(r)[k])
    ensures r.failed.None? && |r.stopped| <= k < |r.stopped| + |r.rebuilds|
  {
    if r.failed.Some? { NoneRebuiltAfterAFailedStop(r, up, tables, k); }
    assert EventsOf(r) == Stops(r.stopped) + r.rebuilds + r.starts;
  }

  lemma RebuildsAreQuiet(r: Run, up: seq<Container>, tables: seq<Table>)
    requires RunOf(r, up, tables)
    ensures QuietRebuilds(EventsOf(r), up)
  {
    var events := EventsOf(r);
    forall k, c | 0 <= k < |events| && IsRebuild(events[k]) && c in up
      ensures Stopped(c.id) in events[..k] && Started(c.id) !in events[..k] && StartFailed(c.id) !in events[..k]
    {
      RebuildsFollowTheStops(r, up, tables, k);
      QuietPrefix(r, up, tables, k, c);
    }
  }

  lemma QuietPrefix(r: Run, up: seq<Container>, tables: seq<Table>, k: nat, c: Container)
    requires RunOf(r, up, tables) && r.failed.None? && |r.stopped| <= k < |r.stopped| + |r.rebuilds| && c in up
    ensures k <= |EventsOf(r)| && var before := EventsOf(r)[..k];
      Stopped(c.id) in before && Started(c.id) !in before && StartFailed(c.id) !in before
  {
    var before := Stops(r.stopped) + r.rebuilds[..k - |r.stopped|];
    assert EventsOf(r)[..k] == before;
    var i :| 0 <= i < |up| && up[i] == c;
    assert before[i] == Stopped(c.id);
  }

  /** Reset safety, for every container list docker can answer and any calls that fail: the run's
      containers are pairwise distinct; no checkpoint table is rebuilt unless every hub and mirror
      that was up has been stopped and not restarted; and each container that was stopped gets one
      start attempt, no other one any. */
  lemma ResetIsSafe(cs: seq<Container>, a: Answers, r: Run)
    requires Listed(cs) && Scope(Some(cs), a).Some?
    requires RunOf(r, Involved(Scope(Some(cs), a).value.0), Scope(Some(cs), a).value.1 + Scope(Some(cs), a).value.2)
    ensures QuietRebuilds(EventsOf(r), Involved(Scope(Some(cs), a).value.0))
    ensures forall id :: StartCount(EventsOf(r), id) == StopCount(EventsOf(r), id) <= 1
    ensures forall id :: StopCount(EventsOf(r), id) == 1 ==> exists c :: c in cs && c.up && c.id == id
  {
    var up := Involved(Scope(Some(cs), a).value.0);
    var tables := Scope(Some(cs), a).value.1 + Scope(Some(cs), a).value.2;
    StacksAreDisjoint(cs);
    UpListed(cs, Scope(Some(cs), a).value.0);
    RebuildsAreQuiet(r, up, tables);
    forall id
      ensures StartCount(EventsOf(r), id) == StopCount(EventsOf(r), id) <= 1
      ensures StopCount(EventsOf(r), id) == 1 ==> exists c :: c in cs && c.up && c.id == id
    {
      EveryStopIsMatched(r, up, tables, id);
      OnceEach(r.stopped, up, id);
    }
  }

  lemma UpListed(cs: seq<Container>, stacks: seq<Stack>)
    requires Listed(HubsOf(stacks) + MirrorsOf(stacks))
    requires forall c :: c in HubsOf(stacks) + MirrorsOf(stacks) ==> c in cs
    ensures Listed(Involved(stacks)) && forall c :: c in Involved(stacks) ==> c in cs && c.up
  {
    FilterSplits((c: Container) => c.up, HubsOf(stacks), MirrorsOf(stacks));
    FilterListed((c: Container) => c.up, HubsOf(stacks) + MirrorsOf(stacks));
    assert Involved(stacks) == Filter((c: Container) => c.up, HubsOf(stacks) + MirrorsOf(stacks));
  }

  lemma OnceEach(stopped: seq<Container>, up: seq<Container>, id: string)
    requires Listed(up) && |stopped| <= |up| && stopped == up[..|stopped|]
    ensures multiset(Ids(stopped))[id] <= 1
    ensures multiset(Ids(stopped))[id] == 1 ==> exists c :: c in up && c.id == id
  {
    assert Distinct(Ids(stopped)) by {
      forall i, j | 0 <= i < j < |stopped| ensures Ids(stopped)[i] != Ids(stopped)[j] {
        assert stopped[i] == up[i] && stopped[j] == up[j];
      }
    }
    DistinctCountOne(Ids(stopped), id);
    if multiset(Ids(stopped))[id] == 1 {
      assert id in Ids(stopped);
      var i :| 0 <= i < |stopped| && Ids(stopped)[i] == id;
      assert up[i].id == id && up[i] in up;
    }
  }

  // ----- what is left down ----------------------------------------------------------------

  /** A stop that failed and yet had its effect. */
  predicate LostStop(r: Run, took: set<nat>, id: string) { r.failed == Some(id) && |r.stopped| in took }

  /** A restart that failed and did not have its effect. */
  predicate LostStart(r: Run, took: set<nat>, id: string)
  {
    Lost(r.starts, |EventsOf(r)| - |r.starts|, took, id)
  }

  predicate Lost(starts: seq<Event>, base: int, took: set<nat>, id: string)
  {
    exists k :: 0 <= k < |starts| && starts[k] == StartFailed(id) && base + k !in took
  }

  lemma {:induction false} AfterStops(start: set<string>, cs: seq<Container>, took: set<nat>)
    ensures RunningAfter(start, Stops(cs), took) == start - IdSet(cs)
  {
    if cs != [] {
      var n := |cs| - 1;
      AfterStops(start, cs[..n], took);
      StopsSnoc(cs, n);
      IdSetSnoc(cs, n);
      assert cs[..n + 1] == cs;
      StillRunning(start, IdSet(cs[..n]), cs[n].id);
    }
  }

  lemma AfterLast(start: set<string>, was: seq<Event>, more: seq<Event>, took: set<nat>)
    requires more != []
    ensures var n := |more| - 1;
      RunningAfter(start, was + more, took)
      == Effect(RunningAfter(start, was + more[..n], took), more[n], |was| + n in took)
  {
    var n := |more| - 1;
    assert (was + more)[..|was| + n] == was + more[..n];
  }

  lemma {:induction false} AfterRebuilds(start: set<string>, was: seq<Event>, rebuilds: seq<Event>, took: set<nat>)
    requires forall e :: e in rebuilds ==> IsRebuild(e)
    ensures RunningAfter(start, was + rebuilds, took) == RunningAfter(start, was, took)
  {
    if rebuilds == [] {
      assert was + rebuilds == was;
    } else {
      var n := |rebuilds| - 1;
      AfterRebuilds(start, was, rebuilds[..n], took);
      AfterLast(start, was, rebuilds, took);
      assert IsRebuild(rebuilds[n]);
    }
  }

  /** A restart at position `base` or later that had its effect. */
  predicate Raised(starts: seq<Event>, base: int, took: set<nat>, id: string)
  {
    exists k :: 0 <= k < |starts| && RaisedAt(starts[k], base + k, took, id)
  }

  predicate RaisedAt(e: Event, at: int, took: set<nat>, id: string)
  {
    e == Started(id) || (e == StartFailed(id) && at in took)
  }

  lemma RaisedSnoc(starts: seq<Event>, base: int, took: set<nat>, id: string)
    requires starts != []
    ensures var n := |starts| - 1;
      Raised(starts, base, took, id) <==> Raised(starts[..n], base, took, id) || RaisedAt(starts[n], base + n, took, id)
  {
    var n := |starts| - 1;
    if k :| 0 <= k < |starts| && RaisedAt(starts[k], base + k, took, id) {
      assert k < n ==> RaisedAt(starts[..n][k], base + k, took, id);
    }
    if k :| 0 <= k < n && RaisedAt(starts[..n][k], base + k, took, id) {
      assert RaisedAt(starts[k], base + k, took, id);
    }
  }

  lemma {:induction false} AfterStarts(start: set<string>, was: seq<Event>, starts: seq<Event>, took: set<nat>,
                                       id: string)
    requires forall e :: e in starts ==> e.Started? || e.StartFailed?
    ensures id in RunningAfter(start, was + starts, took)
            <==> id in RunningAfter(start, was, took) || Raised(starts, |was|, took, id)
  {
    if starts == [] {
      assert was + starts == was;
    } else {
      var n := |starts| - 1;
      AfterStarts(start, was, starts[..n], took, id);
      RaisedSnoc(starts, |was|, took, id);
      AfterLast(start, was, starts, took);
      assert starts[n].Started? || starts[n].StartFailed?;
    }
  }

  /** Among restarts of distinct containers, one of them is back unless its own restart was lost. */
  lemma RaisedUnlessLost(starts: seq<Event>, order: seq<Container>, base: int, took: set<nat>, id: string)
    requires StartsFor(starts, order) && Distinct(Ids(order))
    ensures Raised(starts, base, took, id)
            <==> id in Ids(order) && !Lost(starts, base, took, id)
    ensures Lost(starts, base, took, id) ==> id in Ids(order)
  {
    assert forall k :: 0 <= k < |starts| ==> Ids(order)[k] == order[k].id;
    if id in Ids(order) {
      var i :| 0 <= i < |order| && Ids(order)[i] == id;
      forall k | 0 <= k < |starts| && starts[k] in {Started(id), StartFailed(id)} ensures k == i {
        assert Ids(order)[k] == id;
      }
      assert RaisedAt(starts[i], base + i, took, id) <==> !(starts[i] == StartFailed(id) && base + i !in took);
    }
  }

  lemma OrderedOnce(r: Run, up: seq<Container>, tables: seq<Table>)
    requires RunOf(r, up, tables) && Listed(up)
    ensures Distinct(Ids(r.order)) && forall id :: id in Ids(r.order) <==> id in IdSet(r.stopped)
    ensures r.failed.Some? ==> r.failed.value !in IdSet(r.stopped)
  {
    assert Distinct(Ids(r.stopped)) by {
      forall i, j | 0 <= i < j < |r.stopped| ensures Ids(r.stopped)[i] != Ids(r.stopped)[j] {
        assert r.stopped[i] == up[i] && r.stopped[j] == up[j];
      }
    }
    IdsPermute(r.order, r.stopped);
    DistinctPermutes(Ids(r.stopped), Ids(r.order));
    SameMembers(Ids(r.order), Ids(r.stopped));
    forall id ensures id in Ids(r.stopped) <==> id in IdSet(r.stopped) {
      if c :| c in r.stopped && c.id == id {
        var i :| 0 <= i < |r.stopped| && r.stopped[i] == c;
        assert Ids(r.stopped)[i] == id;
      }
    }
  }

  /** After a run, whatever failed: of what ran before, a container is down exactly when its own stop
      failed and took effect, or its own restart failed and did not. */
  lemma LeftDownExactly(r: Run, up: seq<Container>, tables: seq<Table>, start: set<string>, took: set<nat>, id: string)
    requires RunOf(r, up, tables) && Listed(up) && Accurate(up, start) && forall c :: c in up ==> c.up
    ensures id in RunningAfter(start, EventsOf(r), took)
            <==> id in start && !LostStop(r, took, id) && !LostStart(r, took, id)
  {
    OrderedOnce(r, up, tables);
    AfterRun(r, up, tables, start, took, id);
    RaisedUnlessLost(r.starts, r.order, |EventsOf(r)| - |r.starts|, took, id);
    if id in Ids(r.order) {
      var c :| c in r.stopped && c.id == id;
      assert c in up;
    }
  }

  /** What runs once the stops are over. */
  function Halted(start: set<string>, r: Run, took: set<nat>): set<string>
  {
    if r.failed.Some? && |r.stopped| in took then start - IdSet(r.stopped) - {r.failed.value}
    else start - IdSet(r.stopped)
  }

  lemma AfterRun(r: Run, up: seq<Container>, tables: seq<Table>, start: set<string>, took: set<nat>, id: string)
    requires RunOf(r, up, tables)
    ensures id in RunningAfter(start, EventsOf(r), took)
            <==> id in Halted(start, r, took) || Raised(r.starts, |EventsOf(r)| - |r.starts|, took, id)
  {
    var f := if r.failed.Some? then [StopFailed(r.failed.value)] else [];
    var halted := Stops(r.stopped) + f;
    var was := halted + r.rebuilds;
    assert EventsOf(r) == was + r.starts && |EventsOf(r)| - |r.starts| == |was|;
    AfterHalt(start, r, took);
    AfterRebuilds(start, halted, r.rebuilds, took);
    AfterStarts(start, was, r.starts, took, id);
  }

  lemma AfterHalt(start: set<string>, r: Run, took: set<nat>)
    ensures RunningAfter(start, Stops(r.stopped) + (if r.failed.Some? then [StopFailed(r.failed.value)] else []), took)
            == Halted(start, r, took)
  {
    var stops := Stops(r.stopped);
    AfterStops(start, r.stopped, took);
    if r.failed.Some? {
      AfterLast(start, stops, [StopFailed(r.failed.value)], took);
      assert stops + [StopFailed(r.failed.value)][..0] == stops;
    } else {
      assert stops + [] == stops;
    }
  }

  /** The same of the command, for any containers docker lists. */
  lemma ServicesLeftDown(cs: seq<Container>, a: Answers, r: Run, start: set<string>, took: set<nat>, id: string)
    requires Listed(cs) && Scope(Some(cs), a).Some? && Accurate(cs, start)
    requires RunOf(r, Involved(Scope(Some(cs), a).value.0), Scope(Some(cs), a).value.1 + Scope(Some(cs), a).value.2)
    ensures id in RunningAfter(start, EventsOf(r), took)
            <==> id in start && !LostStop(r, took, id) && !LostStart(r, took, id)
  {
    StacksAreDisjoint(cs);
    UpListed(cs, Scope(Some(cs), a).value.0);
    LeftDownExactly(r, Involved(Scope(Some(cs), a).value.0),
                    Scope(Some(cs), a).value.1 + Scope(Some(cs), a).value.2, start, took, id);
  }

  /** A hub whose stop failed after taking effect: it is down at the end and nothing tried to start it. */
  lemma FailedStopLeavesAHubDown()
    ensures var hub := Container("h", "node-xchain-hub", true);
      var r := Run([], Some("h"), [], [], []);
      && RunOf(r, [hub], [])
      && EventsOf(r) == [StopFailed("h")]
      && RunningAfter({"h"}, EventsOf(r), {0}) == {}
      && StartCount(EventsOf(r), "h") == 0
  {
    var r := Run([], Some("h"), [], [], []);
    assert EventsOf(r) == [StopFailed("h")];
    assert RunningAfter({"h"}, EventsOf(r)[..0], {0}) == {"h"};
  }

  // ----- the scope written out ------------------------------------------------------------

  ghost predicate Spelled(name: string)
  {
    name != "" && forall i :: 0 <= i < |name| ==>
      var u := name[i] as int; 48 <= u <= 57 || 65 <= u <= 90 || 97 <= u <= 122 || u == 36 || u == 95
  }

  /** The name of a hub of this prefix. */
  ghost predicate HubOf(name: string, prefix: string) { name == prefix + "-xchain-hub" }

  ghost predicate IndexerOf(name: string, prefix: string)
  {
    exists coin: string, network: string ::
      (coin == "bitcoin" || coin == "litecoin" || coin == "dogecoin")
      && (network == "mainnet" || network == "testnet" || network == "regtest")
      && name == prefix + "-" + coin + "-" + network + "-xchain-indexer"
  }

  ghost predicate FollowerOf(name: string, prefix: string)
  {
    IndexerOf(name, prefix) || name == prefix + "-xchain-explorer"
  }

  ghost predicate DatabaseOf(cs: seq<Container>, prefix: string, db: Container)
  {
    db in cs && db.name == prefix + "-database"
  }

  ghost predicate Known(names: map<string, string>, id: string) { id in names && Spelled(names[id]) }

  /** Everything a hub needs before anything is touched: its database container, its own three tables,
      and readable database names for it and for every indexer that mirrors it. */
  ghost predicate HubReady(cs: seq<Container>, a: Answers, hub: Container, prefix: string)
  {
    && Known(a.hubDatabase, hub.id)
    && (exists db :: DatabaseOf(cs, prefix, db) && OwnTablesShow(a, db, a.hubDatabase[hub.id]))
    && forall m :: m in cs && IndexerOf(m.name, prefix) ==> Known(a.indexerDatabase, m.id)
  }

  ghost predicate OwnTablesShow(a: Answers, db: Container, database: string)
  {
    && Table(db.id, database, "state_checkpoints") in a.tables
    && Table(db.id, database, "snapshot_checkpoints") in a.tables
    && Table(db.id, database, "anchor_published_checkpoints") in a.tables
  }

  /** A table of the hub itself. */
  ghost predicate OwnTable(cs: seq<Container>, a: Answers, hub: Container, prefix: string, t: Table)
  {
    && (exists db :: DatabaseOf(cs, prefix, db) && t.container == db.id)
    && hub.id in a.hubDatabase && t.database == a.hubDatabase[hub.id]
    && (t.name == "state_checkpoints" || t.name == "snapshot_checkpoints" || t.name == "anchor_published_checkpoints")
  }

  /** A mirror of the hub's checkpoints in an indexer's database, or beside it, that can be shown. */
  ghost predicate MirroredTable(cs: seq<Container>, a: Answers, prefix: string, t: Table)
  {
    exists db, m :: DatabaseOf(cs, prefix, db) && MirroredBy(cs, a, prefix, t, db, m)
  }

  ghost predicate MirroredBy(cs: seq<Container>, a: Answers, prefix: string, t: Table, db: Container, m: Container)
  {
    && m in cs && IndexerOf(m.name, prefix) && m.id in a.indexerDatabase
    && t.container == db.id && t.name == "state_checkpoints" && t in a.tables
    && (t.database == a.indexerDatabase[m.id] || t.database == a.indexerDatabase[m.id] + "_HubMirror")
  }

  lemma SpelledMeans(name: string)
    ensures SafeName(name) <==> Spelled(name)
  {
    if Spelled(name) {
      forall c | c in name ensures 'A' <= c <= 'Z' || 'a' <= c <= 'z' || '0' <= c <= '9' || c == '_' || c == '$' {
        var i :| 0 <= i < |name| && name[i] == c;
      }
    }
    if SafeName(name) { assert forall i :: 0 <= i < |name| ==> name[i] in name; }
  }

  lemma KnownMeans(names: map<string, string>, id: string)
    ensures NameIn(names, id).Some? <==> Known(names, id)
    ensures Known(names, id) ==> NameIn(names, id) == Some(names[id])
  {
    if id in names { SpelledMeans(names[id]); }
  }

  lemma IndexerMeans(name: string, prefix: string)
    ensures IsIndexer(prefix, name) <==> IndexerOf(name, prefix)
    ensures IsMirror(prefix, name) <==> FollowerOf(name, prefix)
  {
    if coin, network :|
         coin in COINS && network in NETWORKS && name == prefix + "-" + coin + "-" + network + "-xchain-indexer" {
      assert coin == "bitcoin" || coin == "litecoin" || coin == "dogecoin";
    }
  }

  lemma HubMeans(c: Container, prefix: string)
    ensures HubOf(c.name, prefix) <==> EndsWith(c.name, HUB_SUFFIX) && Prefix(c) == prefix
  {
    if EndsWith(c.name, HUB_SUFFIX) { assert c.name == Prefix(c) + HUB_SUFFIX; }
    if HubOf(c.name, prefix) { assert c.name[|c.name| - |HUB_SUFFIX|..] == HUB_SUFFIX; }
  }

  lemma {:induction false} FindMeans(cs: seq<Container>, name: string)
    ensures Find(cs, name).None? <==> forall c :: c in cs ==> c.name != name
    ensures Find(cs, name).Some? ==> Find(cs, name).value in cs && Find(cs, name).value.name == name
  {
    if cs != [] { FindMeans(cs[1..], name); }
  }

  lemma OneOfAName(cs: seq<Container>, c: Container, d: Container)
    requires Listed(cs) && c in cs && d in cs && c.name == d.name
    ensures c == d
  {
    if c != d { DifferentMembers(cs, c, d); }
  }

  lemma IndexerLetter(name: string)
    ensures EndsWith(name, "-xchain-indexer") ==> name[|name| - 3] == 'x'
  {
    if EndsWith(name, "-xchain-indexer") { assert name[|name| - 15..][12] == name[|name| - 3]; }
  }

  /** A mirror is an indexer by its last word. */
  lemma IndexerByEnding(name: string, prefix: string)
    requires FollowerOf(name, prefix)
    ensures EndsWith(name, "-xchain-indexer") <==> IndexerOf(name, prefix)
  {
    if IndexerOf(name, prefix) {
      var coin: string, network: string :| (coin == "bitcoin" || coin == "litecoin" || coin == "dogecoin")
        && (network == "mainnet" || network == "testnet" || network == "regtest")
        && name == prefix + "-" + coin + "-" + network + "-xchain-indexer";
      assert name[|name| - 15..] == "-xchain-indexer";
    } else {
      assert name[|name| - 3] == 'r';
      IndexerLetter(name);
    }
  }

  lemma HubTablesMean(a: Answers, stack: Stack)
    ensures HubTables(a, stack).Some? <==>
      Known(a.hubDatabase, stack.hub.id) && OwnTablesShow(a, stack.database, a.hubDatabase[stack.hub.id])
    ensures HubTables(a, stack).Some? ==> forall t :: t in HubTables(a, stack).value <==>
      t.container == stack.database.id && t.database == a.hubDatabase[stack.hub.id]
      && (t.name == "state_checkpoints" || t.name == "snapshot_checkpoints"
          || t.name == "anchor_published_checkpoints")
  {
    KnownMeans(a.hubDatabase, stack.hub.id);
    if Known(a.hubDatabase, stack.hub.id) {
      var n := a.hubDatabase[stack.hub.id];
      var tables := seq(|HUB_TABLES|, i requires 0 <= i < |HUB_TABLES| => Table(stack.database.id, n, HUB_TABLES[i]));
      assert tables == [Table(stack.database.id, n, "state_checkpoints"),
                        Table(stack.database.id, n, "snapshot_checkpoints"),
                        Table(stack.database.id, n, "anchor_published_checkpoints")];
      assert forall i :: 0 <= i < 3 ==> tables[i] in [tables[0], tables[1], tables[2]];
      assert (forall i :: 0 <= i < |tables| ==> tables[i] in a.tables)
        <==> tables[0] in a.tables && tables[1] in a.tables && tables[2] in a.tables;
    }
  }

  /** A database some indexer keeps, or the mirror beside it. */
  ghost predicate KeptBy(a: Answers, m: Container, name: string)
  {
    m.id in a.indexerDatabase
    && (name == a.indexerDatabase[m.id] || name == a.indexerDatabase[m.id] + "_HubMirror")
  }

  lemma {:induction false} MirrorDatabasesMean(a: Answers, ms: seq<Container>)
    ensures MirrorDatabases(a, ms).Some? <==> forall m :: m in ms ==> Known(a.indexerDatabase, m.id)
    ensures MirrorDatabases(a, ms).Some? ==>
              forall n :: n in MirrorDatabases(a, ms).value <==> exists m :: m in ms && KeptBy(a, m, n)
  {
    if ms != [] {
      var rest, last := ms[..|ms| - 1], ms[|ms| - 1];
      assert ms == rest + [last];
      MirrorDatabasesMean(a, rest);
      KnownMeans(a.indexerDatabase, last.id);
      assert forall m :: m in ms <==> m in rest || m == last;
      if MirrorDatabases(a, ms).Some? {
        forall n ensures n in MirrorDatabases(a, ms).value <==> exists m :: m in ms && KeptBy(a, m, n) {
          assert n in MirrorDatabases(a, ms).value <==> n in MirrorDatabases(a, rest).value || KeptBy(a, last, n);
        }
      }
    }
  }

  lemma MirrorTablesMean(a: Answers, stack: Stack)
    ensures MirrorTables(a, stack).Some? <==>
      forall m :: m in stack.mirrors && EndsWith(m.name, "-xchain-indexer") ==> Known(a.indexerDatabase, m.id)
    ensures MirrorTables(a, stack).Some? ==> forall t :: t in MirrorTables(a, stack).value <==>
      t in a.tables && t.container == stack.database.id && t.name == "state_checkpoints"
      && exists m :: m in stack.mirrors && EndsWith(m.name, "-xchain-indexer") && KeptBy(a, m, t.database)
  {
    var ms := Filter((c: Container) => EndsWith(c.name, "-xchain-indexer"), stack.mirrors);
    MirrorDatabasesMean(a, ms);
    if MirrorTables(a, stack).Some? {
      var names := MirrorDatabases(a, ms).value;
      var tables := seq(|names|, i requires 0 <= i < |names| => Table(stack.database.id, names[i], MIRROR_TABLE));
      forall t ensures t in tables <==>
        t.container == stack.database.id && t.name == "state_checkpoints" && t.database in names
      {
        if t.database in names && t == Table(stack.database.id, t.database, MIRROR_TABLE) {
          var i :| 0 <= i < |names| && names[i] == t.database;
          assert tables[i] == t;
        }
      }
      assert MirrorTables(a, stack).value == Filter(t => t in a.tables, tables);
    }
  }

  /** One hub: when its stack can be worked on, and what that is. */
  lemma StackMeans(cs: seq<Container>, a: Answers, hub: Container)
    requires Listed(cs) && EndsWith(hub.name, HUB_SUFFIX)
    ensures var st := StackOf(cs, hub);
      && (st.Some? && HubTables(a, st.value).Some? && MirrorTables(a, st.value).Some?
          <==> HubReady(cs, a, hub, Prefix(hub)))
      && (HubReady(cs, a, hub, Prefix(hub)) ==>
            && (forall m :: m in st.value.mirrors <==> m in cs && FollowerOf(m.name, Prefix(hub)))
            && (forall t :: t in HubTables(a, st.value).value <==> OwnTable(cs, a, hub, Prefix(hub), t))
            && (forall t :: t in MirrorTables(a, st.value).value <==> MirroredTable(cs, a, Prefix(hub), t)))
  {
    var prefix := Prefix(hub);
    FindMeans(cs, prefix + "-database");
    var st := StackOf(cs, hub);
    if st.Some? {
      var db := st.value.database;
      forall d | DatabaseOf(cs, prefix, d) ensures d == db { OneOfAName(cs, d, db); }
      assert DatabaseOf(cs, prefix, db);
      HubTablesMean(a, st.value);
      MirrorTablesMean(a, st.value);
      StackMirrors(cs, hub);
      if HubReady(cs, a, hub, prefix) {
        forall t ensures t in MirrorTables(a, st.value).value <==> MirroredTable(cs, a, prefix, t) {
          MirroredMeans(cs, a, hub, t);
        }
      }
    }
  }

  lemma StackMirrors(cs: seq<Container>, hub: Container)
    requires EndsWith(hub.name, HUB_SUFFIX) && StackOf(cs, hub).Some?
    ensures forall m :: m in StackOf(cs, hub).value.mirrors <==> m in cs && FollowerOf(m.name, Prefix(hub))
    ensures forall m :: m in StackOf(cs, hub).value.mirrors && EndsWith(m.name, "-xchain-indexer")
                        <==> m in cs && IndexerOf(m.name, Prefix(hub))
  {
    forall m ensures m in StackOf(cs, hub).value.mirrors <==> m in cs && FollowerOf(m.name, Prefix(hub)) {
      IndexerMeans(m.name, Prefix(hub));
    }
    forall m
      ensures m in StackOf(cs, hub).value.mirrors && EndsWith(m.name, "-xchain-indexer")
              <==> m in cs && IndexerOf(m.name, Prefix(hub))
    {
      if FollowerOf(m.name, Prefix(hub)) { IndexerByEnding(m.name, Prefix(hub)); }
    }
  }

  lemma MirroredMeans(cs: seq<Container>, a: Answers, hub: Container, t: Table)
    requires Listed(cs) && EndsWith(hub.name, HUB_SUFFIX) && StackOf(cs, hub).Some?
    requires MirrorTables(a, StackOf(cs, hub).value).Some?
    ensures t in MirrorTables(a, StackOf(cs, hub).value).value <==> MirroredTable(cs, a, Prefix(hub), t)
  {
    var prefix, st := Prefix(hub), StackOf(cs, hub).value;
    FindMeans(cs, prefix + "-database");
    assert DatabaseOf(cs, prefix, st.database);
    MirrorTablesMean(a, st);
    StackMirrors(cs, hub);
    if t in MirrorTables(a, st).value {
      var m :| m in st.mirrors && EndsWith(m.name, "-xchain-indexer") && KeptBy(a, m, t.database);
      assert MirroredBy(cs, a, prefix, t, st.database, m);
    }
    if db, m :| DatabaseOf(cs, prefix, db) && MirroredBy(cs, a, prefix, t, db, m) {
      OneOfAName(cs, db, st.database);
      assert KeptBy(a, m, t.database);
    }
  }

  /** A table that some of the hubs has of its own, or has mirrored. */
  ghost predicate OwnOfSome(cs: seq<Container>, a: Answers, hubs: seq<Container>, t: Table)
  {
    exists h, prefix :: h in hubs && HubOf(h.name, prefix) && OwnTable(cs, a, h, prefix, t)
  }

  ghost predicate MirroredOfSome(cs: seq<Container>, a: Answers, hubs: seq<Container>, t: Table)
  {
    exists h, prefix :: h in hubs && HubOf(h.name, prefix) && MirroredTable(cs, a, prefix, t)
  }

  ghost predicate AllReady(cs: seq<Container>, a: Answers, hubs: seq<Container>)
  {
    forall h, prefix :: h in hubs && HubOf(h.name, prefix) ==> HubReady(cs, a, h, prefix)
  }

  lemma OfSomeCons(cs: seq<Container>, a: Answers, hubs: seq<Container>, t: Table)
    requires hubs != [] && EndsWith(hubs[0].name, HUB_SUFFIX)
    ensures OwnOfSome(cs, a, hubs, t)
            <==> OwnTable(cs, a, hubs[0], Prefix(hubs[0]), t) || OwnOfSome(cs, a, hubs[1..], t)
    ensures MirroredOfSome(cs, a, hubs, t)
            <==> MirroredTable(cs, a, Prefix(hubs[0]), t) || MirroredOfSome(cs, a, hubs[1..], t)
  {
    var head := hubs[0];
    assert forall h :: h in hubs <==> h == head || h in hubs[1..];
    forall prefix ensures HubOf(head.name, prefix) <==> prefix == Prefix(head) { HubMeans(head, prefix); }
    if OwnTable(cs, a, head, Prefix(head), t) || MirroredTable(cs, a, Prefix(head), t) {
      assert HubOf(head.name, Prefix(head));
    }
  }

  lemma ReadyCons(cs: seq<Container>, a: Answers, hubs: seq<Container>)
    requires hubs != [] && EndsWith(hubs[0].name, HUB_SUFFIX)
    ensures AllReady(cs, a, hubs) <==> HubReady(cs, a, hubs[0], Prefix(hubs[0])) && AllReady(cs, a, hubs[1..])
  {
    var head := hubs[0];
    assert forall h :: h in hubs <==> h == head || h in hubs[1..];
    forall prefix ensures HubOf(head.name, prefix) <==> prefix == Prefix(head) { HubMeans(head, prefix); }
  }

  lemma {:induction false} TargetsMean(cs: seq<Container>, a: Answers, hubs: seq<Container>)
    requires Listed(cs) && forall h :: h in hubs ==> EndsWith(h.name, HUB_SUFFIX)
    ensures StacksOf(cs, hubs).Some? && Targets(a, StacksOf(cs, hubs).value).Some? <==> AllReady(cs, a, hubs)
    ensures AllReady(cs, a, hubs) ==>
      var r := Targets(a, StacksOf(cs, hubs).value).value;
      && (forall t :: t in r.0 <==> OwnOfSome(cs, a, hubs, t))
      && (forall t :: t in r.1 <==> MirroredOfSome(cs, a, hubs, t))
  {
    if hubs != [] {
      var head, rest := hubs[0], hubs[1..];
      StackMeans(cs, a, head);
      TargetsMean(cs, a, rest);
      ReadyCons(cs, a, hubs);
      if StackOf(cs, head).Some? && StacksOf(cs, rest).Some? { TargetsCons(cs, a, hubs); }
      if AllReady(cs, a, hubs) {
        var r := Targets(a, StacksOf(cs, hubs).value).value;
        forall t
          ensures t in r.0 <==> OwnOfSome(cs, a, hubs, t)
          ensures t in r.1 <==> MirroredOfSome(cs, a, hubs, t)
        {
          OfSomeCons(cs, a, hubs, t);
        }
      }
    }
  }

  lemma TargetsCons(cs: seq<Container>, a: Answers, hubs: seq<Container>)
    requires hubs != [] && forall h :: h in hubs ==> EndsWith(h.name, HUB_SUFFIX)
    requires StackOf(cs, hubs[0]).Some? && StacksOf(cs, hubs[1..]).Some?
    ensures StacksOf(cs, hubs).Some?
    ensures var first, rest := StackOf(cs, hubs[0]).value, StacksOf(cs, hubs[1..]).value;
      var hub, mirrors, more := HubTables(a, first), MirrorTables(a, first), Targets(a, rest);
      Targets(a, StacksOf(cs, hubs).value)
      == if hub.None? || mirrors.None? || more.None? then None
         else Some((hub.value + more.value.0, mirrors.value + more.value.1))
  {
    var first, rest := StackOf(cs, hubs[0]).value, StacksOf(cs, hubs[1..]).value;
    assert StacksOf(cs, hubs).value == [first] + rest && ([first] + rest)[1..] == rest;
  }

  /** What the command works on, by the names docker lists: it refuses exactly when there is no hub or
      some hub is not ready; else it works on every hub and everything that follows one, and rebuilds
      exactly the hubs' own tables and the mirrors that can be shown. */
  lemma ScopeMeans(cs: seq<Container>, a: Answers)
    requires Listed(cs)
    ensures Scope(None, a).None?
    ensures Scope(Some(cs), a).Some? <==>
      (exists h: Container, prefix: string :: h in cs && HubOf(h.name, prefix)) && AllReady(cs, a, cs)
    ensures Scope(Some(cs), a).Some? ==>
      var (stacks, own, mirrored) := Scope(Some(cs), a).value;
      && (forall c: Container :: c in HubsOf(stacks) <==> c in cs && exists prefix :: HubOf(c.name, prefix))
      && (forall c: Container :: c in MirrorsOf(stacks) <==>
            c in cs && exists h: Container, prefix: string ::
                         h in cs && HubOf(h.name, prefix) && FollowerOf(c.name, prefix))
      && (forall t :: t in own <==> OwnOfSome(cs, a, cs, t))
      && (forall t :: t in mirrored <==> MirroredOfSome(cs, a, cs, t))
  {
    var hubs := Hubs(cs);
    HubsMean(cs);
    SameHubs(cs, a, hubs);
    TargetsMean(cs, a, hubs);
    SomeHub(cs);
    if Scope(Some(cs), a).Some? { StacksMean(cs); }
  }

  lemma SomeHub(cs: seq<Container>)
    ensures Hubs(cs) != [] <==> exists h: Container, prefix: string :: h in cs && HubOf(h.name, prefix)
  {
    HubsMean(cs);
    var hubs := Hubs(cs);
    if hubs != [] { assert hubs[0] in hubs; }
    if h: Container, prefix: string :| h in cs && HubOf(h.name, prefix) { assert h in hubs; }
  }

  lemma StacksMean(cs: seq<Container>)
    requires RailStacks(cs).Some?
    ensures var stacks := RailStacks(cs).value;
      && (forall c: Container :: c in HubsOf(stacks) <==> c in cs && exists prefix :: HubOf(c.name, prefix))
      && (forall c: Container :: c in MirrorsOf(stacks) <==>
            c in cs && exists h: Container, prefix: string ::
                         h in cs && HubOf(h.name, prefix) && FollowerOf(c.name, prefix))
  {
    var hubs := Hubs(cs);
    HubsMean(cs);
    StacksShape(cs, hubs);
    forall c: Container ensures c in MirrorsOf(RailStacks(cs).value) <==>
      c in cs && exists h: Container, prefix: string :: h in cs && HubOf(h.name, prefix) && FollowerOf(c.name, prefix)
    {
      FollowsSome(cs, hubs, c);
    }
  }

  lemma SameHubs(cs: seq<Container>, a: Answers, hubs: seq<Container>)
    requires forall h: Container, prefix: string ::
               h in hubs && HubOf(h.name, prefix) <==> h in cs && HubOf(h.name, prefix)
    ensures AllReady(cs, a, hubs) <==> AllReady(cs, a, cs)
    ensures forall t :: OwnOfSome(cs, a, hubs, t) <==> OwnOfSome(cs, a, cs, t)
    ensures forall t :: MirroredOfSome(cs, a, hubs, t) <==> MirroredOfSome(cs, a, cs, t)
  {
  }

  lemma HubsMean(cs: seq<Container>)
    ensures forall c: Container :: c in Hubs(cs) <==> c in cs && exists prefix :: HubOf(c.name, prefix)
    ensures forall h: Container, prefix: string ::
              h in Hubs(cs) && HubOf(h.name, prefix) <==> h in cs && HubOf(h.name, prefix)
  {
    forall c: Container, prefix: string
      ensures HubOf(c.name, prefix) <==> EndsWith(c.name, HUB_SUFFIX) && Prefix(c) == prefix
    {
      HubMeans(c, prefix);
    }
    forall c: Container | EndsWith(c.name, HUB_SUFFIX) ensures exists prefix :: HubOf(c.name, prefix) {
      assert HubOf(c.name, Prefix(c));
    }
  }

  lemma FollowsSome(cs: seq<Container>, hubs: seq<Container>, c: Container)
    requires (forall h :: h in hubs ==> EndsWith(h.name, HUB_SUFFIX))
    requires forall h: Container, prefix: string ::
               h in hubs && HubOf(h.name, prefix) <==> h in cs && HubOf(h.name, prefix)
    ensures MirrorOfSome(hubs, c.name)
            <==> exists h: Container, prefix: string :: h in cs && HubOf(h.name, prefix) && FollowerOf(c.name, prefix)
  {
    if h :| h in hubs && IsMirror(Prefix(h), c.name) {
      HubMeans(h, Prefix(h));
      IndexerMeans(c.name, Prefix(h));
      assert h in cs && HubOf(h.name, Prefix(h)) && FollowerOf(c.name, Prefix(h));
    }
    if h: Container, prefix: string :| h in cs && HubOf(h.name, prefix) && FollowerOf(c.name, prefix) {
      HubMeans(h, prefix);
      IndexerMeans(c.name, prefix);
      assert h in hubs && IsMirror(Prefix(h), c.name);
    }
  }
}
