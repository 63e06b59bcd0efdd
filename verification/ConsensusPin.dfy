/** The consensus pin over a coin file. */
module ConsensusPin {
  // Which part of a coin file is hashed, and what a passing check proves about it. The hash is a parameter;
  // where it matters it is taken to be collision-free.

  import opened Base
  import opened CanonicalJson

  datatype NetBlock = NetBlock(net: Json, firstBlock: Json, addresses: seq<Field>,
                               genesis: Json, chainGenesisHash: Json)

  /** A coin data file. CONFIG_SLASH is Undefined when the file does not declare it. */
  datatype Coin = Coin(
    networks: map<string, NetBlock>,
    displayRoles: Option<seq<Text>>,
    wireFormat: Json, legacyFees: Json, gasPrice: Json, feeFreeDays: Json,
    toleranceMin: Json, toleranceMax: Json, maxPriceAge: Json, maxPriceAgeHourly: Json,
    queryLimit: Json, gasSchedule: Json, staking: Json,
    configSlash: Json, fullnode: Option<seq<Field>>)

  function Ascii(s: string): (t: Text)
    ensures |t| == |s| && forall i :: 0 <= i < |s| && s[i] as int < 128 ==> t[i] == s[i] as int
  {
    seq(|s|, i requires 0 <= i < |s| => if s[i] as int < 128 then s[i] as int else 63)
  }

  const DOLLAR: Unit := 36

  predicate Descriptor(f: Field) { f.key != [] && f.key[0] == DOLLAR }

  /** JavaScript truthiness of a value read from a coin file. */
  predicate Truthy(v: Json)
  {
    match v
    case Undefined => false
    case Null => false
    case Bool(b) => b
    case Number(digits) => digits != [48] && digits != [45, 48]
    case Str(s) => s != []
    case _ => true
  }

  function DisplayRoles(coin: Coin): seq<Text>
  {
    if coin.displayRoles.Some? then coin.displayRoles.value else [Ascii("EXPLORER")]
  }

  /** The addresses whose roles are not display-only. */
  function KeptAddresses(addresses: seq<Field>, display: seq<Text>): seq<Field>
  {
    Filter((f: Field) => f.key !in display, addresses)
  }

  function StripDescriptors(fields: seq<Field>): seq<Field>
  {
    Filter((f: Field) => !Descriptor(f), fields)
  }

  function RequiredFields(coin: Coin, block: NetBlock, addresses: seq<Field>): (r: seq<Field>)
    ensures |r| == 14
  {
    [ Field(Ascii("net"), block.net),
      Field(Ascii("wireFormat"), coin.wireFormat),
      Field(Ascii("firstBlock"), block.firstBlock),
      Field(Ascii("addresses"), Obj(addresses)),
      Field(Ascii("legacyFees"), coin.legacyFees),
      Field(Ascii("GAS_PRICE"), coin.gasPrice),
      Field(Ascii("UNIFIED_EXPIRATION_FEE_FREE_DAYS"), coin.feeFreeDays),
      Field(Ascii("FEE_TOLERANCE_MIN"), coin.toleranceMin),
      Field(Ascii("FEE_TOLERANCE_MAX"), coin.toleranceMax),
      Field(Ascii("ORACLE_MAX_PRICE_AGE_SECONDS"), coin.maxPriceAge),
      Field(Ascii("ORACLE_MAX_PRICE_AGE_HOURLY_SECONDS"), coin.maxPriceAgeHourly),
      Field(Ascii("VALIDATOR_QUERY_LIMIT"), coin.queryLimit),
      Field(Ascii("GAS_SCHEDULE"), coin.gasSchedule),
      Field(Ascii("STAKING"), coin.staking) ]
  }

  function OptionalFields(coin: Coin): seq<Field>
  {
    (if Truthy(coin.configSlash) then [Field(Ascii("CONFIG_SLASH"), coin.configSlash)] else [])
    + (if coin.fullnode.Some? then [Field(Ascii("FULLNODE"), Obj(StripDescriptors(coin.fullnode.value)))] else [])
  }

  function SubsetFields(coin: Coin, block: NetBlock): seq<Field>
  {
    RequiredFields(coin, block, KeptAddresses(block.addresses, DisplayRoles(coin))) + OptionalFields(coin)
  }

  /** The consensus-critical subset; None where the source throws for an unknown network. */
  function ConsensusSubset(coin: Coin, network: string): Option<Json>
  {
    if network in coin.networks then Some(Obj(SubsetFields(coin, coin.networks[network]))) else None
  }

  method BuildKeptAddresses(addresses: seq<Field>, display: seq<Text>) returns (kept: seq<Field>)
    ensures kept == KeptAddresses(addresses, display)
  {
    kept := [];
    for i := 0 to |addresses|
      invariant kept == KeptAddresses(addresses[..i], display)
    {
      FilterTake((f: Field) => f.key !in display, addresses, i);
      if addresses[i].key !in display { kept := kept + [addresses[i]]; }
    }
    assert addresses[..|addresses|] == addresses;
  }

  method BuildStripped(fields: seq<Field>) returns (out: seq<Field>)
    ensures out == StripDescriptors(fields)
  {
    out := [];
    for i := 0 to |fields|
      invariant out == StripDescriptors(fields[..i])
    {
      FilterTake((f: Field) => !Descriptor(f), fields, i);
      if !Descriptor(fields[i]) { out := out + [fields[i]]; }
    }
    assert fields[..|fields|] == fields;
  }

  method BuildConsensusSubset(coin: Coin, network: string) returns (subset: Option<Json>)
    ensures subset == ConsensusSubset(coin, network)
  {
    if network !in coin.networks { return None; }
    var block := coin.networks[network];
    var addresses := BuildKeptAddresses(block.addresses, DisplayRoles(coin));
    var fields := RequiredFields(coin, block, addresses);
    if Truthy(coin.configSlash) { fields := fields + [Field(Ascii("CONFIG_SLASH"), coin.configSlash)]; }
    if coin.fullnode.Some? {
      var stripped := BuildStripped(coin.fullnode.value);
      fields := fields + [Field(Ascii("FULLNODE"), Obj(stripped))];
    }
    assert fields == SubsetFields(coin, block);
    return Some(Obj(fields));
  }

  // ----- the check ------------------------------------------------------------------------

  type Hash = Text -> Text

  datatype Outcome = Verified(skipped: bool) | Mismatch(tick: string) | NoSuchNetwork(tick: string)

  function LowerUnit(c: Unit): Unit { if 65 <= c <= 90 then c + 32 else c }

  function Lower(t: Text): Text { seq(|t|, i requires 0 <= i < |t| => LowerUnit(t[i])) }

  predicate Pinned(pins: map<string, Text>, tick: string) { tick in pins && pins[tick] != [] }

  /** The pin of one coin, where it has one, is the hash of its subset. */
  predicate Matches(bundle: map<string, Coin>, network: string, pins: map<string, Text>, hash: Hash, tick: string)
    requires tick in bundle
  {
    Pinned(pins, tick) ==>
      && network in bundle[tick].networks
      && hash(Canonical(ConsensusSubset(bundle[tick], network).value)) == Lower(pins[tick])
  }

  /** Fail closed: the first coin whose pin its bundled file does not hash to stops the check. */
  method VerifyConsensusPin(bundle: map<string, Coin>, ticks: seq<string>, network: string,
                            pins: Option<map<string, Text>>, hash: Hash) returns (r: Outcome)
    requires forall t :: t in ticks ==> t in bundle
    ensures pins.None? ==> r == Verified(true)
    ensures pins.Some? ==>
              (r == Verified(false) <==> forall t :: t in ticks ==> Matches(bundle, network, pins.value, hash, t))
    ensures r.Mismatch? || r.NoSuchNetwork? ==>
              pins.Some? && r.tick in ticks && !Matches(bundle, network, pins.value, hash, r.tick)
  {
    if pins.None? { return Verified(true); }
    for i := 0 to |ticks|
      invariant forall k :: 0 <= k < i ==> Matches(bundle, network, pins.value, hash, ticks[k])
    {
      var tick := ticks[i];
      assert tick in ticks;
      if Pinned(pins.value, tick) {
        var subset := BuildConsensusSubset(bundle[tick], network);
        if subset.None? {
          assert !Matches(bundle, network, pins.value, hash, tick);
          return NoSuchNetwork(tick);
        }
        if hash(Canonical(subset.value)) != Lower(pins.value[tick]) {
          assert !Matches(bundle, network, pins.value, hash, tick);
          return Mismatch(tick);
        }
      }
    }
    forall t | t in ticks ensures Matches(bundle, network, pins.value, hash, t) {
      var k :| 0 <= k < |ticks| && ticks[k] == t;
    }
    return Verified(false);
  }

  // ----- what a passing check proves ------------------------------------------------------

  ghost predicate CollisionFree(hash: Hash) { forall x, y :: hash(x) == hash(y) ==> x == y }

  ghost predicate DistinctFields(fields: seq<Field>)
  {
    && (forall i, j :: 0 <= i < j < |fields| ==> fields[i].key != fields[j].key)
    && (forall i :: 0 <= i < |fields| ==> DistinctKeys(fields[i].value))
  }

  /** A coin file as JavaScript holds it: no object repeats a key. */
  ghost predicate WellFormed(coin: Coin)
  {
    && (forall n :: n in coin.networks ==>
          && DistinctKeys(coin.networks[n].net) && DistinctKeys(coin.networks[n].firstBlock)
          && DistinctFields(coin.networks[n].addresses))
    && DistinctKeys(coin.wireFormat) && DistinctKeys(coin.legacyFees) && DistinctKeys(coin.gasPrice)
    && DistinctKeys(coin.feeFreeDays) && DistinctKeys(coin.toleranceMin) && DistinctKeys(coin.toleranceMax)
    && DistinctKeys(coin.maxPriceAge) && DistinctKeys(coin.maxPriceAgeHourly) && DistinctKeys(coin.queryLimit)
    && DistinctKeys(coin.gasSchedule) && DistinctKeys(coin.staking) && DistinctKeys(coin.configSlash)
    && (coin.fullnode.Some? ==> DistinctFields(coin.fullnode.value))
  }

  lemma {:induction false} FilterKeepsDistinct(keep: Field -> bool, fields: seq<Field>)
    requires DistinctFields(fields)
    ensures DistinctFields(Filter(keep, fields))
  {
    if fields != [] {
      FilterKeepsDistinct(keep, fields[1..]);
      var rest := Filter(keep, fields[1..]);
      forall i | 0 <= i < |rest| ensures rest[i].key != fields[0].key {
        assert rest[i] in rest;
        var k :| 0 <= k < |fields[1..]| && fields[1..][k] == rest[i];
        assert fields[k + 1] == rest[i];
      }
    }
  }

  /** The position of a covered name, read off its length and two of its units. */
  function Position(t: Text): int
  {
    if |t| == 3 then 0
    else if |t| == 10 then (if t[0] == 119 then 1 else if t[0] == 102 then 2 else 4)
    else if |t| == 9 then (if t[0] == 97 then 3 else 5)
    else if |t| == 32 then 6
    else if |t| == 17 then (if t[15] == 73 then 7 else 8)
    else if |t| == 28 then 9
    else if |t| == 35 then 10
    else if |t| == 21 then 11
    else if |t| == 12 then (if t[0] == 71 then 12 else 14)
    else if |t| == 7 then 13
    else 15
  }

  lemma RequiredPositions(coin: Coin, block: NetBlock, addresses: seq<Field>)
    ensures forall i :: 0 <= i < 14 ==> Position(RequiredFields(coin, block, addresses)[i].key) == i
  {
    var r := RequiredFields(coin, block, addresses);
    forall i | 0 <= i < 14 ensures Position(r[i].key) == i {
      if i < 7 { assert i in {0, 1, 2, 3, 4, 5, 6}; } else { assert i in {7, 8, 9, 10, 11, 12, 13}; }
    }
  }

  lemma OptionalPositions(coin: Coin)
    ensures var r := OptionalFields(coin);
            && |r| <= 2
            && (forall i :: 0 <= i < |r| ==> 14 <= Position(r[i].key))
            && (|r| == 2 ==> Position(r[0].key) < Position(r[1].key))
  {
  }

  lemma NamesDistinct(coin: Coin, block: NetBlock)
    ensures var r := SubsetFields(coin, block);
            forall i, j :: 0 <= i < j < |r| ==> Position(r[i].key) < Position(r[j].key)
  {
    var kept := KeptAddresses(block.addresses, DisplayRoles(coin));
    var r, o := RequiredFields(coin, block, kept), OptionalFields(coin);
    RequiredPositions(coin, block, kept);
    OptionalPositions(coin);
    var all := SubsetFields(coin, block);
    forall i, j | 0 <= i < j < |all| ensures Position(all[i].key) < Position(all[j].key) {
      assert all[i] == (if i < 14 then r[i] else o[i - 14]);
      assert all[j] == (if j < 14 then r[j] else o[j - 14]);
    }
  }

  lemma RequiredValuesDistinct(coin: Coin, network: string)
    requires WellFormed(coin) && network in coin.networks
    ensures var block := coin.networks[network];
            var r := RequiredFields(coin, block, KeptAddresses(block.addresses, DisplayRoles(coin)));
            forall i :: 0 <= i < 14 ==> DistinctKeys(r[i].value)
  {
    KeptStayDistinct(coin.networks[network].addresses, DisplayRoles(coin));
  }

  lemma KeptStayDistinct(addresses: seq<Field>, display: seq<Text>)
    requires DistinctFields(addresses)
    ensures DistinctFields(KeptAddresses(addresses, display))
  {
    FilterKeepsDistinct((f: Field) => f.key !in display, addresses);
  }

  lemma OptionalValuesDistinct(coin: Coin)
    requires WellFormed(coin)
    ensures forall i :: 0 <= i < |OptionalFields(coin)| ==> DistinctKeys(OptionalFields(coin)[i].value)
  {
    if coin.fullnode.Some? { FilterKeepsDistinct((f: Field) => !Descriptor(f), coin.fullnode.value); }
  }

  /** No covered name repeats, so the subset is an object of distinct keys. */
  lemma SubsetDistinct(coin: Coin, network: string)
    requires WellFormed(coin) && network in coin.networks
    ensures DistinctKeys(ConsensusSubset(coin, network).value)
  {
    var block := coin.networks[network];
    var r := RequiredFields(coin, block, KeptAddresses(block.addresses, DisplayRoles(coin)));
    var o, all := OptionalFields(coin), SubsetFields(coin, block);
    NamesDistinct(coin, block);
    RequiredValuesDistinct(coin, network);
    OptionalValuesDistinct(coin);
    forall i | 0 <= i < |all| ensures DistinctKeys(all[i].value) {
      assert all[i] == (if i < 14 then r[i] else o[i - 14]);
    }
    forall i, j | 0 <= i < j < |all| ensures all[i].key != all[j].key {
      assert Position(all[i].key) < Position(all[j].key);
    }
  }

  /** Two coin files hash alike exactly when their covered fields are equal, up to key order. */
  lemma HashFixesTheSubset(a: Coin, b: Coin, network: string, hash: Hash)
    requires CollisionFree(hash) && WellFormed(a) && WellFormed(b)
    requires network in a.networks && network in b.networks
    ensures var sa, sb := ConsensusSubset(a, network).value, ConsensusSubset(b, network).value;
            hash(Canonical(sa)) == hash(Canonical(sb)) <==> Same(Collapse(sa), Collapse(sb))
  {
    var sa, sb := ConsensusSubset(a, network).value, ConsensusSubset(b, network).value;
    SubsetDistinct(a, network);
    SubsetDistinct(b, network);
    PrintsDetermineValues(sa, sb);
  }

  /** A passing check against pins taken from a reference bundle proves every pinned coin's
      covered fields equal to the reference's, and equal fields always pass. */
  lemma PassingPinMeansPinnedConfig(bundle: map<string, Coin>, reference: map<string, Coin>, network: string,
                                    pins: map<string, Text>, hash: Hash, tick: string)
    requires CollisionFree(hash) && tick in bundle && tick in reference
    requires WellFormed(bundle[tick]) && WellFormed(reference[tick])
    requires network in bundle[tick].networks && network in reference[tick].networks
    requires Pinned(pins, tick) && Lower(pins[tick]) == hash(Canonical(ConsensusSubset(reference[tick], network).value))
    ensures Matches(bundle, network, pins, hash, tick)
            <==> Same(Collapse(ConsensusSubset(bundle[tick], network).value),
                      Collapse(ConsensusSubset(reference[tick], network).value))
  {
    HashFixesTheSubset(bundle[tick], reference[tick], network, hash);
  }

  // ----- field by field -------------------------------------------------------------------

  /** Equal up to key order, `[undefined]` read as `[]`: all a canonical text can tell. */
  ghost predicate Alike(v: Json, w: Json) { Same(Collapse(v), Collapse(w)) }

  ghost predicate HasAlike(f: Field, gs: seq<Field>)
  {
    exists j :: 0 <= j < |gs| && gs[j].key == f.key && Alike(f.value, gs[j].value)
  }

  ghost predicate EntriesAlike(fs: seq<Field>, gs: seq<Field>)
  {
    |fs| == |gs| && forall i :: 0 <= i < |fs| ==> HasAlike(fs[i], gs)
  }

  lemma ObjectsAlike(fs: seq<Field>, gs: seq<Field>)
    ensures Alike(Obj(fs), Obj(gs)) <==> EntriesAlike(fs, gs)
  {
    var cs, ds := CollapseFields(fs), CollapseFields(gs);
    forall i | 0 <= i < |fs| ensures HasField(cs[i], ds) <==> HasAlike(fs[i], gs) {
      assert forall j :: 0 <= j < |gs| ==> ds[j].key == gs[j].key && ds[j].value == Collapse(gs[j].value);
      if HasAlike(fs[i], gs) {
        var j :| 0 <= j < |gs| && gs[j].key == fs[i].key && Alike(fs[i].value, gs[j].value);
        assert ds[j].key == cs[i].key;
      }
    }
  }

  function CoveredAddresses(coin: Coin, network: string): seq<Field>
    requires network in coin.networks
  {
    KeptAddresses(coin.networks[network].addresses, DisplayRoles(coin))
  }

  /** What the pin covers, name by name: every required field, the addresses that are not for
      display, and the optional fields, which one file has when the other does. */
  ghost predicate SameCoverage(a: Coin, b: Coin, network: string)
    requires network in a.networks && network in b.networks
  {
    && Alike(a.networks[network].net, b.networks[network].net)
    && Alike(a.wireFormat, b.wireFormat)
    && Alike(a.networks[network].firstBlock, b.networks[network].firstBlock)
    && EntriesAlike(CoveredAddresses(a, network), CoveredAddresses(b, network))
    && Alike(a.legacyFees, b.legacyFees)
    && Alike(a.gasPrice, b.gasPrice)
    && Alike(a.feeFreeDays, b.feeFreeDays)
    && Alike(a.toleranceMin, b.toleranceMin)
    && Alike(a.toleranceMax, b.toleranceMax)
    && Alike(a.maxPriceAge, b.maxPriceAge)
    && Alike(a.maxPriceAgeHourly, b.maxPriceAgeHourly)
    && Alike(a.queryLimit, b.queryLimit)
    && Alike(a.gasSchedule, b.gasSchedule)
    && Alike(a.staking, b.staking)
    && (Truthy(a.configSlash) <==> Truthy(b.configSlash))
    && (Truthy(a.configSlash) ==> Alike(a.configSlash, b.configSlash))
    && (a.fullnode.Some? <==> b.fullnode.Some?)
    && (a.fullnode.Some? && b.fullnode.Some? ==>
          EntriesAlike(StripDescriptors(a.fullnode.value), StripDescriptors(b.fullnode.value)))
  }

  ghost predicate RequiredAlike(a: Coin, b: Coin, network: string)
    requires network in a.networks && network in b.networks
  {
    InPlace(RequiredFields(a, a.networks[network], CoveredAddresses(a, network)),
            RequiredFields(b, b.networks[network], CoveredAddresses(b, network)))
  }

  ghost predicate OptionalAlike(a: Coin, b: Coin)
  {
    InPlace(OptionalFields(a), OptionalFields(b))
  }

  lemma CoverageByPosition(a: Coin, b: Coin, network: string)
    requires network in a.networks && network in b.networks
    ensures SameCoverage(a, b, network) <==> RequiredAlike(a, b, network) && OptionalAlike(a, b)
  {
    var r := RequiredFields(a, a.networks[network], CoveredAddresses(a, network));
    var s := RequiredFields(b, b.networks[network], CoveredAddresses(b, network));
    ObjectsAlike(CoveredAddresses(a, network), CoveredAddresses(b, network));
    OptionalByName(a, b);
    if SameCoverage(a, b, network) {
      forall i | 0 <= i < 14 ensures r[i].key == s[i].key && Alike(r[i].value, s[i].value) {
        if i < 7 { assert i in {0, 1, 2, 3, 4, 5, 6}; } else { assert i in {7, 8, 9, 10, 11, 12, 13}; }
      }
    }
    if RequiredAlike(a, b, network) {
      assert Alike(r[0].value, s[0].value) && Alike(r[1].value, s[1].value) && Alike(r[2].value, s[2].value);
      assert Alike(r[3].value, s[3].value) && Alike(r[4].value, s[4].value) && Alike(r[5].value, s[5].value);
      assert Alike(r[6].value, s[6].value) && Alike(r[7].value, s[7].value) && Alike(r[8].value, s[8].value);
      assert Alike(r[9].value, s[9].value) && Alike(r[10].value, s[10].value) && Alike(r[11].value, s[11].value);
      assert Alike(r[12].value, s[12].value) && Alike(r[13].value, s[13].value);
    }
  }

  lemma OptionalShape(coin: Coin)
    ensures var o := OptionalFields(coin);
            var node := if coin.fullnode.Some? then Obj(StripDescriptors(coin.fullnode.value)) else Undefined;
            && |o| == (if Truthy(coin.configSlash) then 1 else 0) + (if coin.fullnode.Some? then 1 else 0)
            && (Truthy(coin.configSlash) ==> o[0] == Field(Ascii("CONFIG_SLASH"), coin.configSlash))
            && (coin.fullnode.Some? ==> o[|o| - 1] == Field(Ascii("FULLNODE"), node))
  {
  }

  lemma OptionalByName(a: Coin, b: Coin)
    ensures OptionalAlike(a, b)
            <==> && (Truthy(a.configSlash) <==> Truthy(b.configSlash))
                 && (Truthy(a.configSlash) ==> Alike(a.configSlash, b.configSlash))
                 && (a.fullnode.Some? <==> b.fullnode.Some?)
                 && (a.fullnode.Some? && b.fullnode.Some? ==>
                       EntriesAlike(StripDescriptors(a.fullnode.value), StripDescriptors(b.fullnode.value)))
  {
    var slash, node := Ascii("CONFIG_SLASH"), Ascii("FULLNODE");
    assert |slash| == 12 && |node| == 8;
    OptionalShape(a);
    OptionalShape(b);
    if a.fullnode.Some? && b.fullnode.Some? {
      ObjectsAlike(StripDescriptors(a.fullnode.value), StripDescriptors(b.fullnode.value));
    }
  }

  ghost function EntryAt(f: Field, gs: seq<Field>): (j: nat)
    requires HasAlike(f, gs)
    ensures j < |gs| && gs[j].key == f.key && Alike(f.value, gs[j].value)
  {
    var j :| 0 <= j < |gs| && gs[j].key == f.key && Alike(f.value, gs[j].value);
    j
  }

  ghost function Entries(fs: seq<Field>, gs: seq<Field>): (at: seq<nat>)
    requires EntriesAlike(fs, gs)
    ensures |at| == |fs|
    ensures forall i :: 0 <= i < |fs| ==>
              at[i] < |gs| && gs[at[i]].key == fs[i].key && Alike(fs[i].value, gs[at[i]].value)
  {
    seq(|fs|, i requires 0 <= i < |fs| => EntryAt(fs[i], gs))
  }

  lemma {:induction false} RisingIsIdentity(at: seq<nat>)
    requires forall i :: 0 <= i < |at| ==> at[i] < |at|
    requires forall i, j :: 0 <= i < j < |at| ==> at[i] < at[j]
    ensures forall i :: 0 <= i < |at| ==> at[i] == i
  {
    if at != [] {
      var n := |at| - 1;
      forall i | 0 <= i < n ensures at[..n][i] < n { assert at[i] < at[n]; }
      RisingIsIdentity(at[..n]);
      assert forall i :: 0 <= i < n ==> at[i] == at[..n][i] == i;
      assert n > 0 ==> at[n - 1] == n - 1 && at[n - 1] < at[n];
    }
  }

  /** Entries in the order of their positions can only answer each other in place. */
  lemma EntriesInPlace(fs: seq<Field>, gs: seq<Field>)
    requires forall i, j :: 0 <= i < j < |fs| ==> Position(fs[i].key) < Position(fs[j].key)
    requires forall i, j :: 0 <= i < j < |gs| ==> Position(gs[i].key) < Position(gs[j].key)
    ensures EntriesAlike(fs, gs)
            <==> InPlace(fs, gs)
  {
    if EntriesAlike(fs, gs) {
      var at := Entries(fs, gs);
      forall i, j | 0 <= i < j < |fs| ensures at[i] < at[j] {
        assert HasAlike(fs[i], gs) && HasAlike(fs[j], gs);
        assert Position(gs[at[i]].key) < Position(gs[at[j]].key);
      }
      RisingIsIdentity(at);
      forall i | 0 <= i < |fs| ensures fs[i].key == gs[i].key && Alike(fs[i].value, gs[i].value) {
        assert HasAlike(fs[i], gs) && at[i] == i;
      }
    }
  }

  /** Two subsets agree in place exactly when their required and their optional parts do. */
  lemma AgreeInParts(r: seq<Field>, s: seq<Field>, o: seq<Field>, q: seq<Field>)
    requires |r| == |s|
    ensures InPlace(r + o, s + q) <==> InPlace(r, s) && InPlace(o, q)
  {
    var n, fs, gs := |r|, r + o, s + q;
    if InPlace(fs, gs) {
      assert forall i :: 0 <= i < n ==> fs[i] == r[i] && gs[i] == s[i];
      forall i | 0 <= i < |o| ensures o[i].key == q[i].key && Alike(o[i].value, q[i].value) {
        assert fs[i + n] == o[i] && gs[i + n] == q[i];
      }
    }
  }

  ghost predicate InPlace(fs: seq<Field>, gs: seq<Field>)
  {
    |fs| == |gs| && forall i :: 0 <= i < |fs| ==> fs[i].key == gs[i].key && Alike(fs[i].value, gs[i].value)
  }

  lemma CoverageIsSubset(a: Coin, b: Coin, network: string)
    requires network in a.networks && network in b.networks
    ensures Alike(ConsensusSubset(a, network).value, ConsensusSubset(b, network).value)
            <==> SameCoverage(a, b, network)
  {
    var fs, gs := SubsetFields(a, a.networks[network]), SubsetFields(b, b.networks[network]);
    var r := RequiredFields(a, a.networks[network], CoveredAddresses(a, network));
    var s := RequiredFields(b, b.networks[network], CoveredAddresses(b, network));
    NamesDistinct(a, a.networks[network]);
    NamesDistinct(b, b.networks[network]);
    ObjectsAlike(fs, gs);
    EntriesInPlace(fs, gs);
    AgreeInParts(r, s, OptionalFields(a), OptionalFields(b));
    CoverageByPosition(a, b, network);
  }

  /** A passing check against pins taken from a reference bundle, field by field: it passes for a
      coin exactly when every covered field agrees with the reference's and is there when it is. */
  lemma CoveredFieldsAgree(bundle: map<string, Coin>, reference: map<string, Coin>, network: string,
                           pins: map<string, Text>, hash: Hash, tick: string)
    requires CollisionFree(hash) && tick in bundle && tick in reference
    requires WellFormed(bundle[tick]) && WellFormed(reference[tick])
    requires network in bundle[tick].networks && network in reference[tick].networks
    requires Pinned(pins, tick) && Lower(pins[tick]) == hash(Canonical(ConsensusSubset(reference[tick], network).value))
    ensures Matches(bundle, network, pins, hash, tick) <==> SameCoverage(bundle[tick], reference[tick], network)
  {
    PassingPinMeansPinnedConfig(bundle, reference, network, pins, hash, tick);
    CoverageIsSubset(bundle[tick], reference[tick], network);
  }

  // ----- what never moves the hash --------------------------------------------------------

  /** The endpoint's genesis pins are outside the subset. */
  lemma GenesisDoesNotMoveTheHash(coin: Coin, network: string, genesis: Json, chainGenesisHash: Json)
    requires network in coin.networks
    ensures var moved := coin.(networks := coin.networks[network :=
              coin.networks[network].(genesis := genesis, chainGenesisHash := chainGenesisHash)]);
            ConsensusSubset(moved, network) == ConsensusSubset(coin, network)
  {
    var moved := coin.(networks := coin.networks[network :=
      coin.networks[network].(genesis := genesis, chainGenesisHash := chainGenesisHash)]);
    assert DisplayRoles(moved) == DisplayRoles(coin);
    assert SubsetFields(moved, moved.networks[network]) == SubsetFields(coin, coin.networks[network]);
  }

  /** Neither are display-only addresses: only the other roles, in their order, are hashed. */
  lemma {:induction false} DisplayAddressesAreDropped(before: seq<Field>, f: Field, after: seq<Field>,
                                                      display: seq<Text>)
    requires f.key in display
    ensures KeptAddresses(before + [f] + after, display) == KeptAddresses(before + after, display)
  {
    if before == [] {
      assert before + [f] + after == [f] + after && before + after == after;
    } else {
      assert (before + [f] + after)[1..] == before[1..] + [f] + after;
      assert (before + after)[1..] == before[1..] + after;
      DisplayAddressesAreDropped(before[1..], f, after, display);
    }
  }

  lemma DisplayAddressDoesNotMoveTheHash(coin: Coin, network: string, before: seq<Field>, f: Field, after: seq<Field>)
    requires network in coin.networks && coin.networks[network].addresses == before + [f] + after
    requires f.key in DisplayRoles(coin)
    ensures var moved :=
            coin.(networks := coin.networks[network := coin.networks[network].(addresses := before + after)]);
            ConsensusSubset(moved, network) == ConsensusSubset(coin, network)
  {
    DisplayAddressesAreDropped(before, f, after, DisplayRoles(coin));
    var moved := coin.(networks := coin.networks[network := coin.networks[network].(addresses := before + after)]);
    assert DisplayRoles(moved) == DisplayRoles(coin);
    assert SubsetFields(moved, moved.networks[network]) == SubsetFields(coin, coin.networks[network]);
  }

  // ----- the subset, name by name ---------------------------------------------------------

  /** What JavaScript takes for false. */
  ghost predicate Falsy(v: Json)
  {
    v == Undefined || v == Null || v == Bool(false) || v == Str([])
    || (v.Number? && (v.digits == [48] || v.digits == [45, 48]))
  }

  lemma TruthyMeans(v: Json)
    ensures Truthy(v) <==> !Falsy(v)
  {
  }

  /** A field of this name and value is there, and no other of the name. */
  ghost predicate Says(fields: seq<Field>, name: string, v: Json)
  {
    && Field(Ascii(name), v) in fields
    && forall i :: 0 <= i < |fields| && fields[i].key == Ascii(name) ==> fields[i].value == v
  }

  lemma SaysAt(fields: seq<Field>, i: nat, name: string, v: Json)
    requires i < |fields| && fields[i] == Field(Ascii(name), v)
    requires Apart(fields)
    ensures Says(fields, name, v)
  {
  }

  /** The addresses kept are those whose role is not declared for display; with no declaration, those
      whose role is not EXPLORER. */
  lemma AddressesKept(coin: Coin, addresses: seq<Field>, f: Field)
    ensures f in KeptAddresses(addresses, DisplayRoles(coin)) <==>
      f in addresses && if coin.displayRoles.Some? then f.key !in coin.displayRoles.value
                        else f.key != [69, 88, 80, 76, 79, 82, 69, 82]
  {
    var explorer := Ascii("EXPLORER");
    assert explorer == [69, 88, 80, 76, 79, 82, 69, 82];
    assert f.key in [explorer] <==> f.key == explorer;
  }

  /** A descriptor is a field whose name begins with a dollar sign. */
  lemma DescriptorsStripped(fields: seq<Field>, f: Field)
    ensures f in StripDescriptors(fields) <==> f in fields && !(f.key != [] && f.key[0] == 36)
  {
  }

  lemma NamesApart(coin: Coin, block: NetBlock)
    ensures Apart(SubsetFields(coin, block))
  {
    NamesDistinct(coin, block);
    var r := SubsetFields(coin, block);
    forall i, j | 0 <= i < j < |r| ensures r[i].key != r[j].key {
      assert Position(r[i].key) < Position(r[j].key);
    }
  }

  /** The required fields of the network's block and the first of the coin's. */
  ghost predicate SaysFirst(fields: seq<Field>, coin: Coin, block: NetBlock)
  {
    && Says(fields, "net", block.net)
    && Says(fields, "wireFormat", coin.wireFormat)
    && Says(fields, "firstBlock", block.firstBlock)
    && Says(fields, "addresses", Obj(KeptAddresses(block.addresses, DisplayRoles(coin))))
    && Says(fields, "legacyFees", coin.legacyFees)
    && Says(fields, "GAS_PRICE", coin.gasPrice)
    && Says(fields, "UNIFIED_EXPIRATION_FEE_FREE_DAYS", coin.feeFreeDays)
  }

  ghost predicate SaysRest(fields: seq<Field>, coin: Coin)
  {
    && Says(fields, "FEE_TOLERANCE_MIN", coin.toleranceMin)
    && Says(fields, "FEE_TOLERANCE_MAX", coin.toleranceMax)
    && Says(fields, "ORACLE_MAX_PRICE_AGE_SECONDS", coin.maxPriceAge)
    && Says(fields, "ORACLE_MAX_PRICE_AGE_HOURLY_SECONDS", coin.maxPriceAgeHourly)
    && Says(fields, "VALIDATOR_QUERY_LIMIT", coin.queryLimit)
    && Says(fields, "GAS_SCHEDULE", coin.gasSchedule)
    && Says(fields, "STAKING", coin.staking)
  }

  ghost predicate Apart(fields: seq<Field>)
  {
    forall j, k :: 0 <= j < k < |fields| ==> fields[j].key != fields[k].key
  }

  lemma BlockSaid(all: seq<Field>, coin: Coin, block: NetBlock)
    requires Apart(all) && RequiredFields(coin, block, KeptAddresses(block.addresses, DisplayRoles(coin))) <= all
    ensures Says(all, "net", block.net) && Says(all, "wireFormat", coin.wireFormat)
    ensures Says(all, "firstBlock", block.firstBlock)
    ensures Says(all, "addresses", Obj(KeptAddresses(block.addresses, DisplayRoles(coin))))
  {
    var r := RequiredFields(coin, block, KeptAddresses(block.addresses, DisplayRoles(coin)));
    assert forall i :: 0 <= i < 14 ==> all[i] == r[i];
    SaysAt(all, 0, "net", block.net);
    SaysAt(all, 1, "wireFormat", coin.wireFormat);
    SaysAt(all, 2, "firstBlock", block.firstBlock);
    SaysAt(all, 3, "addresses", Obj(KeptAddresses(block.addresses, DisplayRoles(coin))));
  }

  lemma FirstSaid(all: seq<Field>, coin: Coin, block: NetBlock)
    requires Apart(all) && RequiredFields(coin, block, KeptAddresses(block.addresses, DisplayRoles(coin))) <= all
    ensures SaysFirst(all, coin, block)
  {
    var r := RequiredFields(coin, block, KeptAddresses(block.addresses, DisplayRoles(coin)));
    assert forall i :: 0 <= i < 14 ==> all[i] == r[i];
    BlockSaid(all, coin, block);
    SaysAt(all, 4, "legacyFees", coin.legacyFees);
    SaysAt(all, 5, "GAS_PRICE", coin.gasPrice);
    SaysAt(all, 6, "UNIFIED_EXPIRATION_FEE_FREE_DAYS", coin.feeFreeDays);
  }

  lemma RestSaid(all: seq<Field>, coin: Coin, block: NetBlock)
    requires Apart(all) && RequiredFields(coin, block, KeptAddresses(block.addresses, DisplayRoles(coin))) <= all
    ensures SaysRest(all, coin)
  {
    var r := RequiredFields(coin, block, KeptAddresses(block.addresses, DisplayRoles(coin)));
    assert forall i :: 0 <= i < 14 ==> all[i] == r[i];
    SaysAt(all, 7, "FEE_TOLERANCE_MIN", coin.toleranceMin);
    SaysAt(all, 8, "FEE_TOLERANCE_MAX", coin.toleranceMax);
    SaysAt(all, 9, "ORACLE_MAX_PRICE_AGE_SECONDS", coin.maxPriceAge);
    SaysAt(all, 10, "ORACLE_MAX_PRICE_AGE_HOURLY_SECONDS", coin.maxPriceAgeHourly);
    SaysAt(all, 11, "VALIDATOR_QUERY_LIMIT", coin.queryLimit);
    SaysAt(all, 12, "GAS_SCHEDULE", coin.gasSchedule);
    SaysAt(all, 13, "STAKING", coin.staking);
  }

  lemma OptionalSaid(all: seq<Field>, r: seq<Field>, coin: Coin)
    requires Apart(all) && all == r + OptionalFields(coin)
    ensures !Falsy(coin.configSlash) ==> Says(all, "CONFIG_SLASH", coin.configSlash)
    ensures coin.fullnode.Some? ==> Says(all, "FULLNODE", Obj(StripDescriptors(coin.fullnode.value)))
    ensures |all| == |r| + (if Falsy(coin.configSlash) then 0 else 1) + (if coin.fullnode.Some? then 1 else 0)
  {
    var o := OptionalFields(coin);
    TruthyMeans(coin.configSlash);
    OptionalShape(coin);
    if o != [] {
      assert all[|r|] == o[0] && all[|all| - 1] == o[|o| - 1];
      if !Falsy(coin.configSlash) { SaysAt(all, |r|, "CONFIG_SLASH", coin.configSlash); }
      if coin.fullnode.Some? { SaysAt(all, |all| - 1, "FULLNODE", Obj(StripDescriptors(coin.fullnode.value))); }
    }
  }

  /** The subset has the fourteen required fields with their values, the slashing configuration when the
      file sets one, the full-node settings when it has them, and nothing else. */
  lemma SubsetSays(coin: Coin, network: string)
    requires network in coin.networks
    ensures var fields := ConsensusSubset(coin, network).value.fields;
      && SaysFirst(fields, coin, coin.networks[network]) && SaysRest(fields, coin)
      && (!Falsy(coin.configSlash) ==> Says(fields, "CONFIG_SLASH", coin.configSlash))
      && (coin.fullnode.Some? ==> Says(fields, "FULLNODE", Obj(StripDescriptors(coin.fullnode.value))))
      && |fields| == 14 + (if Falsy(coin.configSlash) then 0 else 1) + (if coin.fullnode.Some? then 1 else 0)
  {
    var block := coin.networks[network];
    var r := RequiredFields(coin, block, KeptAddresses(block.addresses, DisplayRoles(coin)));
    var all := SubsetFields(coin, block);
    NamesApart(coin, block);
    FirstSaid(all, coin, block);
    RestSaid(all, coin, block);
    OptionalSaid(all, r, coin);
  }

  /** A coin without a pin, or with an empty one, is not checked; a pin may be written in any case. */
  lemma PinReads(bundle: map<string, Coin>, network: string, pins: map<string, Text>, hash: Hash, tick: string,
                 digest: Text)
    requires tick in bundle && network in bundle[tick].networks
    requires hash(Canonical(ConsensusSubset(bundle[tick], network).value)) == digest
    requires forall i :: 0 <= i < |digest| ==> !(65 <= digest[i] <= 90)
    ensures tick !in pins || pins[tick] == [] ==> Matches(bundle, network, pins, hash, tick)
    ensures tick in pins && pins[tick] != [] ==>
      (Matches(bundle, network, pins, hash, tick) <==> SameLetters(pins[tick], digest))
  {
    if tick in pins && pins[tick] != [] { LowerMeans(pins[tick], digest); }
  }

  /** The same text, but that the first may have upper-case letters for lower-case ones. */
  ghost predicate SameLetters(t: Text, low: Text)
  {
    |t| == |low| && forall i :: 0 <= i < |t| ==> t[i] == low[i] || (97 <= low[i] <= 122 && t[i] == low[i] - 32)
  }

  lemma LowerMeans(t: Text, low: Text)
    requires forall i :: 0 <= i < |low| ==> !(65 <= low[i] <= 90)
    ensures Lower(t) == low <==> SameLetters(t, low)
  {
    if |t| == |low| {
      forall i | 0 <= i < |t|
        ensures Lower(t)[i] == low[i] <==> t[i] == low[i] || (97 <= low[i] <= 122 && t[i] == low[i] - 32)
      {
      }
    }
  }
}
