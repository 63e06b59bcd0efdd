/** The ledger of reindexed and published bootstraps: what is on disk, what each record changes, and
    which combos are due, against the history of records. */
module RepublishLedger {
  import opened Base

  const SERVICES := {"xchain-utxo-tracker", "xchain-decoder", "xchain-indexer"}
  const COINS := {"bitcoin", "litecoin", "dogecoin"}
  const NETWORKS := {"mainnet", "testnet", "regtest"}

  function ComboKey(service: string, coin: string, network: string): string
  {
    service + ":" + (coin + ":" + network)
  }

  /** A key read back names a combo this node could publish. */
  predicate ValidKey(key: string)
  {
    var parts := Split(key, ':');
    |parts| == 3 && parts[0] in SERVICES && parts[1] in COINS && parts[2] in NETWORKS
  }

  /** Exactly the keys of a known service, coin and network are valid. */
  lemma ValidKeyExactly(service: string, coin: string, network: string)
    requires ':' !in service && ':' !in coin && ':' !in network
    ensures ValidKey(ComboKey(service, coin, network)) <==> service in SERVICES && coin in COINS && network in NETWORKS
  {
    SplitHead(coin, network, ':');
    SplitHead(service, coin + ":" + network, ':');
    SplitWhole(network, ':');
    assert coin + ":" + network == coin + [':'] + network;
    assert ComboKey(service, coin, network) == service + [':'] + (coin + ":" + network);
  }

  // ----- the file -------------------------------------------------------------------------

  datatype Entry = Entry(reindexedAt: Option<string>, publishedAt: Option<string>, reason: Option<string>)

  type Combos = map<string, Entry>

  /** A value under a combo key on disk; fields that are not strings read as absent. */
  datatype Raw = NotAnObject | Fields(entry: Entry)

  /** The file: absent, unreadable and unparseable all read as empty. */
  type Disk = Option<map<string, Raw>>

  function Read(disk: Disk): Combos
  {
    if disk.None? then map[]
    else map key | key in disk.value && ValidKey(key) && disk.value[key].Fields? :: disk.value[key].entry
  }

  function Write(combos: Combos): Disk { Some(map key | key in combos :: Fields(combos[key])) }

  ghost predicate AllValid(combos: Combos) { forall key :: key in combos ==> ValidKey(key) }

  /** The disk round trip, and what reading drops: only keys no node could publish, and non-objects. */
  lemma DiskRoundTrip(combos: Combos)
    ensures Read(Write(combos)) == combos <==> AllValid(combos)
    ensures AllValid(Read(Write(combos)))
  {
    if !AllValid(combos) {
      var key :| key in combos && !ValidKey(key);
      assert key !in Read(Write(combos));
    }
  }

  // ----- records --------------------------------------------------------------------------

  /** Instants as they are written, and what a text parses to. */
  datatype Clock = Clock(iso: int -> string, parse: string -> Option<int>)

  ghost predicate Reads(clock: Clock, t: int) { clock.parse(clock.iso(t)) == Some(t) && clock.iso(t) != "" }

  ghost predicate Faithful(clock: Clock) { forall t :: Reads(clock, t) }

  function Instant(clock: Clock, text: Option<string>): Option<int>
  {
    if text.None? || text.value == "" then None else clock.parse(text.value)
  }

  function OrNull(text: Option<string>): Option<string> { if text == Some("") then None else text }

  datatype Record =
    | Reindexed(key: string, at: int, reason: Option<string>)
    | Published(key: string, at: int)

  function Previous(combos: Combos, key: string): Entry
  {
    if key in combos then combos[key] else Entry(None, None, None)
  }

  function Apply(clock: Clock, combos: Combos, r: Record): Combos
  {
    if !ValidKey(r.key) then combos
    else
      var prev := Previous(combos, r.key);
      match r
      case Reindexed(key, at, reason) =>
        combos[key := Entry(Some(clock.iso(at)), OrNull(prev.publishedAt),
                            if OrNull(reason).Some? then reason else OrNull(prev.reason))]
      case Published(key, at) =>
        if key !in combos then combos
        else combos[key := Entry(OrNull(prev.reindexedAt), Some(clock.iso(at)), OrNull(prev.reason))]
  }

  function Replay(clock: Clock, combos: Combos, history: seq<Record>): Combos
  {
    if history == [] then combos
    else Apply(clock, Replay(clock, combos, history[..|history| - 1]), history[|history| - 1])
  }

  lemma {:induction false} ReplayValid(clock: Clock, combos: Combos, history: seq<Record>)
    requires AllValid(combos)
    ensures AllValid(Replay(clock, combos, history))
  {
    if history != [] { ReplayValid(clock, combos, history[..|history| - 1]); }
  }

  /** The records of one reindex, one per service that could be published. */
  function ReindexRecords(services: seq<string>, coin: string, network: string, at: int,
                          reason: Option<string>): (r: seq<Record>)
    ensures forall x :: x in r ==> x.Reindexed? && ValidKey(x.key) && x.at == at
  {
    if services == [] then []
    else
      var rest := ReindexRecords(services[..|services| - 1], coin, network, at, reason);
      var key := ComboKey(services[|services| - 1], coin, network);
      if ValidKey(key) then rest + [Reindexed(key, at, reason)] else rest
  }

  function KeysOf(records: seq<Record>): (r: seq<string>)
    ensures |r| == |records|
  {
    seq(|records|, i requires 0 <= i < |records| => records[i].key)
  }

  class Ledger {
    var disk: Disk
    const clock: Clock

    constructor (clock: Clock)
      ensures disk == None && this.clock == clock
    {
      this.clock, disk := clock, None;
    }

    /** A write replaces the file whole or leaves it as it was. */
    method Save(combos: Combos, writable: bool) returns (ok: bool)
      modifies this
      ensures ok == writable
      ensures disk == if writable then Write(combos) else old(disk)
    {
      if writable { disk := Write(combos); }
      ok := writable;
    }

    method RecordReindex(services: seq<string>, coin: string, network: string, at: int, reason: Option<string>,
                         writable: bool)
        returns (marked: seq<string>)
      modifies this
      ensures var records := ReindexRecords(services, coin, network, at, reason);
        && marked == (if writable then KeysOf(records) else [])
        && (writable && records != [] ==> disk == Write(Replay(clock, Read(old(disk)), records)))
        && (!writable || records == [] ==> disk == old(disk))
    {
      var combos := Read(disk);
      ghost var records: seq<Record> := [];
      marked := [];
      for i := 0 to |services|
        invariant records == ReindexRecords(services[..i], coin, network, at, reason)
        invariant combos == Replay(clock, Read(disk), records) && marked == KeysOf(records)
      {
        assert services[..i + 1][..i] == services[..i];
        var key := ComboKey(services[i], coin, network);
        if ValidKey(key) {
          var r := Reindexed(key, at, reason);
          assert (records + [r])[..|records|] == records;
          combos := Apply(clock, combos, r);
          records := records + [r];
          marked := marked + [key];
        }
      }
      assert services[..|services|] == services;
      if marked == [] { return []; }
      var ok := Save(combos, writable);
      if !ok { marked := []; }
    }

    method RecordBootstrapPublished(service: string, coin: string, network: string, at: int, writable: bool)
        returns (ok: bool)
      modifies this
      ensures var key := ComboKey(service, coin, network);
        && (ok <==> ValidKey(key) && (key !in Read(old(disk)) || writable))
        && Read(disk) == (if ok then Replay(clock, Read(old(disk)), [Published(key, at)]) else Read(old(disk)))
    {
      var key := ComboKey(service, coin, network);
      ghost var r := [Published(key, at)];
      assert r[..0] == [];
      if !ValidKey(key) { return false; }
      var combos := Read(disk);
      if key !in combos { return true; }
      ok := Save(Apply(clock, combos, Published(key, at)), writable);
      DiskRoundTrip(Apply(clock, combos, Published(key, at)));
    }
  }

  // ----- what is due ----------------------------------------------------------------------

  predicate IsRepublishDue(clock: Clock, entry: Entry)
  {
    var reindexed, published := Instant(clock, entry.reindexedAt), Instant(clock, entry.publishedAt);
    reindexed.Some? && (published.None? || published.value < reindexed.value)
  }

  predicate Due(clock: Clock, combos: Combos, key: string)
  {
    key in combos && ValidKey(key) && IsRepublishDue(clock, combos[key])
  }

  method ListRepublishDue(clock: Clock, combos: Combos) returns (due: seq<string>)
    ensures Distinct(due) && SortedBy(StrLe, due)
    ensures forall key :: key in due <==> Due(clock, combos, key)
  {
    var raw: seq<string> := [];
    var keys := Listing(combos.Keys);
    for i := 0 to |keys|
      invariant Distinct(raw)
      invariant forall key :: key in raw <==> key in keys[..i] && Due(clock, combos, key)
    {
      assert keys[..i + 1] == keys[..i] + [keys[i]] && keys[i] !in keys[..i];
      if Due(clock, combos, keys[i]) {
        DistinctSnoc(raw, keys[i]);
        raw := raw + [keys[i]];
      }
    }
    assert keys[..|keys|] == keys;
    due := SortBy(StrLe, raw);
    StrLeTotalOrder();
    SortSorted(StrLe, raw);
    DistinctPermutes(raw, due);
    SameMembers(raw, due);
  }

  // ----- against the history --------------------------------------------------------------

  function LastReindex(history: seq<Record>, key: string): Option<int>
  {
    if history == [] then None
    else
      var r := history[|history| - 1];
      if r.Reindexed? && r.key == key then Some(r.at) else LastReindex(history[..|history| - 1], key)
  }

  function LastPublish(history: seq<Record>, key: string): Option<int>
  {
    if history == [] then None
    else
      var r := history[|history| - 1];
      if r.Published? && r.key == key then Some(r.at) else LastPublish(history[..|history| - 1], key)
  }

  /** The last publish that the ledger had an entry for: one after some reindex. */
  function LastKeptPublish(history: seq<Record>, key: string): Option<int>
  {
    if history == [] then None
    else
      var r, rest := history[|history| - 1], history[..|history| - 1];
      if r.Published? && r.key == key && LastReindex(rest, key).Some? then Some(r.at) else LastKeptPublish(rest, key)
  }

  lemma Written(clock: Clock, t: Option<int>)
    requires Faithful(clock)
    ensures t.Some? ==> OrNull(Some(clock.iso(t.value))) == Some(clock.iso(t.value))
                        && Instant(clock, Some(clock.iso(t.value))) == t
  {
    if t.Some? { assert Reads(clock, t.value); }
  }

  /** The two instants of an entry are the last reindex and the last publish since the first one. */
  lemma {:induction false} EntryOf(clock: Clock, history: seq<Record>, key: string)
    requires Faithful(clock) && ValidKey(key)
    ensures key in Replay(clock, map[], history) <==> LastReindex(history, key).Some?
    ensures LastReindex(history, key).None? ==> LastKeptPublish(history, key).None?
    ensures key in Replay(clock, map[], history) ==>
      var entry := Replay(clock, map[], history)[key];
      && entry.reindexedAt == Some(clock.iso(LastReindex(history, key).value))
      && (LastKeptPublish(history, key).None? ==> entry.publishedAt == None)
      && (LastKeptPublish(history, key).Some? ==>
            entry.publishedAt == Some(clock.iso(LastKeptPublish(history, key).value)))
  {
    if history != [] {
      var rest := history[..|history| - 1];
      EntryOf(clock, rest, key);
      Written(clock, LastReindex(rest, key));
      Written(clock, LastKeptPublish(rest, key));
    }
  }

  /** For every history, whatever its instants: a combo is due exactly when it is a real combo, was
      reindexed, and the last publish the ledger kept is missing or earlier. */
  lemma DueByLedger(clock: Clock, history: seq<Record>, key: string)
    requires Faithful(clock)
    ensures Due(clock, Replay(clock, map[], history), key) <==>
      ValidKey(key) && var x, p := LastReindex(history, key), LastKeptPublish(history, key);
      x.Some? && (p.None? || p.value < x.value)
  {
    if ValidKey(key) {
      EntryOf(clock, history, key);
      Written(clock, LastReindex(history, key));
      Written(clock, LastKeptPublish(history, key));
    }
  }

  /** Of one combo, each record is later than the one before. */
  ghost predicate Increasing(history: seq<Record>, key: string)
  {
    forall i, j :: 0 <= i < j < |history| && history[i].key == key && history[j].key == key ==>
      history[i].at < history[j].at
  }

  /** Published, at an instant not before the last reindex, and only before the combo was known. */
  predicate ForgottenLaterPublish(history: seq<Record>, key: string)
  {
    var x, p := LastReindex(history, key), LastPublish(history, key);
    x.Some? && p.Some? && p.value >= x.value && LastKeptPublish(history, key).None?
  }

  /** By the instants in its history, a combo is due when its last reindex is later than its last
      publish. */
  predicate DueByInstants(history: seq<Record>, key: string)
  {
    var x, p := LastReindex(history, key), LastPublish(history, key);
    ValidKey(key) && x.Some? && (p.None? || p.value < x.value)
  }

  /** By the order of its history, it is due when the last thing that happened to it is a reindex. */
  predicate DueByOrder(history: seq<Record>, key: string) { ValidKey(key) && ReindexedLast(history, key) }

  predicate ReindexedLast(history: seq<Record>, key: string)
  {
    history != [] &&
    if history[|history| - 1].key == key then history[|history| - 1].Reindexed?
    else ReindexedLast(history[..|history| - 1], key)
  }

  /** The last reindex and the last kept publish carry instants in the other order, or a reindex the
      same instant as the publish before it. */
  predicate ClockContradicts(history: seq<Record>, key: string)
  {
    var x, p := LastReindex(history, key), LastKeptPublish(history, key);
    x.Some? && p.Some? && if ReindexedLast(history, key) then x.value <= p.value else p.value < x.value
  }

  lemma {:induction false} KeptIsLast(history: seq<Record>, key: string)
    ensures LastKeptPublish(history, key).Some? ==>
              LastReindex(history, key).Some? && LastKeptPublish(history, key) == LastPublish(history, key)
    ensures LastReindex(history, key).Some? && LastKeptPublish(history, key).None? ==> ReindexedLast(history, key)
    ensures LastReindex(history, key).None? ==> !ReindexedLast(history, key)
  {
    if history != [] { KeptIsLast(history[..|history| - 1], key); }
  }

  /** For every history: the ledger answers by the instants of the history exactly unless it has
      forgotten a publish that is not before the last reindex. */
  lemma DueByInstantsExactly(clock: Clock, history: seq<Record>, key: string)
    requires Faithful(clock)
    ensures (Due(clock, Replay(clock, map[], history), key) <==> DueByInstants(history, key))
            <==> !(ValidKey(key) && ForgottenLaterPublish(history, key))
  {
    DueByLedger(clock, history, key);
    KeptIsLast(history, key);
  }

  /** And by the order of the history exactly unless the clock contradicts that order: what it forgets
      makes no difference there. */
  lemma DueByOrderExactly(clock: Clock, history: seq<Record>, key: string)
    requires Faithful(clock)
    ensures (Due(clock, Replay(clock, map[], history), key) <==> DueByOrder(history, key))
            <==> !(ValidKey(key) && ClockContradicts(history, key))
  {
    DueByLedger(clock, history, key);
    KeptIsLast(history, key);
  }

  predicate RecordAt(history: seq<Record>, key: string, t: int)
  {
    exists i :: 0 <= i < |history| && history[i].key == key && history[i].at == t
  }

  lemma {:induction false} LastPublishAt(history: seq<Record>, key: string)
    requires LastPublish(history, key).Some?
    ensures RecordAt(history, key, LastPublish(history, key).value)
  {
    var n := |history| - 1;
    if !(history[n].Published? && history[n].key == key) {
      LastPublishAt(history[..n], key);
      var i :| 0 <= i < n && history[..n][i].key == key && history[..n][i].at == LastPublish(history, key).value;
      assert history[i].key == key && history[i].at == LastPublish(history, key).value;
    }
  }

  lemma EarlierThanLast(history: seq<Record>, key: string, t: int)
    requires history != [] && Increasing(history, key) && history[|history| - 1].key == key
    requires RecordAt(history[..|history| - 1], key, t)
    ensures t < history[|history| - 1].at
  {
    var n := |history| - 1;
    var i :| 0 <= i < n && history[..n][i].key == key && history[..n][i].at == t;
    assert history[i].key == key && history[i].at == t;
  }

  lemma IncreasingPrefix(history: seq<Record>, key: string)
    requires history != [] && Increasing(history, key)
    ensures Increasing(history[..|history| - 1], key)
  {
  }

  /** What the ledger forgets does not matter: a publish before the first reindex is older than it. */
  lemma {:induction false} ForgottenPublishIsOlder(history: seq<Record>, key: string)
    requires Increasing(history, key)
    ensures !ForgottenLaterPublish(history, key)
  {
    if history != [] {
      var n := |history| - 1;
      IncreasingPrefix(history, key);
      ForgottenPublishIsOlder(history[..n], key);
      if history[n].Reindexed? && history[n].key == key && LastPublish(history[..n], key).Some? {
        LastPublishAt(history[..n], key);
        EarlierThanLast(history, key, LastPublish(history[..n], key).value);
      }
    }
  }

  /** The due list refines the history: with instants that increase, a combo is due exactly when it is
      a real combo whose last reindex is later than its last publish, however often the ledger went
      through the disk. */
  lemma DueRefinesHistory(clock: Clock, history: seq<Record>, key: string)
    requires Faithful(clock) && Increasing(history, key)
    ensures Due(clock, Replay(clock, map[], history), key) <==> DueByInstants(history, key)
    ensures Read(Write(Replay(clock, map[], history))) == Replay(clock, map[], history)
  {
    DueByInstantsExactly(clock, history, key);
    ForgottenPublishIsOlder(history, key);
    ReplayValid(clock, map[], history);
    DiskRoundTrip(Replay(clock, map[], history));
  }

  /** Why the instants have to increase: after a clock stepped back, a combo published later than its
      reindex is still listed, because the publish came before the ledger knew the combo. */
  lemma ClockStepBackLeavesItDue(clock: Clock, key: string)
    requires Faithful(clock) && ValidKey(key)
    ensures var history := [Published(key, 10), Reindexed(key, 5, None)];
      && LastPublish(history, key) == Some(10) && LastReindex(history, key) == Some(5)
      && Due(clock, Replay(clock, map[], history), key)
  {
    var first := [Published(key, 10)];
    assert |first| == 1 && first[..0] == [];
    assert LastReindex([], key) == None && LastKeptPublish([], key) == None;
    var history := [Published(key, 10), Reindexed(key, 5, None)];
    assert |history| == 2 && history[..1] == first && history[1] == Reindexed(key, 5, None);
    DueByLedger(clock, history, key);
  }

  /** And it can hide a reindex: one recorded after a publish, by a clock that had stepped back before
      it, is not listed. */
  lemma ClockStepBackHidesAReindex(clock: Clock, key: string)
    requires Faithful(clock) && ValidKey(key)
    ensures var history := [Reindexed(key, 5, None), Published(key, 20), Reindexed(key, 10, None)];
      ReindexedLast(history, key) && !Due(clock, Replay(clock, map[], history), key)
  {
    var first := [Reindexed(key, 5, None)];
    var second := [Reindexed(key, 5, None), Published(key, 20)];
    var history := [Reindexed(key, 5, None), Published(key, 20), Reindexed(key, 10, None)];
    assert first[..0] == [] && second[..1] == first && history[..2] == second;
    assert LastReindex(first, key) == Some(5) && LastKeptPublish(second, key) == Some(20);
    assert LastReindex(history, key) == Some(10) && LastKeptPublish(history, key) == Some(20);
    DueByLedger(clock, history, key);
  }

  // ----- keys and records written out -----------------------------------------------------

  ghost predicate NamesACombo(key: string, service: string, coin: string, network: string)
  {
    && (service == "xchain-utxo-tracker" || service == "xchain-decoder" || service == "xchain-indexer")
    && (coin == "bitcoin" || coin == "litecoin" || coin == "dogecoin")
    && (network == "mainnet" || network == "testnet" || network == "regtest")
    && key == service + (":" + coin + (":" + network))
  }

  lemma {:induction false} JoinOfThree(parts: seq<string>)
    requires |parts| == 3
    ensures Join(parts, ':') == parts[0] + (":" + parts[1] + (":" + parts[2]))
  {
    var two := parts[1..];
    assert two[0] == parts[1] && two[1..] == [parts[2]];
    assert Join(two, ':') == parts[1] + [':'] + parts[2];
    assert Join(parts, ':') == parts[0] + [':'] + Join(two, ':');
  }

  /** A valid key is one of the twenty-seven that a service, a coin and a network make. */
  lemma ValidKeyMeans(key: string)
    ensures ValidKey(key) <==> exists service, coin, network :: NamesACombo(key, service, coin, network)
  {
    if ValidKey(key) {
      var parts := Split(key, ':');
      JoinSplit(key, ':');
      JoinOfThree(parts);
      assert NamesACombo(key, parts[0], parts[1], parts[2]);
    }
    if service, coin, network :| NamesACombo(key, service, coin, network) {
      NoColon(service, coin, network);
      ValidKeyExactly(service, coin, network);
      KeySpelled(service, coin, network);
    }
  }

  lemma NoColon(service: string, coin: string, network: string)
    requires service in SERVICES && coin in COINS && network in NETWORKS
    ensures ':' !in service && ':' !in coin && ':' !in network
  {
  }

  /** A reindex of some services is recorded for each of them that makes a valid key with the coin and the
      network, and for nothing else, in their order. */
  lemma {:induction false} ReindexIsRecorded(services: seq<string>, coin: string, network: string, at: int,
                                             reason: Option<string>)
    ensures var records := ReindexRecords(services, coin, network, at, reason);
      && KeysOf(records) == Filter(ValidKey, Keyed(services, coin, network))
      && forall i :: 0 <= i < |records| ==> records[i] == Reindexed(records[i].key, at, reason)
  {
    if services != [] {
      var n := |services| - 1;
      ReindexIsRecorded(services[..n], coin, network, at, reason);
      var keys, key := Keyed(services[..n], coin, network), ComboKey(services[n], coin, network);
      KeySpelled(services[n], coin, network);
      assert Keyed(services, coin, network) == keys + [key];
      FilterSplits(ValidKey, keys, [key]);
      var rest := ReindexRecords(services[..n], coin, network, at, reason);
      KeysSnoc(rest, Reindexed(key, at, reason));
      assert ReindexRecords(services, coin, network, at, reason)
          == if ValidKey(key) then rest + [Reindexed(key, at, reason)] else rest;
      assert Filter(ValidKey, [key]) == if ValidKey(key) then [key] else [];
    }
  }

  lemma KeySpelled(service: string, coin: string, network: string)
    ensures ComboKey(service, coin, network) == service + (":" + coin + (":" + network))
  {
    assert coin + ":" + network == coin + (":" + network);
    assert service + ":" + (coin + ":" + network) == service + (":" + coin + (":" + network));
  }

  lemma KeysSnoc(records: seq<Record>, r: Record)
    ensures KeysOf(records + [r]) == KeysOf(records) + [r.key]
  {
  }

  function Keyed(services: seq<string>, coin: string, network: string): (r: seq<string>)
    ensures |r| == |services|
    ensures forall i :: 0 <= i < |r| ==> r[i] == services[i] + (":" + coin + (":" + network))
  {
    seq(|services|, i requires 0 <= i < |services| => services[i] + (":" + coin + (":" + network)))
  }

  /** What one record does to its combo's entry, and that it does nothing to any other. */
  lemma RecordMeans(clock: Clock, combos: Combos, r: Record, key: string)
    requires ValidKey(r.key)
    ensures var after := Apply(clock, combos, r);
      && (key != r.key ==> (key in after <==> key in combos) && (key in after ==> after[key] == combos[key]))
      && (r.Reindexed? ==>
            && r.key in after && after[r.key].reindexedAt == Some(clock.iso(r.at))
            && (r.reason.Some? && r.reason.value != "" ==> after[r.key].reason == r.reason)
            && (r.reason.None? || r.reason.value == "" ==>
                  after[r.key].reason == if r.key in combos && combos[r.key].reason != Some("")
                                         then combos[r.key].reason else None))
      && (r.Published? ==>
            && (r.key in after <==> r.key in combos)
            && (r.key in after ==>
                  && after[r.key].publishedAt == Some(clock.iso(r.at))
                  && after[r.key].reason == if combos[r.key].reason != Some("") then combos[r.key].reason else None))
  {
  }
}
