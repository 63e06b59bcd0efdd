/** The halt-marker gate around a bootstrap dump. */
module HaltGate {
  // The marker tables are append-only and id-ordered; a writer keeps raising and clearing halts while the
  // gate sends its queries one by one. The database's history is a sequence of states, and each query reads
  // one of them.

  import opened Base

  datatype Code = ReorgHalt | ReorgHaltCleared(audited: bool) | OtherEvent

  datatype Event = Event(id: nat, code: Code)

  datatype SyncRow = SyncRow(id: nat, cleared: bool)

  /** The marker tables of one database; xchain-sync provisions `sync` only where it runs. The
      sync_state copies have no id sequence and are read live only. */
  datatype Db = Db(events: seq<Event>, sync: Option<seq<SyncRow>>, pendingCopies: nat, badGuards: nat)

  predicate IsMarker(e: Event) { !e.code.OtherEvent? }

  // ----- what the queries mean ------------------------------------------------------------

  function MaxId(keep: Event -> bool, events: seq<Event>): (m: nat)
    ensures forall i :: 0 <= i < |events| && keep(events[i]) ==> events[i].id <= m
    ensures m == 0 || exists i :: 0 <= i < |events| && keep(events[i]) && events[i].id == m
  {
    if events == [] then 0
    else
      var n := |events| - 1;
      var rest := MaxId(keep, events[..n]);
      if keep(events[n]) && events[n].id > rest then events[n].id else rest
  }

  function Count<T(!new)>(keep: T -> bool, rows: seq<T>): (c: nat)
    ensures c > 0 <==> exists i :: 0 <= i < |rows| && keep(rows[i])
  {
    if rows == [] then 0
    else
      var n := |rows| - 1;
      assert forall i :: 0 <= i < n ==> rows[..n][i] == rows[i];
      Count(keep, rows[..n]) + (if keep(rows[n]) then 1 else 0)
  }

  /** REORG_HALT rows newer than the newest REORG_HALT_CLEARED row. */
  function LiveReorgHalts(db: Db): nat
  {
    var cleared := MaxId((e: Event) => e.code.ReorgHaltCleared?, db.events);
    Count((e: Event) => e.code.ReorgHalt? && e.id > cleared, db.events)
  }

  /** 1 when the newest marker row is a clear without an audited reason, else 0. */
  function NewestClearLiftsNothing(db: Db): nat
  {
    var newest := MaxId(IsMarker, db.events);
    if Count((e: Event) => e.code.ReorgHaltCleared? && e.id == newest && !e.code.audited, db.events) > 0 then 1 else 0
  }

  function LiveSyncHalts(rows: seq<SyncRow>): nat { Count((r: SyncRow) => !r.cleared, rows) }

  function EventsWatermark(db: Db): nat { MaxId((e: Event) => true, db.events) }

  function SyncWatermark(rows: seq<SyncRow>): (m: nat)
    ensures forall i :: 0 <= i < |rows| ==> rows[i].id <= m
    ensures m == 0 || exists i :: 0 <= i < |rows| && rows[i].id == m
  {
    if rows == [] then 0
    else
      var n := |rows| - 1;
      var rest := SyncWatermark(rows[..n]);
      if rows[n].id > rest then rows[n].id else rest
  }

  function ReorgMarkersSince(db: Db, prior: nat): nat { Count((e: Event) => IsMarker(e) && e.id > prior, db.events) }

  function SyncRowsSince(rows: seq<SyncRow>, prior: nat): nat { Count((r: SyncRow) => r.id > prior, rows) }

  // ----- one probe of one database --------------------------------------------------------

  datatype Watermark = Watermark(events: nat, sync: Option<nat>)

  datatype Raised = Raised(reorg: nat, sync: nat, unreadable: nat)

  datatype Found = Found(reorg: nat, sync: nat, pending: nat, guards: nat, mark: Watermark, raised: Option<Raised>)

  /** When each query of a probe runs, as indices into the history. */
  datatype Times = Times(tables: nat, liveReorg: nat, newestClear: nat, liveSync: nat, pending: nat,
                         eventsMark: nat, syncMark: nat, reorgSince: nat, syncSince: nat)

  predicate InOrder(t: Times, first: nat, end: nat)
  {
    first <= t.tables <= t.liveReorg <= t.newestClear <= t.liveSync <= t.pending
    <= t.eventsMark <= t.syncMark <= t.reorgSince <= t.syncSince < end
  }

  function Rows(db: Db): seq<SyncRow> { if db.sync.Some? then db.sync.value else [] }

  function ReadLive(h: seq<Db>, t: Times): Found
    requires InOrder(t, 0, |h|)
  {
    var hasSync := h[t.tables].sync.Some?;
    Found(LiveReorgHalts(h[t.liveReorg]) + NewestClearLiftsNothing(h[t.newestClear]),
          if hasSync then LiveSyncHalts(Rows(h[t.liveSync])) else 0,
          h[t.pending].pendingCopies, h[t.pending].badGuards,
          Watermark(EventsWatermark(h[t.eventsMark]),
                    if hasSync then Some(SyncWatermark(Rows(h[t.syncMark]))) else None),
          None)
  }

  /** What was raised since an earlier reading; a sequence that does not line up is unreadable. */
  function ReadRaised(h: seq<Db>, t: Times, since: Watermark, mark: Watermark): Raised
    requires InOrder(t, 0, |h|)
  {
    var eventsAstray := mark.events < since.events;
    var reorg := if eventsAstray then 0 else ReorgMarkersSince(h[t.reorgSince], since.events);
    var prior := if since.sync.Some? then since.sync.value else 0;
    if mark.sync.None? then Raised(reorg, 0, (if eventsAstray then 1 else 0) + (if since.sync.Some? then 1 else 0))
    else if mark.sync.value < prior then Raised(reorg, 0, (if eventsAstray then 1 else 0) + 1)
    else Raised(reorg, SyncRowsSince(Rows(h[t.syncSince]), prior), if eventsAstray then 1 else 0)
  }

  function Probe(h: seq<Db>, t: Times, since: Option<Watermark>): Found
    requires InOrder(t, 0, |h|)
  {
    var live := ReadLive(h, t);
    if since.None? then live else live.(raised := Some(ReadRaised(h, t, since.value, live.mark)))
  }

  // ----- the gate -------------------------------------------------------------------------

  datatype Source = Own | Upstream

  datatype Reason =
    | RaisedReorg(source: Source) | RaisedSync(source: Source) | CannotTell(source: Source)
    | CarriesReorgHalt(source: Source) | CarriesSyncHalt(source: Source)
    | CarriesPending(source: Source) | CarriesBadGuard(source: Source)
    | Unreadable

  datatype Marks = Marks(own: Watermark, upstream: Option<Watermark>)

  predicate CleanWindow(raised: Option<Raised>)
  {
    raised.Some? ==> raised.value == Raised(0, 0, 0)
  }

  predicate Clean(f: Found)
  {
    f.reorg == 0 && f.sync == 0 && f.pending == 0 && f.guards == 0 && CleanWindow(f.raised)
  }

  /** The reasons a window report gives, each for its own count. */
  ghost predicate SaysRaised(raised: Option<Raised>, source: Source, r: Reason)
  {
    raised.Some? &&
    match r
    case RaisedReorg(of) => of == source && raised.value.reorg > 0
    case RaisedSync(of) => of == source && raised.value.sync > 0
    case CannotTell(of) => of == source && raised.value.unreadable > 0
    case _ => false
  }

  /** The reasons the live counts give. */
  ghost predicate SaysLive(f: Found, source: Source, r: Reason)
  {
    match r
    case CarriesReorgHalt(of) => of == source && f.reorg > 0
    case CarriesSyncHalt(of) => of == source && f.sync > 0
    case CarriesPending(of) => of == source && f.pending > 0
    case CarriesBadGuard(of) => of == source && f.guards > 0
    case _ => false
  }

  method WindowReasons(raised: Option<Raised>, source: Source) returns (out: seq<Reason>)
    ensures out == [] <==> CleanWindow(raised)
    ensures forall r :: r in out <==> SaysRaised(raised, source, r)
  {
    out := [];
    if raised.None? { return; }
    if raised.value.reorg > 0 { out := out + [RaisedReorg(source)]; }
    if raised.value.sync > 0 { out := out + [RaisedSync(source)]; }
    if raised.value.unreadable > 0 { out := out + [CannotTell(source)]; }
  }

  method LiveReasons(f: Found, source: Source) returns (out: seq<Reason>)
    ensures out == [] <==> f.reorg == 0 && f.sync == 0 && f.pending == 0 && f.guards == 0
    ensures forall r :: r in out <==> SaysLive(f, source, r)
  {
    out := [];
    if f.reorg > 0 { out := out + [CarriesReorgHalt(source)]; }
    if f.sync > 0 { out := out + [CarriesSyncHalt(source)]; }
    if f.pending > 0 { out := out + [CarriesPending(source)]; }
    if f.guards > 0 { out := out + [CarriesBadGuard(source)]; }
  }

  /** Read the markers of the source, and for an indexer of the paired decoder, and turn them into
      refusal reasons. A probe that cannot be read is a reason, never a pass. */
  method HaltMarkerReasons(own: seq<Db>, up: seq<Db>, t: Times, u: Option<Times>, readable: bool, since: Option<Marks>)
    returns (watermark: Option<Marks>, reasons: seq<Reason>)
    requires InOrder(t, 0, |own|) && (u.Some? ==> InOrder(u.value, 0, |up|))
    ensures reasons == [] <==>
      readable && Clean(Probe(own, t, OwnSince(since)))
      && (u.Some? ==> Clean(Probe(up, u.value, UpSince(since))))
    ensures readable ==> watermark == Some(Marks(Probe(own, t, None).mark,
                                                 if u.Some? then Some(Probe(up, u.value, None).mark) else None))
    ensures !readable ==> watermark == None && reasons == [Unreadable]
    ensures readable ==> forall r :: r in reasons <==>
      || SaysRaised(Probe(own, t, OwnSince(since)).raised, Own, r) || SaysLive(Probe(own, t, OwnSince(since)), Own, r)
      || (u.Some? && (SaysRaised(Probe(up, u.value, UpSince(since)).raised, Upstream, r)
                      || SaysLive(Probe(up, u.value, UpSince(since)), Upstream, r)))
    ensures since.None? && Still(own) && (u.Some? ==> Still(up)) ==>
              (reasons == [] <==> readable && Fit(own[0]) && (u.Some? ==> Fit(up[0])))
    ensures reasons == [] ==> own[t.pending].pendingCopies == 0 && own[t.pending].badGuards == 0
    ensures reasons == [] && u.Some? ==> up[u.value.pending].pendingCopies == 0 && up[u.value.pending].badGuards == 0
  {
    if Still(own) { StillReading(own, t); }
    if u.Some? && Still(up) { StillReading(up, u.value); }
    reasons, watermark := [], None;
    if !readable { return None, [Unreadable]; }
    var mine := Probe(own, t, OwnSince(since));
    var theirs := if u.Some? then Some(Probe(up, u.value, UpSince(since))) else None;
    watermark := Some(Marks(mine.mark, if theirs.Some? then Some(theirs.value.mark) else None));
    reasons := WindowReasons(mine.raised, Own);
    if theirs.Some? {
      var more := WindowReasons(theirs.value.raised, Upstream);
      reasons := reasons + more;
    }
    var live := LiveReasons(mine, Own);
    reasons := reasons + live;
    if theirs.Some? {
      live := LiveReasons(theirs.value, Upstream);
      reasons := reasons + live;
    }
  }

  function OwnSince(since: Option<Marks>): Option<Watermark> { if since.Some? then Some(since.value.own) else None }

  function UpSince(since: Option<Marks>): Option<Watermark> { if since.Some? then since.value.upstream else None }

  // ----- the writer -----------------------------------------------------------------------

  ghost predicate Valid(db: Db)
  {
    && (forall i :: 0 <= i < |db.events| ==> 1 <= db.events[i].id)
    && (forall i, j :: 0 <= i < j < |db.events| ==> db.events[i].id < db.events[j].id)
    && (forall i :: 0 <= i < |Rows(db)| ==> 1 <= Rows(db)[i].id)
    && (forall i, j :: 0 <= i < j < |Rows(db)| ==> Rows(db)[i].id < Rows(db)[j].id)
  }

  /** `b`'s events are `a`'s, possibly with one more row. */
  ghost predicate EventsGrow(a: Db, b: Db) { a.events <= b.events && |b.events| <= |a.events| + 1 }

  /** sync_halt is created empty, gains an uncleared row, or has a row cleared in place. */
  ghost predicate SyncStep(a: Db, b: Db)
  {
    || a.sync == b.sync
    || (a.sync.None? && b.sync == Some([]))
    || (a.sync.Some? && b.sync.Some? && exists id: nat :: b.sync.value == a.sync.value + [SyncRow(id, false)])
    || (a.sync.Some? && b.sync.Some?
        && (exists i :: 0 <= i < |a.sync.value|
              && b.sync.value == a.sync.value[i := a.sync.value[i].(cleared := true)]))
  }

  ghost predicate Step(a: Db, b: Db) { Valid(b) && EventsGrow(a, b) && SyncStep(a, b) }

  ghost predicate History(h: seq<Db>)
  {
    && (forall i :: 0 <= i < |h| ==> Valid(h[i]))
    && (forall i :: 0 <= i < |h| - 1 ==> Step(h[i], h[i + 1]))
  }

  // ----- what "halted" means --------------------------------------------------------------

  ghost predicate NewestMarkerAt(events: seq<Event>, i: nat)
  {
    i < |events| && IsMarker(events[i]) && forall k :: i < k < |events| ==> !IsMarker(events[k])
  }

  /** The decoder reads itself halted: its newest marker row is a halt, or a clear nobody audited. */
  ghost predicate ReorgHalted(db: Db)
  {
    exists i: nat :: NewestMarkerAt(db.events, i) && db.events[i].code != ReorgHaltCleared(true)
  }

  ghost predicate SyncHalted(db: Db) { exists i :: 0 <= i < |Rows(db)| && !Rows(db)[i].cleared }

  /** What makes a database fit to publish. */
  ghost predicate Fit(db: Db) { !ReorgHalted(db) && !SyncHalted(db) && db.pendingCopies == 0 && db.badGuards == 0 }

  /** A database that nothing changes while it is read. */
  ghost predicate Still(h: seq<Db>) { h != [] && Valid(h[0]) && forall i :: 0 <= i < |h| ==> h[i] == h[0] }

  lemma StillReading(h: seq<Db>, t: Times)
    requires Still(h) && InOrder(t, 0, |h|)
    ensures Clean(Probe(h, t, None)) <==> Fit(h[0])
    ensures forall source, r :: SaysLive(Probe(h, t, None), source, r) <==>
      match r
      case CarriesReorgHalt(of) => of == source && ReorgHalted(h[0])
      case CarriesSyncHalt(of) => of == source && SyncHalted(h[0])
      case CarriesPending(of) => of == source && h[0].pendingCopies > 0
      case CarriesBadGuard(of) => of == source && h[0].badGuards > 0
      case _ => false
  {
    ReorgReadingExact(h[0]);
    LiveSyncExact(h[0]);
  }

  lemma LiveSyncExact(db: Db)
    ensures LiveSyncHalts(Rows(db)) == 0 <==> !SyncHalted(db)
  {
  }

  lemma {:induction false} SomeNewestMarker(events: seq<Event>) returns (i: nat)
    requires exists k :: 0 <= k < |events| && IsMarker(events[k])
    ensures NewestMarkerAt(events, i)
  {
    var n := |events| - 1;
    if IsMarker(events[n]) {
      i := n;
    } else {
      var k :| 0 <= k < |events| && IsMarker(events[k]);
      assert events[..n][k] == events[k];
      i := SomeNewestMarker(events[..n]);
    }
  }

  /** A marker row's id tells its place: none has a larger id than the newest. */
  lemma NewestHasLargestId(db: Db, i: nat)
    requires Valid(db) && NewestMarkerAt(db.events, i)
    ensures forall k :: 0 <= k < |db.events| && IsMarker(db.events[k]) ==> db.events[k].id <= db.events[i].id
    ensures MaxId(IsMarker, db.events) == db.events[i].id
    ensures forall j: nat :: NewestMarkerAt(db.events, j) ==> j == i
  {
    forall k | 0 <= k < |db.events| && IsMarker(db.events[k]) ensures db.events[k].id <= db.events[i].id {
      if k != i { assert k < i; }
    }
    assert 1 <= db.events[i].id;
  }

  /** The live count is positive exactly when the newest marker row is a halt. */
  lemma LiveCountExact(db: Db)
    requires Valid(db)
    ensures LiveReorgHalts(db) > 0 <==> exists i: nat :: NewestMarkerAt(db.events, i) && db.events[i].code.ReorgHalt?
  {
    var events := db.events;
    var cleared := MaxId((e: Event) => e.code.ReorgHaltCleared?, events);
    if LiveReorgHalts(db) > 0 {
      var k :| 0 <= k < |events| && events[k].code.ReorgHalt? && events[k].id > cleared;
      assert IsMarker(events[k]);
      var i := SomeNewestMarker(events);
      NewestHasLargestId(db, i);
      assert events[i].code.ReorgHalt?;
    }
    if i: nat :| NewestMarkerAt(events, i) && events[i].code.ReorgHalt? {
      NewestHasLargestId(db, i);
      if cleared != 0 {
        var k :| 0 <= k < |events| && events[k].code.ReorgHaltCleared? && events[k].id == cleared;
        assert IsMarker(events[k]) && k < i;
      }
      assert events[i].id > cleared;
    }
  }

  /** The payload query answers 1 exactly when the newest marker row is an unaudited clear. */
  lemma NewestClearExact(db: Db)
    requires Valid(db)
    ensures NewestClearLiftsNothing(db) > 0
            <==> exists i: nat :: NewestMarkerAt(db.events, i) && db.events[i].code == ReorgHaltCleared(false)
  {
    var events := db.events;
    var newest := MaxId(IsMarker, events);
    if NewestClearLiftsNothing(db) > 0 {
      var k :| 0 <= k < |events| && events[k].code.ReorgHaltCleared? && events[k].id == newest
        && !events[k].code.audited;
      assert IsMarker(events[k]);
      var i := SomeNewestMarker(events);
      NewestHasLargestId(db, i);
      assert i == k;
    }
    if i: nat :| NewestMarkerAt(events, i) && events[i].code == ReorgHaltCleared(false) {
      NewestHasLargestId(db, i);
    }
  }

  /** The two reorg queries together are positive exactly when the decoder is halted. */
  lemma ReorgReadingExact(db: Db)
    requires Valid(db)
    ensures LiveReorgHalts(db) + NewestClearLiftsNothing(db) > 0 <==> ReorgHalted(db)
  {
    LiveCountExact(db);
    NewestClearExact(db);
    if i: nat :| NewestMarkerAt(db.events, i) && db.events[i].code != ReorgHaltCleared(true) {
      assert db.events[i].code.ReorgHalt? || db.events[i].code == ReorgHaltCleared(false);
    }
  }

  // ----- how a history grows --------------------------------------------------------------

  lemma {:induction false} EventsOnlyGrow(h: seq<Db>, i: nat, j: nat)
    requires History(h) && i <= j < |h|
    ensures h[i].events <= h[j].events
  {
    if i < j {
      EventsOnlyGrow(h, i, j - 1);
      assert Step(h[j - 1], h[j]);
    }
  }

  /** Rows stay where they are, and a cleared row stays cleared. */
  ghost predicate SyncGrows(a: Db, b: Db)
  {
    && (a.sync.Some? ==> b.sync.Some?) && |Rows(a)| <= |Rows(b)|
    && forall r :: 0 <= r < |Rows(a)| ==> Rows(b)[r].id == Rows(a)[r].id && (Rows(a)[r].cleared ==> Rows(b)[r].cleared)
  }

  lemma SyncStepGrows(a: Db, b: Db)
    requires Step(a, b)
    ensures SyncGrows(a, b)
  {
  }

  lemma {:induction false} SyncOnlyGrows(h: seq<Db>, i: nat, j: nat)
    requires History(h) && i <= j < |h|
    ensures SyncGrows(h[i], h[j])
  {
    if i < j {
      SyncOnlyGrows(h, i, j - 1);
      assert Step(h[j - 1], h[j]);
      SyncStepGrows(h[j - 1], h[j]);
    }
  }

  /** Rows past a watermark are exactly the ones added since it was taken. */
  lemma PastTheWatermark(a: Db, b: Db, i: nat)
    requires Valid(a) && Valid(b) && a.events <= b.events && i < |b.events|
    ensures b.events[i].id > EventsWatermark(a) <==> i >= |a.events|
  {
    if i < |a.events| {
      assert a.events[i] == b.events[i];
    } else if EventsWatermark(a) != 0 {
      var k :| 0 <= k < |a.events| && a.events[k].id == EventsWatermark(a);
      assert b.events[k] == a.events[k];
    }
  }

  lemma PastTheSyncWatermark(a: Db, b: Db, i: nat)
    requires Valid(a) && Valid(b) && SyncGrows(a, b) && i < |Rows(b)|
    ensures Rows(b)[i].id > SyncWatermark(Rows(a)) <==> i >= |Rows(a)|
  {
    if i >= |Rows(a)| && SyncWatermark(Rows(a)) != 0 {
      var k :| 0 <= k < |Rows(a)| && Rows(a)[k].id == SyncWatermark(Rows(a));
      assert Rows(b)[k].id == Rows(a)[k].id;
    }
  }

  // ----- the reorg half of the window -----------------------------------------------------

  /** With no marker past the watermark at the end, the newest marker never changed in between. */
  lemma NewestMarkerStands(h: seq<Db>, mark: nat, k: nat, end: nat, i: nat)
    requires History(h) && mark <= k <= end < |h|
    requires ReorgMarkersSince(h[end], EventsWatermark(h[mark])) == 0
    ensures NewestMarkerAt(h[k].events, i) <==> NewestMarkerAt(h[end].events, i)
    ensures NewestMarkerAt(h[k].events, i) ==> h[k].events[i] == h[end].events[i]
  {
    EventsOnlyGrow(h, mark, k);
    EventsOnlyGrow(h, k, end);
    EventsOnlyGrow(h, mark, end);
    var last, n := h[end].events, |h[mark].events|;
    forall r | n <= r < |last| ensures !IsMarker(last[r]) {
      PastTheWatermark(h[mark], h[end], r);
    }
    assert forall r :: 0 <= r < |h[k].events| ==> h[k].events[r] == last[r];
  }

  /** What a clean second reading says about each of its queries. */
  lemma CleanReading(h: seq<Db>, t: Times, u: Times)
    requires InOrder(t, 0, |h|) && InOrder(u, 0, |h|)
    requires Clean(Probe(h, u, Some(Probe(h, t, None).mark)))
    ensures LiveReorgHalts(h[u.liveReorg]) == 0 && NewestClearLiftsNothing(h[u.newestClear]) == 0
    ensures ReorgMarkersSince(h[u.reorgSince], EventsWatermark(h[t.eventsMark])) == 0
    ensures h[u.tables].sync.Some? ==>
              SyncRowsSince(Rows(h[u.syncSince]),
                            if h[t.tables].sync.Some? then SyncWatermark(Rows(h[t.syncMark])) else 0) == 0
  {
  }

  /** With the same newest marker at both reorg queries, one of them sees a halt that stands. */
  lemma StandingHaltIsSeen(h: seq<Db>, u: Times, i: nat)
    requires History(h) && InOrder(u, 0, |h|)
    requires NewestMarkerAt(h[u.liveReorg].events, i) && NewestMarkerAt(h[u.newestClear].events, i)
    requires h[u.liveReorg].events[i] == h[u.newestClear].events[i]
    requires h[u.liveReorg].events[i].code != ReorgHaltCleared(true)
    ensures LiveReorgHalts(h[u.liveReorg]) + NewestClearLiftsNothing(h[u.newestClear]) > 0
  {
    LiveCountExact(h[u.liveReorg]);
    NewestClearExact(h[u.newestClear]);
  }

  /** A second reading that finds no marker raised since the first watermark proves the decoder
      was not halted at any moment between them, whenever each of its queries ran. */
  lemma NoReorgHaltInside(h: seq<Db>, t: Times, u: Times, k: nat)
    requires History(h) && InOrder(t, 0, k + 1) && InOrder(u, k, |h|)
    requires Clean(Probe(h, u, Some(Probe(h, t, None).mark)))
    ensures !ReorgHalted(h[k])
  {
    var mark, end := t.eventsMark, u.reorgSince;
    CleanReading(h, t, u);
    if i: nat :| NewestMarkerAt(h[k].events, i) && h[k].events[i].code != ReorgHaltCleared(true) {
      NewestMarkerStands(h, mark, k, end, i);
      NewestMarkerStands(h, mark, u.liveReorg, end, i);
      NewestMarkerStands(h, mark, u.newestClear, end, i);
      StandingHaltIsSeen(h, u, i);
    }
  }

  // ----- the sync half of the window ------------------------------------------------------

  /** A row live inside the window is not past the watermark: it was there when that was taken. */
  lemma LiveRowIsOld(h: seq<Db>, t: Times, u: Times, k: nat, r: nat)
    requires History(h) && InOrder(t, 0, k + 1) && InOrder(u, k, |h|)
    requires Clean(Probe(h, u, Some(Probe(h, t, None).mark)))
    requires r < |Rows(h[k])|
    ensures h[t.tables].sync.Some? && r < |Rows(h[t.syncMark])|
  {
    CleanReading(h, t, u);
    SyncOnlyGrows(h, k, u.tables);
    SyncOnlyGrows(h, k, u.syncSince);
    SyncOnlyGrows(h, t.syncMark, u.syncSince);
    var prior := if h[t.tables].sync.Some? then SyncWatermark(Rows(h[t.syncMark])) else 0;
    NothingPast(Rows(h[u.syncSince]), prior, r);
    assert 1 <= Rows(h[u.syncSince])[r].id;
    PastTheSyncWatermark(h[t.syncMark], h[u.syncSince], r);
  }

  lemma NothingPast(rows: seq<SyncRow>, prior: nat, r: nat)
    requires r < |rows| && SyncRowsSince(rows, prior) == 0
    ensures rows[r].id <= prior
  {
  }

  /** A sync halt live at a moment of the window was already standing when the first reading ended. */
  lemma SyncHaltPredates(h: seq<Db>, t: Times, u: Times, first: nat, k: nat)
    requires History(h) && InOrder(t, 0, first + 1) && first <= k && InOrder(u, k, |h|)
    requires Clean(Probe(h, u, Some(Probe(h, t, None).mark)))
    requires SyncHalted(h[k])
    ensures SyncHalted(h[first])
  {
    var r :| 0 <= r < |Rows(h[k])| && !Rows(h[k])[r].cleared;
    LiveRowIsOld(h, t, u, k, r);
    SyncOnlyGrows(h, t.syncMark, first);
    SyncOnlyGrows(h, first, k);
    assert !Rows(h[first])[r].cleared;
  }

  /** A sync row raised after the first reading counted live halts and before it took the watermark,
      and still uncleared at the end of that reading. */
  ghost predicate RaisedMidReading(h: seq<Db>, t: Times, first: nat)
    requires InOrder(t, 0, |h|) && first < |h|
  {
    exists r: nat :: |Rows(h[t.liveSync])| <= r < |Rows(h[t.syncMark])|
      && r < |Rows(h[first])| && !Rows(h[first])[r].cleared
  }

  /** Every row the live count saw was cleared then, and stays cleared. */
  lemma CountedRowsStayCleared(h: seq<Db>, t: Times, k: nat, r: nat)
    requires History(h) && InOrder(t, 0, k + 1) && k < |h|
    requires Clean(Probe(h, t, None)) && h[t.tables].sync.Some?
    requires r < |Rows(h[k])| && !Rows(h[k])[r].cleared
    ensures r >= |Rows(h[t.liveSync])|
  {
    SyncOnlyGrows(h, t.liveSync, k);
    if r < |Rows(h[t.liveSync])| { AllCleared(Rows(h[t.liveSync]), r); }
  }

  lemma AllCleared(rows: seq<SyncRow>, r: nat)
    requires LiveSyncHalts(rows) == 0 && r < |rows|
    ensures rows[r].cleared
  {
  }

  /** A sync halt at a moment of the window was raised in the middle of the first reading. */
  lemma SyncHaltIsMidReading(h: seq<Db>, t: Times, u: Times, first: nat, k: nat)
    requires History(h) && InOrder(t, 0, first + 1) && first <= k && InOrder(u, k, |h|)
    requires Clean(Probe(h, t, None)) && Clean(Probe(h, u, Some(Probe(h, t, None).mark)))
    requires SyncHalted(h[k])
    ensures RaisedMidReading(h, t, first)
  {
    var r: nat :| r < |Rows(h[k])| && !Rows(h[k])[r].cleared;
    LiveRowIsOld(h, t, u, k, r);
    CountedRowsStayCleared(h, t, k, r);
    SyncOnlyGrows(h, t.syncMark, first);
    SyncOnlyGrows(h, first, k);
  }

  /** Exactly when two clean readings have a sync halt between them: when a row was raised between the
      first reading's live count and its watermark, and was not cleared before that reading ended. */
  lemma SyncHaltInsideExactly(h: seq<Db>, t: Times, u: Times, first: nat, last: nat)
    requires History(h) && InOrder(t, 0, first + 1) && first <= last && InOrder(u, last, |h|)
    requires Clean(Probe(h, t, None)) && Clean(Probe(h, u, Some(Probe(h, t, None).mark)))
    ensures (exists k :: first <= k <= last && SyncHalted(h[k])) <==> RaisedMidReading(h, t, first)
  {
    if k :| first <= k <= last && SyncHalted(h[k]) { SyncHaltIsMidReading(h, t, u, first, k); }
  }

  /** So none is, at any moment, if no row appeared between the live count and the watermark. */
  lemma NoRowRaisedDuringTheReading(h: seq<Db>, t: Times, u: Times, first: nat, k: nat)
    requires History(h) && InOrder(t, 0, first + 1) && first <= k && InOrder(u, k, |h|)
    requires Clean(Probe(h, t, None)) && Clean(Probe(h, u, Some(Probe(h, t, None).mark)))
    requires |Rows(h[t.liveSync])| == |Rows(h[t.syncMark])|
    ensures !SyncHalted(h[k])
  {
    if SyncHalted(h[k]) { SyncHaltIsMidReading(h, t, u, first, k); }
  }

  /** A history in which both readings pass and a sync halt is live between them: it is raised
      after the first reading counts live halts and before it takes the watermark, and cleared
      while the dump streams. */
  lemma SyncHaltSlipsThrough() returns (h: seq<Db>, t: Times, u: Times)
    ensures History(h) && InOrder(t, 0, 2) && InOrder(u, 2, |h|)
    ensures Clean(Probe(h, t, None)) && Clean(Probe(h, u, Some(Probe(h, t, None).mark)))
    ensures SyncHalted(h[1])
  {
    var a := Db([], Some([]), 0, 0);
    var b := Db([], Some([SyncRow(1, false)]), 0, 0);
    var c := Db([], Some([SyncRow(1, true)]), 0, 0);
    h := [a, b, c];
    t := Times(0, 0, 0, 0, 0, 1, 1, 1, 1);
    u := Times(2, 2, 2, 2, 2, 2, 2, 2, 2);
    RaiseAndClear(a, b, c);
    ThreeStates(a, b, c);
    FirstReading(h, t, a, b);
    SecondReading(h, u, c);
    assert !Rows(b)[0].cleared;
  }

  lemma ThreeStates(a: Db, b: Db, c: Db)
    requires Valid(a) && Step(a, b) && Step(b, c)
    ensures History([a, b, c])
  {
    var h := [a, b, c];
    forall i | 0 <= i < |h| - 1 ensures Step(h[i], h[i + 1]) {
      assert i == 0 || i == 1;
    }
  }

  /** Live counts from an empty table, and the watermark from one that has gained a row. */
  lemma FirstReading(h: seq<Db>, t: Times, a: Db, b: Db)
    requires InOrder(t, 0, |h|) && a == Db([], Some([]), 0, 0) && b.events == [] && b.sync.Some? && |Rows(b)| == 1
    requires h[t.tables] == a && h[t.liveReorg] == a && h[t.newestClear] == a && h[t.liveSync] == a && h[t.pending] == a
    requires h[t.eventsMark] == b && h[t.syncMark] == b
    ensures Probe(h, t, None) == Found(0, 0, 0, 0, Watermark(0, Some(Rows(b)[0].id)), None)
  {
    NoEvents(a);
    NoEvents(b);
    OneRowWatermark(Rows(b));
  }

  lemma SecondReading(h: seq<Db>, u: Times, c: Db)
    requires InOrder(u, 0, |h|) && c == Db([], Some([SyncRow(1, true)]), 0, 0)
    requires h[u.tables] == c && h[u.liveReorg] == c && h[u.newestClear] == c && h[u.liveSync] == c && h[u.pending] == c
    requires h[u.eventsMark] == c && h[u.syncMark] == c && h[u.reorgSince] == c && h[u.syncSince] == c
    ensures Clean(Probe(h, u, Some(Watermark(0, Some(1)))))
  {
    NoEvents(c);
    OneRowWatermark(Rows(c));
  }

  lemma NoEvents(db: Db)
    requires db.events == []
    ensures LiveReorgHalts(db) == 0 && NewestClearLiftsNothing(db) == 0 && EventsWatermark(db) == 0
    ensures ReorgMarkersSince(db, 0) == 0
  {
  }

  lemma RaiseAndClear(a: Db, b: Db, c: Db)
    requires a == Db([], Some([]), 0, 0) && b == Db([], Some([SyncRow(1, false)]), 0, 0)
    requires c == Db([], Some([SyncRow(1, true)]), 0, 0)
    ensures Step(a, b) && Step(b, c)
  {
    assert b.sync.value == a.sync.value + [SyncRow(1, false)];
    assert c.sync.value == b.sync.value[0 := b.sync.value[0].(cleared := true)];
  }

  lemma OneRowWatermark(rows: seq<SyncRow>)
    requires |rows| == 1
    ensures SyncWatermark(rows) == rows[0].id
  {
    assert rows[..0] == [];
  }

  // ----- what a second reading passes -----------------------------------------------------

  /** No marker row was added after the first reading's events watermark, and no sync row after its sync
      watermark, up to the second reading's last two queries. */
  ghost predicate NothingRaised(h: seq<Db>, t: Times, u: Times)
    requires InOrder(t, 0, |h|) && InOrder(u, 0, |h|)
  {
    && (forall r :: |h[t.eventsMark].events| <= r < |h[u.reorgSince].events| ==>
          h[u.reorgSince].events[r].code.OtherEvent?)
    && (h[u.tables].sync.Some? ==>
          |Rows(h[u.syncSince])| == if h[t.tables].sync.Some? then |Rows(h[t.syncMark])| else 0)
  }

  lemma NoMarkerSince(h: seq<Db>, mark: nat, end: nat)
    requires History(h) && mark <= end < |h|
    ensures ReorgMarkersSince(h[end], EventsWatermark(h[mark])) == 0
            <==> forall r :: |h[mark].events| <= r < |h[end].events| ==> h[end].events[r].code.OtherEvent?
  {
    EventsOnlyGrow(h, mark, end);
    forall r | 0 <= r < |h[end].events|
      ensures h[end].events[r].id > EventsWatermark(h[mark]) <==> r >= |h[mark].events|
    {
      PastTheWatermark(h[mark], h[end], r);
    }
  }

  lemma NoRowSince(h: seq<Db>, mark: nat, end: nat)
    requires History(h) && mark <= end < |h|
    ensures SyncRowsSince(Rows(h[end]), SyncWatermark(Rows(h[mark]))) == 0 <==> |Rows(h[end])| == |Rows(h[mark])|
  {
    SyncOnlyGrows(h, mark, end);
    forall r | 0 <= r < |Rows(h[end])|
      ensures Rows(h[end])[r].id > SyncWatermark(Rows(h[mark])) <==> r >= |Rows(h[mark])|
    {
      PastTheSyncWatermark(h[mark], h[end], r);
    }
    if |Rows(h[end])| > |Rows(h[mark])| { assert Rows(h[end])[|Rows(h[mark])|].id > SyncWatermark(Rows(h[mark])); }
  }

  lemma NoRowAtAll(db: Db)
    requires Valid(db)
    ensures SyncRowsSince(Rows(db), 0) == 0 <==> |Rows(db)| == 0
  {
    if |Rows(db)| > 0 { assert Rows(db)[0].id > 0; }
  }

  lemma WatermarksGrow(h: seq<Db>, i: nat, j: nat)
    requires History(h) && i <= j < |h|
    ensures EventsWatermark(h[i]) <= EventsWatermark(h[j])
    ensures SyncWatermark(Rows(h[i])) <= SyncWatermark(Rows(h[j]))
  {
    EventsOnlyGrow(h, i, j);
    SyncOnlyGrows(h, i, j);
    if EventsWatermark(h[i]) != 0 {
      var k :| 0 <= k < |h[i].events| && h[i].events[k].id == EventsWatermark(h[i]);
      assert h[j].events[k] == h[i].events[k];
    }
  }

  /** The sequences of the marker tables always line up, so a second reading counts what is new. */
  lemma RaisedIsReadable(h: seq<Db>, t: Times, u: Times)
    requires History(h) && InOrder(t, 0, |h|) && InOrder(u, t.syncSince, |h|)
    ensures Probe(h, u, Some(Probe(h, t, None).mark)).raised ==
      Some(Raised(ReorgMarkersSince(h[u.reorgSince], EventsWatermark(h[t.eventsMark])),
                  if h[u.tables].sync.Some? then SyncRowsSince(Rows(h[u.syncSince]), PriorSync(h, t)) else 0, 0))
  {
    WatermarksGrow(h, t.eventsMark, u.eventsMark);
    WatermarksGrow(h, t.syncMark, u.syncMark);
    SyncOnlyGrows(h, t.tables, u.tables);
    RaisedInLine(h, u, Probe(h, t, None).mark, Probe(h, u, None).mark);
  }

  lemma RaisedInLine(h: seq<Db>, u: Times, since: Watermark, mark: Watermark)
    requires InOrder(u, 0, |h|) && since.events <= mark.events
    requires since.sync.Some? ==> mark.sync.Some? && since.sync.value <= mark.sync.value
    ensures ReadRaised(h, u, since, mark) ==
      Raised(ReorgMarkersSince(h[u.reorgSince], since.events),
             if mark.sync.Some? then
               SyncRowsSince(Rows(h[u.syncSince]), if since.sync.Some? then since.sync.value else 0)
             else 0, 0)
  {
  }

  /** A sequence that went back, or a sync table that is gone, is not counted but named as unreadable, and
      only that is. */
  lemma AstrayIsUnreadable(h: seq<Db>, u: Times, since: Watermark, mark: Watermark)
    requires InOrder(u, 0, |h|)
    ensures var r := ReadRaised(h, u, since, mark);
      var eventsAstray := mark.events < since.events;
      var syncAstray := since.sync.Some? && (mark.sync.None? || mark.sync.value < since.sync.value);
      && (r.unreadable > 0 <==> eventsAstray || syncAstray)
      && (eventsAstray ==> r.reorg == 0)
      && (syncAstray ==> r.sync == 0)
  {
  }

  function PriorSync(h: seq<Db>, t: Times): nat
    requires InOrder(t, 0, |h|)
  {
    if h[t.tables].sync.Some? then SyncWatermark(Rows(h[t.syncMark])) else 0
  }

  /** The window report of a second reading is clean exactly when nothing was raised: ordinary events,
      however many, never refuse a dump. */
  lemma WindowIsCleanExactly(h: seq<Db>, t: Times, u: Times)
    requires History(h) && InOrder(t, 0, |h|) && InOrder(u, t.syncSince, |h|)
    ensures CleanWindow(Probe(h, u, Some(Probe(h, t, None).mark)).raised) <==> NothingRaised(h, t, u)
  {
    RaisedIsReadable(h, t, u);
    NoMarkerSince(h, t.eventsMark, u.reorgSince);
    if h[t.tables].sync.Some? { NoRowSince(h, t.syncMark, u.syncSince); } else { NoRowAtAll(h[u.syncSince]); }
  }

  /** Nothing but ordinary events happens between two moments, and no marker table changes. */
  ghost predicate OnlyOrdinary(h: seq<Db>, from: nat, to: nat)
    requires to < |h|
  {
    forall i :: from <= i <= to ==>
      && h[i].sync == h[from].sync && h[i].pendingCopies == h[from].pendingCopies
      && h[i].badGuards == h[from].badGuards
      && forall r :: |h[from].events| <= r < |h[i].events| ==> h[i].events[r].code.OtherEvent?
  }

  lemma OrdinaryKeepsFit(h: seq<Db>, from: nat, to: nat, i: nat)
    requires History(h) && from <= i <= to < |h| && OnlyOrdinary(h, from, to)
    ensures Fit(h[i]) <==> Fit(h[from])
  {
    EventsOnlyGrow(h, from, i);
    OrdinaryKeepsHalted(h[from], h[i]);
  }

  lemma OrdinaryKeepsHalted(a: Db, b: Db)
    requires a.events <= b.events && a.sync == b.sync
    requires forall r :: |a.events| <= r < |b.events| ==> b.events[r].code.OtherEvent?
    ensures ReorgHalted(a) <==> ReorgHalted(b)
    ensures SyncHalted(a) <==> SyncHalted(b)
  {
    OrdinaryKeepsMarkers(a.events, b.events);
    if ReorgHalted(a) {
      var i: nat :| NewestMarkerAt(a.events, i) && a.events[i].code != ReorgHaltCleared(true);
      assert NewestMarkerAt(b.events, i);
    }
    if ReorgHalted(b) {
      var i: nat :| NewestMarkerAt(b.events, i) && b.events[i].code != ReorgHaltCleared(true);
      assert NewestMarkerAt(a.events, i);
    }
    assert Rows(a) == Rows(b);
  }

  lemma OrdinaryKeepsMarkers(a: seq<Event>, b: seq<Event>)
    requires a <= b && forall r :: |a| <= r < |b| ==> b[r].code.OtherEvent?
    ensures forall n: nat :: NewestMarkerAt(a, n) <==> NewestMarkerAt(b, n)
    ensures forall n: nat :: NewestMarkerAt(a, n) ==> a[n] == b[n]
  {
    assert forall r :: 0 <= r < |a| ==> a[r] == b[r];
  }

  /** A fit database in which only ordinary events arrive passes both readings. */
  lemma QuietWindowPasses(h: seq<Db>, t: Times, u: Times)
    requires History(h) && InOrder(t, 0, |h|) && InOrder(u, t.syncSince, |h|)
    requires OnlyOrdinary(h, t.tables, u.syncSince) && Fit(h[t.tables])
    ensures Clean(Probe(h, t, None)) && Clean(Probe(h, u, Some(Probe(h, t, None).mark)))
  {
    var from, to := t.tables, u.syncSince;
    OrdinaryReading(h, from, to, t);
    OrdinaryReading(h, from, to, u);
    OrdinaryRaisesNothing(h, t, u);
    WindowIsCleanExactly(h, t, u);
    BothHalvesClean(Probe(h, u, None), Probe(h, u, Some(Probe(h, t, None).mark)));
  }

  lemma BothHalvesClean(live: Found, f: Found)
    requires Clean(live) && CleanWindow(f.raised)
    requires f.reorg == live.reorg && f.sync == live.sync && f.pending == live.pending && f.guards == live.guards
    ensures Clean(f)
  {
  }

  lemma OrdinaryRaisesNothing(h: seq<Db>, t: Times, u: Times)
    requires History(h) && InOrder(t, 0, |h|) && InOrder(u, t.syncSince, |h|)
    requires OnlyOrdinary(h, t.tables, u.syncSince)
    ensures NothingRaised(h, t, u)
  {
    var from := t.tables;
    EventsOnlyGrow(h, from, t.eventsMark);
    assert h[u.reorgSince].sync == h[from].sync && h[u.syncSince].sync == h[from].sync;
    assert h[u.tables].sync == h[from].sync && h[t.syncMark].sync == h[from].sync;
  }

  lemma OrdinaryReading(h: seq<Db>, from: nat, to: nat, t: Times)
    requires History(h) && to < |h| && InOrder(t, from, to + 1) && OnlyOrdinary(h, from, to) && Fit(h[from])
    ensures Clean(Probe(h, t, None))
  {
    OrdinaryMoment(h, from, to, t.liveReorg);
    OrdinaryMoment(h, from, to, t.newestClear);
    OrdinaryMoment(h, from, to, t.liveSync);
    OrdinaryMoment(h, from, to, t.pending);
    CleanByQueries(h, t);
  }

  lemma CleanByQueries(h: seq<Db>, t: Times)
    requires InOrder(t, 0, |h|)
    requires LiveReorgHalts(h[t.liveReorg]) == 0 && NewestClearLiftsNothing(h[t.newestClear]) == 0
    requires LiveSyncHalts(Rows(h[t.liveSync])) == 0
    requires h[t.pending].pendingCopies == 0 && h[t.pending].badGuards == 0
    ensures Clean(Probe(h, t, None))
  {
  }

  lemma OrdinaryMoment(h: seq<Db>, from: nat, to: nat, i: nat)
    requires History(h) && from <= i <= to < |h| && OnlyOrdinary(h, from, to) && Fit(h[from])
    ensures LiveReorgHalts(h[i]) == 0 && NewestClearLiftsNothing(h[i]) == 0 && LiveSyncHalts(Rows(h[i])) == 0
    ensures h[i].pendingCopies == 0 && h[i].badGuards == 0
  {
    OrdinaryKeepsFit(h, from, to, i);
    ReorgReadingExact(h[i]);
    LiveSyncExact(h[i]);
  }

  // ----- the dump window ------------------------------------------------------------------

  /** The gate passes before the dump and again after it with the earlier watermark, for a source
      and its paired decoder: at no moment between the readings did either database read itself
      reorg-halted, and one with a sync halt live then had it raised in the middle of its first
      reading. */
  lemma DumpWindowSafety(own: seq<Db>, up: seq<Db>, t: Times, t': Option<Times>, u: Times, u': Option<Times>,
                         first: nat, last: nat, k: nat)
    requires History(own) && History(up) && |own| == |up| && first <= k <= last
    requires InOrder(t, 0, first + 1) && InOrder(u, last, |own|)
    requires t'.Some? == u'.Some?
    requires t'.Some? ==> InOrder(t'.value, 0, first + 1) && InOrder(u'.value, last, |up|)
    requires Clean(Probe(own, u, Some(Probe(own, t, None).mark)))
    requires t'.Some? ==> Clean(Probe(up, u'.value, Some(Probe(up, t'.value, None).mark)))
    ensures !ReorgHalted(own[k]) && (SyncHalted(own[k]) ==> SyncHalted(own[first]))
    ensures SyncHalted(own[k]) && Clean(Probe(own, t, None)) ==> RaisedMidReading(own, t, first)
    ensures t'.Some? ==> !ReorgHalted(up[k]) && (SyncHalted(up[k]) ==> SyncHalted(up[first]))
    ensures t'.Some? && SyncHalted(up[k]) && Clean(Probe(up, t'.value, None)) ==> RaisedMidReading(up, t'.value, first)
  {
    WindowOf(own, t, u, first, last, k);
    if t'.Some? { WindowOf(up, t'.value, u'.value, first, last, k); }
  }

  ghost predicate HaltInside(h: seq<Db>, first: nat, last: nat)
  {
    exists k :: first <= k <= last && k < |h| && Halted(h[k])
  }

  ghost predicate Halted(db: Db) { ReorgHalted(db) || SyncHalted(db) }

  /** Exactly when a dump that both gates pass was streamed while a halt of either kind stood in either
      database: when one of the first readings had a sync row raised in its middle. */
  lemma DumpWindowExactly(own: seq<Db>, up: seq<Db>, t: Times, t': Option<Times>, u: Times, u': Option<Times>,
                          first: nat, last: nat)
    requires History(own) && History(up) && |own| == |up| && first <= last
    requires InOrder(t, 0, first + 1) && InOrder(u, last, |own|)
    requires t'.Some? == u'.Some?
    requires t'.Some? ==> InOrder(t'.value, 0, first + 1) && InOrder(u'.value, last, |up|)
    requires Clean(Probe(own, t, None)) && Clean(Probe(own, u, Some(Probe(own, t, None).mark)))
    requires t'.Some? ==>
      Clean(Probe(up, t'.value, None)) && Clean(Probe(up, u'.value, Some(Probe(up, t'.value, None).mark)))
    ensures HaltInside(own, first, last) || (t'.Some? && HaltInside(up, first, last))
            <==> RaisedMidReading(own, t, first) || (t'.Some? && RaisedMidReading(up, t'.value, first))
  {
    HaltInsideExactly(own, t, u, first, last);
    if t'.Some? { HaltInsideExactly(up, t'.value, u'.value, first, last); }
  }

  lemma HaltInsideExactly(h: seq<Db>, t: Times, u: Times, first: nat, last: nat)
    requires History(h) && first <= last && InOrder(t, 0, first + 1) && InOrder(u, last, |h|)
    requires Clean(Probe(h, t, None)) && Clean(Probe(h, u, Some(Probe(h, t, None).mark)))
    ensures HaltInside(h, first, last) <==> RaisedMidReading(h, t, first)
  {
    if k :| first <= k <= last && k < |h| && Halted(h[k]) {
      WindowOf(h, t, u, first, last, k);
    } else if RaisedMidReading(h, t, first) {
      RaisedStands(h, t, first);
      assert Halted(h[first]);
    }
  }

  lemma RaisedStands(h: seq<Db>, t: Times, first: nat)
    requires InOrder(t, 0, |h|) && first < |h| && RaisedMidReading(h, t, first)
    ensures SyncHalted(h[first])
  {
  }

  lemma WindowOf(h: seq<Db>, t: Times, u: Times, first: nat, last: nat, k: nat)
    requires History(h) && first <= k <= last && InOrder(t, 0, first + 1) && InOrder(u, last, |h|)
    requires Clean(Probe(h, u, Some(Probe(h, t, None).mark)))
    ensures !ReorgHalted(h[k]) && (SyncHalted(h[k]) ==> SyncHalted(h[first]))
    ensures SyncHalted(h[k]) && Clean(Probe(h, t, None)) ==> RaisedMidReading(h, t, first)
  {
    NoReorgHaltInside(h, t, u, k);
    if SyncHalted(h[k]) {
      SyncHaltPredates(h, t, u, first, k);
      if Clean(Probe(h, t, None)) { SyncHaltIsMidReading(h, t, u, first, k); }
    }
  }
}
