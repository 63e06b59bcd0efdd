/** The autoheal pass over the registered containers. */
module Autoheal {
  // It restarts the ones that stay unhealthy past a grace window, and carries onsets, restart counts and last
  // restarts between passes in a file. Times are milliseconds.

  import opened Base

  type Id = string

  /** One health-log entry; a timestamp that does not parse is absent. */
  datatype Probe = Probe(exitCode: int, start: Option<int>, end: Option<int>)

  datatype Health = Health(status: string, log: seq<Option<Probe>>)

  datatype Status = Status(runState: string, health: Option<Health>)

  /** How a stop-then-start ended; a failure may leave the container stopped. */
  datatype RestartOutcome = RestartOk(elapsed: int) | RestartFailed(leftStopped: bool)

  /** One registry row as a pass meets it: what docker answers, and how an action would end. */
  datatype Sight = Sight(id: Option<Id>, optedIn: bool, status: Option<Status>,
                         startOk: bool, restart: RestartOutcome)

  datatype Timing = Timing(grace: nat, cooldown: nat, ceiling: nat, probation: nat)

  datatype Pass = Pass(now: int, dryRun: bool, resumeStopped: bool, timing: Timing)

  datatype Reason = InspectFailed | NotRunning | NoFailingProbe | InsideGrace | InsideCooldown

  /** What a pass reports, in order. */
  datatype Note =
    | Skipped(id: Id, reason: Reason)
    | Candidate(id: Id)
    | Escalated(id: Id, attempts: nat)
    | Restarted(id: Id, forced: bool, at: int)
    | Failed(id: Id)

  /** The state file. */
  datatype State = State(restarts: map<Id, int>, since: map<Id, int>, count: map<Id, nat>, stopped: set<Id>)

  datatype Visited = Visited(state: State, notes: seq<Note>, changed: bool)

  // ----- restart state --------------------------------------------------------------------

  function Min(a: int, b: int): int { if a <= b then a else b }

  function Max(a: int, b: int): int { if a <= b then b else a }

  function Pow2(n: nat): nat { if n == 0 then 1 else 2 * Pow2(n - 1) }

  /** The wait before the next restart of a container restarted `attempts` times already. */
  function RestartBackoff(attempts: nat, cooldown: nat, ceiling: nat): nat
  {
    if attempts <= 1 then cooldown else Min(cooldown * Pow2(attempts - 1), ceiling)
  }

  /** Start of the trailing run of failing probes. */
  function UnhealthySince(log: seq<Option<Probe>>): Option<int>
  {
    if log == [] then None
    else
      var last := log[|log| - 1];
      if last.None? || last.value.exitCode == 0 || last.value.start.None? then None
      else
        var earlier := UnhealthySince(log[..|log| - 1]);
        if earlier.Some? then earlier else last.value.start
  }

  predicate Passed(entry: Option<Probe>) { entry.Some? && entry.value.exitCode == 0 }

  /** When a probe ran: its start, or its end when the start does not parse. */
  function When(probe: Probe): Option<int> { if probe.start.Some? then probe.start else probe.end }

  /** When the newest-listed passing probe ran; None when it cannot be read, or there is none. */
  function LastHealthyProbe(log: seq<Option<Probe>>): Option<int>
  {
    if log == [] then None
    else
      var last := log[|log| - 1];
      if !Passed(last) then LastHealthyProbe(log[..|log| - 1]) else When(last.value)
  }

  predicate RecoveryEstablished(lastHealthy: Option<int>, lastRestart: Option<int>, probation: nat)
  {
    lastHealthy.Some? && (lastRestart.None? || lastHealthy.value > lastRestart.value + probation)
  }

  function At<V>(m: map<Id, V>, id: Id): Option<V> { if id in m then Some(m[id]) else None }

  function Attempts(st: State, id: Id): nat { if id in st.count then st.count[id] else 0 }

  // ----- one container --------------------------------------------------------------------

  predicate Running(s: Status) { s.runState == "running" }

  predicate Unhealthy(s: Status) { s.health.Some? && s.health.value.status == "unhealthy" }

  /** A container an earlier failed restart left stopped. None: carry on with the checks below. */
  function RetryStart(st: State, id: Id, running: bool, startOk: bool, p: Pass): (State, seq<Note>, bool, bool)
  {
    if id !in st.stopped then (st, [], false, false)
    else if running then (st.(stopped := st.stopped - {id}), [], true, false)
    else if !p.resumeStopped then (st, [Candidate(id), Escalated(id, Attempts(st, id))], false, true)
    else if p.dryRun then (st, [Candidate(id)], false, true)
    else if startOk then
      (State(st.restarts[id := p.now], st.since, st.count[id := Attempts(st, id) + 1], st.stopped - {id}),
       [Candidate(id), Restarted(id, true, p.now)], true, true)
    else (st, [Candidate(id), Failed(id)], false, true)
  }

  function ForgetOnset(st: State, id: Id): State { st.(since := st.since - {id}) }

  /** An episode that is over, or a healthcheck that is gone. */
  function EndEpisode(st: State, id: Id, healthy: bool): State
  {
    var ended := ForgetOnset(st, id);
    if healthy then ended.(count := ended.count - {id}) else ended
  }

  /** The onset to time the grace window from, and whether it was taken afresh. */
  function SeedOnset(st: State, id: Id, lastHealthy: Option<int>, derived: int, now: int): (State, bool)
  {
    if id !in st.since || (lastHealthy.Some? && lastHealthy.value > st.since[id])
    then (st.(since := st.since[id := Min(now, derived)]), true)
    else (st, false)
  }

  function ClearRecoveredCount(st: State, id: Id, reseeded: bool, lastHealthy: Option<int>, probation: nat): State
  {
    if reseeded && id in st.count && RecoveryEstablished(lastHealthy, At(st.restarts, id), probation)
    then st.(count := st.count - {id})
    else st
  }

  /** A wedged container with a recorded onset: wait, or restart it. */
  function RestartEligible(st: State, id: Id, restart: RestartOutcome, p: Pass): Visited
    requires id in st.since
  {
    var attempts := Attempts(st, id);
    var warn := if attempts >= 2 then [Escalated(id, attempts)] else [];
    if p.now - st.since[id] < p.timing.grace then Visited(st, [Skipped(id, InsideGrace)], false)
    else if id in st.restarts
         && p.now - st.restarts[id] < RestartBackoff(attempts, p.timing.cooldown, p.timing.ceiling)
    then Visited(st, warn + [Skipped(id, InsideCooldown)], false)
    else if p.dryRun then Visited(st, warn + [Candidate(id)], false)
    else match restart
      case RestartOk(elapsed) =>
        var at := p.now + Max(0, elapsed);
        Visited(st.(restarts := st.restarts[id := at], count := st.count[id := attempts + 1]),
                warn + [Candidate(id), Restarted(id, false, at)], false)
      case RestartFailed(leftStopped) =>
        Visited(if leftStopped then st.(stopped := st.stopped + {id}) else st,
                warn + [Candidate(id), Failed(id)], leftStopped)
  }

  /** An unhealthy, running container. */
  function VisitWedged(st: State, id: Id, log: seq<Option<Probe>>, restart: RestartOutcome, p: Pass): Visited
  {
    match UnhealthySince(log)
    case None => Visited(st, [Skipped(id, NoFailingProbe)], false)
    case Some(derived) =>
      var (seeded, reseeded) := SeedOnset(st, id, LastHealthyProbe(log), derived, p.now);
      var ready := ClearRecoveredCount(seeded, id, reseeded, LastHealthyProbe(log), p.timing.probation);
      var v := RestartEligible(ready, id, restart, p);
      Visited(v.state, v.notes, reseeded || v.changed)
  }

  /** The checks on a container no earlier restart left stopped. */
  function VisitChecks(st: State, id: Id, status: Status, restart: RestartOutcome, p: Pass): Visited
  {
    if !Running(status) then Visited(ForgetOnset(st, id), [Skipped(id, NotRunning)], id in st.since)
    else if !Unhealthy(status) then
      var healthy := status.health.Some? && status.health.value.status == "healthy";
      Visited(EndEpisode(st, id, healthy), [], id in st.since || (healthy && id in st.count))
    else VisitWedged(st, id, status.health.value.log, restart, p)
  }

  function Visit(st: State, s: Sight, p: Pass): Visited
  {
    if s.id.None? || !s.optedIn then Visited(st, [], false)
    else if s.status.None? then Visited(st, [Skipped(s.id.value, InspectFailed)], false)
    else
      var id := s.id.value;
      var (st', notes, changed, handled) := RetryStart(st, id, Running(s.status.value), s.startOk, p);
      if handled then Visited(st', notes, changed)
      else
        var v := VisitChecks(st', id, s.status.value, s.restart, p);
        Visited(v.state, notes + v.notes, changed || v.changed)
  }

  // ----- one pass -------------------------------------------------------------------------

  function Walk(st: State, sights: seq<Sight>, p: Pass): Visited
  {
    if sights == [] then Visited(st, [], false)
    else
      var before := Walk(st, sights[..|sights| - 1], p);
      var v := Visit(before.state, sights[|sights| - 1], p);
      Visited(v.state, before.notes + v.notes, before.changed || v.changed)
  }

  function Known(sights: seq<Sight>): (ids: set<Id>)
    ensures forall id :: id in ids <==> exists i :: 0 <= i < |sights| && sights[i].id == Some(id)
  {
    set s | s in sights && s.id.Some? :: s.id.value
  }

  function Restrict(st: State, known: set<Id>): State
  {
    State(map id | id in st.restarts && id in known :: st.restarts[id],
          map id | id in st.since && id in known :: st.since[id],
          map id | id in st.count && id in known :: st.count[id],
          st.stopped * known)
  }

  predicate AnyRestarted(notes: seq<Note>) { exists i :: 0 <= i < |notes| && notes[i].Restarted? }

  /** The state file a pass leaves behind. */
  function FileAfter(file: State, sights: seq<Sight>, p: Pass): State
  {
    var walked := Walk(file, sights, p);
    if !p.dryRun && (walked.changed || AnyRestarted(walked.notes))
    then Restrict(walked.state, Known(sights))
    else file
  }

  // ----- the pass as it runs --------------------------------------------------------------

  class Autohealer {
    var restarts: map<Id, int>
    var since: map<Id, int>
    var count: map<Id, nat>
    var stopped: set<Id>
    var notes: seq<Note>

    function Now(): State
      reads this
    {
      State(restarts, since, count, stopped)
    }

    constructor (file: State)
      ensures Now() == file && notes == []
    {
      restarts, since, count, stopped := file.restarts, file.since, file.count, file.stopped;
      notes := [];
    }

    method HandleStopped(id: Id, running: bool, startOk: bool, p: Pass) returns (changed: bool, handled: bool)
      modifies this
      ensures var (st, said, c, h) := RetryStart(old(Now()), id, running, startOk, p);
              Now() == st && notes == old(notes) + said && changed == c && handled == h
    {
      if id !in stopped { return false, false; }
      if running {
        stopped := stopped - {id};
        return true, false;
      }
      notes := notes + [Candidate(id)];
      if !p.resumeStopped {
        notes := notes + [Escalated(id, if id in count then count[id] else 0)];
        return false, true;
      }
      if p.dryRun { return false, true; }
      if !startOk {
        notes := notes + [Failed(id)];
        return false, true;
      }
      stopped := stopped - {id};
      restarts := restarts[id := p.now];
      count := count[id := (if id in count then count[id] else 0) + 1];
      notes := notes + [Restarted(id, true, p.now)];
      return true, true;
    }

    method SkipNonRunning(id: Id, status: Status) returns (skip: bool, changed: bool)
      modifies this
      ensures skip == !Running(status)
      ensures !skip ==> Now() == old(Now()) && notes == old(notes) && !changed
      ensures skip ==> Now() == ForgetOnset(old(Now()), id) && notes == old(notes) + [Skipped(id, NotRunning)]
                       && changed == (id in old(since))
    {
      if Running(status) { return false, false; }
      notes := notes + [Skipped(id, NotRunning)];
      changed := id in since;
      since := since - {id};
      return true, changed;
    }

    method SkipNonUnhealthy(id: Id, status: Status) returns (skip: bool, changed: bool)
      modifies this`since, this`count
      ensures skip == !Unhealthy(status)
      ensures !skip ==> Now() == old(Now()) && !changed
      ensures var healthy := status.health.Some? && status.health.value.status == "healthy";
              skip ==> Now() == EndEpisode(old(Now()), id, healthy)
                       && changed == (id in old(since) || (healthy && id in old(count)))
    {
      if Unhealthy(status) { return false, false; }
      changed := false;
      if id in since {
        since := since - {id};
        changed := true;
      }
      if status.health.Some? && status.health.value.status == "healthy" && id in count {
        count := count - {id};
        changed := true;
      }
      skip := true;
      assert old(since) - {id} == since;
    }

    method SeedEpisodeOnset(id: Id, lastHealthy: Option<int>, derived: int, now: int) returns (reseeded: bool)
      modifies this`since
      ensures (Now(), reseeded) == SeedOnset(old(Now()), id, lastHealthy, derived, now)
      ensures id in since
    {
      reseeded := id !in since || (lastHealthy.Some? && lastHealthy.value > since[id]);
      if reseeded { since := since[id := Min(now, derived)]; }
    }

    method ClearRecoveredRestartCount(id: Id, reseeded: bool, lastHealthy: Option<int>, probation: nat)
      modifies this`count
      ensures Now() == ClearRecoveredCount(old(Now()), id, reseeded, lastHealthy, probation)
    {
      if reseeded && id in count && RecoveryEstablished(lastHealthy, At(restarts, id), probation) {
        count := count - {id};
      }
    }

    method RestartEligibleCandidate(id: Id, restart: RestartOutcome, p: Pass) returns (changed: bool)
      requires id in since
      modifies this
      ensures var v := RestartEligible(old(Now()), id, restart, p);
              Now() == v.state && notes == old(notes) + v.notes && changed == v.changed
    {
      changed := false;
      if p.now - since[id] < p.timing.grace {
        notes := notes + [Skipped(id, InsideGrace)];
        return;
      }
      var attempts := if id in count then count[id] else 0;
      var wait := RestartBackoff(attempts, p.timing.cooldown, p.timing.ceiling);
      if attempts >= 2 { notes := notes + [Escalated(id, attempts)]; }
      if id in restarts && p.now - restarts[id] < wait {
        notes := notes + [Skipped(id, InsideCooldown)];
        return;
      }
      notes := notes + [Candidate(id)];
      if p.dryRun { return; }
      match restart
      case RestartOk(elapsed) =>
        var at := p.now + Max(0, elapsed);
        restarts := restarts[id := at];
        count := count[id := attempts + 1];
        notes := notes + [Restarted(id, false, at)];
      case RestartFailed(leftStopped) =>
        if leftStopped { stopped := stopped + {id}; }
        notes := notes + [Failed(id)];
        changed := leftStopped;
    }

    method EstablishAndRestart(id: Id, log: seq<Option<Probe>>, restart: RestartOutcome, p: Pass)
        returns (changed: bool)
      modifies this
      ensures var v := VisitWedged(old(Now()), id, log, restart, p);
              Now() == v.state && notes == old(notes) + v.notes && changed == v.changed
    {
      var derived := UnhealthySince(log);
      if derived.None? {
        notes := notes + [Skipped(id, NoFailingProbe)];
        return false;
      }
      var reseeded := SeedEpisodeOnset(id, LastHealthyProbe(log), derived.value, p.now);
      ClearRecoveredRestartCount(id, reseeded, LastHealthyProbe(log), p.timing.probation);
      var stoppedNow := RestartEligibleCandidate(id, restart, p);
      changed := reseeded || stoppedNow;
    }

    method RunChecks(id: Id, status: Status, restart: RestartOutcome, p: Pass) returns (changed: bool)
      modifies this
      ensures var v := VisitChecks(old(Now()), id, status, restart, p);
              Now() == v.state && notes == old(notes) + v.notes && changed == v.changed
    {
      var skip;
      skip, changed := SkipNonRunning(id, status);
      if skip { return; }
      skip, changed := SkipNonUnhealthy(id, status);
      if skip { return; }
      changed := EstablishAndRestart(id, status.health.value.log, restart, p);
    }

    method VisitRow(s: Sight, p: Pass) returns (changed: bool)
      modifies this
      ensures var v := Visit(old(Now()), s, p);
              Now() == v.state && notes == old(notes) + v.notes && changed == v.changed
    {
      if s.id.None? || !s.optedIn { return false; }
      var id := s.id.value;
      if s.status.None? {
        notes := notes + [Skipped(id, InspectFailed)];
        return false;
      }
      var status := s.status.value;
      var retried, handled := HandleStopped(id, Running(status), s.startOk, p);
      if handled { return retried; }
      changed := RunChecks(id, status, s.restart, p);
      changed := retried || changed;
    }

    method RunAutoheal(sights: seq<Sight>, p: Pass) returns (file: State)
      modifies this
      requires notes == []
      ensures notes == Walk(old(Now()), sights, p).notes
      ensures file == FileAfter(old(Now()), sights, p)
    {
      ghost var start := Now();
      var stored := Now();
      var changed := false;
      for i := 0 to |sights|
        invariant var w := Walk(start, sights[..i], p);
                  Now() == w.state && notes == w.notes && changed == w.changed
      {
        assert sights[..i + 1][..i] == sights[..i];
        var c := VisitRow(sights[i], p);
        changed := changed || c;
      }
      assert sights[..|sights|] == sights;
      if !p.dryRun && (changed || AnyRestarted(notes)) {
        var known := Known(sights);
        restarts := map id | id in restarts && id in known :: restarts[id];
        since := map id | id in since && id in known :: since[id];
        count := map id | id in count && id in known :: count[id];
        stopped := stopped * known;
        stored := Now();
      }
      file := stored;
    }
  }

  // ----- what one visit does --------------------------------------------------------------

  /** Log entries in the order they ran, none of them from the future. */
  ghost predicate Chronological(log: seq<Option<Probe>>, now: int)
  {
    && (forall i :: 0 <= i < |log| && log[i].Some? && log[i].value.start.Some? ==> log[i].value.start.value <= now)
    && (forall i :: 0 <= i < |log| && log[i].Some? && log[i].value.end.Some? ==> log[i].value.end.value <= now)
    && (forall i, j :: 0 <= i < j < |log| && log[i].Some? && log[j].Some? && When(log[j].value).Some? ==>
          && (log[i].value.start.Some? ==> log[i].value.start.value <= When(log[j].value).value)
          && (log[i].value.end.Some? ==> log[i].value.end.value <= When(log[j].value).value))
  }

  /** Entry `i` is a pass that can be dated. */
  predicate PassAt(log: seq<Option<Probe>>, i: nat)
  {
    i < |log| && Passed(log[i]) && When(log[i].value).Some?
  }

  function TimeOf(log: seq<Option<Probe>>, i: nat): int
    requires PassAt(log, i)
  {
    When(log[i].value).value
  }

  /** The log retains no pass later than `t`, wherever it is listed. */
  ghost predicate NoPassAfter(log: seq<Option<Probe>>, t: int)
  {
    forall i: nat :: PassAt(log, i) ==> TimeOf(log, i) <= t
  }

  /** The one pass the code looks at, the newest-listed, can be dated and is the latest. */
  ghost predicate NewestIsLatest(log: seq<Option<Probe>>)
  {
    forall i: nat :: PassAt(log, i) ==> LastHealthyProbe(log).Some? && TimeOf(log, i) <= LastHealthyProbe(log).value
  }

  /** When a log lists a pass, the newest-listed one can be dated. */
  ghost predicate NewestPassReadable(log: seq<Option<Probe>>)
  {
    LastHealthyProbe(log).None? ==> forall i :: 0 <= i < |log| ==> !Passed(log[i])
  }

  lemma {:induction false} LastHealthyIsAnEntry(log: seq<Option<Probe>>) returns (i: nat)
    requires LastHealthyProbe(log).Some?
    ensures PassAt(log, i) && LastHealthyProbe(log) == Some(TimeOf(log, i))
    ensures forall k :: i < k < |log| ==> !Passed(log[k])
  {
    var n := |log| - 1;
    if !Passed(log[n]) {
      i := LastHealthyIsAnEntry(log[..n]);
    } else {
      i := n;
    }
  }

  lemma {:induction false} UnhealthySinceIsAnEntry(log: seq<Option<Probe>>) returns (i: nat)
    requires UnhealthySince(log).Some?
    ensures i < |log| && log[i].Some? && log[i].value.start == UnhealthySince(log)
    ensures forall k :: i <= k < |log| ==> log[k].Some? && log[k].value.exitCode != 0
  {
    var n := |log| - 1;
    if UnhealthySince(log[..n]).Some? {
      i := UnhealthySinceIsAnEntry(log[..n]);
    } else {
      i := n;
    }
  }

  ghost predicate FailedAt(log: seq<Option<Probe>>, i: int)
  {
    0 <= i < |log| && log[i].Some? && log[i].value.exitCode != 0 && log[i].value.start.Some?
  }

  /** The derived onset is the start of the longest run of dated failures at the end of the log, and there
      is none exactly when the newest entry is not one. */
  lemma {:induction false} UnhealthySinceIsTheFirst(log: seq<Option<Probe>>) returns (i: nat)
    ensures UnhealthySince(log).None? <==> !FailedAt(log, |log| - 1)
    ensures UnhealthySince(log).Some? ==>
      && FailedAt(log, i) && (forall k :: i <= k < |log| ==> FailedAt(log, k)) && !FailedAt(log, i - 1)
      && UnhealthySince(log) == log[i].value.start
  {
    i := 0;
    if FailedAt(log, |log| - 1) {
      var n := |log| - 1;
      var earlier := log[..n];
      i := UnhealthySinceIsTheFirst(earlier);
      assert forall k :: k < n ==> FailedAt(earlier, k) == FailedAt(log, k);
      if UnhealthySince(earlier).None? { i := n; }
    }
  }

  /** The newest-listed pass decides alone: its start, else its end, else nothing. */
  lemma {:induction false} LastHealthyIsNewest(log: seq<Option<Probe>>, i: nat)
    requires i < |log| && log[i].Some? && log[i].value.exitCode == 0
    requires forall k :: i < k < |log| ==> log[k].None? || log[k].value.exitCode != 0
    ensures LastHealthyProbe(log) == if log[i].value.start.Some? then log[i].value.start else log[i].value.end
  {
    if i < |log| - 1 { LastHealthyIsNewest(log[..|log| - 1], i); }
  }

  /** In a chronological log the trailing failures all ran after every pass. */
  lemma FailuresFollowPasses(log: seq<Option<Probe>>, now: int)
    requires Chronological(log, now) && UnhealthySince(log).Some?
    ensures NoPassAfter(log, Min(now, UnhealthySince(log).value))
  {
    var j := UnhealthySinceIsAnEntry(log);
    forall i: nat | PassAt(log, i) ensures TimeOf(log, i) <= Min(now, UnhealthySince(log).value) {
      assert i < j;
    }
  }

  /** And its newest pass, when it can be dated, is the latest. */
  lemma NewestPassIsLatest(log: seq<Option<Probe>>, now: int)
    requires Chronological(log, now) && NewestPassReadable(log)
    ensures NewestIsLatest(log)
  {
    if LastHealthyProbe(log).Some? {
      var j := LastHealthyIsAnEntry(log);
      forall i: nat | PassAt(log, i) ensures TimeOf(log, i) <= TimeOf(log, j) {
        assert i <= j;
      }
    }
  }

  /** An unforced restart happens only on evidence: a registered, opted-in, running, unhealthy
      container whose recorded onset is at least a grace window old and whose last restart, if
      any, is at least the backed-off cooldown old. */
  lemma RestartsOnlyOnEvidence(st: State, s: Sight, p: Pass, id: Id, at: int)
    requires Restarted(id, false, at) in Visit(st, s, p).notes
    ensures s.id == Some(id) && s.optedIn && !p.dryRun
    ensures s.status.Some? && Running(s.status.value) && Unhealthy(s.status.value)
    ensures var v := Visit(st, s, p);
            && id in v.state.since && p.now - v.state.since[id] >= p.timing.grace
            && id in v.state.restarts && v.state.restarts[id] == at >= p.now
  {
    var retried := VisitedWedged(st, s, p, id, at);
    WedgedRestart(retried, id, s.status.value.health.value.log, s.restart, p, at);
  }

  /** A container that was restarted unforced came through every earlier check. */
  lemma VisitedWedged(st: State, s: Sight, p: Pass, id: Id, at: int) returns (retried: State)
    requires Restarted(id, false, at) in Visit(st, s, p).notes
    ensures s.id == Some(id) && s.optedIn && s.status.Some?
    ensures Running(s.status.value) && Unhealthy(s.status.value)
    ensures var v := VisitWedged(retried, id, s.status.value.health.value.log, s.restart, p);
            Restarted(id, false, at) in v.notes && Visit(st, s, p).state == v.state
  {
    var status := s.status.value;
    var (st', notes, changed, handled) := RetryStart(st, s.id.value, Running(status), s.startOk, p);
    RetryNeverUnforced(st, s.id.value, Running(status), s.startOk, p, id, at);
    retried := st';
    ChecksRestart(st', s.id.value, status, s.restart, p, id, at);
  }

  lemma RetryNeverUnforced(st: State, seen: Id, running: bool, startOk: bool, p: Pass, id: Id, at: int)
    ensures Restarted(id, false, at) !in RetryStart(st, seen, running, startOk, p).1
  {
  }

  lemma ChecksRestart(st: State, seen: Id, status: Status, restart: RestartOutcome, p: Pass, id: Id, at: int)
    requires Restarted(id, false, at) in VisitChecks(st, seen, status, restart, p).notes
    ensures Running(status) && Unhealthy(status) && seen == id
    ensures VisitChecks(st, seen, status, restart, p) == VisitWedged(st, seen, status.health.value.log, restart, p)
  {
  }

  lemma WedgedRestart(st: State, id: Id, log: seq<Option<Probe>>, restart: RestartOutcome, p: Pass, at: int)
    requires Restarted(id, false, at) in VisitWedged(st, id, log, restart, p).notes
    ensures UnhealthySince(log).Some? && restart.RestartOk? && !p.dryRun
    ensures var v := VisitWedged(st, id, log, restart, p).state;
            && id in v.since && p.now - v.since[id] >= p.timing.grace
            && id in v.restarts && v.restarts[id] == at >= p.now
  {
  }

  /** With a chronological log whose newest pass can be dated, no pass the log retains is later than
      that onset. */
  lemma NoRetainedPassSinceOnset(st: State, s: Sight, p: Pass, id: Id, at: int)
    requires Restarted(id, false, at) in Visit(st, s, p).notes
    requires s.status.Some? && s.status.value.health.Some? ==>
      Chronological(s.status.value.health.value.log, p.now) && NewestPassReadable(s.status.value.health.value.log)
    ensures id in Visit(st, s, p).state.since && s.status.Some? && s.status.value.health.Some?
    ensures NoPassAfter(s.status.value.health.value.log, Visit(st, s, p).state.since[id])
  {
    var retried := VisitedWedged(st, s, p, id, at);
    var log := s.status.value.health.value.log;
    WedgedRestart(retried, id, log, s.restart, p, at);
    FailuresFollowPasses(log, p.now);
    NewestPassIsLatest(log, p.now);
    LogSuffices(retried, id, log, s.restart, p);
  }

  lemma LatestBounds(log: seq<Option<Probe>>, t: int)
    requires NewestIsLatest(log) && (LastHealthyProbe(log).Some? ==> LastHealthyProbe(log).value <= t)
    ensures NoPassAfter(log, t)
  {
  }

  /** A visit keeps the onset on file unless the newest-listed pass is later. */
  predicate KeepsOnset(st: State, id: Id, log: seq<Option<Probe>>)
  {
    id in st.since && (LastHealthyProbe(log).Some? ==> LastHealthyProbe(log).value <= st.since[id])
  }

  /** For one container and the onset on file: no retained pass is later than the onset a restart rests
      on exactly when none is later than the onset on file, or that one is given up and none is later
      than the trailing failures and now. */
  lemma PassesBeforeOnsetExactly(st: State, id: Id, log: seq<Option<Probe>>, restart: RestartOutcome, p: Pass)
    requires UnhealthySince(log).Some?
    ensures var v := VisitWedged(st, id, log, restart, p);
            && id in v.state.since
            && (NoPassAfter(log, v.state.since[id])
                <==> || (id in st.since && NoPassAfter(log, st.since[id]))
                     || (!KeepsOnset(st, id, log) && NoPassAfter(log, Min(p.now, UnhealthySince(log).value))))
  {
    var ready := WedgedPathAny(st, id, log, restart, p);
    if id in st.since && NoPassAfter(log, st.since[id]) && LastHealthyProbe(log).Some? {
      var i := LastHealthyIsAnEntry(log);
    }
  }

  /** Exactly which logs rule out a later pass, whatever onset is on file: those whose newest-listed
      pass can be dated and is the latest, and whose passes are no later than the trailing failures
      and now. */
  lemma LogRulesOutLaterPasses(id: Id, log: seq<Option<Probe>>, restart: RestartOutcome, p: Pass)
    requires UnhealthySince(log).Some?
    ensures (forall st: State :: OnsetHolds(st, id, log, restart, p))
            <==> NewestIsLatest(log) && NoPassAfter(log, Min(p.now, UnhealthySince(log).value))
  {
    if forall st: State :: OnsetHolds(st, id, log, restart, p) {
      var none := State(map[], map[], map[], {});
      assert OnsetHolds(none, id, log, restart, p);
      PassesBeforeOnsetExactly(none, id, log, restart, p);
      forall i: nat | PassAt(log, i)
        ensures LastHealthyProbe(log).Some? && TimeOf(log, i) <= LastHealthyProbe(log).value
      {
        var t := if LastHealthyProbe(log).Some? then LastHealthyProbe(log).value else TimeOf(log, i) - 1;
        KeptOnsetHolds(id, log, restart, p, t, i);
      }
    }
    if NewestIsLatest(log) && NoPassAfter(log, Min(p.now, UnhealthySince(log).value)) {
      forall st: State ensures OnsetHolds(st, id, log, restart, p) { LogSuffices(st, id, log, restart, p); }
    }
  }

  lemma LogSuffices(st: State, id: Id, log: seq<Option<Probe>>, restart: RestartOutcome, p: Pass)
    requires UnhealthySince(log).Some?
    requires NewestIsLatest(log) && NoPassAfter(log, Min(p.now, UnhealthySince(log).value))
    ensures OnsetHolds(st, id, log, restart, p)
  {
    PassesBeforeOnsetExactly(st, id, log, restart, p);
    if KeepsOnset(st, id, log) { LatestBounds(log, st.since[id]); }
  }

  ghost predicate OnsetHolds(st: State, id: Id, log: seq<Option<Probe>>, restart: RestartOutcome, p: Pass)
    requires UnhealthySince(log).Some?
  {
    var v := VisitWedged(st, id, log, restart, p);
    id in v.state.since && NoPassAfter(log, v.state.since[id])
  }

  /** An onset on file that the newest-listed pass does not contradict is kept, so it bounds every pass. */
  lemma KeptOnsetHolds(id: Id, log: seq<Option<Probe>>, restart: RestartOutcome, p: Pass, t: int, i: nat)
    requires UnhealthySince(log).Some? && PassAt(log, i)
    requires forall st: State :: OnsetHolds(st, id, log, restart, p)
    requires LastHealthyProbe(log).Some? ==> LastHealthyProbe(log).value <= t
    ensures TimeOf(log, i) <= t
  {
    var st := State(map[], map[id := t], map[], {});
    assert OnsetHolds(st, id, log, restart, p);
    PassesBeforeOnsetExactly(st, id, log, restart, p);
    assert KeepsOnset(st, id, log);
  }

  lemma WedgedPathAny(st: State, id: Id, log: seq<Option<Probe>>, restart: RestartOutcome, p: Pass)
      returns (ready: State)
    requires UnhealthySince(log).Some?
    ensures ready.since == SeedOnset(st, id, LastHealthyProbe(log), UnhealthySince(log).value, p.now).0.since
    ensures id in ready.since
    ensures VisitWedged(st, id, log, restart, p).state == RestartEligible(ready, id, restart, p).state
    ensures RestartEligible(ready, id, restart, p).state.since == ready.since
  {
    var (seeded, reseeded) := SeedOnset(st, id, LastHealthyProbe(log), UnhealthySince(log).value, p.now);
    ready := ClearRecoveredCount(seeded, id, reseeded, LastHealthyProbe(log), p.timing.probation);
  }

  /** Without an ordered log the guarantee fails: the log lists a pass before a failure that carries an
      earlier time, so a fresh onset predates a pass the log still shows. */
  lemma OutOfOrderLogBreaksIt()
    ensures var log := [Some(Probe(0, Some(90), Some(90))), Some(Probe(1, Some(10), Some(11)))];
            var s :=
              Sight(Some("c"), true, Some(Status("running", Some(Health("unhealthy", log)))), true, RestartOk(0));
            var p := Pass(100, false, false, Timing(50, 600, 6000, 0));
            var v := Visit(State(map[], map[], map[], {}), s, p);
            Restarted("c", false, 100) in v.notes && !NoPassAfter(log, v.state.since["c"])
  {
    var log := [Some(Probe(0, Some(90), Some(90))), Some(Probe(1, Some(10), Some(11)))];
    assert log[..1][..0] == [] && log[..1] == [log[0]];
    assert UnhealthySince(log[..1]) == None;
    assert UnhealthySince(log) == Some(10);
    assert LastHealthyProbe(log[..1]) == Some(90);
    assert LastHealthyProbe(log) == Some(90) && PassAt(log, 0) && TimeOf(log, 0) == 90;
    var st := State(map[], map[], map[], {});
    var p := Pass(100, false, false, Timing(50, 600, 6000, 0));
    var v := VisitWedged(st, "c", log, RestartOk(0), p);
    assert v.notes[1] == Restarted("c", false, 100);
  }

  /** A chronological log is not enough: the newest pass cannot be dated, so the pass at 200 is not
      looked at, and the restart rests on the onset at 50 that it contradicts. */
  lemma UndatedPassBreaksIt()
    ensures var log :=
              [Some(Probe(0, Some(200), Some(200))), Some(Probe(0, None, None)), Some(Probe(1, Some(300), Some(300)))];
            var s :=
              Sight(Some("c"), true, Some(Status("running", Some(Health("unhealthy", log)))), true, RestartOk(0));
            var p := Pass(300, false, false, Timing(50, 600, 6000, 0));
            var v := Visit(State(map[], map["c" := 50], map[], {}), s, p);
            && Chronological(log, 300) && Restarted("c", false, 300) in v.notes
            && v.state.since["c"] == 50 && !NoPassAfter(log, 50)
  {
    var log := [Some(Probe(0, Some(200), Some(200))), Some(Probe(0, None, None)), Some(Probe(1, Some(300), Some(300)))];
    assert log[..2] == [log[0], log[1]];
    assert UnhealthySince(log[..2]) == None && LastHealthyProbe(log[..2]) == None;
    assert UnhealthySince(log) == Some(300) && LastHealthyProbe(log) == None;
    assert PassAt(log, 0) && TimeOf(log, 0) == 200;
    var st := State(map[], map["c" := 50], map[], {});
    var p := Pass(300, false, false, Timing(50, 600, 6000, 0));
    var v := VisitWedged(st, "c", log, RestartOk(0), p);
    assert v.notes[1] == Restarted("c", false, 300);
  }

  /** Nor is it enough that the trailing failures are later than the newest-listed pass: the pass at 200
      is listed before one at 50, and a fresh onset at 100 rests on neither. */
  lemma EarlierListedPassBreaksIt()
    ensures var log :=
              [Some(Probe(0, Some(200), Some(200))), Some(Probe(0, Some(50), Some(50))),
               Some(Probe(1, Some(100), Some(100)))];
            var s :=
              Sight(Some("c"), true, Some(Status("running", Some(Health("unhealthy", log)))), true, RestartOk(0));
            var p := Pass(300, false, false, Timing(50, 600, 6000, 0));
            var v := Visit(State(map[], map[], map[], {}), s, p);
            && LastHealthyProbe(log) == Some(50) && Restarted("c", false, 300) in v.notes
            && v.state.since["c"] == 100 && !NoPassAfter(log, 100)
  {
    var log := [Some(Probe(0, Some(200), Some(200))), Some(Probe(0, Some(50), Some(50))),
                Some(Probe(1, Some(100), Some(100)))];
    assert log[..2] == [log[0], log[1]];
    assert UnhealthySince(log[..2]) == None && LastHealthyProbe(log[..2]) == Some(50);
    assert UnhealthySince(log) == Some(100) && LastHealthyProbe(log) == Some(50);
    assert PassAt(log, 0) && TimeOf(log, 0) == 200;
    var st := State(map[], map[], map[], {});
    var p := Pass(300, false, false, Timing(50, 600, 6000, 0));
    var v := VisitWedged(st, "c", log, RestartOk(0), p);
    assert v.notes[1] == Restarted("c", false, 300);
  }

  // ----- what counts as a recovery --------------------------------------------------------

  /** What a visit takes as evidence that container `id` recovered since its last restart: an
      observed `healthy`, or a retained pass later than the onset and outside the probation. */
  ghost predicate ShowsRecovery(st: State, s: Sight, p: Pass, id: Id)
  {
    && s.id == Some(id) && s.status.Some? && Running(s.status.value) && s.status.value.health.Some?
    && var health := s.status.value.health.value;
       || health.status == "healthy"
       || (&& health.status == "unhealthy"
           && (id in st.since ==>
                 LastHealthyProbe(health.log).Some? && LastHealthyProbe(health.log).value > st.since[id])
           && RecoveryEstablished(LastHealthyProbe(health.log), At(st.restarts, id), p.timing.probation))
  }

  /** Nothing remembered of `id`'s restarts is dropped or lowered. */
  ghost predicate Keeps(st: State, v: State, id: Id)
  {
    && Attempts(v, id) >= Attempts(st, id)
    && (id in st.count ==> id in v.count)
    && (id in st.restarts ==> id in v.restarts)
  }

  lemma EligibleKeeps(st: State, c: Id, restart: RestartOutcome, p: Pass, id: Id)
    requires c in st.since
    ensures Keeps(st, RestartEligible(st, c, restart, p).state, id)
  {
  }

  /** The wedged path with no recovery on record for `id`: the visit seeds an onset at most, and
      goes on to the restart decision with the count and the last restart as they were. */
  lemma WedgedPath(st: State, c: Id, log: seq<Option<Probe>>, restart: RestartOutcome, p: Pass, id: Id)
      returns (ready: State)
    requires UnhealthySince(log).Some?
    requires c == id && (id in st.since ==> LastHealthyProbe(log).Some? && LastHealthyProbe(log).value > st.since[id])
             ==> !RecoveryEstablished(LastHealthyProbe(log), At(st.restarts, id), p.timing.probation)
    ensures c in ready.since && ready.restarts == st.restarts
    ensures At(ready.count, id) == At(st.count, id) && Attempts(ready, id) == Attempts(st, id)
    ensures VisitWedged(st, c, log, restart, p).state == RestartEligible(ready, c, restart, p).state
    ensures VisitWedged(st, c, log, restart, p).notes == RestartEligible(ready, c, restart, p).notes
  {
    var (seeded, reseeded) := SeedOnset(st, c, LastHealthyProbe(log), UnhealthySince(log).value, p.now);
    ready := ClearRecoveredCount(seeded, c, reseeded, LastHealthyProbe(log), p.timing.probation);
  }

  /** The restart count drops only when a visited container shows a recovery; otherwise it
      stays, or grows by the one restart just made. */
  lemma CountDropsOnlyOnRecovery(st: State, s: Sight, p: Pass, id: Id)
    requires !ShowsRecovery(st, s, p, id)
    ensures Keeps(st, Visit(st, s, p).state, id)
  {
    if s.id.Some? && s.optedIn && s.status.Some? {
      var status := s.status.value;
      var (st', notes, changed, handled) := RetryStart(st, s.id.value, Running(status), s.startOk, p);
      assert Keeps(st, st', id);
      if !handled { ChecksKeep(st', s.id.value, status, s.restart, p, id); }
    }
  }

  lemma ChecksKeep(st: State, c: Id, status: Status, restart: RestartOutcome, p: Pass, id: Id)
    requires c == id && Running(status) && status.health.Some? ==>
               && status.health.value.status != "healthy"
               && (status.health.value.status == "unhealthy"
                   && (id in st.since ==> LastHealthyProbe(status.health.value.log).Some?
                                          && LastHealthyProbe(status.health.value.log).value > st.since[id])
                   ==> !RecoveryEstablished(LastHealthyProbe(status.health.value.log), At(st.restarts, id),
                                            p.timing.probation))
    ensures Keeps(st, VisitChecks(st, c, status, restart, p).state, id)
  {
    if Running(status) && Unhealthy(status) && UnhealthySince(status.health.value.log).Some? {
      var ready := WedgedPath(st, c, status.health.value.log, restart, p, id);
      EligibleKeeps(ready, c, restart, p, id);
    }
  }

  // ----- what reaches the file ------------------------------------------------------------

  /** A visit that reports neither a change nor a restart left the state alone. */
  lemma SilentVisit(st: State, s: Sight, p: Pass)
    requires !Visit(st, s, p).changed && !AnyRestarted(Visit(st, s, p).notes)
    ensures Visit(st, s, p).state == st
  {
    if s.id.Some? && s.optedIn && s.status.Some? {
      var id, status := s.id.value, s.status.value;
      var v := Visit(st, s, p);
      var (st', notes, changed, handled) := RetryStart(st, id, Running(status), s.startOk, p);
      if handled {
        if |notes| == 2 { assert !notes[1].Restarted?; }
      } else {
        var w := VisitChecks(st', id, status, s.restart, p);
        assert st' == st && notes == [] && notes + w.notes == w.notes;
        SilentChecks(st, id, status, s.restart, p);
      }
    }
  }

  lemma SilentChecks(st: State, id: Id, status: Status, restart: RestartOutcome, p: Pass)
    requires var v := VisitChecks(st, id, status, restart, p); !v.changed && !AnyRestarted(v.notes)
    ensures VisitChecks(st, id, status, restart, p).state == st
  {
    if !Running(status) {
      assert st.since - {id} == st.since;
    } else if !Unhealthy(status) {
      assert st.since - {id} == st.since;
      if id !in st.count { assert st.count - {id} == st.count; }
    } else {
      SilentWedged(st, id, status.health.value.log, restart, p);
    }
  }

  lemma SilentWedged(st: State, id: Id, log: seq<Option<Probe>>, restart: RestartOutcome, p: Pass)
    requires var v := VisitWedged(st, id, log, restart, p); !v.changed && !AnyRestarted(v.notes)
    ensures VisitWedged(st, id, log, restart, p).state == st
  {
    if UnhealthySince(log).Some? {
      var v := RestartEligible(st, id, restart, p);
      var last := v.notes[|v.notes| - 1];
      assert !last.Restarted?;
    }
  }

  lemma {:induction false} SilentWalk(st: State, sights: seq<Sight>, p: Pass)
    requires !Walk(st, sights, p).changed && !AnyRestarted(Walk(st, sights, p).notes)
    ensures Walk(st, sights, p).state == st
  {
    if sights != [] {
      var before := Walk(st, sights[..|sights| - 1], p);
      var v := Visit(before.state, sights[|sights| - 1], p);
      var notes := before.notes + v.notes;
      assert forall i :: 0 <= i < |before.notes| ==> notes[i] == before.notes[i];
      assert forall i :: 0 <= i < |v.notes| ==> notes[|before.notes| + i] == v.notes[i];
      SilentWalk(st, sights[..|sights| - 1], p);
      SilentVisit(before.state, sights[|sights| - 1], p);
    }
  }

  /** Nothing a pass learned about a registered container is lost: what the file holds for the
      registered ids after a pass that is not a dry run is what the pass ended with. */
  lemma EveryChangeReachesTheFile(file: State, sights: seq<Sight>, p: Pass)
    requires !p.dryRun
    ensures Restrict(FileAfter(file, sights, p), Known(sights))
            == Restrict(Walk(file, sights, p).state, Known(sights))
    ensures var w := Walk(file, sights, p).state;
            FileAfter(file, sights, p) == Restrict(w, Known(sights)) || FileAfter(file, sights, p) == w == file
  {
    var w := Walk(file, sights, p);
    if w.changed || AnyRestarted(w.notes) {
      RestrictTwice(w.state, Known(sights));
    } else {
      SilentWalk(file, sights, p);
    }
  }

  /** What the file says after a pass that is no dry run: of a registered container everything the pass
      ended with; of any other nothing, or, when the pass learned nothing, what it said before. */
  lemma FileSpeaksForTheRegistered(file: State, sights: seq<Sight>, p: Pass, id: Id)
    requires !p.dryRun
    ensures var f, w := FileAfter(file, sights, p), Walk(file, sights, p).state;
      if exists n :: 0 <= n < |sights| && sights[n].id == Some(id) then SameFor(w, f, id)
      else f == file || (id !in f.restarts && id !in f.since && id !in f.count && id !in f.stopped)
  {
    var w := Walk(file, sights, p);
    if !(w.changed || AnyRestarted(w.notes)) { SilentWalk(file, sights, p); }
  }

  lemma RestrictTwice(st: State, known: set<Id>)
    ensures Restrict(Restrict(st, known), known) == Restrict(st, known)
  {
  }

  /** A dry run leaves the file as it was. */
  lemma {:induction false} DryRunKeepsTheFile(file: State, sights: seq<Sight>, p: Pass, id: Id, forced: bool, at: int)
    requires p.dryRun
    ensures FileAfter(file, sights, p) == file
    ensures Restarted(id, forced, at) !in Walk(file, sights, p).notes
    decreases |sights|
  {
    if sights != [] {
      var n := |sights| - 1;
      DryRunKeepsTheFile(file, sights[..n], p, id, forced, at);
      DryRunVisit(Walk(file, sights[..n], p).state, sights[n], p, id, forced, at);
    }
  }

  lemma DryRunVisit(st: State, s: Sight, p: Pass, id: Id, forced: bool, at: int)
    requires p.dryRun
    ensures Restarted(id, forced, at) !in Visit(st, s, p).notes
  {
  }

  // ----- what a sight leads to ------------------------------------------------------------

  /** Docker says the container runs, and that it is unhealthy. */
  ghost predicate SeenWedged(status: Status)
  {
    status.runState == "running" && status.health.Some? && status.health.value.status == "unhealthy"
  }

  /** A registered, opted-in container that an earlier restart did not leave stopped, or that runs again. */
  ghost predicate Inspected(st: State, s: Sight, id: Id)
  {
    && s.id == Some(id) && s.optedIn && s.status.Some?
    && (id in st.stopped ==> s.status.value.runState == "running")
  }

  /** Nothing is done about a container that is not registered or not opted in, or that docker does not
      answer for. */
  lemma OthersAreLeftAlone(st: State, s: Sight, p: Pass)
    ensures s.id.None? || !s.optedIn ==> Visit(st, s, p) == Visited(st, [], false)
    ensures s.id.Some? && s.optedIn && s.status.None? ==>
              Visit(st, s, p) == Visited(st, [Skipped(s.id.value, InspectFailed)], false)
  {
  }

  /** A container seen not running, or running and not unhealthy, has no onset afterwards; its restart
      count goes exactly when it was seen healthy; its last restart stays. */
  lemma EpisodeEnds(st: State, s: Sight, p: Pass, id: Id)
    requires Inspected(st, s, id) && !SeenWedged(s.status.value)
    ensures var v, status := Visit(st, s, p), s.status.value;
      var healthy := status.runState == "running" && status.health.Some? && status.health.value.status == "healthy";
      && id !in v.state.since && id !in v.state.stopped
      && At(v.state.restarts, id) == At(st.restarts, id)
      && At(v.state.count, id) == (if healthy then None else At(st.count, id))
      && v.notes == (if status.runState == "running" then [] else [Skipped(id, NotRunning)])
      && (v.changed <==> id in st.stopped || id in st.since || (healthy && id in st.count))
  {
  }

  /** A container that an earlier restart left stopped: reported and left to the operator, or started
      when the pass may resume it, and counted as a restart. */
  lemma LeftoverIsRetried(st: State, s: Sight, p: Pass, id: Id)
    requires s.id == Some(id) && s.optedIn && s.status.Some? && id in st.stopped
    requires s.status.value.runState != "running"
    ensures var v, n := Visit(st, s, p), if id in st.count then st.count[id] else 0;
      if p.resumeStopped && !p.dryRun && s.startOk then
        && v.notes == [Candidate(id), Restarted(id, true, p.now)] && id !in v.state.stopped
        && At(v.state.restarts, id) == Some(p.now) && At(v.state.count, id) == Some(n + 1)
        && At(v.state.since, id) == At(st.since, id) && v.changed
      else
        && v.state == st && !v.changed
        && v.notes == [Candidate(id)] + (if !p.resumeStopped then [Escalated(id, n)]
                                         else if p.dryRun then [] else [Failed(id)])
  {
  }

  /** The onset a wedged container is timed from, and whether the visit took it afresh. */
  ghost predicate TimedFrom(st: State, id: Id, log: seq<Option<Probe>>, now: int, onset: int, anew: bool)
    requires UnhealthySince(log).Some?
  {
    var healthy, derived := LastHealthyProbe(log), UnhealthySince(log).value;
    && (anew <==> id !in st.since || (healthy.Some? && healthy.value > st.since[id]))
    && (!anew ==> id in st.since && onset == st.since[id])
    && (anew ==> onset <= now && onset <= derived && (onset == now || onset == derived))
  }

  /** How often it counts as restarted: not at all once a fresh onset shows a pass later than the last
      restart by more than the probation. */
  ghost function CountedAttempts(st: State, id: Id, log: seq<Option<Probe>>, anew: bool, probation: nat): nat
  {
    if id !in st.count then 0
    else if anew && LastHealthyProbe(log).Some?
         && (id in st.restarts ==> LastHealthyProbe(log).value > st.restarts[id] + probation) then 0
    else st.count[id]
  }

  /** The cooldown, doubled for every restart after the first and cut off at the ceiling. */
  ghost function Wait(n: nat, timing: Timing): int
  {
    if n < 2 then timing.cooldown else Min(Doubled(timing.cooldown, n - 1), timing.ceiling)
  }

  ghost function Doubled(x: nat, k: nat): nat
    decreases k
  {
    if k == 0 then x else Doubled(x + x, k - 1)
  }

  lemma {:induction false} DoubledIsPow2(x: nat, k: nat)
    ensures Doubled(x, k) == x * Pow2(k)
    decreases k
  {
    if k > 0 {
      DoubledIsPow2(x + x, k - 1);
      assert (x + x) * Pow2(k - 1) == x * (2 * Pow2(k - 1));
    }
  }

  lemma WaitIsBackoff(n: nat, timing: Timing)
    ensures Wait(n, timing) == RestartBackoff(n, timing.cooldown, timing.ceiling)
  {
    if n >= 2 { DoubledIsPow2(timing.cooldown, n - 1); }
  }

  /** A wedged container that no failing probe dates is left as it is. */
  lemma UndatedWedgeWaits(st: State, s: Sight, p: Pass, id: Id)
    requires Inspected(st, s, id) && SeenWedged(s.status.value)
    requires UnhealthySince(s.status.value.health.value.log).None?
    ensures Visit(st, s, p).state == st.(stopped := st.stopped - {id})
    ensures Visit(st, s, p).notes == [Skipped(id, NoFailingProbe)]
    ensures Visit(st, s, p).changed <==> id in st.stopped
  {
    if id !in st.stopped { assert st.stopped - {id} == st.stopped; }
  }

  /** What follows from an onset and a count: what is reported, and what is remembered of `id`. */
  ghost predicate Handled(st: State, v: Visited, id: Id, restart: RestartOutcome, p: Pass, onset: int, n: nat)
  {
    var warn := if n >= 2 then [Escalated(id, n)] else [];
    var graced := p.now - onset >= p.timing.grace;
    var due := graced && (id in st.restarts ==> p.now - st.restarts[id] >= Wait(n, p.timing));
    var restarts := due && !p.dryRun && restart.RestartOk?;
    && At(v.state.since, id) == Some(onset)
    && v.notes ==
       (if !graced then [Skipped(id, InsideGrace)]
        else if !due then warn + [Skipped(id, InsideCooldown)]
        else if p.dryRun then warn + [Candidate(id)]
        else if restart.RestartOk? then warn + [Candidate(id), Restarted(id, false, p.now + Max(0, restart.elapsed))]
        else warn + [Candidate(id), Failed(id)])
    && At(v.state.restarts, id) ==
       (if restarts then Some(p.now + Max(0, restart.elapsed)) else At(st.restarts, id))
    && Attempts(v.state, id) == (if restarts then n + 1 else n)
    && (id in v.state.stopped <==> due && !p.dryRun && restart == RestartFailed(true))
  }

  lemma EligibleIsHandled(st: State, id: Id, restart: RestartOutcome, p: Pass)
    requires id in st.since && id !in st.stopped
    ensures Handled(st, RestartEligible(st, id, restart, p), id, restart, p, st.since[id], Attempts(st, id))
    ensures var v := RestartEligible(st, id, restart, p); v.changed <==> id in v.state.stopped
  {
    WaitIsBackoff(Attempts(st, id), p.timing);
  }

  /** What is done about a wedged container, exactly: nothing inside the grace window or the wait since
      its last restart; else a dry run names it and any other pass restarts it. A restart is counted and
      dated; a failed one leaves the onset and the count, and is remembered when it left the container
      stopped. From the second restart on, every pass that finds it past its grace escalates it. */
  lemma WedgeIsHandled(st: State, s: Sight, p: Pass, id: Id) returns (onset: int, anew: bool)
    requires Inspected(st, s, id) && SeenWedged(s.status.value)
    requires UnhealthySince(s.status.value.health.value.log).Some?
    ensures var log := s.status.value.health.value.log;
      && TimedFrom(st, id, log, p.now, onset, anew)
      && Handled(st, Visit(st, s, p), id, s.restart, p, onset,
                 CountedAttempts(st, id, log, anew, p.timing.probation))
      && (Visit(st, s, p).changed <==> id in st.stopped || anew || id in Visit(st, s, p).state.stopped)
  {
    var log := s.status.value.health.value.log;
    var retried := RunsAgain(st, id);
    var ready;
    onset, anew, ready := WedgedIsReady(retried, id, log, s.restart, p);
    EligibleIsHandled(ready, id, s.restart, p);
    VisitOfWedge(st, s, p, id);
  }

  function RunsAgain(st: State, id: Id): State { st.(stopped := st.stopped - {id}) }

  lemma VisitOfWedge(st: State, s: Sight, p: Pass, id: Id)
    requires Inspected(st, s, id) && SeenWedged(s.status.value)
    ensures var log := s.status.value.health.value.log;
            var v, w := Visit(st, s, p), VisitWedged(RunsAgain(st, id), id, log, s.restart, p);
            v.state == w.state && v.notes == w.notes && (v.changed <==> id in st.stopped || w.changed)
  {
    if id !in st.stopped { assert st.stopped - {id} == st.stopped; }
    assert RetryStart(st, id, true, s.startOk, p).0 == RunsAgain(st, id);
    var w := VisitWedged(RunsAgain(st, id), id, s.status.value.health.value.log, s.restart, p);
    assert [] + w.notes == w.notes;
  }

  lemma WedgedIsReady(st: State, id: Id, log: seq<Option<Probe>>, restart: RestartOutcome, p: Pass)
      returns (onset: int, anew: bool, ready: State)
    requires UnhealthySince(log).Some?
    ensures TimedFrom(st, id, log, p.now, onset, anew)
    ensures At(ready.since, id) == Some(onset) && ready.stopped == st.stopped && ready.restarts == st.restarts
    ensures Attempts(ready, id) == CountedAttempts(st, id, log, anew, p.timing.probation)
    ensures var v, w := VisitWedged(st, id, log, restart, p), RestartEligible(ready, id, restart, p);
            v.state == w.state && v.notes == w.notes && (v.changed <==> anew || w.changed)
  {
    var (seeded, reseeded) := SeedOnset(st, id, LastHealthyProbe(log), UnhealthySince(log).value, p.now);
    ready := ClearRecoveredCount(seeded, id, reseeded, LastHealthyProbe(log), p.timing.probation);
    onset, anew := ready.since[id], reseeded;
  }

  // ----- whole runs -----------------------------------------------------------------------

  /** The times container `id` was restarted, in order. */
  function Stamps(notes: seq<Note>, id: Id): (r: seq<int>)
    ensures r != [] ==> AnyRestarted(notes)
  {
    if notes == [] then []
    else
      (if notes[0].Restarted? && notes[0].id == id then [notes[0].at] else []) + Stamps(notes[1..], id)
  }

  datatype Round = Round(pass: Pass, sights: seq<Sight>)

  function FileAfterAll(file: State, rounds: seq<Round>): State
  {
    if rounds == [] then file
    else
      var n := |rounds| - 1;
      FileAfter(FileAfterAll(file, rounds[..n]), rounds[n].sights, rounds[n].pass)
  }

  /** Everything the rounds reported. */
  function NotesOfAll(file: State, rounds: seq<Round>): seq<Note>
  {
    if rounds == [] then []
    else
      var n := |rounds| - 1;
      NotesOfAll(file, rounds[..n]) + Walk(FileAfterAll(file, rounds[..n]), rounds[n].sights, rounds[n].pass).notes
  }

  /** In this pass `id` stays registered, nobody resumes it by hand, and nothing shows it recovered. */
  ghost predicate StaysWedged(file: State, sights: seq<Sight>, p: Pass, id: Id)
  {
    && !p.resumeStopped && id in Known(sights)
    && forall k :: 0 <= k < |sights| ==> !ShowsRecovery(Walk(file, sights[..k], p).state, sights[k], p, id)
  }

  ghost predicate NeverRecovers(file: State, rounds: seq<Round>, timing: Timing, id: Id)
  {
    forall n :: 0 <= n < |rounds| ==>
      && rounds[n].pass.timing == timing
      && StaysWedged(FileAfterAll(file, rounds[..n]), rounds[n].sights, rounds[n].pass, id)
  }

  /** The waits `n` restarts of one episode must contain: the base cooldown, doubling up to the
      ceiling. */
  function Waits(n: nat, timing: Timing): int
  {
    if n <= 1 then 0
    else Waits(n - 1, timing) + Min(timing.ceiling, timing.cooldown * Pow2(n - 2))
  }

  /** What the state remembers of the restarts made so far. */
  ghost predicate Remembers(st: State, stamps: seq<int>, timing: Timing, id: Id)
  {
    stamps != [] ==>
      && id in st.restarts && st.restarts[id] == stamps[|stamps| - 1]
      && id in st.count && st.count[id] >= |stamps|
      && stamps[|stamps| - 1] - stamps[0] >= Waits(|stamps|, timing)
  }

  lemma {:induction false} Pow2Grows(a: nat, b: nat)
    requires a <= b
    ensures 1 <= Pow2(a) <= Pow2(b)
  {
    if a < b { Pow2Grows(a, b - 1); } else if a > 0 { Pow2Grows(a - 1, a - 1); }
  }

  lemma BackoffCoversWait(attempts: nat, n: nat, timing: Timing)
    requires 1 <= n <= attempts
    ensures RestartBackoff(attempts, timing.cooldown, timing.ceiling)
            >= Min(timing.ceiling, timing.cooldown * Pow2(n - 1))
  {
    Pow2Grows(n - 1, attempts - 1);
    ScaleMonotone(timing.cooldown, Pow2(n - 1), Pow2(attempts - 1));
    assert Pow2(0) == 1;
  }

  lemma {:induction false} StampsSplit(a: seq<Note>, b: seq<Note>, id: Id)
    ensures Stamps(a + b, id) == Stamps(a, id) + Stamps(b, id)
  {
    if a == [] {
      assert a + b == b;
    } else {
      assert (a + b)[1..] == a[1..] + b;
      StampsSplit(a[1..], b, id);
    }
  }

  /** Restarts of `id` in one visit: none, and then what is remembered of it only grows; or one,
      which waited out the backoff and is remembered. */
  ghost predicate Effect(st: State, v: State, stamps: seq<int>, timing: Timing, id: Id)
  {
    if stamps == [] then
      && At(v.restarts, id) == At(st.restarts, id)
      && Attempts(v, id) >= Attempts(st, id) && (id in st.count ==> id in v.count)
    else
      && |stamps| == 1 && id in v.restarts && v.restarts[id] == stamps[0]
      && id in v.count && v.count[id] == Attempts(st, id) + 1
      && (id in st.restarts ==>
            stamps[0] - st.restarts[id] >= RestartBackoff(Attempts(st, id), timing.cooldown, timing.ceiling))
  }

  lemma {:induction false} NoStamps(notes: seq<Note>, id: Id)
    requires forall i :: 0 <= i < |notes| ==> !(notes[i].Restarted? && notes[i].id == id)
    ensures Stamps(notes, id) == []
  {
    if notes != [] { NoStamps(notes[1..], id); }
  }

  /** The notes of one eligible container end in its restart, or hold none. */
  lemma EligibleStamps(notes: seq<Note>, id: Id)
    requires notes != [] && forall k :: 0 <= k < |notes| - 1 ==> !notes[k].Restarted?
    ensures Stamps(notes, id) == if notes[|notes| - 1].Restarted? then Stamps([notes[|notes| - 1]], id) else []
  {
    var n := |notes| - 1;
    assert notes == notes[..n] + [notes[n]];
    if notes[n].Restarted? {
      NoStamps(notes[..n], id);
      StampsSplit(notes[..n], [notes[n]], id);
    } else {
      NoStamps(notes, id);
    }
  }

  lemma OneStamp(id: Id, forced: bool, at: int)
    ensures Stamps([Restarted(id, forced, at)], id) == [at]
  {
    assert [Restarted(id, forced, at)][1..] == [];
  }

  lemma EligibleEffect(st: State, id: Id, restart: RestartOutcome, p: Pass)
    requires id in st.since
    ensures var v := RestartEligible(st, id, restart, p);
            Effect(st, v.state, Stamps(v.notes, id), p.timing, id)
  {
    var notes := RestartEligible(st, id, restart, p).notes;
    EligibleNotes(st, id, restart, p);
    EligibleStamps(notes, id);
    if notes[|notes| - 1].Restarted? {
      var at := p.now + Max(0, restart.elapsed);
      EligibleRestart(st, id, restart, p, at);
      OneStamp(id, false, at);
    } else {
      EligibleNoRestart(st, id, restart, p);
    }
  }

  lemma EligibleNotes(st: State, id: Id, restart: RestartOutcome, p: Pass)
    requires id in st.since
    ensures var notes := RestartEligible(st, id, restart, p).notes;
      && notes != [] && (forall k :: 0 <= k < |notes| - 1 ==> !notes[k].Restarted?)
      && (notes[|notes| - 1].Restarted? ==> restart.RestartOk?)
  {
  }

  lemma EligibleNoRestart(st: State, id: Id, restart: RestartOutcome, p: Pass)
    requires id in st.since
    requires var notes := RestartEligible(st, id, restart, p).notes; notes != [] && !notes[|notes| - 1].Restarted?
    ensures Effect(st, RestartEligible(st, id, restart, p).state, [], p.timing, id)
  {
  }

  /** A restart of an eligible container waited out the backoff, and is remembered. */
  lemma EligibleRestart(st: State, id: Id, restart: RestartOutcome, p: Pass, at: int)
    requires id in st.since && restart.RestartOk? && at == p.now + Max(0, restart.elapsed)
    requires var notes := RestartEligible(st, id, restart, p).notes; notes[|notes| - 1].Restarted?
    ensures var v := RestartEligible(st, id, restart, p);
      && v.notes[|v.notes| - 1] == Restarted(id, false, at)
      && Effect(st, v.state, [at], p.timing, id)
  {
  }

  lemma ChecksEffect(st: State, c: Id, status: Status, restart: RestartOutcome, p: Pass, id: Id)
    requires c == id && Running(status) && status.health.Some? ==>
               && status.health.value.status != "healthy"
               && (status.health.value.status == "unhealthy"
                   && (id in st.since ==> LastHealthyProbe(status.health.value.log).Some?
                                          && LastHealthyProbe(status.health.value.log).value > st.since[id])
                   ==> !RecoveryEstablished(LastHealthyProbe(status.health.value.log), At(st.restarts, id),
                                            p.timing.probation))
    ensures var v := VisitChecks(st, c, status, restart, p);
            Effect(st, v.state, Stamps(v.notes, id), p.timing, id)
  {
    var v := VisitChecks(st, c, status, restart, p);
    if Running(status) && Unhealthy(status) && UnhealthySince(status.health.value.log).Some? {
      var ready := WedgedPath(st, c, status.health.value.log, restart, p, id);
      if c == id {
        EligibleEffect(ready, id, restart, p);
      } else {
        OtherEligible(ready, c, restart, p, id);
      }
    } else {
      NoStamps(v.notes, id);
    }
  }

  lemma OtherEligible(st: State, c: Id, restart: RestartOutcome, p: Pass, id: Id)
    requires c in st.since && c != id
    ensures var v := RestartEligible(st, c, restart, p);
            Effect(st, v.state, Stamps(v.notes, id), p.timing, id)
  {
    NoStamps(RestartEligible(st, c, restart, p).notes, id);
  }

  lemma VisitEffect(st: State, s: Sight, p: Pass, id: Id)
    requires !p.resumeStopped && !ShowsRecovery(st, s, p, id)
    ensures var v := Visit(st, s, p);
            Effect(st, v.state, Stamps(v.notes, id), p.timing, id)
  {
    var v := Visit(st, s, p);
    if s.id.Some? && s.optedIn && s.status.Some? {
      var (st', notes, changed, handled) := RetryStart(st, s.id.value, Running(s.status.value), s.startOk, p);
      assert st'.restarts == st.restarts && st'.count == st.count && st'.since == st.since;
      if handled {
        NoStamps(notes, id);
      } else {
        var w := VisitChecks(st', s.id.value, s.status.value, s.restart, p);
        assert v.notes == [] + w.notes == w.notes;
        ChecksEffect(st', s.id.value, s.status.value, s.restart, p, id);
      }
    } else {
      NoStamps(v.notes, id);
    }
  }

  lemma EffectRemembers(st: State, v: State, before: seq<int>, stamps: seq<int>, timing: Timing, id: Id)
    requires Remembers(st, before, timing, id) && Effect(st, v, stamps, timing, id)
    ensures Remembers(v, before + stamps, timing, id)
  {
    if stamps == [] {
      assert before + stamps == before;
    } else if before != [] {
      BackoffCoversWait(st.count[id], |before|, timing);
    }
  }

  lemma {:induction false} WalkRemembers(st: State, sights: seq<Sight>, n: nat, p: Pass, before: seq<int>, id: Id)
    requires n <= |sights| && Remembers(st, before, p.timing, id)
    requires StaysWedged(st, sights, p, id)
    ensures var w := Walk(st, sights[..n], p);
            Remembers(w.state, before + Stamps(w.notes, id), p.timing, id)
  {
    if n == 0 {
      assert before + [] == before;
    } else {
      var w := Walk(st, sights[..n - 1], p);
      var v := Visit(w.state, sights[n - 1], p);
      assert sights[..n][..n - 1] == sights[..n - 1];
      WalkRemembers(st, sights, n - 1, p, before, id);
      VisitEffect(w.state, sights[n - 1], p, id);
      EffectRemembers(w.state, v.state, before + Stamps(w.notes, id), Stamps(v.notes, id), p.timing, id);
      StampsSplit(w.notes, v.notes, id);
      ConcatAssociates(before, Stamps(w.notes, id), Stamps(v.notes, id));
    }
  }

  lemma FileRemembers(file: State, sights: seq<Sight>, p: Pass, before: seq<int>, id: Id)
    requires Remembers(file, before, p.timing, id) && StaysWedged(file, sights, p, id)
    ensures Remembers(FileAfter(file, sights, p), before + Stamps(Walk(file, sights, p).notes, id), p.timing, id)
  {
    WalkRemembers(file, sights, |sights|, p, before, id);
    assert sights[..|sights|] == sights;
    if p.dryRun {
      DryRunStamps(file, sights, p, id);
      assert before + [] == before;
    } else {
      FileKeepsRegistered(file, sights, p, id);
    }
  }

  /** The file speaks for a registered container exactly as the pass ended. */
  lemma FileKeepsRegistered(file: State, sights: seq<Sight>, p: Pass, id: Id)
    requires !p.dryRun && id in Known(sights)
    ensures var f, w := FileAfter(file, sights, p), Walk(file, sights, p).state;
            At(f.restarts, id) == At(w.restarts, id) && At(f.count, id) == At(w.count, id)
  {
    var w := Walk(file, sights, p);
    if !(w.changed || AnyRestarted(w.notes)) { SilentWalk(file, sights, p); }
  }

  lemma DryRunStamps(file: State, sights: seq<Sight>, p: Pass, id: Id)
    requires p.dryRun
    ensures Stamps(Walk(file, sights, p).notes, id) == []
  {
    var notes := Walk(file, sights, p).notes;
    forall i | 0 <= i < |notes| ensures !notes[i].Restarted? {
      if notes[i].Restarted? { DryRunKeepsTheFile(file, sights, p, notes[i].id, notes[i].forced, notes[i].at); }
    }
    NoStamps(notes, id);
  }

  lemma {:induction false} RunRemembers(file: State, rounds: seq<Round>, timing: Timing, id: Id)
    requires NeverRecovers(file, rounds, timing, id)
    ensures Remembers(FileAfterAll(file, rounds), Stamps(NotesOfAll(file, rounds), id), timing, id)
  {
    if rounds != [] {
      var n := |rounds| - 1;
      var prior, last := rounds[..n], rounds[n];
      NeverRecoversEarlier(file, rounds, timing, id);
      RunRemembers(file, prior, timing, id);
      var before := Stamps(NotesOfAll(file, prior), id);
      FileRemembers(FileAfterAll(file, prior), last.sights, last.pass, before, id);
      StampsSplit(NotesOfAll(file, prior), Walk(FileAfterAll(file, prior), last.sights, last.pass).notes, id);
    }
  }

  lemma NeverRecoversEarlier(file: State, rounds: seq<Round>, timing: Timing, id: Id)
    requires rounds != [] && NeverRecovers(file, rounds, timing, id)
    ensures var n := |rounds| - 1;
            && NeverRecovers(file, rounds[..n], timing, id) && rounds[n].pass.timing == timing
            && StaysWedged(FileAfterAll(file, rounds[..n]), rounds[n].sights, rounds[n].pass, id)
  {
    var prior := rounds[..|rounds| - 1];
    forall k | 0 <= k < |prior|
      ensures prior[k].pass.timing == timing
      ensures StaysWedged(FileAfterAll(file, prior[..k]), prior[k].sights, prior[k].pass, id)
    {
      assert prior[..k] == rounds[..k] && prior[k] == rounds[k];
    }
  }

  /** Over any run of passes in which a container never shows a recovery, `n` restarts of it are
      spread over at least the base cooldown, doubled for each further restart up to the
      ceiling: the restarts thin out instead of repeating every cooldown. */
  lemma BackoffOverRuns(file: State, rounds: seq<Round>, timing: Timing, id: Id)
    requires NeverRecovers(file, rounds, timing, id)
    ensures var stamps := Stamps(NotesOfAll(file, rounds), id);
            stamps != [] ==> stamps[|stamps| - 1] - stamps[0] >= Waits(|stamps|, timing)
  {
    RunRemembers(file, rounds, timing, id);
  }

  lemma {:induction false} WaitsSettle(n: nat, k: nat, timing: Timing)
    requires timing.ceiling <= timing.cooldown * Pow2(k) && k + 1 <= n
    ensures Waits(n, timing) >= (n - 1 - k) * timing.ceiling
  {
    if n > k + 1 {
      WaitsSettle(n - 1, k, timing);
      Pow2Grows(k, n - 2);
      ScaleMonotone(timing.cooldown, Pow2(k), Pow2(n - 2));
      assert (n - 1 - k) * timing.ceiling == (n - 2 - k) * timing.ceiling + timing.ceiling;
    } else {
      WaitsNonNegative(n, timing);
    }
  }

  lemma {:induction false} WaitsNonNegative(n: nat, timing: Timing)
    ensures Waits(n, timing) >= 0
  {
    if n > 1 { WaitsNonNegative(n - 1, timing); }
  }

  /** So in any such run the number of restarts is at most a logarithm plus the time spanned over
      the ceiling: once `k` doublings reach the ceiling, each restart beyond `k + 1` costs a full
      ceiling of waiting. */
  lemma RestartsAreRationed(file: State, rounds: seq<Round>, timing: Timing, id: Id, k: nat)
    requires NeverRecovers(file, rounds, timing, id) && DoublingsReach(k, timing)
    ensures Rationed(Stamps(NotesOfAll(file, rounds), id), timing, k)
  {
    BackoffOverRuns(file, rounds, timing, id);
    WaitsToRation(Stamps(NotesOfAll(file, rounds), id), timing, k);
  }

  /** `k` doublings of the cooldown reach the ceiling. */
  predicate DoublingsReach(k: nat, timing: Timing) { timing.ceiling <= timing.cooldown * Pow2(k) }

  predicate Rationed(stamps: seq<int>, timing: Timing, k: nat)
  {
    stamps != [] ==> (|stamps| - 1 - k) * timing.ceiling <= stamps[|stamps| - 1] - stamps[0]
  }

  lemma WaitsToRation(stamps: seq<int>, timing: Timing, k: nat)
    requires DoublingsReach(k, timing)
    requires stamps != [] ==> Waits(|stamps|, timing) <= stamps[|stamps| - 1] - stamps[0]
    ensures Rationed(stamps, timing, k)
  {
    if stamps != [] { WaitsRation(|stamps|, k, timing); }
  }

  lemma WaitsRation(n: nat, k: nat, timing: Timing)
    requires 1 <= n && timing.ceiling <= timing.cooldown * Pow2(k)
    ensures (n - 1 - k) * timing.ceiling <= Waits(n, timing)
  {
    if k + 1 <= n {
      WaitsSettle(n, k, timing);
    } else {
      WaitsNonNegative(n, timing);
      ScaleMonotone(timing.ceiling, n - 1 - k, 0);
    }
  }

  // ----- the exit code --------------------------------------------------------------------

  function ExitCode(notes: seq<Note>): int
  {
    if exists i :: 0 <= i < |notes| && notes[i].Failed? then 1
    else if exists i :: 0 <= i < |notes| && notes[i].Escalated? then 2
    else 0
  }

  /** Failures first, then escalations, else success. */
  lemma ExitMeans(notes: seq<Note>)
    ensures ExitCode(notes) == if exists note :: note in notes && note.Failed? then 1
                               else if exists note :: note in notes && note.Escalated? then 2 else 0
  {
    assert forall i :: 0 <= i < |notes| ==> notes[i] in notes;
  }

  /** Two states remember the same of `id`. */
  ghost predicate SameFor(st: State, v: State, id: Id)
  {
    && At(v.restarts, id) == At(st.restarts, id) && At(v.since, id) == At(st.since, id)
    && At(v.count, id) == At(st.count, id) && (id in v.stopped <==> id in st.stopped)
  }

  lemma OtherWedged(st: State, c: Id, log: seq<Option<Probe>>, restart: RestartOutcome, p: Pass, id: Id)
    requires c != id
    ensures SameFor(st, VisitWedged(st, c, log, restart, p).state, id)
  {
    if UnhealthySince(log).Some? {
      var (seeded, reseeded) := SeedOnset(st, c, LastHealthyProbe(log), UnhealthySince(log).value, p.now);
      var ready := ClearRecoveredCount(seeded, c, reseeded, LastHealthyProbe(log), p.timing.probation);
      assert SameFor(st, seeded, id) && SameFor(seeded, ready, id);
      assert SameFor(ready, RestartEligible(ready, c, restart, p).state, id);
    }
  }

  lemma OtherChecks(st: State, c: Id, status: Status, restart: RestartOutcome, p: Pass, id: Id)
    requires c != id
    ensures SameFor(st, VisitChecks(st, c, status, restart, p).state, id)
  {
    if Running(status) && Unhealthy(status) { OtherWedged(st, c, status.health.value.log, restart, p, id); }
  }

  lemma OtherRetry(st: State, c: Id, running: bool, startOk: bool, p: Pass, id: Id)
    requires c != id
    ensures SameFor(st, RetryStart(st, c, running, startOk, p).0, id)
  {
  }

  /** Another row's turn leaves what is remembered of `id` alone. */
  lemma OtherVisit(st: State, s: Sight, p: Pass, id: Id)
    requires s.id != Some(id)
    ensures SameFor(st, Visit(st, s, p).state, id)
  {
    if s.id.Some? && s.optedIn && s.status.Some? {
      var retried := RetryStart(st, s.id.value, Running(s.status.value), s.startOk, p).0;
      OtherRetry(st, s.id.value, Running(s.status.value), s.startOk, p, id);
      OtherChecks(retried, s.id.value, s.status.value, s.restart, p, id);
    }
  }

  lemma {:induction false} OtherWalk(st: State, sights: seq<Sight>, p: Pass, id: Id)
    requires forall k :: 0 <= k < |sights| ==> sights[k].id != Some(id)
    ensures SameFor(st, Walk(st, sights, p).state, id)
  {
    if sights != [] {
      var n := |sights| - 1;
      OtherWalk(st, sights[..n], p, id);
      OtherVisit(Walk(st, sights[..n], p).state, sights[n], p, id);
    }
  }

  lemma WalkSnoc(st: State, sights: seq<Sight>, p: Pass)
    requires sights != []
    ensures var n := |sights| - 1;
            var before := Walk(st, sights[..n], p);
            Walk(st, sights, p).notes == before.notes + Visit(before.state, sights[n], p).notes
  {
  }

  lemma InConcat(a: seq<Note>, b: seq<Note>, note: Note)
    ensures note in a + b <==> note in a || note in b
  {
  }

  lemma NotesStay(st: State, sights: seq<Sight>, p: Pass, note: Note)
    requires sights != [] && note in Walk(st, sights[..|sights| - 1], p).notes
    ensures note in Walk(st, sights, p).notes
  {
    var before := Walk(st, sights[..|sights| - 1], p);
    WalkSnoc(st, sights, p);
    InConcat(before.notes, Visit(before.state, sights[|sights| - 1], p).notes, note);
  }

  lemma LastNotes(st: State, sights: seq<Sight>, p: Pass, note: Note)
    requires sights != []
    requires note in Visit(Walk(st, sights[..|sights| - 1], p).state, sights[|sights| - 1], p).notes
    ensures note in Walk(st, sights, p).notes
  {
    var before := Walk(st, sights[..|sights| - 1], p);
    WalkSnoc(st, sights, p);
    InConcat(before.notes, Visit(before.state, sights[|sights| - 1], p).notes, note);
  }

  lemma {:induction false} WalkNotes(st: State, sights: seq<Sight>, p: Pass, n: nat, note: Note)
    requires n < |sights| && note in Visit(Walk(st, sights[..n], p).state, sights[n], p).notes
    ensures note in Walk(st, sights, p).notes
  {
    var last := |sights| - 1;
    if n == last {
      LastNotes(st, sights, p, note);
    } else {
      var earlier := sights[..last];
      assert earlier[..n] == sights[..n];
      WalkNotes(st, earlier, p, n, note);
      NotesStay(st, sights, p, note);
    }
  }

  /** A container restarted at least twice, wedged past the grace window and showing no recovery. */
  ghost predicate OverdueWedge(st: State, s: Sight, p: Pass, id: Id)
  {
    && s.id == Some(id) && s.optedIn && s.status.Some? && Running(s.status.value) && Unhealthy(s.status.value)
    && UnhealthySince(s.status.value.health.value.log).Some?
    && Attempts(st, id) >= 2
    && KeepsOnset(st, id, s.status.value.health.value.log) && p.now - st.since[id] >= p.timing.grace
  }

  lemma WedgeIsEscalated(st: State, s: Sight, p: Pass, id: Id)
    requires OverdueWedge(st, s, p, id)
    ensures Escalated(id, Attempts(st, id)) in Visit(st, s, p).notes
  {
    var retried := RetryStart(st, id, true, s.startOk, p).0;
    var v := RestartEligible(retried, id, s.restart, p);
    assert Visit(st, s, p).notes == [] + v.notes;
    assert v.notes[0] == Escalated(id, Attempts(st, id));
  }

  /** A container restarted twice without recovering raises the pass's exit code every time the pass
      finds it wedged past the grace window, restarted or not, whatever else the registry holds. */
  lemma PersistentWedgeIsReported(file: State, sights: seq<Sight>, p: Pass, id: Id, n: nat)
    requires n < |sights| && OverdueWedge(file, sights[n], p, id)
    requires forall k :: 0 <= k < n ==> sights[k].id != Some(id)
    ensures ExitCode(Walk(file, sights, p).notes) != 0
  {
    var before := Walk(file, sights[..n], p).state;
    OtherWalk(file, sights[..n], p, id);
    assert At(file.since, id).Some? && At(before.since, id).Some? && before.since[id] == file.since[id];
    assert OverdueWedge(before, sights[n], p, id);
    WedgeIsEscalated(before, sights[n], p, id);
    WalkNotes(file, sights, p, n, Escalated(id, Attempts(before, id)));
  }

  // ----- a new episode has its own clock --------------------------------------------------

  /** A pass whose sights show `id` wedged, and the onset it gives a new episode. */
  ghost predicate SeededBy(s: Sight, p: Pass, id: Id, onset: int)
  {
    && s.id == Some(id) && s.status.Some? && SeenWedged(s.status.value)
    && UnhealthySince(s.status.value.health.value.log).Some?
    && var derived := UnhealthySince(s.status.value.health.value.log).value;
    onset <= p.now && onset <= derived && (onset == p.now || onset == derived)
  }

  ghost predicate SeededIn(sights: seq<Sight>, p: Pass, id: Id, onset: int)
  {
    exists n :: 0 <= n < |sights| && SeededBy(sights[n], p, id, onset)
  }

  lemma OnsetFrom(st: State, s: Sight, p: Pass, id: Id)
    requires id in Visit(st, s, p).state.since
    ensures At(st.since, id) == Some(Visit(st, s, p).state.since[id])
            || SeededBy(s, p, id, Visit(st, s, p).state.since[id])
  {
    if s.id != Some(id) {
      OtherVisit(st, s, p, id);
    } else if s.optedIn && s.status.Some? && Inspected(st, s, id) {
      if SeenWedged(s.status.value) {
        OnsetOfWedge(st, s, p, id);
      } else {
        EpisodeEnds(st, s, p, id);
      }
    } else if s.optedIn && s.status.Some? {
      LeftoverIsRetried(st, s, p, id);
    } else {
      OthersAreLeftAlone(st, s, p);
    }
  }

  lemma OnsetOfWedge(st: State, s: Sight, p: Pass, id: Id)
    requires Inspected(st, s, id) && SeenWedged(s.status.value) && id in Visit(st, s, p).state.since
    ensures At(st.since, id) == Some(Visit(st, s, p).state.since[id])
            || SeededBy(s, p, id, Visit(st, s, p).state.since[id])
  {
    if UnhealthySince(s.status.value.health.value.log).None? {
      UndatedWedgeWaits(st, s, p, id);
    } else {
      var onset, anew := WedgeIsHandled(st, s, p, id);
    }
  }

  /** In a walk the onset is the one it began with, or one a sight gave. */
  lemma {:induction false} OnsetInWalk(st: State, sights: seq<Sight>, p: Pass, id: Id)
    requires id in Walk(st, sights, p).state.since
    ensures At(st.since, id) == Some(Walk(st, sights, p).state.since[id])
            || SeededIn(sights, p, id, Walk(st, sights, p).state.since[id])
  {
    if sights != [] {
      var n := |sights| - 1;
      var before := Walk(st, sights[..n], p).state;
      OnsetFrom(before, sights[n], p, id);
      if At(before.since, id) == Some(Walk(st, sights, p).state.since[id]) {
        OnsetInWalk(st, sights[..n], p, id);
        if SeededIn(sights[..n], p, id, before.since[id]) {
          var k :| 0 <= k < n && SeededBy(sights[..n][k], p, id, before.since[id]);
          assert SeededBy(sights[k], p, id, before.since[id]);
        }
      }
    }
  }

  /** Some sight of the pass shows `id` not running, or running and not unhealthy. */
  ghost predicate SeenOtherwise(file: State, sights: seq<Sight>, p: Pass, id: Id, n: nat)
  {
    && n < |sights| && Inspected(Walk(file, sights[..n], p).state, sights[n], id)
    && !SeenWedged(sights[n].status.value)
  }

  lemma {:induction false} WalkForgets(st: State, sights: seq<Sight>, p: Pass, id: Id, n: nat)
    requires SeenOtherwise(st, sights, p, id, n) && id in Walk(st, sights, p).state.since
    ensures SeededIn(sights, p, id, Walk(st, sights, p).state.since[id])
  {
    var last := |sights| - 1;
    var before := Walk(st, sights[..last], p).state;
    if n == last {
      EpisodeEnds(before, sights[n], p, id);
    } else {
      var earlier := sights[..last];
      assert earlier[..n] == sights[..n];
      OnsetFrom(before, sights[last], p, id);
      if At(before.since, id) == Some(Walk(st, sights, p).state.since[id]) {
        WalkForgets(st, earlier, p, id, n);
        var k :| 0 <= k < last && SeededBy(earlier[k], p, id, before.since[id]);
        assert SeededBy(sights[k], p, id, before.since[id]);
      }
    }
  }

  lemma FileOnset(file: State, sights: seq<Sight>, p: Pass, id: Id)
    requires id in FileAfter(file, sights, p).since
    ensures At(file.since, id) == Some(FileAfter(file, sights, p).since[id])
            || SeededIn(sights, p, id, FileAfter(file, sights, p).since[id])
    ensures !p.dryRun ==> At(Walk(file, sights, p).state.since, id) == Some(FileAfter(file, sights, p).since[id])
  {
    var w := Walk(file, sights, p);
    if !p.dryRun && (w.changed || AnyRestarted(w.notes)) {
      OnsetInWalk(file, sights, p, id);
    } else if !p.dryRun {
      SilentWalk(file, sights, p);
    }
  }

  ghost predicate SeededFrom(rounds: seq<Round>, i: nat, id: Id, onset: int)
  {
    exists k :: i <= k < |rounds| && SeededIn(rounds[k].sights, rounds[k].pass, id, onset)
  }

  lemma SeededLonger(rounds: seq<Round>, i: nat, id: Id, onset: int)
    requires rounds != [] && SeededFrom(rounds[..|rounds| - 1], i, id, onset)
    ensures SeededFrom(rounds, i, id, onset)
  {
    var n := |rounds| - 1;
    var k :| i <= k < n && SeededIn(rounds[..n][k].sights, rounds[..n][k].pass, id, onset);
    assert SeededIn(rounds[k].sights, rounds[k].pass, id, onset);
  }

  /** Once a pass that is no dry run has seen the container otherwise, the onset on file was given by that
      pass or a later one. */
  lemma {:induction false} OnsetIsNew(file: State, rounds: seq<Round>, i: nat, n: nat, id: Id)
    requires i < |rounds| && !rounds[i].pass.dryRun
    requires SeenOtherwise(FileAfterAll(file, rounds[..i]), rounds[i].sights, rounds[i].pass, id, n)
    requires id in FileAfterAll(file, rounds).since
    ensures SeededFrom(rounds, i, id, FileAfterAll(file, rounds).since[id])
  {
    var last := |rounds| - 1;
    var before := FileAfterAll(file, rounds[..last]);
    FileOnset(before, rounds[last].sights, rounds[last].pass, id);
    var onset := FileAfterAll(file, rounds).since[id];
    if i == last {
      WalkForgets(before, rounds[i].sights, rounds[i].pass, id, n);
    } else if At(before.since, id) == Some(onset) {
      assert rounds[..last][..i] == rounds[..i];
      OnsetIsNew(file, rounds[..last], i, n, id);
      SeededLonger(rounds, i, id, onset);
    }
  }

  /** The last round restarted `id` at its `m`th row, and no operator forced it. */
  ghost predicate RestartedLast(file: State, rounds: seq<Round>, m: nat, id: Id, at: int)
    requires rounds != []
  {
    var j := |rounds| - 1;
    var sights, p := rounds[j].sights, rounds[j].pass;
    m < |sights|
    && var before := Walk(FileAfterAll(file, rounds[..j]), sights[..m], p).state;
       Restarted(id, false, at) in Visit(before, sights[m], p).notes
  }

  /** So a restart that no operator forced, in any later pass, rests on an onset given since the
      container was last seen otherwise, and at least a grace window old. */
  lemma NoRestartOnAnOldOnset(file: State, rounds: seq<Round>, i: nat, n: nat, id: Id, m: nat, at: int)
    requires i < |rounds| - 1 && !rounds[i].pass.dryRun
    requires SeenOtherwise(FileAfterAll(file, rounds[..i]), rounds[i].sights, rounds[i].pass, id, n)
    requires RestartedLast(file, rounds, m, id, at)
    ensures exists onset ::
              SeededFrom(rounds, i, id, onset)
              && rounds[|rounds| - 1].pass.now - onset >= rounds[|rounds| - 1].pass.timing.grace
  {
    var j := |rounds| - 1;
    var prior, sights, p := FileAfterAll(file, rounds[..j]), rounds[j].sights, rounds[j].pass;
    var before := Walk(prior, sights[..m], p).state;
    RestartsOnlyOnEvidence(before, sights[m], p, id, at);
    OnsetFrom(before, sights[m], p, id);
    var onset := Visit(before, sights[m], p).state.since[id];
    if SeededBy(sights[m], p, id, onset) {
      assert SeededIn(rounds[j].sights, rounds[j].pass, id, onset);
    } else {
      OnsetInWalk(prior, sights[..m], p, id);
      if SeededIn(sights[..m], p, id, onset) {
        var k :| 0 <= k < m && SeededBy(sights[..m][k], p, id, onset);
        assert SeededBy(sights[k], p, id, onset);
        assert SeededIn(rounds[j].sights, rounds[j].pass, id, onset);
      } else {
        assert rounds[..j][..i] == rounds[..i];
        OnsetIsNew(file, rounds[..j], i, n, id);
        SeededLonger(rounds, i, id, onset);
      }
    }
    assert SeededFrom(rounds, i, id, onset);
  }
}
