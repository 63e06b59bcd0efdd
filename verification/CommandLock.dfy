/** How the dispatcher holds the command lock around commands. */
module CommandLock {
  // Which commands of any number of processes lock, from where to where, and what each way out does with the
  // lock. The lock itself is taken here as one atomic test-and-set that also takes over a dead holder's lock.

  import opened Base

  type Pid = nat

  // ----- which command locks what ---------------------------------------------------------

  const MUTATING := {"install", "update", "recreate", "reinstall", "uninstall", "reset", "bootstrap", "sync",
                     "start", "stop", "restart", "rollback", "autoheal", "e2etest", "clear-reorg-halt",
                     "bootstrap-restore-rehearsal"}

  /** A parsed command line: the subcommand, its parent command, and whether a self-update step has
      already fixed the release (XCHAIN_NODE_UPDATE_TARGET). */
  datatype Command = Command(parent: string, name: string, targetSet: bool)

  predicate SkipsPreAction(c: Command)
  {
    c.name == "validator" || c.parent == "validator" || c.name == "rollback" || c.name == "bootstrap-republish-due"
  }

  function ValidatorLockLabel(c: Command): Option<string>
  {
    if c.parent == "validator" && c.name == "init" then Some("validator init") else None
  }

  /** The hold regions: none; from the start to exit without preCheck; from preCheck to exit, after
      a self-update step for some updates; and around preCheck only. */
  datatype Plan = Unlocked | FileWriter | Mutator(selfUpdates: bool) | Reader

  function PlanOf(c: Command): Plan
  {
    if ValidatorLockLabel(c).Some? then FileWriter
    else if SkipsPreAction(c) then Unlocked
    else if c.name in MUTATING then Mutator(c.name == "update" && !c.targetSet)
    else Reader
  }

  predicate ToExit(plan: Plan) { plan.FileWriter? || plan.Mutator? }

  datatype Settings = Settings(lockWaitMs: int, mutatingWaitMs: int)

  const HANDOFF_WAIT_MS := 30000

  /** Whether the release is fixed when the command waits for its lock: it was from the start, or this
      process took the self-update step and stayed in place (`stayed`). */
  predicate TargetFixed(c: Command, stayed: bool)
  {
    c.targetSet || (stayed && PlanOf(c) == Mutator(true))
  }

  function LockSettingsFor(c: Command, stayed: bool, settings: Settings): Settings
  {
    if c.name != "update" || !TargetFixed(c, stayed) then settings
    else settings.(mutatingWaitMs :=
      if settings.mutatingWaitMs < HANDOFF_WAIT_MS then HANDOFF_WAIT_MS else settings.mutatingWaitMs)
  }

  /** How long the command waits for its lock; the self-update step itself waits `mutatingWaitMs`. */
  function WaitMs(c: Command, stayed: bool, settings: Settings): int
  {
    if ToExit(PlanOf(c)) then LockSettingsFor(c, stayed, settings).mutatingWaitMs else settings.lockWaitMs
  }

  /** The commands that change the stack, by name; `rollback` is listed as one and never locks. */
  ghost predicate ChangesTheStack(name: string)
  {
    name in {"install", "update", "recreate", "reinstall", "uninstall", "reset", "bootstrap", "sync", "start",
             "stop", "restart", "autoheal", "e2etest", "clear-reorg-halt", "bootstrap-restore-rehearsal"}
  }

  /** Exactly a command that changes the stack or writes validator files keeps the lock to exit; exactly
      an update whose release nothing has fixed yet begins with a self-update step; the validator's other
      commands, `rollback` and the republish query do not lock at all; every other command locks around
      preCheck only. */
  lemma HoldRegions(c: Command)
    ensures ToExit(PlanOf(c)) <==>
      (c.parent == "validator" && c.name == "init")
      || (c.parent != "validator" && ChangesTheStack(c.name))
    ensures PlanOf(c) == Mutator(true) <==> c.name == "update" && c.parent != "validator" && !c.targetSet
    ensures PlanOf(c) == FileWriter <==> c.parent == "validator" && c.name == "init"
    ensures PlanOf(c) == Unlocked <==>
      (c.parent == "validator" && c.name != "init")
      || (c.parent != "validator" && c.name in {"validator", "rollback", "bootstrap-republish-due"})
  {
    assert "update" in MUTATING && "validator" !in MUTATING && "bootstrap-republish-due" !in MUTATING;
    assert c.name in MUTATING <==> ChangesTheStack(c.name) || c.name == "rollback";
  }

  /** Who waits how long: a command that keeps the lock to exit as long as configured for those, an update
      behind a self-update step, its parent's or its own, for at least half a minute; every other command
      as long as configured for the rest. */
  lemma WaitTimes(c: Command, stayed: bool, settings: Settings)
    ensures var configured := settings.mutatingWaitMs;
      WaitMs(c, stayed, settings) ==
        if !ToExit(PlanOf(c)) then settings.lockWaitMs
        else if c.name == "update" && c.parent != "validator" && (c.targetSet || stayed) && configured < 30000
        then 30000
        else configured
  {
    HoldRegions(c);
  }

  // ----- the processes --------------------------------------------------------------------

  /** Where a process stands. SelfWait decides whether to move at all; SelfMove moves the checkout under
      the lock; SelfChild has handed the lock back and waits for the re-executed child; Ending is a
      preCheck failure on its way out. */
  datatype Phase = SelfWait | SelfMove | SelfChild | Wait | PreCheck | Action | Ending | Gone

  /** `listener`: a process-exit listener that releases the lock. `signals`: SIGINT and SIGTERM are
      turned into exits. `scoped`: a scoped hold inside an action, which a validator send and
      the interactive menu take; the menu is the root command and so a Reader. `killed`: ended without an
      exit. */
  datatype Proc = Proc(plan: Plan, phase: Phase, listener: bool, signals: bool, scoped: bool, killed: bool)

  datatype State = State(lock: Option<Pid>, procs: map<Pid, Proc>)

  datatype Event =
    | Begin(p: Pid, command: Command)
    | Acquire(p: Pid)
    | Refuse(p: Pid)
    | SelfSkips(p: Pid)
    | SelfStays(p: Pid)
    | SelfFails(p: Pid)
    | SelfSpawns(p: Pid)
    | PreCheckDone(p: Pid)
    | PreCheckThrows(p: Pid)
    | Hold(p: Pid)
    | Release(p: Pid)
    | Exit(p: Pid)
    | Signal(p: Pid)
    | Kill(p: Pid)

  predicate Live(s: State, p: Pid) { p in s.procs && !s.procs[p].phase.Gone? }

  /** The lock can be taken: free, or left behind by a process that is gone. */
  predicate Takeable(s: State) { s.lock.None? || !Live(s, s.lock.value) }

  function With(s: State, p: Pid, q: Proc): State { s.(procs := s.procs[p := q]) }

  function Take(s: State, p: Pid): State { s.(lock := Some(p)) }

  /** release(): a no-op unless the lock is still this process's. */
  function Drop(s: State, p: Pid): State { if s.lock == Some(p) then s.(lock := None) else s }

  function Start(plan: Plan): Proc
  {
    Proc(plan,
         match plan
         case Unlocked => Action
         case Mutator(selfUpdates) => if selfUpdates then SelfWait else Wait
         case _ => Wait,
         false, false, false, false)
  }

  /** process.exit: the exit listeners run, then the process is gone. */
  function Leave(s: State, p: Pid): State
    requires p in s.procs
  {
    var s' := if s.procs[p].listener then Drop(s, p) else s;
    With(s', p, s.procs[p].(phase := Gone, listener := false, scoped := false))
  }

  function Die(s: State, p: Pid): State
    requires p in s.procs
  {
    With(s, p, s.procs[p].(phase := Gone, listener := false, scoped := false, killed := true))
  }

  function Granted(q: Proc): Proc
  {
    if q.phase.SelfWait? then q.(phase := SelfMove)
    else q.(phase := if q.plan.FileWriter? then Action else PreCheck,
            listener := ToExit(q.plan), signals := ToExit(q.plan))
  }

  /** An event that its process is not in a position to do changes nothing. */
  function Next(s: State, e: Event): State
  {
    if e.Begin? then
      if e.p in s.procs then s else With(s, e.p, Start(PlanOf(e.command)))
    else if !Live(s, e.p) then s
    else
      var p, q := e.p, s.procs[e.p];
      match e
      case Acquire(_) =>
        if (q.phase.SelfWait? || q.phase.Wait?) && Takeable(s) then With(Take(s, p), p, Granted(q)) else s
      case Refuse(_) =>
        if (q.phase.SelfWait? || q.phase.Wait?) && !Takeable(s) then Leave(s, p) else s
      case SelfSkips(_) => if q.phase.SelfWait? then With(s, p, q.(phase := Wait)) else s
      case SelfStays(_) => if q.phase.SelfMove? then With(Drop(s, p), p, q.(phase := Wait)) else s
      case SelfFails(_) =>
        if q.phase.SelfMove? then Leave(Drop(s, p), p) else if q.phase.SelfWait? then Leave(s, p) else s
      case SelfSpawns(_) => if q.phase.SelfMove? then With(Drop(s, p), p, q.(phase := SelfChild)) else s
      case PreCheckDone(_) =>
        if q.phase.PreCheck? then With(if ToExit(q.plan) then s else Drop(s, p), p, q.(phase := Action)) else s
      case PreCheckThrows(_) =>
        if q.phase.PreCheck? then With(if ToExit(q.plan) then s else Drop(s, p), p, q.(phase := Ending)) else s
      case Hold(_) =>
        if !ToExit(q.plan) && q.phase.Action? && !q.scoped && Takeable(s)
        then With(Take(s, p), p, q.(scoped := true, listener := true)) else s
      case Release(_) =>
        if q.phase.Action? && q.scoped then With(Drop(s, p), p, q.(scoped := false, listener := false)) else s
      case Exit(_) =>
        if q.phase.Action? || q.phase.Ending? || q.phase.SelfChild? then Leave(s, p) else s
      case Signal(_) => if q.signals then Leave(s, p) else Die(s, p)
      case Kill(_) => Die(s, p)
  }

  function Run(events: seq<Event>): State
  {
    if events == [] then State(None, map[])
    else Next(Run(events[..|events| - 1]), events[|events| - 1])
  }

  // ----- what every run keeps -------------------------------------------------------------

  /** In a stretch of the program that the lock must cover: moving the checkout, any preCheck, the
      action of a command that locks to exit, and a scoped hold. */
  predicate Covered(q: Proc)
  {
    q.phase.SelfMove? || q.phase.PreCheck? || ((q.phase.Action? || q.phase.Ending?) && (ToExit(q.plan) || q.scoped))
  }

  predicate ProcOk(q: Proc)
  {
    && (q.scoped ==> !ToExit(q.plan) && q.phase.Action?)
    && (q.listener <==> q.scoped || (ToExit(q.plan) && (q.phase.PreCheck? || q.phase.Action? || q.phase.Ending?)))
    && (q.signals ==> ToExit(q.plan) && (q.listener || q.phase.Gone?))
    && (q.signals <== ToExit(q.plan) && q.listener)
    && (q.plan.Unlocked? ==> q.phase.Action? || q.phase.Gone?)
    && (q.phase.SelfMove? || q.phase.SelfWait? ==> q.plan.Mutator?)
  }

  ghost predicate Inv(s: State)
  {
    && (forall p :: p in s.procs ==> ProcOk(s.procs[p]))
    && (forall p :: p in s.procs && Covered(s.procs[p]) ==> s.lock == Some(p))
    && (s.lock.Some? ==>
        && s.lock.value in s.procs
        && (Covered(s.procs[s.lock.value]) || (s.procs[s.lock.value].phase.Gone? && s.procs[s.lock.value].killed)))
  }

  /** An event concerns its own process, which afterwards owns the lock exactly while covered (or
      was killed while it was), and it never takes the lock from a live process. */
  lemma StepIsLocal(s: State, e: Event)
    requires Inv(s) && Next(s, e) != s
    ensures e.p in Next(s, e).procs && Next(s, e).procs == s.procs[e.p := Next(s, e).procs[e.p]]
    ensures ProcOk(Next(s, e).procs[e.p])
    ensures Covered(Next(s, e).procs[e.p]) ==> Next(s, e).lock == Some(e.p)
    ensures Next(s, e).lock == Some(e.p) ==>
      Covered(Next(s, e).procs[e.p]) || (Next(s, e).procs[e.p].phase.Gone? && Next(s, e).procs[e.p].killed)
    ensures Next(s, e).lock != s.lock ==>
      s.lock == Some(e.p) || Takeable(s)
    ensures Next(s, e).lock in {s.lock, Some(e.p), None}
  {
  }

  lemma StepKeepsInv(s: State, e: Event)
    requires Inv(s)
    ensures Inv(Next(s, e))
  {
    var s' := Next(s, e);
    if s' != s {
      StepIsLocal(s, e);
      forall p | p in s'.procs && Covered(s'.procs[p]) ensures s'.lock == Some(p) {
        if p != e.p {
          assert Live(s, p) && s.lock == Some(p);
        }
      }
    }
  }

  lemma {:induction false} RunKeepsInv(events: seq<Event>)
    ensures Inv(Run(events))
  {
    if events != [] {
      RunKeepsInv(events[..|events| - 1]);
      StepKeepsInv(Run(events[..|events| - 1]), events[|events| - 1]);
    }
  }

  /** For any number of processes running any commands, in any interleaving, with refusals, thrown
      preChecks, exits, signals and kills at any point: no two processes are ever in stretches the
      lock must cover. */
  lemma {:induction false} LockedSectionsExclude(events: seq<Event>, p: Pid, q: Pid)
    requires p in Run(events).procs && Covered(Run(events).procs[p])
    requires q in Run(events).procs && Covered(Run(events).procs[q])
    ensures p == q && Run(events).lock == Some(p)
  {
    RunKeepsInv(events);
  }

  /** The lock is handed back on every way out: whoever holds it is in a covered stretch, or was
      killed in one (or took a signal in one without the handlers). Nothing else strands it. */
  lemma {:induction false} NothingElseHoldsTheLock(events: seq<Event>)
    requires Run(events).lock.Some?
    ensures Run(events).lock.value in Run(events).procs
    ensures var q := Run(events).procs[Run(events).lock.value];
      Covered(q) || (q.phase.Gone? && q.killed)
  {
    RunKeepsInv(events);
  }

  /** A process has its exit listener exactly while it holds the lock to its exit or in a scoped
      hold, so at no other time could its exit release a lock. */
  lemma {:induction false} ListenerExactlyWhileHeld(events: seq<Event>, p: Pid)
    requires p in Run(events).procs
    ensures var q := Run(events).procs[p];
      q.listener <==>
        Run(events).lock == Some(p) && Live(Run(events), p)
        && (q.scoped || (ToExit(q.plan) && !q.phase.SelfMove?))
  {
    RunKeepsInv(events);
  }

  /** A process that asks for the lock, for its command or for a scoped hold, and does not get it. */
  predicate TurnedAway(s: State, p: Pid)
  {
    Live(s, p) && !Takeable(s) &&
    var q := s.procs[p];
    q.phase.SelfWait? || q.phase.Wait? || (q.phase.Action? && !ToExit(q.plan) && !q.scoped)
  }

  /** The lock is refused only while another live process is in a covered stretch: a stranded lock
      never turns anyone away. */
  lemma {:induction false} RefusedOnlyByALiveHolder(events: seq<Event>, p: Pid)
    requires TurnedAway(Run(events), p)
    ensures var s := Run(events);
      exists q: Pid :: q in s.procs && q != p && Live(s, q) && s.lock == Some(q) && Covered(s.procs[q])
  {
    RunKeepsInv(events);
    var q := Run(events).lock.value;
    assert Live(Run(events), q) && q in Run(events).procs && Covered(Run(events).procs[q]);
  }

  /** The self-update hand-off: once the parent has spawned the child it never again touches the
      lock, whatever it does until it is gone, so the child's lock is safe from its parent. */
  lemma {:induction false} HandOffIsFinal(events: seq<Event>, e: Event)
    requires e.p in Run(events).procs && Run(events).procs[e.p].phase.SelfChild?
    ensures Next(Run(events), e).lock == Run(events).lock
    ensures Next(Run(events), e).procs[e.p].phase.SelfChild? || Next(Run(events), e).procs[e.p].phase.Gone?
  {
    RunKeepsInv(events);
  }

  // ----- what the events do ---------------------------------------------------------------

  /** A process that waits takes a lock that can be taken, and goes on: to move the checkout, to the action
      of a file writer, or to preCheck. */
  lemma WaiterTakesTheLock(s: State, p: Pid)
    requires Live(s, p) && (s.procs[p].phase == Wait || s.procs[p].phase == SelfWait)
    ensures Takeable(s) ==>
      var s', q := Next(s, Acquire(p)), s.procs[p];
      && s'.lock == Some(p) && p in s'.procs
      && s'.procs[p].phase ==
         (if q.phase == SelfWait then SelfMove else if q.plan == FileWriter then Action else PreCheck)
      && (q.phase == Wait ==> (s'.procs[p].listener <==> ToExit(q.plan)) && (s'.procs[p].signals <==> ToExit(q.plan)))
    ensures !Takeable(s) ==> Next(s, Acquire(p)) == s
    ensures p in Next(s, Refuse(p)).procs && (Next(s, Refuse(p)).procs[p].phase == Gone <==> !Takeable(s))
  {
  }

  /** A process begins where its command says: at once, waiting for the lock, or before its self-update
      step; and without any hold, listener or handler. */
  lemma CommandsBegin(s: State, p: Pid, c: Command)
    requires p !in s.procs
    ensures var s' := Next(s, Begin(p, c));
      && s'.lock == s.lock
      && s'.procs == s.procs[p := Proc(PlanOf(c), if PlanOf(c) == Unlocked then Action
                                                  else if PlanOf(c) == Mutator(true) then SelfWait else Wait,
                                       false, false, false, false)]
  {
    assert s.procs[p := Start(PlanOf(c))][p] == Start(PlanOf(c));
  }

  /** The self-update step: skipped or without effect the command goes on to wait for its lock; failed it
      ends; with a child spawned it has handed the lock back. */
  lemma SelfUpdateEnds(s: State, p: Pid)
    requires Inv(s) && Live(s, p) && (s.procs[p].phase == SelfWait || s.procs[p].phase == SelfMove)
    ensures var moving := s.procs[p].phase == SelfMove;
      && Next(s, SelfSkips(p)).procs[p].phase == (if moving then SelfMove else Wait)
      && (moving ==> Next(s, SelfStays(p)) == State(None, s.procs[p := s.procs[p].(phase := Wait)]))
      && (moving ==> Next(s, SelfSpawns(p)) == State(None, s.procs[p := s.procs[p].(phase := SelfChild)]))
      && Next(s, SelfFails(p)).procs[p].phase == Gone
      && Next(s, SelfFails(p)).lock == (if moving then None else s.lock)
  {
  }

  /** After preCheck a command that keeps the lock to exit still has it, and any other has given it back. */
  lemma PreCheckEnds(s: State, p: Pid)
    requires Inv(s) && Live(s, p) && s.procs[p].phase == PreCheck
    ensures Next(s, PreCheckDone(p)).lock == (if ToExit(s.procs[p].plan) then Some(p) else None)
    ensures Next(s, PreCheckDone(p)).procs[p].phase == Action
    ensures Next(s, PreCheckThrows(p)).lock == (if ToExit(s.procs[p].plan) then Some(p) else None)
    ensures Next(s, PreCheckThrows(p)).procs[p].phase == Ending
  {
  }

  /** A scoped hold takes the lock for a running action that has none, and its release gives it back. */
  lemma ScopedHolds(s: State, p: Pid)
    requires Inv(s) && Live(s, p) && s.procs[p].phase == Action && !ToExit(s.procs[p].plan)
    ensures !s.procs[p].scoped && Takeable(s) ==>
      Next(s, Hold(p)) == State(Some(p), s.procs[p := s.procs[p].(scoped := true, listener := true)])
    ensures s.procs[p].scoped || !Takeable(s) ==> Next(s, Hold(p)) == s
    ensures s.procs[p].scoped ==>
      Next(s, Release(p)) == State(None, s.procs[p := s.procs[p].(scoped := false, listener := false)])
    ensures !s.procs[p].scoped ==> Next(s, Release(p)) == s
  {
  }

  /** Every way out ends the process. Leaving, or a signal that is handled, gives a held lock back; being
      killed, or a signal that is not handled, leaves it standing for the next to take over. */
  lemma WaysOut(s: State, p: Pid)
    requires Inv(s) && Live(s, p)
    ensures Next(s, Kill(p)).procs[p].phase == Gone && Next(s, Kill(p)).lock == s.lock
    ensures Next(s, Signal(p)).procs[p].phase == Gone
    ensures s.lock == Some(p) ==> Next(s, Signal(p)).lock == (if s.procs[p].signals then None else s.lock)
    ensures s.lock == Some(p) ==> Takeable(Next(s, Kill(p))) && Takeable(Next(s, Signal(p)))
    ensures s.procs[p].phase in {Action, Ending, SelfChild} ==>
              Next(s, Exit(p)).procs[p].phase == Gone && Next(s, Exit(p)).lock != Some(p)
  {
  }

  // ----- the scoped lock as the program keeps it ------------------------------------------

  /** The lock file as one process sees it; `drops` counts the calls of any release function. */
  class LockBox {
    var holder: Option<Pid>
    ghost var takes: nat
    ghost var drops: nat

    constructor ()
      ensures holder == None && takes == 0 && drops == 0
    {
      holder, takes, drops := None, 0, 0;
    }
  }

  class ScopedLock {
    const box: LockBox
    const pid: Pid
    var held: bool
    var listening: bool

    /** One release call for every take that is over, and the listener exactly while held. */
    ghost predicate Valid()
      reads this, box
    {
      && listening == held
      && box.takes == box.drops + (if held then 1 else 0)
      && (held ==> box.holder == Some(pid))
    }

    constructor (box: LockBox, pid: Pid)
      requires box.takes == box.drops
      ensures Valid() && this.box == box && this.pid == pid && !held
    {
      this.box, this.pid, held, listening := box, pid, false, false;
    }

    method Hold(takeable: bool) returns (ok: bool)
      requires Valid()
      modifies this, box
      ensures Valid()
      ensures ok <==> old(held) || takeable
      ensures held == ok
      ensures box.takes == old(box.takes) + (if !old(held) && takeable then 1 else 0)
      ensures box.drops == old(box.drops)
      ensures box.holder == if !old(held) && takeable then Some(pid) else old(box.holder)
    {
      if held { return true; }
      if !takeable { return false; }
      box.holder := Some(pid);
      box.takes := box.takes + 1;
      held, listening := true, true;
      ok := true;
    }

    method Release()
      requires Valid()
      modifies this, box
      ensures Valid() && !held
      ensures box.takes == old(box.takes)
      ensures box.drops == old(box.drops) + (if old(held) then 1 else 0)
      ensures box.holder == if old(held) then None else old(box.holder)
    {
      if !held { return; }
      held, listening := false, false;
      box.holder := None;
      box.drops := box.drops + 1;
    }
  }
}
