/** The command lock file under contention, one file-system call at a time. */
module LockFile {
  // Exclusive publication, liveness probes, and the reclamation of a dead holder's lock behind a second
  // exclusive marker. Any process may die between any two calls.

  import opened Base

  type Pid = nat

  /** The lock file: who published it, and the device/inode identity a `stat` reports. */
  datatype File = File(owner: Pid, id: nat)

  /** Where a process stands in acquireCommandLock, reclaimStaleLock and release. `wasStale` only
      records, for stating properties, what the file held when the holder was read. */
  datatype Pc =
    | Idle
    | Publish
    | ReadHolder
    | StatLock(holder: Option<Pid>)
    | Judge(holder: Option<Pid>, seen: Option<nat>)
    | PublishMarker(observed: nat)
    | ReadMarker
    | JudgeMarker(owner: Option<Pid>)
    | BreakMarker
    | StatCurrent(observed: nat)
    | ReadCurrent(observed: nat, current: nat)
    | JudgeCurrent(observed: nat, current: nat, holder: Option<Pid>, wasStale: bool)
    | Unlink
    | LeaveMarker
    | DropMarker
    | Holding
    | ReadOwn
    | DropLock

  datatype State = State(lock: Option<File>, marker: Option<Pid>, dead: set<Pid>, pcs: map<Pid, Pc>)

  /** One call by `p`; `id` is the identity a new file gets. GiveUp ends a bounded retry loop. */
  datatype Act = Move(p: Pid, id: nat) | GiveUp(p: Pid) | Die(p: Pid)

  function At(s: State, p: Pid): Pc { if p in s.pcs then s.pcs[p] else Idle }

  function Goto(s: State, p: Pid, pc: Pc): State { s.(pcs := s.pcs[p := pc]) }

  function Owner(lock: Option<File>): Option<Pid> { if lock.Some? then Some(lock.value.owner) else None }

  function Id(lock: Option<File>): Option<nat> { if lock.Some? then Some(lock.value.id) else None }

  /** A holder that cannot be read counts as gone, exactly like one whose process is. */
  predicate Active(s: State, holder: Option<Pid>) { holder.Some? && holder.value !in s.dead }

  function Move1(s: State, p: Pid, id: nat): State
  {
    match At(s, p)
    case Idle => Goto(s, p, Publish)
    case Publish =>
      if s.lock.None? then Goto(s.(lock := Some(File(p, id))), p, Holding) else Goto(s, p, ReadHolder)
    case ReadHolder => Goto(s, p, StatLock(Owner(s.lock)))
    case StatLock(holder) => Goto(s, p, Judge(holder, Id(s.lock)))
    case Judge(holder, seen) =>
      if Active(s, holder) then Goto(s, p, Idle)
      else if seen.None? then Goto(s, p, Publish)
      else Goto(s, p, PublishMarker(seen.value))
    case PublishMarker(observed) =>
      if s.marker.None? then Goto(s.(marker := Some(p)), p, StatCurrent(observed)) else Goto(s, p, ReadMarker)
    case ReadMarker => Goto(s, p, JudgeMarker(s.marker))
    case JudgeMarker(owner) => Goto(s, p, if Active(s, owner) then Publish else BreakMarker)
    case BreakMarker => Goto(s.(marker := None), p, Publish)
    case StatCurrent(observed) =>
      Goto(s, p, if s.lock.None? then LeaveMarker else ReadCurrent(observed, s.lock.value.id))
    case ReadCurrent(observed, current) =>
      Goto(s, p, JudgeCurrent(observed, current, Owner(s.lock), s.lock.Some? && s.lock.value.owner in s.dead))
    case JudgeCurrent(observed, current, holder, _) =>
      Goto(s, p, if Active(s, holder) || observed != current then LeaveMarker else Unlink)
    case Unlink => Goto(s.(lock := None), p, LeaveMarker)
    case LeaveMarker => Goto(s, p, if s.marker == Some(p) then DropMarker else Publish)
    case DropMarker => Goto(s.(marker := None), p, Publish)
    case Holding => Goto(s, p, ReadOwn)
    case ReadOwn => Goto(s, p, if Owner(s.lock) == Some(p) then DropLock else Idle)
    case DropLock => Goto(s.(lock := None), p, Idle)
  }

  /** The dead make no calls. */
  function Next(s: State, a: Act): State
  {
    if a.p in s.dead then s
    else match a
      case Move(p, id) => Move1(s, p, id)
      case GiveUp(p) => if At(s, p).Publish? then Goto(s, p, Idle) else s
      case Die(p) => s.(dead := s.dead + {p})
  }

  function Run(acts: seq<Act>): State
  {
    if acts == [] then State(None, None, {}, map[])
    else Next(Run(acts[..|acts| - 1]), acts[|acts| - 1])
  }

  // ----- mutual exclusion -----------------------------------------------------------------

  /** `p` was handed the lock and has not finished giving it back. */
  predicate Holds(s: State, p: Pid)
  {
    p !in s.dead && (At(s, p).Holding? || At(s, p).ReadOwn? || At(s, p).DropLock?)
  }

  predicate InMarker(s: State, p: Pid)
  {
    && p !in s.dead
    && (At(s, p).StatCurrent? || At(s, p).ReadCurrent? || At(s, p).JudgeCurrent? || At(s, p).Unlink?
        || At(s, p).LeaveMarker? || At(s, p).DropMarker?)
  }

  /** `p` is about to remove a lock it saw to be a dead process's. */
  predicate Condemns(s: State, p: Pid)
  {
    p !in s.dead && (At(s, p).Unlink? || (At(s, p).JudgeCurrent? && At(s, p).wasStale))
  }

  /** A reclaim goes on to unlink only on the strength of a read that found a dead process's file,
      not of a read that found nothing or of a holder that died since. */
  predicate ReclaimsOnTheDead(s: State, a: Act)
  {
    a.Move? && a.p !in s.dead && At(s, a.p).JudgeCurrent? && At(Next(s, a), a.p).Unlink? ==> At(s, a.p).wasStale
  }

  /** A reclaim marker is broken only while it is still a dead process's. */
  predicate BreaksTheDeads(s: State, a: Act)
  {
    a.Move? && a.p !in s.dead && At(s, a.p).BreakMarker? && s.marker.Some? ==> s.marker.value in s.dead
  }

  /** The two check-then-act windows, over a whole run. */
  predicate ReclaimsCarefully(acts: seq<Act>)
  {
    acts == []
    || (ReclaimsCarefully(acts[..|acts| - 1]) && ReclaimsOnTheDead(Run(acts[..|acts| - 1]), acts[|acts| - 1]))
  }

  predicate BreaksCarefully(acts: seq<Act>)
  {
    acts == []
    || (BreaksCarefully(acts[..|acts| - 1]) && BreaksTheDeads(Run(acts[..|acts| - 1]), acts[|acts| - 1]))
  }

  ghost predicate Inv(s: State)
  {
    && (forall p: Pid :: Holds(s, p) ==> Owner(s.lock) == Some(p))
    && (forall p: Pid :: InMarker(s, p) ==> s.marker == Some(p))
    && (forall p: Pid :: Condemns(s, p) ==> s.lock.Some? && s.lock.value.owner in s.dead)
  }

  /** The lock file leaves the path only by its holder's release or by a reclaim of a dead one's,
      and an owner removes only its own marker. */
  lemma WhatIsRemoved(s: State, p: Pid)
    requires Inv(s) && p !in s.dead
    ensures At(s, p).Unlink? ==> s.lock.Some? && s.lock.value.owner in s.dead
    ensures At(s, p).DropLock? ==> Owner(s.lock) == Some(p)
    ensures At(s, p).Unlink? || At(s, p).DropMarker? || At(s, p).LeaveMarker? ==> s.marker == Some(p)
  {
    assert At(s, p).Unlink? ==> Condemns(s, p);
    assert At(s, p).DropLock? ==> Holds(s, p);
    assert At(s, p).Unlink? || At(s, p).DropMarker? || At(s, p).LeaveMarker? ==> InMarker(s, p);
  }

  lemma LockStays(s: State, p: Pid, id: nat, q: Pid)
    requires Inv(s) && p !in s.dead && p != q && Owner(s.lock) == Some(q) && q !in s.dead
    ensures Move1(s, p, id).lock == s.lock
  {
    WhatIsRemoved(s, p);
  }

  lemma MarkerStays(s: State, p: Pid, id: nat, q: Pid)
    requires Inv(s) && p !in s.dead && p != q && s.marker == Some(q) && q !in s.dead
    requires BreaksTheDeads(s, Move(p, id))
    ensures Move1(s, p, id).marker == s.marker
  {
    WhatIsRemoved(s, p);
  }

  lemma CondemnedStays(s: State, p: Pid, id: nat, q: Pid)
    requires Inv(s) && p !in s.dead && p != q && Condemns(s, q)
    ensures Move1(s, p, id).lock == s.lock
  {
    assert InMarker(s, q);
    WhatIsRemoved(s, p);
  }

  lemma HoldersKept(s: State, p: Pid, id: nat, q: Pid)
    requires Inv(s) && p !in s.dead && Holds(Move1(s, p, id), q)
    ensures Owner(Move1(s, p, id).lock) == Some(q)
  {
    if q != p {
      assert Holds(s, q);
      LockStays(s, p, id, q);
    } else {
      assert At(s, p).Publish? || Holds(s, p);
    }
  }

  lemma MarkerOwnersKept(s: State, p: Pid, id: nat, q: Pid)
    requires Inv(s) && p !in s.dead && InMarker(Move1(s, p, id), q)
    requires BreaksTheDeads(s, Move(p, id))
    ensures Move1(s, p, id).marker == Some(q)
  {
    if q != p {
      assert InMarker(s, q);
      MarkerStays(s, p, id, q);
    } else {
      assert At(s, p).PublishMarker? || InMarker(s, p);
    }
  }

  lemma CondemnedKept(s: State, p: Pid, id: nat, q: Pid)
    requires Inv(s) && p !in s.dead && Condemns(Move1(s, p, id), q)
    requires ReclaimsOnTheDead(s, Move(p, id))
    ensures Move1(s, p, id).lock.Some? && Move1(s, p, id).lock.value.owner in s.dead
  {
    if q != p {
      assert Condemns(s, q);
      CondemnedStays(s, p, id, q);
    } else {
      assert At(s, p).JudgeCurrent? ==> Condemns(s, p);
    }
  }

  lemma MoveKeepsInv(s: State, p: Pid, id: nat)
    requires Inv(s) && p !in s.dead
    requires ReclaimsOnTheDead(s, Move(p, id)) && BreaksTheDeads(s, Move(p, id))
    ensures Inv(Move1(s, p, id))
  {
    var s' := Move1(s, p, id);
    forall q: Pid | Holds(s', q) ensures Owner(s'.lock) == Some(q) { HoldersKept(s, p, id, q); }
    forall q: Pid | InMarker(s', q) ensures s'.marker == Some(q) { MarkerOwnersKept(s, p, id, q); }
    forall q: Pid | Condemns(s', q) ensures s'.lock.Some? && s'.lock.value.owner in s'.dead {
      CondemnedKept(s, p, id, q);
    }
  }

  lemma StepKeepsInv(s: State, a: Act)
    requires Inv(s) && ReclaimsOnTheDead(s, a) && BreaksTheDeads(s, a)
    ensures Inv(Next(s, a))
  {
    if a.p !in s.dead {
      if a.Move? {
        MoveKeepsInv(s, a.p, a.id);
      } else {
        var s' := Next(s, a);
        forall q: Pid
          ensures Holds(s', q) ==> Holds(s, q)
          ensures InMarker(s', q) ==> InMarker(s, q)
          ensures Condemns(s', q) ==> Condemns(s, q)
        {
        }
      }
    }
  }

  lemma {:induction false} RunKeepsInv(acts: seq<Act>)
    requires ReclaimsCarefully(acts) && BreaksCarefully(acts)
    ensures Inv(Run(acts))
  {
    if acts != [] {
      var n := |acts| - 1;
      RunKeepsInv(acts[..n]);
      StepKeepsInv(Run(acts[..n]), acts[n]);
    }
  }

  /** For any number of processes, any interleaving of their calls and deaths at any point: while
      the two gaps stay shut, no two live processes hold the lock. */
  lemma MutualExclusion(acts: seq<Act>, p: Pid, q: Pid)
    requires ReclaimsCarefully(acts) && BreaksCarefully(acts) && Holds(Run(acts), p) && Holds(Run(acts), q)
    ensures p == q
  {
    RunKeepsInv(acts);
  }

  /** And no live holder's lock is ever taken away: it still stands when its owner gives it back. */
  lemma HolderKeepsItsLock(acts: seq<Act>, p: Pid)
    requires ReclaimsCarefully(acts) && BreaksCarefully(acts) && Holds(Run(acts), p)
    ensures Owner(Run(acts).lock) == Some(p)
  {
    RunKeepsInv(acts);
  }

  // ----- each window alone breaks it ------------------------------------------------------

  lemma Extend(acts: seq<Act>, a: Act) returns (more: seq<Act>)
    ensures more == acts + [a] && Run(more) == Next(Run(acts), a)
    ensures ReclaimsCarefully(more) <==> ReclaimsCarefully(acts) && ReclaimsOnTheDead(Run(acts), a)
    ensures BreaksCarefully(more) <==> BreaksCarefully(acts) && BreaksTheDeads(Run(acts), a)
  {
    more := acts + [a];
    assert more[..|more| - 1] == acts;
  }

  /** Nothing but `p`'s own position and the lock file differs. */
  ghost predicate OnlyLock(s: State, s': State, p: Pid)
  {
    s'.dead == s.dead && s'.marker == s.marker && forall q: Pid :: q != p ==> At(s', q) == At(s, q)
  }

  /** Neither window has been used so far, as far as it had not before. */
  ghost predicate AsCareful(acts: seq<Act>, more: seq<Act>)
  {
    (ReclaimsCarefully(acts) ==> ReclaimsCarefully(more)) && (BreaksCarefully(acts) ==> BreaksCarefully(more))
  }

  lemma Take(acts: seq<Act>, p: Pid, id: nat) returns (more: seq<Act>)
    requires p !in Run(acts).dead && At(Run(acts), p) == Idle && Run(acts).lock == None
    ensures OnlyLock(Run(acts), Run(more), p) && AsCareful(acts, more)
    ensures At(Run(more), p) == Holding && Run(more).lock == Some(File(p, id))
  {
    more := Extend(acts, Move(p, id));
    more := Extend(more, Move(p, id));
  }

  lemma GiveBack(acts: seq<Act>, p: Pid) returns (more: seq<Act>)
    requires p !in Run(acts).dead && At(Run(acts), p) == Holding && Owner(Run(acts).lock) == Some(p)
    ensures OnlyLock(Run(acts), Run(more), p) && AsCareful(acts, more)
    ensures At(Run(more), p) == Idle && Run(more).lock == None
  {
    more := Extend(acts, Move(p, 0));
    more := Extend(more, Move(p, 0));
    more := Extend(more, Move(p, 0));
  }

  /** A holder that releases and takes the lock again between another's check and its unlink: the
      read inside the marker finds no file, which counts as a dead holder, the identities agree
      because both were taken before, and the unlink hits the lock that has since been retaken.
      Two live processes are enough. */
  lemma ReclaimOfALiveLock() returns (acts: seq<Act>)
    ensures BreaksCarefully(acts)
    ensures Holds(Run(acts), 1) && Holds(Run(acts), 2)
  {
    acts := Take([], 1, 1);
    acts := Extend(acts, Move(2, 0));
    acts := Extend(acts, Move(2, 0));
    assert At(Run(acts), 2) == ReadHolder;
    acts := GiveBack(acts, 1);
    acts := Extend(acts, Move(2, 0));
    assert At(Run(acts), 2) == StatLock(None);
    acts := Take(acts, 1, 2);
    acts := ReclaimOfALiveLockRest(acts);
  }

  lemma ReclaimOfALiveLockRest(acts: seq<Act>) returns (more: seq<Act>)
    requires BreaksCarefully(acts) && Run(acts).dead == {} && Run(acts).marker == None
    requires At(Run(acts), 2) == StatLock(None) && At(Run(acts), 1) == Holding && Run(acts).lock == Some(File(1, 2))
    ensures BreaksCarefully(more)
    ensures Holds(Run(more), 1) && Holds(Run(more), 2)
  {
    more := Extend(acts, Move(2, 0));
    more := Extend(more, Move(2, 0));
    assert At(Run(more), 2) == PublishMarker(2);
    more := MarkerPublished(more);
    more := ReleasedUnderTheRead(more);
  }

  lemma MarkerPublished(acts: seq<Act>) returns (more: seq<Act>)
    requires BreaksCarefully(acts) && Run(acts).dead == {} && Run(acts).marker == None
    requires At(Run(acts), 2) == PublishMarker(2) && At(Run(acts), 1) == Holding && Run(acts).lock == Some(File(1, 2))
    ensures BreaksCarefully(more) && Run(more).dead == {} && Run(more).marker == Some(2)
    ensures At(Run(more), 2) == ReadCurrent(2, 2) && At(Run(more), 1) == Holding && Owner(Run(more).lock) == Some(1)
  {
    more := Extend(acts, Move(2, 0));
    more := Extend(more, Move(2, 0));
  }

  lemma ReleasedUnderTheRead(acts: seq<Act>) returns (more: seq<Act>)
    requires BreaksCarefully(acts) && Run(acts).dead == {} && Run(acts).marker == Some(2)
    requires At(Run(acts), 2) == ReadCurrent(2, 2) && At(Run(acts), 1) == Holding && Owner(Run(acts).lock) == Some(1)
    ensures BreaksCarefully(more)
    ensures Holds(Run(more), 1) && Holds(Run(more), 2)
  {
    more := GiveBack(acts, 1);
    more := Extend(more, Move(2, 0));
    assert At(Run(more), 2) == JudgeCurrent(2, 2, None, false);
    more := Take(more, 1, 3);
    more := Extend(more, Move(2, 0));
    more := UnlinkAndTake(more, 2);
  }

  lemma LeaveTheMarker(acts: seq<Act>, p: Pid) returns (more: seq<Act>)
    requires p !in Run(acts).dead && At(Run(acts), p) == LeaveMarker
    ensures AsCareful(acts, more) && At(Run(more), p) == Publish
    ensures Run(more).dead == Run(acts).dead && Run(more).lock == Run(acts).lock
    ensures forall q: Pid :: q != p ==> At(Run(more), q) == At(Run(acts), q)
  {
    more := Extend(acts, Move(p, 0));
    if Run(acts).marker == Some(p) {
      more := Extend(more, Move(p, 0));
    }
  }

  lemma PublishLock(acts: seq<Act>, p: Pid) returns (more: seq<Act>)
    requires p !in Run(acts).dead && At(Run(acts), p) == Publish && Run(acts).lock == None
    ensures OnlyLock(Run(acts), Run(more), p) && AsCareful(acts, more)
    ensures At(Run(more), p) == Holding && Run(more).lock == Some(File(p, p))
  {
    more := Extend(acts, Move(p, p));
  }

  /** From the unlink inside the marker to the lock: unlink, leave the marker, publish. */
  lemma UnlinkAndTake(acts: seq<Act>, p: Pid) returns (more: seq<Act>)
    requires p !in Run(acts).dead && At(Run(acts), p) == Unlink
    ensures AsCareful(acts, more) && Holds(Run(more), p)
    ensures Run(more).dead == Run(acts).dead && Run(more).lock == Some(File(p, p))
    ensures forall q: Pid :: q != p ==> At(Run(more), q) == At(Run(acts), q)
  {
    more := Extend(acts, Move(p, 0));
    assert Run(more).lock == None && At(Run(more), p) == LeaveMarker;
    more := LeaveTheMarker(more, p);
    more := PublishLock(more, p);
  }

  /** Nothing but `p`'s own position differs. */
  ghost predicate OnlyPosition(s: State, s': State, p: Pid)
  {
    OnlyLock(s, s', p) && s'.lock == s.lock
  }

  /** A contender at its exclusive create, and the lock file a dead process's. */
  ghost predicate Contends(s: State, p: Pid)
  {
    p !in s.dead && At(s, p) == Publish && s.lock.Some? && s.lock.value.owner in s.dead
  }

  lemma Approach(acts: seq<Act>, p: Pid) returns (more: seq<Act>)
    requires Contends(Run(acts), p)
    ensures OnlyPosition(Run(acts), Run(more), p) && AsCareful(acts, more)
    ensures At(Run(more), p) == PublishMarker(Run(acts).lock.value.id)
  {
    more := Extend(acts, Move(p, 0));
    more := Extend(more, Move(p, 0));
    assert At(Run(more), p) == StatLock(Owner(Run(acts).lock));
    more := Extend(more, Move(p, 0));
    more := Extend(more, Move(p, 0));
  }

  /** A contender that meets a dead process's marker decides to break it. */
  lemma MeetMarker(acts: seq<Act>, p: Pid) returns (more: seq<Act>)
    requires Contends(Run(acts), p) && Run(acts).marker.Some? && Run(acts).marker.value in Run(acts).dead
    ensures OnlyPosition(Run(acts), Run(more), p) && AsCareful(acts, more)
    ensures At(Run(more), p) == BreakMarker
  {
    more := Approach(acts, p);
    more := Extend(more, Move(p, 0));
    more := Extend(more, Move(p, 0));
    more := Extend(more, Move(p, 0));
  }

  /** A contender that wins the marker reads the dead holder again and decides to unlink. */
  lemma EnterMarker(acts: seq<Act>, p: Pid) returns (more: seq<Act>)
    requires Contends(Run(acts), p) && Run(acts).marker == None
    ensures AsCareful(acts, more) && Run(more).dead == Run(acts).dead && Run(more).lock == Run(acts).lock
    ensures forall q: Pid :: q != p ==> At(Run(more), q) == At(Run(acts), q)
    ensures At(Run(more), p) == Unlink
  {
    var id := Run(acts).lock.value.id;
    more := Approach(acts, p);
    more := Extend(more, Move(p, 0));
    more := Extend(more, Move(p, 0));
    assert At(Run(more), p) == ReadCurrent(id, id);
    more := Extend(more, Move(p, 0));
    assert At(Run(more), p) == JudgeCurrent(id, id, Owner(Run(acts).lock), true);
    more := Extend(more, Move(p, 0));
  }

  /** A holder dies, and so does the contender that had entered the reclaim section after it. */
  lemma TwoCrashes() returns (acts: seq<Act>)
    ensures ReclaimsCarefully(acts) && Run(acts).dead == {0, 2}
    ensures Run(acts).lock == Some(File(0, 0)) && Run(acts).marker == Some(2)
    ensures At(Run(acts), 1) == Idle && At(Run(acts), 3) == Idle
  {
    acts := Take([], 0, 0);
    assert Run([]) == State(None, None, {}, map[]);
    assert At(Run(acts), 1) == Idle && At(Run(acts), 2) == Idle && At(Run(acts), 3) == Idle;
    acts := Extend(acts, Die(0));
    assert Run(acts).dead == {0} && At(Run(acts), 2) == Idle;
    acts := Extend(acts, Move(2, 0));
    assert Contends(Run(acts), 2);
    acts := CrashInTheMarker(acts);
  }

  lemma CrashInTheMarker(acts: seq<Act>) returns (more: seq<Act>)
    requires ReclaimsCarefully(acts) && Contends(Run(acts), 2) && Run(acts).marker == None && Run(acts).dead == {0}
    requires Run(acts).lock == Some(File(0, 0))
    requires At(Run(acts), 1) == Idle && At(Run(acts), 3) == Idle
    ensures ReclaimsCarefully(more) && Run(more).dead == {0, 2}
    ensures Run(more).lock == Some(File(0, 0)) && Run(more).marker == Some(2)
    ensures At(Run(more), 1) == Idle && At(Run(more), 3) == Idle
  {
    more := Approach(acts, 2);
    more := Extend(more, Move(2, 0));
    assert Run(more).marker == Some(2);
    more := Extend(more, Die(2));
    assert Run(more).dead == {0, 2};
  }

  /** A contender that judged a dead process's marker, and removes the live one that came after it:
      two contenders are inside the reclaim section at once, and the slower one unlinks the lock the
      faster one has taken. Every unlink here follows a read that found the dead holder. */
  lemma BreakOfALiveMarker() returns (acts: seq<Act>)
    ensures ReclaimsCarefully(acts)
    ensures Holds(Run(acts), 1) && Holds(Run(acts), 3)
  {
    acts := TwoCrashes();
    acts := Extend(acts, Move(1, 0));
    acts := Extend(acts, Move(3, 0));
    acts := MeetMarker(acts, 1);
    acts := MeetMarker(acts, 3);
    acts := BreakOfALiveMarkerRest(acts);
  }

  lemma BreakOfALiveMarkerRest(acts: seq<Act>) returns (more: seq<Act>)
    requires ReclaimsCarefully(acts) && 1 !in Run(acts).dead && 3 !in Run(acts).dead
    requires Run(acts).lock.Some? && Run(acts).lock.value.owner in Run(acts).dead
    requires At(Run(acts), 1) == BreakMarker && At(Run(acts), 3) == BreakMarker
    ensures ReclaimsCarefully(more)
    ensures Holds(Run(more), 1) && Holds(Run(more), 3)
  {
    more := Extend(acts, Move(1, 0));
    more := EnterMarker(more, 1);
    more := Extend(more, Move(3, 0));
    more := EnterMarker(more, 3);
    more := UnlinkAndTake(more, 3);
    more := UnlinkAndTake(more, 1);
  }

  // ----- so both have to stay shut --------------------------------------------------------

  /** A run that keeps the chosen windows shut. */
  ghost predicate Shut(acts: seq<Act>, reclaim: bool, marker: bool)
  {
    (reclaim ==> ReclaimsCarefully(acts)) && (marker ==> BreaksCarefully(acts))
  }

  ghost predicate Exclusive(acts: seq<Act>)
  {
    forall p: Pid, q: Pid :: Holds(Run(acts), p) && Holds(Run(acts), q) ==> p == q
  }

  ghost predicate HoldersOwn(acts: seq<Act>)
  {
    forall p: Pid :: Holds(Run(acts), p) ==> Owner(Run(acts).lock) == Some(p)
  }

  /** Of the two windows, exactly when both are kept shut is the lock exclusive in every run, and is
      no live holder's lock ever taken away. */
  lemma ExclusiveExactly(reclaim: bool, marker: bool)
    ensures (forall acts :: Shut(acts, reclaim, marker) ==> Exclusive(acts)) <==> reclaim && marker
    ensures (forall acts :: Shut(acts, reclaim, marker) ==> HoldersOwn(acts)) <==> reclaim && marker
  {
    if reclaim && marker {
      forall acts | Shut(acts, reclaim, marker) ensures Exclusive(acts) && HoldersOwn(acts) { RunKeepsInv(acts); }
    } else if !reclaim {
      var acts := ReclaimOfALiveLock();
      assert Shut(acts, reclaim, marker) && !Exclusive(acts) && !HoldersOwn(acts);
    } else {
      var acts := BreakOfALiveMarker();
      assert Shut(acts, reclaim, marker) && !Exclusive(acts) && !HoldersOwn(acts);
    }
  }

  // ----- what a process left to itself does -----------------------------------------------

  /** `n` calls of `p` and nobody else's. */
  function Alone(s: State, p: Pid, id: nat, n: nat): State
    decreases n
  {
    if n == 0 then s else Alone(Next(s, Move(p, id)), p, id, n - 1)
  }

  lemma {:induction false} AloneTwice(s: State, p: Pid, id: nat, m: nat, n: nat)
    ensures Alone(s, p, id, m + n) == Alone(Alone(s, p, id, m), p, id, n)
    decreases m
  {
    if m > 0 { AloneTwice(Next(s, Move(p, id)), p, id, m - 1, n); }
  }

  /** `p` has come from one place to another, and neither file, nor who lives, nor anyone else's place
      has changed but as said. */
  ghost predicate Arrives(s: State, s': State, p: Pid, pc: Pc, lock: Option<File>, marker: Option<Pid>)
  {
    && At(s', p) == pc && s'.lock == lock && s'.marker == marker && s'.dead == s.dead
    && forall q: Pid :: q != p ==> At(s', q) == At(s, q)
  }

  /** A free lock is taken. */
  lemma FreeLockIsTaken(s: State, p: Pid, id: nat)
    requires p !in s.dead && At(s, p) == Idle && s.lock == None
    ensures Arrives(s, Alone(s, p, id, 2), p, Holding, Some(File(p, id)), s.marker)
  {
    var a := Next(s, Move(p, id));
    assert Alone(s, p, id, 2) == Alone(a, p, id, 1) == Alone(Next(a, Move(p, id)), p, id, 0);
  }

  /** A live holder's lock is refused, and left as it is. */
  lemma LiveLockIsRefused(s: State, p: Pid, id: nat)
    requires p !in s.dead && At(s, p) == Publish && s.lock.Some? && s.lock.value.owner !in s.dead
    ensures Arrives(s, Alone(s, p, id, 4), p, Idle, s.lock, s.marker)
  {
    var a := Next(s, Move(p, id));
    var b := Next(a, Move(p, id));
    var c := Next(b, Move(p, id));
    assert Alone(s, p, id, 4) == Alone(a, p, id, 3) == Alone(b, p, id, 2) == Alone(c, p, id, 1);
    assert Alone(c, p, id, 1) == Alone(Next(c, Move(p, id)), p, id, 0);
  }

  lemma DeadLockIsJudged(s: State, p: Pid, id: nat)
    requires p !in s.dead && At(s, p) == Publish && s.lock.Some? && s.lock.value.owner in s.dead
    ensures Arrives(s, Alone(s, p, id, 4), p, PublishMarker(s.lock.value.id), s.lock, s.marker)
  {
    var a := Next(s, Move(p, id));
    var b := Next(a, Move(p, id));
    var c := Next(b, Move(p, id));
    assert Alone(s, p, id, 4) == Alone(a, p, id, 3) == Alone(b, p, id, 2) == Alone(c, p, id, 1);
    assert Alone(c, p, id, 1) == Alone(Next(c, Move(p, id)), p, id, 0);
  }

  /** Inside the marker the lock is removed exactly when its holder is gone and it is still the file that
      was observed; either way the marker is given back. */
  lemma MarkerIsGivenBack(s: State, p: Pid, id: nat, observed: nat)
    requires p !in s.dead && At(s, p) == PublishMarker(observed) && s.marker == None && s.lock.Some?
    ensures var stale := s.lock.value.owner in s.dead && s.lock.value.id == observed;
            Arrives(s, Alone(s, p, id, if stale then 7 else 6), p, Publish, if stale then None else s.lock, None)
  {
    var a := Next(s, Move(p, id));
    var b := Next(a, Move(p, id));
    var c := Next(b, Move(p, id));
    var d := Next(c, Move(p, id));
    assert At(a, p) == StatCurrent(observed) && At(b, p) == ReadCurrent(observed, s.lock.value.id);
    assert At(c, p).JudgeCurrent?;
    var stale := s.lock.value.owner in s.dead && s.lock.value.id == observed;
    assert At(d, p) == if stale then Unlink else LeaveMarker;
    AloneFour(s, p, id);
    AloneTwice(s, p, id, 4, if stale then 3 else 2);
    LeavesTheMarker(d, p, id);
  }

  lemma AloneFour(s: State, p: Pid, id: nat)
    ensures var a := Next(Next(s, Move(p, id)), Move(p, id));
            Alone(s, p, id, 4) == Next(Next(a, Move(p, id)), Move(p, id))
  {
    var a := Next(s, Move(p, id));
    var b := Next(a, Move(p, id));
    var c := Next(b, Move(p, id));
    assert Alone(s, p, id, 4) == Alone(a, p, id, 3) == Alone(b, p, id, 2) == Alone(c, p, id, 1);
    assert Alone(c, p, id, 1) == Alone(Next(c, Move(p, id)), p, id, 0);
  }

  lemma LeavesTheMarker(s: State, p: Pid, id: nat)
    requires p !in s.dead && s.marker == Some(p) && (At(s, p) == Unlink || At(s, p) == LeaveMarker)
    ensures At(s, p) == Unlink ==> Arrives(s, Alone(s, p, id, 3), p, Publish, None, None)
    ensures At(s, p) == LeaveMarker ==> Arrives(s, Alone(s, p, id, 2), p, Publish, s.lock, None)
  {
    var a := Next(s, Move(p, id));
    var b := Next(a, Move(p, id));
    assert Alone(s, p, id, 3) == Alone(a, p, id, 2) == Alone(b, p, id, 1) == Alone(Next(b, Move(p, id)), p, id, 0);
    assert Alone(s, p, id, 2) == Alone(a, p, id, 1) == Alone(b, p, id, 0);
  }

  /** A marker that stands is left to a live owner and broken for a dead one; the caller tries again. */
  lemma OthersMarker(s: State, p: Pid, id: nat, observed: nat)
    requires p !in s.dead && At(s, p) == PublishMarker(observed) && s.marker.Some?
    ensures var dead := s.marker.value in s.dead;
            Arrives(s, Alone(s, p, id, if dead then 4 else 3), p, Publish, s.lock, if dead then None else s.marker)
  {
    var a := Next(s, Move(p, id));
    var b := Next(a, Move(p, id));
    var c := Next(b, Move(p, id));
    AloneFour(s, p, id);
    assert Alone(s, p, id, 3) == Alone(a, p, id, 2) == Alone(b, p, id, 1) == Alone(c, p, id, 0);
  }

  /** A dead holder's lock is taken over, with no marker left behind, whoever crashed in the marker before. */
  lemma DeadLockIsTakenOver(s: State, p: Pid, id: nat) returns (n: nat)
    requires p !in s.dead && At(s, p) == Publish && s.lock.Some? && s.lock.value.owner in s.dead
    requires s.marker.Some? ==> s.marker.value in s.dead
    ensures Arrives(s, Alone(s, p, id, n), p, Holding, Some(File(p, id)), None)
  {
    n := 12;
    if s.marker.None? {
      UnmarkedIsTakenOver(s, p, id);
    } else {
      DeadMarkerIsBroken(s, p, id);
      UnmarkedIsTakenOver(Alone(s, p, id, 8), p, id);
      AloneTwice(s, p, id, 8, 12);
      n := 20;
    }
  }

  lemma DeadMarkerIsBroken(s: State, p: Pid, id: nat)
    requires p !in s.dead && At(s, p) == Publish && s.lock.Some? && s.lock.value.owner in s.dead
    requires s.marker.Some? && s.marker.value in s.dead
    ensures Arrives(s, Alone(s, p, id, 8), p, Publish, s.lock, None)
  {
    DeadLockIsJudged(s, p, id);
    OthersMarker(Alone(s, p, id, 4), p, id, s.lock.value.id);
    AloneTwice(s, p, id, 4, 4);
  }

  lemma UnmarkedIsTakenOver(s: State, p: Pid, id: nat)
    requires p !in s.dead && At(s, p) == Publish && s.lock.Some? && s.lock.value.owner in s.dead
    requires s.marker == None
    ensures Arrives(s, Alone(s, p, id, 12), p, Holding, Some(File(p, id)), None)
  {
    DeadLockIsJudged(s, p, id);
    MarkerIsGivenBack(Alone(s, p, id, 4), p, id, s.lock.value.id);
    AloneTwice(s, p, id, 4, 7);
    FreeIsPublished(Alone(s, p, id, 11), p, id);
    AloneTwice(s, p, id, 11, 1);
  }

  lemma FreeIsPublished(s: State, p: Pid, id: nat)
    requires p !in s.dead && At(s, p) == Publish && s.lock == None
    ensures Arrives(s, Alone(s, p, id, 1), p, Holding, Some(File(p, id)), s.marker)
  {
    assert Alone(s, p, id, 1) == Alone(Next(s, Move(p, id)), p, id, 0);
  }

  /** Giving the lock back removes the file when it is the holder's own, and only then. */
  lemma ReleaseRemovesItsOwn(s: State, p: Pid, id: nat)
    requires p !in s.dead && At(s, p) == Holding
    ensures var own := s.lock.Some? && s.lock.value.owner == p;
            Arrives(s, Alone(s, p, id, if own then 3 else 2), p, Idle, if own then None else s.lock, s.marker)
  {
    var a := Next(s, Move(p, id));
    var b := Next(a, Move(p, id));
    var c := Next(b, Move(p, id));
    assert Alone(s, p, id, 3) == Alone(a, p, id, 2) == Alone(b, p, id, 1) == Alone(c, p, id, 0);
    assert Alone(s, p, id, 2) == Alone(a, p, id, 1) == Alone(b, p, id, 0);
  }

  /** A bounded retry loop ends only between two tries, and leaves nothing changed but its place; the dead
      do nothing, and a death changes no file. */
  lemma GivingUpAndDying(s: State, a: Act)
    ensures a.p in s.dead ==> Next(s, a) == s
    ensures a.GiveUp? && At(s, a.p) != Publish ==> Next(s, a) == s
    ensures a.GiveUp? && a.p !in s.dead && At(s, a.p) == Publish ==>
              Arrives(s, Next(s, a), a.p, Idle, s.lock, s.marker)
    ensures a.Die? && a.p !in s.dead ==> Next(s, a) == s.(dead := s.dead + {a.p})
  {
  }
}
