/**
 What wait, fork, kill, sleep locks and the scheduler give their callers (kernel/proc.c,
 kernel/sleeplock.c), in every run.
 */
module KernelCalls {
  import opened Kernel
  import opened KernelSafety
  import opened KernelTheorems

  // ------------------------------------------------------------------------- invariants

  ghost predicate ChildBelow(s: State, p: int, j: nat) {
    exists q: nat :: q < j && q < |s.procs| && s.procs[q].parent == p
  }

  /** wait's flag says whether the part of the table it has seen holds a child. */
  ghost predicate ScanKids(s: State, p: nat)
    requires p < |s.procs|
  {
    s.procs[p].pc.WaitScan? ==> (s.procs[p].pc.kids <==> ChildBelow(s, p, s.procs[p].pc.j))
  }

  /** The process wait looks at is a child. */
  ghost predicate LockedKid(s: State, p: nat)
    requires p < |s.procs|
  {
    s.procs[p].pc.WaitLocked? ==> s.procs[p].pc.j < |s.procs| && s.procs[s.procs[p].pc.j].parent == p
  }

  /** The slot fork fills has no parent, and then this one. */
  ghost predicate NewKid(s: State, p: nat)
    requires p < |s.procs|
  {
    var at := Place(s.procs[p].pc);
    && (at.ForkHave? || at.ForkNamed? || at.ForkParent? ==> at.j < |s.procs| && s.procs[at.j].parent == -1)
    && (at.ForkReady? || at.ForkRun? ==> at.j < |s.procs| && s.procs[at.j].parent == p)
  }

  /** Who is not there, or is leaving, has no sleep lock. */
  ghost predicate Plain(s: State, i: nat)
    requires i < |s.procs|
  {
    var q := s.procs[i];
    && (q.st == Unused ==> q.parent == -1)
    && (q.st == Unused || q.st == Used || q.st == Zombie || ExitPlace(q.pc) ==> q.has == {})
  }

  ghost predicate HasOwner(s: State, l: nat) {
    exists p: nat :: p < |s.procs| && l in s.procs[p].has
  }

  ghost predicate CallInv(s: State) {
    && (forall p: nat :: p < |s.procs| ==> ScanKids(s, p) && LockedKid(s, p) && NewKid(s, p) && Plain(s, p))
    && (forall l: nat :: l < |s.locks| && s.locks[l].locked ==> HasOwner(s, l))
  }

  // ------------------------------------------------------------------------ how parents change

  /** Where a parent pointer can change. */
  ghost predicate ParentChange(s: State, t: State, a: nat, q: nat)
    requires a < |s.procs| && SameShape(s, t) && q < |s.procs|
  {
    var pc := s.procs[a].pc;
    || (pc.Reparenting? && pc.j == q && s.procs[q].parent == a)
    || (pc == ForkParent(q) && t.procs[q].parent == a && s.procs[q].st == Used)
    || (t.procs[q].st == Unused && s.procs[q].st != Unused && t.procs[q].parent == -1
        && ((pc == WaitLocked(q) && t.procs[a].pc == WaitGot(q)) || pc == ForkHave(q)))
  }

  lemma ParentOf(s: State, t: State, a: nat, q: nat)
    requires Effect(s, t, a) && q < |s.procs| && Plain(s, q)
    ensures t.procs[q].parent == s.procs[q].parent || ParentChange(s, t, a, q)
  {
    hide OthersQuiet, Own, PidMoves;
    assert ParentMoves(s, t, a, q) && FreeMoves(s, t, a, q);
  }

  /** Parents stay as they are for a process that holds wait_lock while others step. */
  lemma ParentsStay(s: State, t: State, a: nat, i: nat, q: nat)
    requires BaseInv(s) && CallInv(s) && Effect(s, t, a) && i < |s.procs| && i != a && q < |s.procs|
    requires WaitLock in Holds(s.procs[i].pc, i)
    ensures t.procs[q].parent == s.procs[q].parent
  {
    hide BaseInv, Effect;
    EffectShape(s, t, a);
    assert NewKid(s, a) && Plain(s, q);
    ParentOf(s, t, a, q);
    if WaitLock in Holds(s.procs[a].pc, a) {
      OneHolder(s, a, i, WaitLock);
    }
  }

  // --------------------------------------------------------------------------- wait

  lemma SameKids(s: State, t: State, p: nat, j: nat)
    requires |s.procs| == |t.procs| && forall q: nat :: q < |s.procs| ==> t.procs[q].parent == s.procs[q].parent
    ensures ChildBelow(t, p, j) == ChildBelow(s, p, j)
  {
  }

  lemma OtherScanKids(s: State, t: State, a: nat, i: nat)
    requires BaseInv(s) && CallInv(s) && Effect(s, t, a) && i < |s.procs| && i != a && i < |t.procs|
    ensures ScanKids(t, i) && LockedKid(t, i)
  {
    hide BaseInv, CallInv, Effect, ChildBelow;
    SamePc(s, t, a, i);
    if t.procs[i].pc.WaitScan? || t.procs[i].pc.WaitLocked? {
      forall q: nat | q < |s.procs| ensures |t.procs| == |s.procs| && t.procs[q].parent == s.procs[q].parent {
        ParentsStay(s, t, a, i, q);
        EffectShape(s, t, a);
      }
      CallParts(s, i);
      if t.procs[i].pc.WaitScan? {
        SameKids(s, t, i, t.procs[i].pc.j);
      }
    }
  }

  lemma CallParts(s: State, i: nat)
    requires CallInv(s) && i < |s.procs|
    ensures ScanKids(s, i) && LockedKid(s, i) && NewKid(s, i) && Plain(s, i)
  {
  }

  /** Another process is where it was, unless it has no thread. */
  lemma SamePc(s: State, t: State, a: nat, i: nat)
    requires Effect(s, t, a) && i < |s.procs| && i != a && i < |t.procs|
    ensures t.procs[i].pc == s.procs[i].pc || (Blank(t.procs[i].pc) && Blank(s.procs[i].pc))
    ensures t.procs[i].has == s.procs[i].has || (t.procs[i].has == {} && t.procs[i].pc == Off(NoThread))
  {
    hide Own, Shared;
    assert Quiet(s.procs[i], t.procs[i]);
  }

  /** How a search of the table goes on. */
  lemma ScanFrom(s: State, t: State, a: nat)
    requires Effect(s, t, a) && t.procs[a].pc.WaitScan? && t != s
    ensures var WaitScan(j, kids) := t.procs[a].pc;
            || (j == 0 && !kids)
            || (0 < j <= |s.procs| && s.procs[a].pc == WaitScan(j - 1, kids) && s.procs[j - 1].parent != a)
            || (0 < j <= |s.procs| && s.procs[a].pc == WaitLocked(j - 1) && kids)
  {
    hide OthersQuiet, Shared, OwnData, CameSleep, CameWake, CameSleepLock, CameMonitor, CameExit, CameFork;
  }

  lemma LockedFrom(s: State, t: State, a: nat)
    requires Effect(s, t, a) && t.procs[a].pc.WaitLocked? && t != s
    ensures s.procs[a].pc.WaitScan? && t.procs[a].pc.j < |s.procs| && s.procs[t.procs[a].pc.j].parent == a
  {
    hide OthersQuiet, Shared, OwnData, CameSleep, CameWake, CameSleepLock, CameMonitor, CameExit, CameFork;
  }

  /** A step from here to there changes no parent. */
  lemma QuietParents(s: State, t: State, a: nat)
    requires Effect(s, t, a) && CallInv(s) && (s.procs[a].pc.WaitScan? || s.procs[a].pc.WaitLocked?)
    requires !t.procs[a].pc.WaitGot?
    ensures forall q: nat :: q < |s.procs| ==> t.procs[q].parent == s.procs[q].parent
  {
    hide Effect, CallInv;
    EffectShape(s, t, a);
    forall q: nat | q < |s.procs| ensures t.procs[q].parent == s.procs[q].parent {
      CallParts(s, q);
      ParentOf(s, t, a, q);
    }
  }

  lemma OwnScanKids(s: State, t: State, a: nat)
    requires CallInv(s) && Effect(s, t, a)
    ensures ScanKids(t, a) && LockedKid(t, a)
  {
    hide CallInv, Effect, ChildBelow;
    EffectShape(s, t, a);
    CallParts(s, a);
    if t != s && t.procs[a].pc.WaitScan? {
      ScanFrom(s, t, a);
      NextKids(s, t, a);
    } else if t != s && t.procs[a].pc.WaitLocked? {
      LockedFrom(s, t, a);
      QuietParents(s, t, a);
    }
  }

  lemma NextKids(s: State, t: State, a: nat)
    requires CallInv(s) && Effect(s, t, a) && t.procs[a].pc.WaitScan?
    requires var WaitScan(j, kids) := t.procs[a].pc;
             || (j == 0 && !kids)
             || (0 < j <= |s.procs| && s.procs[a].pc == WaitScan(j - 1, kids) && s.procs[j - 1].parent != a)
             || (0 < j <= |s.procs| && s.procs[a].pc == WaitLocked(j - 1) && kids)
    ensures ScanKids(t, a)
  {
    hide Effect, CallInv;
    EffectShape(s, t, a);
    CallParts(s, a);
    var WaitScan(j, kids) := t.procs[a].pc;
    if j > 0 {
      QuietParents(s, t, a);
      SameKids(s, t, a, j);
      if s.procs[a].pc.WaitScan? {
        assert ChildBelow(s, a, j) == ChildBelow(s, a, j - 1);
      } else {
        assert s.procs[j - 1].parent == a;
      }
    }
  }

  // --------------------------------------------------------------------------- fork

  /** The slot of another process's fork keeps its parent. */
  lemma OtherNewKid(s: State, t: State, a: nat, i: nat)
    requires BaseInv(s) && ForkInv(s) && ForkInv(t) && CallInv(s) && Effect(s, t, a)
    requires i < |s.procs| && i != a && i < |t.procs|
    ensures NewKid(t, i)
  {
    hide BaseInv, CallInv, Effect, ForkInv, ForkSlot;
    EffectShape(s, t, a);
    SamePc(s, t, a, i);
    CallParts(s, i);
    var j := ForkSlot(t.procs[i].pc);
    if j == -1 {
      NoSlotNoKid(t, i);
    } else {
      SlotNow(t, i);
      SlotNow(s, i);
      SameSlot(s, t, i);
      SlotsApart(s, a, i);
      CallParts(s, j);
      ParentOf(s, t, a, j);
      SlotStays(s, t, a, i, j);
    }
  }

  lemma NoSlotNoKid(t: State, i: nat)
    requires i < |t.procs| && ForkSlot(t.procs[i].pc) == -1
    ensures NewKid(t, i)
  {
  }

  lemma SameSlot(s: State, t: State, i: nat)
    requires i < |s.procs| && i < |t.procs|
    requires t.procs[i].pc == s.procs[i].pc || (Blank(t.procs[i].pc) && Blank(s.procs[i].pc))
    ensures ForkSlot(t.procs[i].pc) == ForkSlot(s.procs[i].pc)
    ensures ForkSlot(t.procs[i].pc) != -1 ==> t.procs[i].pc == s.procs[i].pc
  {
  }

  lemma SlotsApart(s: State, a: nat, i: nat)
    requires ForkInv(s) && a < |s.procs| && i < |s.procs| && a != i && ForkSlot(s.procs[i].pc) != -1
    ensures ForkSlot(s.procs[a].pc) != ForkSlot(s.procs[i].pc)
  {
    hide ForkSlot;
  }

  lemma SlotStays(s: State, t: State, a: nat, i: nat, j: nat)
    requires a < |s.procs| && i < |s.procs| && i < |t.procs| && i != a && SameShape(s, t) && NewKid(s, i)
    requires t.procs[i].pc == s.procs[i].pc && ForkSlot(s.procs[i].pc) == j < |s.procs| && t.procs[j].st == Used
    requires ForkSlot(s.procs[a].pc) != j
    requires t.procs[j].parent == s.procs[j].parent || ParentChange(s, t, a, j)
    ensures NewKid(t, i)
  {
  }

  /** How fork goes on. */
  ghost predicate ForkNext(s: State, t: State, a: nat, was: Pc, at: Pc)
    requires |s.procs| == |t.procs|
  {
    || at == was
    || (at.ForkHave? && was == ForkLocked(at.j) && at.j < |s.procs| && s.procs[at.j].st == Unused)
    || (at.ForkNamed? && was == ForkHave(at.j)) || (at.ForkParent? && was == ForkNamed(at.j))
    || (at.ForkReady? && was == ForkParent(at.j) && (at.j < |s.procs| ==> t.procs[at.j].parent == a))
    || (at.ForkRun? && was == ForkReady(at.j))
  }

  lemma ForkFrom(s: State, t: State, a: nat)
    requires Effect(s, t, a) && ForkSlot(t.procs[a].pc) != -1
    ensures ForkNext(s, t, a, Place(s.procs[a].pc), Place(t.procs[a].pc))
  {
    hide Effect, ForkNext;
    EffectShape(s, t, a);
    if ForkStep(t.procs[a].pc) {
      ForkerFrom(s, t, a);
    } else {
      PreemptedFrom(s, t, a);
    }
  }

  lemma ForkerFrom(s: State, t: State, a: nat)
    requires Effect(s, t, a) && ForkStep(t.procs[a].pc) && !t.procs[a].pc.ForkLocked?
    ensures ForkNext(s, t, a, Place(s.procs[a].pc), Place(t.procs[a].pc))
  {
    hide OthersQuiet, Shared, OwnData, CameSleep, CameWake, CameSleepLock, CameMonitor, CameExit, CameWait;
  }

  lemma PreemptedFrom(s: State, t: State, a: nat)
    requires Effect(s, t, a) && !ForkStep(t.procs[a].pc) && ForkSlot(t.procs[a].pc) != -1
    ensures Place(t.procs[a].pc) == Place(s.procs[a].pc)
    ensures ForkNext(s, t, a, Place(s.procs[a].pc), Place(t.procs[a].pc))
  {
    hide OthersQuiet, Shared, OwnData, CameFork, CameWake, CameSleepLock, CameMonitor, CameExit, CameWait;
  }

  lemma OwnNewKid(s: State, t: State, a: nat)
    requires BaseInv(s) && ForkInv(s) && ForkInv(t) && CallInv(s) && Effect(s, t, a)
    ensures NewKid(t, a)
  {
    hide BaseInv, CallInv, Effect;
    EffectShape(s, t, a);
    CallParts(s, a);
    var j := ForkSlot(t.procs[a].pc);
    if j != -1 && t != s {
      SlotNow(t, a);
      ForkFrom(s, t, a);
      CallParts(s, j);
      ParentOf(s, t, a, j);
      if s.procs[a].pc.ForkParent? {
        ForkParentNext(s, t, a);
      }
    }
  }

  lemma ForkParentNext(s: State, t: State, a: nat)
    requires Effect(s, t, a) && s.procs[a].pc.ForkParent? && t != s
    ensures Place(t.procs[a].pc) != s.procs[a].pc
  {
    hide OthersQuiet, Shared, OwnData, CameWake, CameSleepLock, CameMonitor, CameExit, CameWait;
  }

  // ------------------------------------------------------------------------ sleep locks

  lemma OtherPlain(s: State, t: State, a: nat, i: nat)
    requires BaseInv(t) && ForkInv(s) && Effect(s, t, a) && i < |s.procs| && Plain(s, i) && i != a && i < |t.procs|
    ensures Plain(t, i)
  {
    hide BaseInv, ForkInv, Effect;
    MeOk(t, i);
    if t.procs[i].st == Unused {
      OtherParent(s, t, a, i);
    }
    OtherHas(s, t, a, i);
  }

  lemma OtherHas(s: State, t: State, a: nat, i: nat)
    requires Effect(s, t, a) && i < |s.procs| && Plain(s, i) && i != a && i < |t.procs| && ProcOk(t, i, t.procs[i])
    ensures var q := t.procs[i];
            q.st == Unused || q.st == Used || q.st == Zombie || ExitPlace(q.pc) ==> q.has == {}
  {
    hide Own, Shared;
    assert Quiet(s.procs[i], t.procs[i]);
  }

  /** An unused slot has no parent. */
  lemma OtherParent(s: State, t: State, a: nat, i: nat)
    requires ForkInv(s) && Effect(s, t, a) && i < |s.procs| && Plain(s, i) && i < |t.procs| && t.procs[i].st == Unused
    ensures t.procs[i].parent == -1
  {
    hide ForkInv, OthersQuiet, Own, PidMoves;
    assert ParentMoves(s, t, a, i) && FreeMoves(s, t, a, i);
  }

  /** A process that is leaving came to it without a sleep lock, and takes none. */
  lemma OwnPlain(s: State, t: State, a: nat)
    requires BaseInv(s) && BaseInv(t) && Effect(s, t, a) && Plain(s, a)
    ensures Plain(t, a)
  {
    hide BaseInv, Effect, ExitPlace;
    EffectShape(s, t, a);
    MeOk(s, a);
    MeOk(t, a);
    if t != s {
      NeverVanishes(s, t, a);
      if ExitPlace(t.procs[a].pc) {
        ExitFrom(s, t, a);
      }
      if t.procs[a].st == Zombie {
        ZombieIsExiting(t, a);
      }
    }
  }

  lemma ZombieIsExiting(t: State, a: nat)
    requires a < |t.procs| && ProcOk(t, a, t.procs[a]) && t.procs[a].st == Zombie
    ensures ExitPlace(t.procs[a].pc)
  {
  }

  /** A thread that steps is neither unused nor being made. */
  lemma NeverVanishes(s: State, t: State, a: nat)
    requires Effect(s, t, a) && t != s && ProcOk(s, a, s.procs[a]) && ProcOk(t, a, t.procs[a])
    ensures t.procs[a].st != Unused && t.procs[a].st != Used
  {
    hide OthersQuiet, Shared, OwnData, CameWake, CameSleepLock, CameMonitor, CameExit, CameWait, CameFork;
  }

  lemma ExitFrom(s: State, t: State, a: nat)
    requires Effect(s, t, a) && t != s && ExitPlace(t.procs[a].pc) && ProcOk(s, a, s.procs[a]) && Plain(s, a)
    ensures t.procs[a].has == {}
  {
    hide OthersQuiet, Shared, CameSleepLock, CameMonitor, CameWait, CameFork;
  }

  lemma OwnerKept(s: State, t: State, a: nat, l: nat)
    requires BaseInv(t) && CallInv(s) && Effect(s, t, a) && l < |s.locks| && l < |t.locks| && t.locks[l].locked
    ensures HasOwner(t, l)
  {
    hide BaseInv, Effect, CallInv;
    EffectShape(s, t, a);
    if s.locks[l].locked {
      var p := OwnerOf(s, l);
      StillHas(s, t, a, p, l);
    } else {
      JustTaken(s, t, a, l);
    }
  }

  lemma OwnerOf(s: State, l: nat) returns (p: nat)
    requires CallInv(s) && l < |s.locks| && s.locks[l].locked
    ensures p < |s.procs| && l in s.procs[p].has
  {
    assert HasOwner(s, l);
    p :| p < |s.procs| && l in s.procs[p].has;
  }

  lemma JustTaken(s: State, t: State, a: nat, l: nat)
    requires Effect(s, t, a) && l < |s.locks| && l < |t.locks| && !s.locks[l].locked && t.locks[l].locked
    ensures l in t.procs[a].has
  {
    hide OthersQuiet, Came, ParentMoves, PidMoves, FreeMoves;
  }

  /** A lock that is still locked is still its owner's. */
  lemma StillHas(s: State, t: State, a: nat, p: nat, l: nat)
    requires BaseInv(t) && CallInv(s) && Effect(s, t, a) && p < |s.procs| && p < |t.procs| && l in s.procs[p].has
    requires l < |s.locks| && l < |t.locks| && t.locks[l].locked
    ensures l in t.procs[p].has
  {
    CallParts(s, p);
    if p == a {
      hide BaseInv, OthersQuiet, Came, CallInv, ParentMoves, PidMoves, FreeMoves;
    } else {
      MeOk(t, p);
      SamePc(s, t, a, p);
      hide BaseInv, CallInv, Own, Shared;
      assert Quiet(s.procs[p], t.procs[p]);
    }
  }

  // ---------------------------------------------------------------------------- all runs

  lemma CallsKept(s: State, t: State, a: nat)
    requires BaseInv(s) && BaseInv(t) && ForkInv(s) && ForkInv(t) && CallInv(s) && Effect(s, t, a)
    ensures CallInv(t)
  {
    hide BaseInv, ForkInv, Effect, ScanKids, LockedKid, NewKid, Plain, HasOwner;
    EffectShape(s, t, a);
    forall p: nat | p < |t.procs| ensures ScanKids(t, p) && LockedKid(t, p) && NewKid(t, p) && Plain(t, p) {
      if p == a {
        OwnScanKids(s, t, a);
        OwnNewKid(s, t, a);
        OwnPlain(s, t, a);
      } else {
        OtherScanKids(s, t, a, p);
        OtherNewKid(s, t, a, p);
        OtherPlain(s, t, a, p);
      }
    }
    forall l: nat | l < |t.locks| && t.locks[l].locked ensures HasOwner(t, l) {
      OwnerKept(s, t, a, l);
    }
  }

  lemma LockOnlyCalls(s: State, t: State)
    requires CallInv(s) && LockOnly(s, t)
    ensures CallInv(t)
  {
    forall p: nat | p < |t.procs| ensures ScanKids(t, p) && LockedKid(t, p) && NewKid(t, p) && Plain(t, p) {
      CallParts(s, p);
      if t.procs[p].pc.WaitScan? {
        SameKids(s, t, p, t.procs[p].pc.j);
      }
    }
    forall l: nat | l < |t.locks| && t.locks[l].locked ensures HasOwner(t, l) {
      var p := OwnerOf(s, l);
      assert l in t.procs[p].has;
    }
  }

  lemma BootCalls(s: State)
    requires Boot(s)
    ensures CallInv(s)
  {
  }

  /** In every state of every run. */
  lemma {:induction false} RunsKeepCalls(ss: seq<State>, cs: seq<nat>, ks: seq<Pick>, i: nat)
    requires IsRun(ss, cs, ks) && i < |ss|
    ensures CallInv(ss[i])
  {
    hide Boot, Step, CallInv, BaseInv, ForkInv, WakeInv, SleepLockInv, ParentInv, WaitInv, PidInv, Effect, LockOnly;
    if i == 0 {
      BootCalls(ss[0]);
    } else {
      var j := i - 1;
      RunsKeepCalls(ss, cs, ks, j);
      RunsKeep(ss, cs, ks, j);
      RunsKeep(ss, cs, ks, i);
      var a := StepEffect(ss[j], cs[j], ks[j]);
      assert ss[j + 1] == Step(ss[j], cs[j], ks[j]);
      if LockOnly(ss[j], ss[i]) {
        LockOnlyCalls(ss[j], ss[i]);
      } else {
        CallsKept(ss[j], ss[i], a);
      }
    }
  }

  // -------------------------------------------------------------------- what the calls give

  /** Step i of a run is one of process p. */
  ghost predicate StepOf(ss: seq<State>, cs: seq<nat>, ks: seq<Pick>, i: nat, p: nat) {
    && IsRun(ss, cs, ks) && i < |cs| && p < |ss[i].procs| && p < |ss[i + 1].procs|
    && cs[i] < |ss[i].cpus| && ss[i].cpus[cs[i]] == Run(p)
  }

  ghost predicate HasChild(s: State, p: nat) {
    exists q: nat :: q < |s.procs| && s.procs[q].parent == p
  }

  /**
   At the end of its search wait goes to sleep exactly if there is a child and the process has not
   been killed, and otherwise gives up.
   */
  lemma WaitSleeps(ss: seq<State>, cs: seq<nat>, ks: seq<Pick>, i: nat, p: nat)
    requires StepOf(ss, cs, ks, i, p) && !ks[i].interrupt
    requires ss[i].procs[p].pc.WaitScan? && ss[i].procs[p].pc.j >= |ss[i].procs|
    ensures ss[i + 1].procs[p].pc ==
            if HasChild(ss[i], p) && !ks[i].fails then SleepHave(OnProc(p)) else WaitDone
  {
    hide Boot, CallInv;
    RunsKeepCalls(ss, cs, ks, i);
    CallParts(ss[i], p);
    assert HasChild(ss[i], p) <==> ChildBelow(ss[i], p, ss[i].procs[p].pc.j);
    assert ss[i + 1] == Step(ss[i], cs[i], ks[i]);
  }

  /** wait gives up only without children, or killed. */
  lemma WaitGivesUp(ss: seq<State>, cs: seq<nat>, ks: seq<Pick>, i: nat, p: nat)
    requires StepOf(ss, cs, ks, i, p) && ss[i].procs[p].pc.WaitScan? && ss[i + 1].procs[p].pc == WaitDone
    ensures ks[i].fails || !HasChild(ss[i], p)
  {
    hide Boot, CallInv;
    RunsKeepCalls(ss, cs, ks, i);
    CallParts(ss[i], p);
    assert ss[i + 1] == Step(ss[i], cs[i], ks[i]);
    assert HasChild(ss[i], p) <==> ChildBelow(ss[i], p, |ss[i].procs|);
    ScanEnds(ss[i], cs[i], ks[i], p);
  }

  lemma ScanEnds(s: State, c: nat, k: Pick, p: nat)
    requires c < |s.cpus| && s.cpus[c] == Run(p) && p < |s.procs| && s.procs[p].pc.WaitScan?
    requires p < |Step(s, c, k).procs| && Step(s, c, k).procs[p].pc == WaitDone
    ensures s.procs[p].pc.j >= |s.procs| && (k.fails || !s.procs[p].pc.kids)
    ensures ChildBelow(s, p, s.procs[p].pc.j) <==> ChildBelow(s, p, |s.procs|)
  {
  }

  /** wait returns a child of the caller that has exited, and frees it; or the copy of its status failed. */
  lemma WaitCollects(ss: seq<State>, cs: seq<nat>, ks: seq<Pick>, i: nat, p: nat)
    requires StepOf(ss, cs, ks, i, p) && ss[i].procs[p].pc.WaitLocked? && ss[i + 1].procs[p].pc.WaitGot?
    ensures var s, t, j := ss[i], ss[i + 1], ss[i].procs[p].pc.j;
            && j < |s.procs| && j < |t.procs| && s.procs[j].parent == p && s.procs[j].st == Zombie
            && (if ks[i].fails then t.procs[j] == s.procs[j] && t.collected == s.collected
                else t.procs[j].st == Unused && t.collected == s.collected + {s.procs[j].pid})
  {
    hide Boot, CallInv, Inv;
    RunsKeepCalls(ss, cs, ks, i);
    CallParts(ss[i], p);
    RunsKeep(ss, cs, ks, i);
    assert ss[i + 1] == Step(ss[i], cs[i], ks[i]);
    CollectStep(ss[i], cs[i], ks[i], p);
  }

  lemma CollectStep(s: State, c: nat, k: Pick, p: nat)
    requires Inv(s) && c < |s.cpus| && s.cpus[c] == Run(p) && p < |s.procs| && s.procs[p].pc.WaitLocked?
    requires p < |Step(s, c, k).procs| && Step(s, c, k).procs[p].pc.WaitGot? && s.procs[p].pc.j < |s.procs|
    ensures var t, j := Step(s, c, k), s.procs[p].pc.j;
            && j < |t.procs| && s.procs[j].st == Zombie
            && (if k.fails then t.procs[j] == s.procs[j] && t.collected == s.collected
                else t.procs[j].st == Unused && t.collected == s.collected + {s.procs[j].pid})
  {
    hide LockInv, RunInv, ForkInv, WakeInv, SleepLockInv, ParentInv, WaitInv, PidInv;
    MeOk(s, p);
  }

  /** wait comes to its end from there, or by giving up, and in no other way. */
  lemma WaitReturns(ss: seq<State>, cs: seq<nat>, ks: seq<Pick>, i: nat, p: nat)
    requires StepOf(ss, cs, ks, i, p) && ss[i + 1].procs[p].pc == WaitDone && ss[i].procs[p].pc != WaitDone
    ensures ss[i].procs[p].pc.WaitGot? || (ss[i].procs[p].pc.WaitScan? && (ks[i].fails || !HasChild(ss[i], p)))
  {
    hide Boot, Inv, Step, Effect;
    RunsKeep(ss, cs, ks, i);
    InvParts(ss[i]);
    var a := StepEffect(ss[i], cs[i], ks[i]);
    assert ss[i + 1] == Step(ss[i], cs[i], ks[i]);
    DoneFrom(ss[i], ss[i + 1], p);
    if ss[i].procs[p].pc.WaitScan? {
      WaitGivesUp(ss, cs, ks, i, p);
    }
  }

  lemma DoneFrom(s: State, t: State, p: nat)
    requires Effect(s, t, p) && t.procs[p].pc == WaitDone && s.procs[p].pc != WaitDone
    ensures s.procs[p].pc.WaitGot? || s.procs[p].pc.WaitScan?
  {
    hide OthersQuiet, Shared, OwnData, CameSleep, CameWake, CameSleepLock, CameMonitor, CameExit, CameFork;
  }

  /** When fork returns its child is runnable, the caller's, and has a pid no process had before. */
  lemma ForkReturns(ss: seq<State>, cs: seq<nat>, ks: seq<Pick>, i: nat, p: nat)
    requires StepOf(ss, cs, ks, i, p) && ss[i].procs[p].pc.ForkRun?
    ensures var s, t, j := ss[i], ss[i + 1], ss[i].procs[p].pc.j;
            && t.procs[p].pc == User && j < |t.procs| && j != p
            && t.procs[j].st == Runnable && t.procs[j].parent == p && t.procs[j].pid == s.procs[j].pid
            && t.procs[j].pc == Off(FirstRun)
            && (forall q: nat :: q < |t.procs| && q != j && t.procs[q].st != Unused ==>
                  t.procs[q].pid != t.procs[j].pid)
            && t.procs[j].pid !in t.exits
  {
    hide Boot, CallInv, Inv;
    RunsKeepCalls(ss, cs, ks, i);
    CallParts(ss[i], p);
    RunsKeep(ss, cs, ks, i);
    RunsKeep(ss, cs, ks, i + 1);
    assert ss[i + 1] == Step(ss[i], cs[i], ks[i]);
    ForkRunStep(ss[i], cs[i], ks[i], p);
    ChildPid(ss[i + 1], ss[i].procs[p].pc.j);
  }

  lemma ForkRunStep(s: State, c: nat, k: Pick, p: nat)
    requires Inv(s) && c < |s.cpus| && s.cpus[c] == Run(p) && p < |s.procs| && s.procs[p].pc.ForkRun?
    ensures var t, j := Step(s, c, k), s.procs[p].pc.j;
            && j < |s.procs| && j < |t.procs| && p < |t.procs| && j != p && t.procs[p].pc == User
            && t.procs[j] == s.procs[j].(st := Runnable, lock := -1) && s.procs[j].pc == Off(FirstRun)
  {
    hide LockInv, RunInv, WakeInv, SleepLockInv, ParentInv, WaitInv, PidInv;
    MeOk(s, p);
    SlotNow(s, p);
    MeOk(s, s.procs[p].pc.j);
  }

  lemma ChildPid(t: State, j: nat)
    requires Inv(t) && j < |t.procs| && t.procs[j].st == Runnable
    ensures forall q: nat :: q < |t.procs| && q != j && t.procs[q].st != Unused ==> t.procs[q].pid != t.procs[j].pid
    ensures t.procs[j].pid !in t.exits
  {
    hide BaseInv, ForkInv, WakeInv, SleepLockInv, ParentInv, WaitInv;
    assert PidOk(t, j);
    forall q: nat | q < |t.procs| && q != j && t.procs[q].st != Unused ensures t.procs[q].pid != t.procs[j].pid {
      assert PidsDiffer(t, q, j);
    }
  }

  /** fork that finds no slot or no memory leaves the slot as it was, or unused. */
  lemma ForkFails(s: State, c: nat, k: Pick, p: nat)
    requires Inv(s) && c < |s.cpus| && s.cpus[c] == Run(p) && p < |s.procs|
    requires s.procs[p].pc.ForkLocked? || s.procs[p].pc.ForkHave?
    requires p < |Step(s, c, k).procs| && Step(s, c, k).procs[p].pc == User
    ensures var t, j := Step(s, c, k), s.procs[p].pc.j;
            && j < |s.procs| && j < |t.procs|
            && (if s.procs[p].pc.ForkHave? then k.fails && t.procs[j].st == Unused
                else s.procs[j].st != Unused && t.procs[j].st == s.procs[j].st)
  {
    hide LockInv, RunInv, WakeInv, SleepLockInv, ParentInv, WaitInv, PidInv;
    MeOk(s, p);
    if s.procs[p].pc.ForkHave? {
      SlotNow(s, p);
    }
  }

  /** kill leaves its target awake, and changes nothing else of it. */
  lemma KillWakes(s: State, c: nat, k: Pick, p: nat)
    requires BaseInv(s) && c < |s.cpus| && s.cpus[c] == Run(p) && p < |s.procs| && s.procs[p].pc.KillLocked?
    ensures var t, j := Step(s, c, k), s.procs[p].pc.j;
            && j < |s.procs| && j < |t.procs| && t.procs[j].st != Sleeping
            && (t.procs[j].st == s.procs[j].st || (s.procs[j].st == Sleeping && t.procs[j].st == Runnable))
  {
    MeOk(s, p);
    hide BaseInv;
  }

  /** A sleeper stays asleep until a wakeup on its channel, or kill, reaches it. */
  lemma SleepsUntilWoken(s: State, c: nat, k: Pick, q: nat)
    requires Inv(s) && q < |s.procs| && q < |Step(s, c, k).procs| && s.procs[q].st == Sleeping
    requires Step(s, c, k).procs[q].st != Sleeping
    ensures Step(s, c, k).procs[q].st == Runnable && c < |s.cpus| && s.cpus[c].Run? && s.cpus[c].p < |s.procs|
    ensures var pc := s.procs[s.cpus[c].p].pc;
            (pc.WakingLocked? && pc.j == q && pc.ch == s.procs[q].chan) || pc == KillLocked(q)
  {
    hide Inv, Step, BaseInv, ForkInv;
    InvParts(s);
    var a := StepEffect(s, c, k);
    var t := Step(s, c, k);
    StateOf(s, t, a, q);
    if s.cpus[c] == Locked(a) {
      SwitchedIn(s, c, k, a);
    }
  }

  lemma StateOf(s: State, t: State, a: nat, q: nat)
    requires (LockOnly(s, t) || Effect(s, t, a)) && q < |s.procs| && q < |t.procs| && t.procs[q].st != s.procs[q].st
    ensures Effect(s, t, a) && StateMoves(s, t, a, q)
  {
    hide OthersQuiet, Own, ParentMoves, PidMoves, FreeMoves;
  }

  /** The scheduler changes the state of the process it switches to alone. */
  lemma SwitchedIn(s: State, c: nat, k: Pick, a: nat)
    requires BaseInv(s) && c < |s.cpus| && s.cpus[c] == Locked(a) && a < |s.procs|
    ensures var t := Step(s, c, k);
            forall q: nat :: q < |s.procs| && q < |t.procs| && t.procs[q].st != s.procs[q].st ==>
              s.procs[q].st == Runnable && t.procs[q].st == Running
  {
    hide BaseInv;
  }

  /** The scheduler runs a process that is runnable, and no other step makes a process run. */
  lemma RunsRunnable(s: State, c: nat, k: Pick, q: nat)
    requires Inv(s) && q < |s.procs| && q < |Step(s, c, k).procs|
    requires s.procs[q].st != Running && Step(s, c, k).procs[q].st == Running
    ensures c < |s.cpus| && s.procs[q].st == Runnable && s.cpus[c] == Locked(q)
  {
    hide Inv, Step, BaseInv, ForkInv;
    InvParts(s);
    var a := StepEffect(s, c, k);
    StateOf(s, Step(s, c, k), a, q);
    if s.cpus[c] == Run(q) {
      OnCpu(s, c, q);
    }
  }

  lemma OnCpu(s: State, c: nat, q: nat)
    requires BaseInv(s) && c < |s.cpus| && s.cpus[c] == Run(q) && q < |s.procs|
    ensures !s.procs[q].pc.Off?
  {
    MeOk(s, q);
  }

  /** In every run a sleep lock is locked exactly while one process has it. */
  lemma LockedIffOwned(ss: seq<State>, cs: seq<nat>, ks: seq<Pick>, i: nat, l: nat)
    requires IsRun(ss, cs, ks) && i < |ss| && l < |ss[i].locks|
    ensures ss[i].locks[l].locked <==> HasOwner(ss[i], l)
  {
    hide Boot, Inv;
    RunsKeepCalls(ss, cs, ks, i);
    RunsKeep(ss, cs, ks, i);
    if HasOwner(ss[i], l) {
      OwnedIsLocked(ss[i], l);
    }
  }

  lemma OwnedIsLocked(s: State, l: nat)
    requires Inv(s) && l < |s.locks| && HasOwner(s, l)
    ensures s.locks[l].locked
  {
    hide BaseInv, ForkInv, WakeInv, ParentInv, WaitInv, PidInv;
    var p: nat :| p < |s.procs| && l in s.procs[p].has;
    assert LockedHas(s, p);
  }
}
