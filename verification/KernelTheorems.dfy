/**
 The invariants of every run (kernel/proc.c, kernel/sleeplock.c) and what they mean.
 */
module KernelTheorems {
  import opened Kernel
  import opened KernelSafety

  /** Two threads do not hold one lock. */
  lemma OneHolder(s: State, p: nat, w: nat, x: Lock)
    requires BaseInv(s) && p < |s.procs| && w < |s.procs|
    requires x in Holds(s.procs[p].pc, p) && x in Holds(s.procs[w].pc, w)
    ensures p == w
  {
    MeOk(s, p);
    MeOk(s, w);
    var c, d := s.procs[p].on, s.procs[w].on;
    assert !s.procs[p].pc.Off? && !s.procs[w].pc.Off?;
    hide Holds, ProcOk;
    assert s.cpus[c] == Run(p) && s.cpus[d] == Run(w);
    assert x in CpuHolds(s, c) && x in CpuHolds(s, d);
    assert Holder(s, x) == c && Holder(s, x) == d;
  }

  lemma ForkKept(s: State, t: State, p: nat)
    requires BaseInv(s) && ForkInv(s) && Effect(s, t, p)
    ensures ForkInv(t)
  {
    hide BaseInv, Shared, OwnData;
    MeOk(s, p);
    hide ProcOk;
    forall i: int | 0 <= i < |t.procs| && ForkSlot(t.procs[i].pc) != -1
      ensures 0 <= ForkSlot(t.procs[i].pc) < |t.procs| && t.procs[ForkSlot(t.procs[i].pc)].st == Used
    {
      SlotKept(s, t, p, i);
    }
    forall i: int, j: int | 0 <= i < |t.procs| && 0 <= j < |t.procs| && i != j && ForkSlot(t.procs[i].pc) != -1
      ensures ForkSlot(t.procs[j].pc) != ForkSlot(t.procs[i].pc)
    {
      SlotKept(s, t, p, i);
      SlotKept(s, t, p, j);
    }
  }

  /** A slot still being filled does not step. */
  lemma UsedDoesNotStep(s: State, t: State, p: nat)
    requires BaseInv(s) && Effect(s, t, p) && s.procs[p].st == Used
    ensures t == s
  {
    hide BaseInv, Shared, OthersQuiet, OwnData;
    MeOk(s, p);
  }

  /** A fork keeps its slot, or takes one that nobody was filling. */
  lemma SlotKept(s: State, t: State, p: nat, i: nat)
    requires BaseInv(s) && ForkInv(s) && Effect(s, t, p) && i < |s.procs|
    ensures var j := ForkSlot(t.procs[i].pc);
            j != -1 ==> 0 <= j < |t.procs| && t.procs[j].st == Used
                        && (j == ForkSlot(s.procs[i].pc) || (i == p && s.procs[j].st == Unused))
  {
    hide BaseInv, Shared, Own, OthersQuiet, ForkSlot, Filling;
    if s.procs[p].st == Used {
      UsedDoesNotStep(s, t, p);
    } else if i == p {
      OwnSlot(s, t, p);
    } else {
      OtherSlot(s, t, p, i);
    }
  }

  /** The fork of another process is where it was, and its slot as it was. */
  lemma OtherSlot(s: State, t: State, p: nat, i: nat)
    requires ForkInv(s) && Effect(s, t, p) && i < |s.procs| && i < |t.procs| && i != p && s.procs[p].st != Used
    ensures var j := ForkSlot(t.procs[i].pc);
            j == ForkSlot(s.procs[i].pc) && (j != -1 ==> 0 <= j < |t.procs| && t.procs[j].st == Used)
  {
    hide Own, Shared;
    assert Filling(s.procs[p].pc) != -1 ==> ForkSlot(s.procs[p].pc) == Filling(s.procs[p].pc);
  }

  /** A thread keeps its slot through a yield, and comes by one in allocproc only. */
  lemma OwnSlot(s: State, t: State, p: nat)
    requires ForkInv(s) && Effect(s, t, p) && s.procs[p].st != Used
    ensures var j := ForkSlot(t.procs[p].pc);
            j != -1 ==>
              && 0 <= j < |t.procs| && t.procs[j].st == Used
              && (j == ForkSlot(s.procs[p].pc) || s.procs[j].st == Unused)
  {
    hide ForkInv, Effect, ForkSlot;
    EffectShape(s, t, p);
    SlotNow(s, p);
    if ForkStep(t.procs[p].pc) {
      ForkerSlot(s, t, p);
    } else {
      PreemptedSlot(s, t, p);
    }
  }

  lemma SlotNow(s: State, i: nat)
    requires ForkInv(s) && i < |s.procs|
    ensures var j := ForkSlot(s.procs[i].pc); j != -1 ==> 0 <= j < |s.procs| && s.procs[j].st == Used
  {
    hide ForkSlot;
  }

  lemma ForkerSlot(s: State, t: State, p: nat)
    requires Effect(s, t, p) && ForkStep(t.procs[p].pc) && s.procs[p].st != Used
    requires var j := ForkSlot(s.procs[p].pc); j != -1 ==> 0 <= j < |s.procs| && s.procs[j].st == Used
    ensures var j := ForkSlot(t.procs[p].pc);
            j != -1 ==>
              && 0 <= j < |t.procs| && t.procs[j].st == Used
              && (j == ForkSlot(s.procs[p].pc) || s.procs[j].st == Unused)
  {
    hide Shared, OwnData, CameSleep, CameWake, CameSleepLock, CameExit, CameWait, CameMonitor;
  }

  lemma PreemptedSlot(s: State, t: State, p: nat)
    requires Effect(s, t, p) && !ForkStep(t.procs[p].pc) && s.procs[p].st != Used
    requires var j := ForkSlot(s.procs[p].pc); j != -1 ==> 0 <= j < |s.procs| && s.procs[j].st == Used
    ensures var j := ForkSlot(t.procs[p].pc);
            j != -1 ==> 0 <= j < |t.procs| && t.procs[j].st == Used && j == ForkSlot(s.procs[p].pc)
  {
    hide Shared, OwnData, CameFork, CameWake, CameSleepLock, CameExit, CameWait, CameMonitor;
  }

  // -------------------------------------------------------------------------- no lost wakeup

  /** Asleep on ch, or bound to be: past the point where its lock was given up. */
  predicate AsleepOn(q: Proc, ch: Chan) {
    (q.st == Sleeping && q.chan == ch) || q.pc == SleepOwn(ch)
  }

  ghost predicate WakeInv(s: State) {
    forall w: int, p: int ::
      0 <= w < |s.procs| && 0 <= p < |s.procs| && p != w && WakeStep(s.procs[w].pc) && p < s.procs[w].pc.j ==>
      !AsleepOn(s.procs[p], s.procs[w].pc.ch)
  }

  /** A process other than the stepping one is not put to sleep. */
  lemma AsleepGrows(s: State, t: State, p: nat, i: nat, ch: Chan)
    requires Effect(s, t, p) && i < |s.procs| && AsleepOn(t.procs[i], ch)
    ensures AsleepOn(s.procs[i], ch) || (i == p && s.procs[p].pc == SleepBoth(ch))
  {
    hide Shared;
  }

  lemma WakeKept(s: State, t: State, p: nat)
    requires BaseInv(s) && ForkInv(s) && WakeInv(s) && Effect(s, t, p) && BaseInv(t)
    ensures WakeInv(t)
  {
    hide BaseInv, ForkInv, WakeInv, Effect, AsleepOn;
    EffectShape(s, t, p);
    forall w: int, i: int | 0 <= w < |t.procs| && 0 <= i < |t.procs| && i != w && WakeStep(t.procs[w].pc)
        && i < t.procs[w].pc.j
      ensures !AsleepOn(t.procs[i], t.procs[w].pc.ch)
    {
      WakeKeptAt(s, t, p, w, i);
    }
    WakeIntro(t);
  }

  lemma WakeIntro(t: State)
    requires forall w: int, i: int ::
               0 <= w < |t.procs| && 0 <= i < |t.procs| && i != w && WakeStep(t.procs[w].pc) && i < t.procs[w].pc.j ==>
               !AsleepOn(t.procs[i], t.procs[w].pc.ch)
    ensures WakeInv(t)
  {
  }

  lemma EffectShape(s: State, t: State, p: nat)
    requires Effect(s, t, p)
    ensures p < |s.procs| && SameShape(s, t)
  {
  }

  lemma WakeKeptAt(s: State, t: State, p: nat, w: nat, i: nat)
    requires BaseInv(s) && WakeInv(s) && Effect(s, t, p) && BaseInv(t)
    requires w < |s.procs| && i < |s.procs| && i != w && w < |t.procs| && i < |t.procs|
    requires WakeStep(t.procs[w].pc) && i < t.procs[w].pc.j
    ensures !AsleepOn(t.procs[i], t.procs[w].pc.ch)
  {
    hide BaseInv, Shared, OwnData, WakeInv;
    var ch := t.procs[w].pc.ch;
    if AsleepOn(t.procs[i], ch) {
      WakerLock(t, w, ch);
      AsleepGrows(s, t, p, i, ch);
      if i == p && s.procs[p].pc == SleepBoth(ch) {
        WakerLock(s, w, ch);
        OneHolder(s, p, w, LockOf(ch));
      } else {
        WakerPast(s, t, p, w, i);
      }
    }
  }

  /** A waker holds the lock of its channel. */
  lemma WakerLock(s: State, w: nat, ch: Chan)
    requires w < |s.procs|
    ensures (WakeStep(s.procs[w].pc) || s.procs[w].pc.SleepBoth?) && s.procs[w].pc.ch == ch ==>
            LockOf(ch) in Holds(s.procs[w].pc, w)
  {
  }

  /** Where the waker stands now it stood before, or has just dealt with i. */
  lemma WakerPast(s: State, t: State, p: nat, w: nat, i: nat)
    requires BaseInv(s) && WakeInv(s) && Effect(s, t, p) && BaseInv(t)
    requires w < |s.procs| && i < |s.procs| && i != w && w < |t.procs| && i < |t.procs|
    requires WakeStep(t.procs[w].pc) && i < t.procs[w].pc.j
    requires AsleepOn(s.procs[i], t.procs[w].pc.ch)
    ensures !AsleepOn(t.procs[i], t.procs[w].pc.ch)
  {
    hide BaseInv, Shared, OwnData;
    var pc, was := t.procs[w].pc, s.procs[w].pc;
    if w == p && pc != was && was.WakingLocked? && was.j == i && s.procs[i].pc == SleepOwn(pc.ch) {
      OneHolder(s, w, i, ProcLock(i));
    }
  }

  /** No lost wakeup: when wakeup has gone through the table, nobody else is asleep on its channel. */
  lemma NoLostWakeup(s: State, w: nat, p: nat)
    requires WakeInv(s) && w < |s.procs| && p < |s.procs| && p != w
    requires s.procs[w].pc.Waking? && s.procs[w].pc.j >= |s.procs|
    ensures !(s.procs[p].st == Sleeping && s.procs[p].chan == s.procs[w].pc.ch)
  {
    assert !AsleepOn(s.procs[p], s.procs[w].pc.ch);
  }

  // ------------------------------------------------------------------------------ sleep locks

  /** A waker of ch that has not reached process p yet, holding the lock of ch. */
  ghost predicate WakerComing(s: State, ch: Chan, p: int) {
    var h := Holder(s, LockOf(ch));
    && 0 <= h < |s.cpus| && s.cpus[h].Run? && s.cpus[h].p < |s.procs|
    && WakeStep(s.procs[s.cpus[h].p].pc) && s.procs[s.cpus[h].p].pc.ch == ch && s.procs[s.cpus[h].p].pc.j <= p
  }

  ghost predicate LockPcsOk(s: State) {
    forall p: int :: 0 <= p < |s.procs| ==> LockPcOk(s, s.procs[p])
  }

  ghost predicate LockedHas(s: State, p: nat)
    requires p < |s.procs|
  {
    forall l :: l in s.procs[p].has ==> l < |s.locks| && s.locks[l].locked
  }

  ghost predicate DisjointHas(s: State, p: nat, q: nat)
    requires p < |s.procs| && q < |s.procs|
  {
    p != q ==> s.procs[p].has !! s.procs[q].has
  }

  /** A lock that some process has is marked locked, and no other process has it. */
  ghost predicate HasOk(s: State) {
    && (forall p: nat :: p < |s.procs| ==> LockedHas(s, p))
    && (forall p: nat, q: nat :: p < |s.procs| && q < |s.procs| ==> DisjointHas(s, p, q))
  }

  /** A sleeper on a lock that is not locked has a waker on the way. */
  ghost predicate NoneStranded(s: State) {
    forall p: int, l: nat :: 0 <= p < |s.procs| && l < |s.locks| && AsleepOn(s.procs[p], OnLock(l)) ==>
      s.locks[l].locked || WakerComing(s, OnLock(l), p)
  }

  ghost predicate SleepLockInv(s: State) {
    LockPcsOk(s) && HasOk(s) && NoneStranded(s)
  }

  /** What a thread on its way through acquiresleep or releasesleep knows of the flag. */
  ghost predicate LockPcOk(s: State, q: Proc) {
    && (Place(q.pc).ReleaseWant? ==> Place(q.pc).l in q.has)
    && match q.pc
       case AcquireFree(l) => l < |s.locks| && !s.locks[l].locked
       case SleepHave(OnLock(l)) => l < |s.locks| && s.locks[l].locked
       case SleepBoth(OnLock(l)) => l < |s.locks| && s.locks[l].locked
       case ReleaseHave(l) => l in q.has
       case _ => true
  }

  /** The flag of a sleep lock does not change under a thread that holds its inner lock. */
  lemma FlagKept(s: State, t: State, p: nat, i: nat, l: nat)
    requires BaseInv(s) && Effect(s, t, p) && i < |s.procs| && i != p && l < |s.locks|
    requires InnerLock(l) in Holds(s.procs[i].pc, i)
    ensures t.locks[l].locked == s.locks[l].locked
  {
    hide BaseInv, Own, OthersQuiet;
    if s.procs[p].pc == AcquireFree(l) || s.procs[p].pc == ReleaseHave(l) {
      OneHolder(s, p, i, InnerLock(l));
    }
  }

  lemma LockPcKept(s: State, t: State, p: nat, i: nat)
    requires BaseInv(s) && SleepLockInv(s) && Effect(s, t, p) && i < |s.procs| && i < |t.procs|
    ensures LockPcOk(t, t.procs[i])
  {
    hide BaseInv, Effect;
    assert LockPcOk(s, s.procs[i]);
    if i == p {
      LockPcOfOwn(s, t, p);
    } else {
      LockPcOfOther(s, t, p, i);
    }
  }

  lemma LockPcOfOwn(s: State, t: State, p: nat)
    requires SleepLockInv(s) && Effect(s, t, p) && LockPcOk(s, s.procs[p])
    ensures LockPcOk(t, t.procs[p])
  {
    hide CameWake, CameExit, CameWait, CameFork, OthersQuiet, HasOk, NoneStranded, LockPcsOk, ParentMoves, PidMoves;
  }

  lemma LockPcOfOther(s: State, t: State, p: nat, i: nat)
    requires BaseInv(s) && Effect(s, t, p) && i < |s.procs| && i < |t.procs| && i != p && LockPcOk(s, s.procs[i])
    ensures LockPcOk(t, t.procs[i])
  {
    hide BaseInv, Own, ParentMoves, PidMoves;
    var pc := t.procs[i].pc;
    if !pc.Off? {
      match pc
      case AcquireFree(l) => FlagKept(s, t, p, i, l);
      case SleepHave(OnLock(l)) => FlagKept(s, t, p, i, l);
      case SleepBoth(OnLock(l)) => FlagKept(s, t, p, i, l);
      case _ =>
    }
  }

  lemma WakerIntro(t: State, w: nat, ch: Chan, i: nat)
    requires BaseInv(t) && w < |t.procs| && WakeStep(t.procs[w].pc) && t.procs[w].pc.ch == ch && t.procs[w].pc.j <= i
    ensures WakerComing(t, ch, i)
  {
    MeOk(t, w);
    hide ProcOk;
    var h := t.procs[w].on;
    assert t.cpus[h] == Run(w) && LockOf(ch) in CpuHolds(t, h);
  }

  /** A waker on its way to a sleeper is still on its way after a step that leaves it asleep. */
  lemma ComingKept(s: State, t: State, p: nat, ch: Chan, i: nat)
    requires BaseInv(s) && BaseInv(t) && Effect(s, t, p) && i < |s.procs| && i < |t.procs|
    requires WakerComing(s, ch, i) && AsleepOn(s.procs[i], ch) && AsleepOn(t.procs[i], ch)
    ensures WakerComing(t, ch, i)
  {
    hide BaseInv, Shared, OwnData;
    var w := s.cpus[Holder(s, LockOf(ch))].p;
    MeOk(s, i);
    MeOk(s, w);
    if w == p && s.procs[w].pc.WakingLocked? && s.procs[w].pc.j == i && s.procs[i].pc == SleepOwn(ch) {
      OneHolder(s, w, i, ProcLock(i));
    }
    if w == p && t.procs[w].pc != s.procs[w].pc {
      WakingNext(s, t, p);
    }
    hide Came;
    WakerIntro(t, w, ch, i);
  }

  /** Where wakeup goes next. */
  lemma WakingNext(s: State, t: State, p: nat)
    requires Effect(s, t, p) && WakeStep(s.procs[p].pc) && t.procs[p].pc != s.procs[p].pc
    ensures var pc, next := s.procs[p].pc, t.procs[p].pc;
            || (pc.Waking? && pc.j >= |s.procs|)
            || (pc.Waking? && pc.j < |s.procs| && pc.j == p && next == Waking(pc.ch, pc.j + 1, pc.w))
            || (pc.Waking? && pc.j < |s.procs| && next == WakingLocked(pc.ch, pc.j, pc.w))
            || (pc.WakingLocked? && pc.j < |s.procs| && next == Waking(pc.ch, pc.j + 1, pc.w)
                && !(t.procs[pc.j].st == Sleeping && t.procs[pc.j].chan == pc.ch))
  {
    hide OthersQuiet, Shared, OwnData;
  }

  lemma AsleepKept(s: State, t: State, p: nat, i: nat, l: nat)
    requires BaseInv(s) && BaseInv(t) && SleepLockInv(s) && Effect(s, t, p) && i < |s.procs| && i < |t.procs|
    requires l < |s.locks| && l < |t.locks|
    requires AsleepOn(t.procs[i], OnLock(l))
    ensures t.locks[l].locked || WakerComing(t, OnLock(l), i)
  {
    hide BaseInv, Effect, WakerComing, LockPcOk, HasOk, AsleepOn;
    EffectShape(s, t, p);
    AsleepGrows(s, t, p, i, OnLock(l));
    if !AsleepOn(s.procs[i], OnLock(l)) {
      assert LockPcOk(s, s.procs[p]);
      SleptOnLocked(s, t, p, l);
    } else if !s.locks[l].locked {
      ComingKept(s, t, p, OnLock(l), i);
    } else if !t.locks[l].locked {
      FlagFalls(s, t, p, l);
      WakerIntro(t, p, OnLock(l), i);
    }
  }

  /** A process that has just given up the inner lock to sleep has seen the flag set. */
  lemma SleptOnLocked(s: State, t: State, p: nat, l: nat)
    requires Effect(s, t, p) && LockPcOk(s, s.procs[p]) && s.procs[p].pc == SleepBoth(OnLock(l))
    ensures l < |t.locks| && t.locks[l].locked
  {
    hide OthersQuiet, Own, ParentMoves, PidMoves;
  }

  /** The flag is cleared by releasesleep, which goes on to wake the sleepers. */
  lemma FlagFalls(s: State, t: State, p: nat, l: nat)
    requires Effect(s, t, p) && l < |s.locks| && l < |t.locks| && s.locks[l].locked && !t.locks[l].locked
    ensures t.procs[p].pc == Waking(OnLock(l), 0, ToRelease)
  {
    assert s.procs[p].pc == ReleaseHave(l) by {
      hide OthersQuiet, Own, ParentMoves, PidMoves;
    }
    hide OthersQuiet, Shared, OwnData;
  }

  /** Where a process's hold on a lock comes from. */
  lemma HasFrom(s: State, t: State, p: nat, i: nat, l: nat)
    requires Effect(s, t, p) && i < |s.procs| && i < |t.procs| && l in t.procs[i].has
    ensures l in s.procs[i].has || (i == p && s.procs[p].pc == AcquireFree(l))
    ensures !(i == p && s.procs[p].pc == ReleaseHave(l) && l < |s.locks|)
  {
    hide Came, Shared;
  }

  lemma HasLocked(s: State, t: State, p: nat, i: nat)
    requires LockPcsOk(s) && HasOk(s) && Effect(s, t, p) && i < |s.procs| && i < |t.procs|
    ensures LockedHas(t, i)
  {
    hide OthersQuiet, Own, ParentMoves, PidMoves;
    assert LockPcOk(s, s.procs[p]) && LockedHas(s, i) && DisjointHas(s, i, p);
    forall l | l in t.procs[i].has ensures l < |t.locks| && t.locks[l].locked {
      HasFrom(s, t, p, i, l);
      assert l in s.procs[i].has && i != p ==> s.procs[p].pc != ReleaseHave(l);
    }
  }

  lemma HasUnique(s: State, t: State, p: nat, i: nat, j: nat)
    requires LockPcsOk(s) && HasOk(s) && Effect(s, t, p) && i < |s.procs| && j < |s.procs| && i < |t.procs|
    requires j < |t.procs|
    ensures DisjointHas(t, i, j)
  {
    hide Effect;
    EffectShape(s, t, p);
    assert LockPcOk(s, s.procs[p]) && LockedHas(s, i) && LockedHas(s, j) && DisjointHas(s, i, j);
    forall l | l in t.procs[i].has && l in t.procs[j].has ensures i == j {
      HasFrom(s, t, p, i, l);
      HasFrom(s, t, p, j, l);
    }
  }

  lemma HasKept(s: State, t: State, p: nat)
    requires LockPcsOk(s) && HasOk(s) && Effect(s, t, p)
    ensures HasOk(t)
  {
    hide Effect, LockPcsOk, LockedHas, DisjointHas;
    EffectShape(s, t, p);
    forall i: nat | i < |t.procs| ensures LockedHas(t, i) {
      HasLocked(s, t, p, i);
    }
    forall i: nat, j: nat | i < |t.procs| && j < |t.procs| ensures DisjointHas(t, i, j) {
      HasUnique(s, t, p, i, j);
    }
  }

  lemma StrandedKept(s: State, t: State, p: nat)
    requires BaseInv(s) && BaseInv(t) && SleepLockInv(s) && Effect(s, t, p)
    ensures NoneStranded(t)
  {
    hide BaseInv, Effect, AsleepOn, WakerComing, SleepLockInv;
    EffectShape(s, t, p);
    forall i: int, l: nat | 0 <= i < |t.procs| && l < |t.locks| && AsleepOn(t.procs[i], OnLock(l))
      ensures t.locks[l].locked || WakerComing(t, OnLock(l), i)
    {
      AsleepKept(s, t, p, i, l);
    }
  }

  lemma SleepLockKept(s: State, t: State, p: nat)
    requires BaseInv(s) && BaseInv(t) && SleepLockInv(s) && Effect(s, t, p)
    ensures SleepLockInv(t)
  {
    hide BaseInv, Effect, HasOk, NoneStranded, LockPcOk;
    EffectShape(s, t, p);
    HasKept(s, t, p);
    StrandedKept(s, t, p);
    forall i: int | 0 <= i < |t.procs| ensures LockPcOk(t, t.procs[i]) {
      LockPcKept(s, t, p, i);
    }
  }

  /** Mutual exclusion: two processes never have one sleep lock at once. */
  lemma SleepLockExclusive(s: State, p: nat, q: nat, l: nat)
    requires SleepLockInv(s) && p < |s.procs| && q < |s.procs| && l in s.procs[p].has && l in s.procs[q].has
    ensures p == q
  {
    assert DisjointHas(s, p, q);
  }

  /** Nobody is left asleep on a sleep lock that is free. */
  lemma FreeLockHasNoSleepers(s: State, p: nat, l: nat)
    requires SleepLockInv(s) && p < |s.procs| && l < |s.locks| && !s.locks[l].locked && s.locks[l].lk == -1
    ensures !(s.procs[p].st == Sleeping && s.procs[p].chan == OnLock(l))
  {
    assert AsleepOn(s.procs[p], OnLock(l)) ==> WakerComing(s, OnLock(l), p);
  }

  // ---------------------------------------------------------------- exit, wait and reparent

  /** Past reparent in exit, or no process at all. */
  predicate Leaving(pc: Pc) {
    || pc.ExitHave? || pc.ExitBoth? || pc.ExitZombie?
    || pc == InSched(Exited) || pc == Off(Exited) || pc == Off(NoThread)
    || (WakeStep(pc) && pc.w.ToExit?)
  }

  predicate Childless(q: Proc) {
    Leaving(q.pc) || q.st == Used
  }

  /** How far reparent has gone. */
  function Reparented(pc: Pc): nat {
    if pc.Reparenting? then pc.j else if WakeStep(pc) && pc.w.ToReparent? then pc.w.j else 0
  }

  /** Somewhere in exit. */
  predicate ExitPlace(pc: Pc) {
    Leaving(pc) || ExitStep(Place(pc)) || (WakeStep(pc) && (pc.w.ToReparent? || pc.w.ToExit?))
  }

  predicate NeverExits(q: Proc) {
    q.st != Unused && q.st != Used && q.st != Zombie && !ExitPlace(q.pc)
  }

  ghost predicate ParentOk(s: State, q: nat)
    requires q < |s.procs|
  {
    -1 <= s.procs[q].parent < |s.procs| && (s.procs[q].parent != -1 ==> !Childless(s.procs[s.procs[q].parent]))
  }

  ghost predicate ParentInv(s: State) {
    && s.init < |s.procs| && NeverExits(s.procs[s.init])
    && (forall q: nat :: q < |s.procs| ==> ParentOk(s, q))
    && (forall p: int, q: int :: 0 <= p < |s.procs| && 0 <= q < Reparented(s.procs[p].pc) && q < |s.procs| ==>
        s.procs[q].parent != p)
  }

  lemma InitKept(s: State, t: State, p: nat)
    requires BaseInv(s) && BaseInv(t) && Effect(s, t, p) && s.init < |s.procs| && NeverExits(s.procs[s.init])
    ensures t.init == s.init && NeverExits(t.procs[t.init])
  {
    hide BaseInv, Own, OthersQuiet, Shared, NeverExits, ProcOk;
    MeOk(t, s.init);
    MeOk(s, s.init);
    if s.init == p {
      OwnNeverExits(s, t, p);
    } else {
      OtherNeverExits(s, t, p);
    }
  }

  lemma OwnNeverExits(s: State, t: State, p: nat)
    requires Effect(s, t, p) && p == s.init && NeverExits(s.procs[p]) && p < |t.procs|
    requires ProcOk(s, p, s.procs[p]) && ProcOk(t, p, t.procs[p])
    ensures NeverExits(t.procs[p])
  {
    NotExiting(s, t, p);
    hide OthersQuiet, Shared, Came, OwnData;
  }

  lemma NotExiting(s: State, t: State, p: nat)
    requires Effect(s, t, p) && p == s.init && !ExitPlace(s.procs[p].pc) && p < |t.procs|
    requires ProcOk(s, p, s.procs[p])
    ensures !ExitPlace(t.procs[p].pc) && (t.procs[p].pc == Off(FirstRun) ==> t == s)
  {
    hide OthersQuiet, Shared, OwnData, CameSleepLock, CameWait, CameFork, CameMonitor;
  }

  lemma OtherNeverExits(s: State, t: State, p: nat)
    requires Effect(s, t, p) && p != s.init && s.init < |s.procs| && s.init < |t.procs|
    requires NeverExits(s.procs[s.init]) && ProcOk(t, s.init, t.procs[s.init])
    ensures NeverExits(t.procs[s.init])
  {
    hide Own, Shared;
    assert Quiet(s.procs[s.init], t.procs[s.init]);
  }

  /** A process that may have children still may, unless it has just given them all away. */
  lemma ChildlessFrom(s: State, t: State, p: nat, x: nat)
    requires BaseInv(s) && BaseInv(t) && Effect(s, t, p) && x < |s.procs| && x < |t.procs| && Childless(t.procs[x])
    ensures Childless(s.procs[x]) || (x == p && s.procs[p].pc.Reparenting? && s.procs[p].pc.j >= |s.procs|)
  {
    hide BaseInv, Shared, CameSleepLock, CameWait, CameFork;
    MeOk(t, x);
    MeOk(s, x);
  }

  lemma ParentsKept(s: State, t: State, p: nat, q: nat)
    requires BaseInv(s) && BaseInv(t) && ParentInv(s) && Effect(s, t, p) && q < |s.procs| && q < |t.procs|
    ensures ParentOk(t, q)
  {
    hide BaseInv, OthersQuiet, Own, NeverExits, Leaving;
    var x := t.procs[q].parent;
    assert ParentMoves(s, t, p, q) && ParentOk(s, q);
    if x != -1 {
      if x == s.procs[q].parent && Childless(t.procs[x]) {
        ChildlessFrom(s, t, p, x);
      } else if s.procs[p].pc == ForkParent(q) && x == p {
        ForkerNotLeaving(s, t, p, q);
      } else if x == s.init {
        InitKept(s, t, p);
        NeverChildless(t.procs[t.init]);
      }
    }
  }

  lemma NeverChildless(q: Proc)
    requires NeverExits(q)
    ensures !Childless(q)
  {
  }

  lemma ForkerNotLeaving(s: State, t: State, p: nat, q: nat)
    requires BaseInv(s) && BaseInv(t) && Effect(s, t, p) && s.procs[p].pc == ForkParent(q)
    ensures !Childless(t.procs[p])
  {
    hide BaseInv, Shared, OthersQuiet;
    MeOk(t, p);
    MeOk(s, p);
  }

  lemma ReparentedKept(s: State, t: State, p: nat, x: nat, q: nat)
    requires ParentInv(s) && Effect(s, t, p)
    requires x < |s.procs| && x < |t.procs| && q < |s.procs| && q < |t.procs| && q < Reparented(t.procs[x].pc)
    ensures t.procs[q].parent != x
  {
    hide Own, ParentOk, PidMoves;
    assert ParentMoves(s, t, p, q);
    if x == p {
      OwnReparented(s, t, p, q);
    }
  }

  lemma OwnReparented(s: State, t: State, p: nat, q: nat)
    requires ParentInv(s) && Effect(s, t, p) && q < |s.procs| && q < |t.procs| && q < Reparented(t.procs[p].pc)
    ensures t.procs[q].parent != p
  {
    ReparentedNext(s, t, p);
    hide Own, ParentOk, PidMoves, OthersQuiet;
    assert ParentMoves(s, t, p, q);
  }

  /** Reparent goes on past a process that is not a child, or has just been given away. */
  lemma ReparentedNext(s: State, t: State, p: nat)
    requires Effect(s, t, p)
    ensures var m, n := Reparented(s.procs[p].pc), Reparented(t.procs[p].pc);
            || n <= m
            || (n == m + 1 <= |s.procs| && s.procs[p].pc.Reparenting?
                && (s.procs[m].parent != p || t.procs[m].parent == s.init))
  {
    hide OwnData, OthersQuiet, Shared, CameSleep, CameSleepLock, CameMonitor, CameWait, CameFork;
  }

  lemma ParentKept(s: State, t: State, p: nat)
    requires BaseInv(s) && BaseInv(t) && ParentInv(s) && Effect(s, t, p)
    ensures ParentInv(t)
  {
    hide BaseInv, Effect, NeverExits, ParentOk, Reparented;
    EffectShape(s, t, p);
    InitKept(s, t, p);
    forall q: nat | q < |t.procs| ensures ParentOk(t, q) {
      ParentsKept(s, t, p, q);
    }
    forall x: int, q: int | 0 <= x < |t.procs| && 0 <= q < Reparented(t.procs[x].pc)
        && q < |t.procs| ensures t.procs[q].parent != x {
      ReparentedKept(s, t, p, x, q);
    }
  }

  /** No parent pointer ever names an unused or exited slot. */
  lemma NoDeadParents(s: State, q: nat)
    requires BaseInv(s) && ParentInv(s) && q < |s.procs| && s.procs[q].parent != -1
    ensures 0 <= s.procs[q].parent < |s.procs|
    ensures s.procs[s.procs[q].parent].st != Unused && s.procs[s.procs[q].parent].st != Zombie
  {
    hide BaseInv;
    assert ParentOk(s, q);
    MeOk(s, s.procs[q].parent);
  }

  // ------------------------------------------------------------------- nobody waits in vain

  predicate ZombieChild(s: State, q: nat, p: nat)
    requires q < |s.procs|
  {
    s.procs[q].parent == p && s.procs[q].st == Zombie
  }

  /** How much of the table a waiting parent has searched, and found no exited child in. */
  function Scanned(s: State, pc: Pc): nat {
    match pc
    case WaitScan(j, _) => j
    case WaitLocked(j) => j
    case SleepHave(OnProc(_)) => |s.procs|
    case SleepBoth(OnProc(_)) => |s.procs|
    case _ => 0
  }

  ghost predicate ScanOk(s: State, p: nat, q: nat)
    requires p < |s.procs| && q < |s.procs|
  {
    q < Scanned(s, s.procs[p].pc) ==> !ZombieChild(s, q, p)
  }

  /** A parent asleep in wait with an exited child has a waker on the way. */
  ghost predicate SleeperOk(s: State, p: nat, q: nat)
    requires p < |s.procs| && q < |s.procs|
  {
    AsleepOn(s.procs[p], OnProc(p)) && ZombieChild(s, q, p) ==> WakerComing(s, OnProc(p), p)
  }

  /** A process about to become a zombie has woken its parent, which cannot have gone back to sleep. */
  ghost predicate ExiterOk(s: State, q: nat)
    requires q < |s.procs|
  {
    var pc, x := s.procs[q].pc, s.procs[q].parent;
    && (pc.ExitHave? || pc.ExitBoth? ==> 0 <= x < |s.procs| ==> !AsleepOn(s.procs[x], OnProc(x)))
    && (WakeStep(pc) && pc.w.ToExit? ==> pc.ch == OnProc(x))
  }

  ghost predicate WaitInv(s: State) {
    && (forall p: nat, q: nat :: p < |s.procs| && q < |s.procs| ==> ScanOk(s, p, q))
    && (forall p: nat, q: nat :: p < |s.procs| && q < |s.procs| ==> SleeperOk(s, p, q))
    && (forall q: nat :: q < |s.procs| ==> ExiterOk(s, q))
  }

  /** How a process comes to have an exited child: the child exits, or is handed to init. */
  lemma ZombieFrom(s: State, t: State, a: nat, q: nat, p: nat)
    requires BaseInv(s) && BaseInv(t) && Effect(s, t, a) && q < |s.procs| && q < |t.procs| && ZombieChild(t, q, p)
    ensures || ZombieChild(s, q, p)
            || (q == a && s.procs[a].pc.ExitBoth? && s.procs[a].parent == p)
            || (p == s.init && s.procs[a].pc.Reparenting? && s.procs[a].pc.j == q && s.procs[q].parent == a)
  {
    hide BaseInv, Came;
    MeOk(s, q);
    MeOk(s, a);
    assert ParentMoves(s, t, a, q);
  }

  lemma HoldsWait(s: State, p: nat)
    requires p < |s.procs|
    ensures var pc := s.procs[p].pc;
            (Scanned(s, pc) > 0 || pc.ExitBoth? || pc.ExitHave? || pc.Reparenting? || pc == SleepBoth(OnProc(p))
                || (WakeStep(pc) && pc.ch.OnProc?)) ==>
              WaitLock in Holds(pc, p)
  {
  }

  lemma ScanKept(s: State, t: State, a: nat, p: nat, q: nat)
    requires BaseInv(s) && BaseInv(t) && WaitInv(s) && Effect(s, t, a) && p < |s.procs| && q < |s.procs|
    requires p < |t.procs| && q < |t.procs|
    ensures ScanOk(t, p, q)
  {
    hide BaseInv, Effect, Scanned, ZombieChild;
    EffectShape(s, t, a);
    assert ScanOk(s, p, q);
    if q < Scanned(t, t.procs[p].pc) && ZombieChild(t, q, p) {
      ZombieFrom(s, t, a, q, p);
      HoldsWait(s, a);
      HoldsWait(s, p);
      if p == a {
        OwnScan(s, t, a, q);
      } else {
        OtherScan(s, t, a, p);
        if !ZombieChild(s, q, p) {
          OneHolder(s, a, p, WaitLock);
        }
      }
    }
  }

  /** A search goes on only past processes that are not exited children. */
  lemma OwnScan(s: State, t: State, a: nat, q: nat)
    requires Effect(s, t, a) && q < |s.procs| && q < Scanned(t, t.procs[a].pc)
    ensures q < Scanned(s, s.procs[a].pc) || !ZombieChild(s, q, a)
    ensures !s.procs[a].pc.ExitBoth? && !s.procs[a].pc.Reparenting?
  {
    hide OthersQuiet, OwnData, Shared, CameWake, CameSleepLock, CameExit, CameFork, CameMonitor;
  }

  lemma OtherScan(s: State, t: State, a: nat, p: nat)
    requires Effect(s, t, a) && p < |s.procs| && p < |t.procs| && p != a
    ensures Scanned(t, t.procs[p].pc) == Scanned(s, s.procs[p].pc)
  {
    hide Own, Shared;
    assert Quiet(s.procs[p], t.procs[p]);
  }

  /** Handing a child to init is followed by a wakeup of init. */
  lemma ReparentNext(s: State, t: State, a: nat, q: nat)
    requires Effect(s, t, a) && q < |s.procs| && s.procs[a].pc.Reparenting? && s.procs[a].pc.j == q
    requires s.procs[q].parent == a
    ensures t == s || (t.procs[a].pc.Waking? && t.procs[a].pc.ch == OnProc(s.init) && t.procs[a].pc.j == 0)
  {
    hide OthersQuiet, Shared, OwnData;
  }

  lemma SleeperKept(s: State, t: State, a: nat, p: nat, q: nat)
    requires BaseInv(s) && BaseInv(t) && WaitInv(s) && Effect(s, t, a)
    requires p < |s.procs| && q < |s.procs| && p < |t.procs| && q < |t.procs|
    ensures SleeperOk(t, p, q)
  {
    hide BaseInv, Effect, WakerComing, Leaving;
    EffectShape(s, t, a);
    var ch := OnProc(p);
    if AsleepOn(t.procs[p], ch) && ZombieChild(t, q, p) {
      AsleepGrows(s, t, a, p, ch);
      ZombieFrom(s, t, a, q, p);
      assert SleeperOk(s, p, q) && ScanOk(s, p, q) && ExiterOk(s, a);
      if s.procs[a].pc.Reparenting? && !ZombieChild(s, q, p) {
        ReparentNext(s, t, a, q);
        WakerIntro(t, a, ch, p);
      } else {
        ComingKept(s, t, a, ch, p);
      }
    }
  }

  /** The parent of a process that holds wait_lock does not change. */
  lemma ParentFixed(s: State, t: State, a: nat, q: nat)
    requires BaseInv(s) && BaseInv(t) && Effect(s, t, a) && q < |s.procs| && q < |t.procs|
    requires WaitLock in Holds(s.procs[q].pc, q) && !t.procs[q].pc.Off? && !s.procs[q].pc.Reparenting?
    ensures t.procs[q].parent == s.procs[q].parent
  {
    hide BaseInv, OthersQuiet, OwnData, Came;
    assert ParentMoves(s, t, a, q);
    HoldsWait(s, a);
    MeOk(s, q);
    MeOk(t, q);
    if q != a && s.procs[a].pc.Reparenting? {
      OneHolder(s, a, q, WaitLock);
    }
  }

  lemma ExitChanKept(s: State, t: State, a: nat, q: nat)
    requires BaseInv(s) && BaseInv(t) && WaitInv(s) && Effect(s, t, a) && q < |s.procs| && q < |t.procs|
    requires WakeStep(t.procs[q].pc) && t.procs[q].pc.w.ToExit?
    ensures t.procs[q].pc.ch == OnProc(t.procs[q].parent)
  {
    hide BaseInv, OwnData;
    assert ExiterOk(s, q);
    MeOk(s, q);
    HoldsWait(s, q);
    if s.procs[q].pc.Reparenting? {
      assert ParentMoves(s, t, a, q);
      MeOk(t, q);
    } else {
      ParentFixed(s, t, a, q);
    }
  }

  lemma ExitSleepKept(s: State, t: State, a: nat, q: nat)
    requires BaseInv(s) && BaseInv(t) && WaitInv(s) && WakeInv(s) && Effect(s, t, a) && q < |s.procs| && q < |t.procs|
    requires t.procs[q].pc.ExitHave? || t.procs[q].pc.ExitBoth?
    requires 0 <= t.procs[q].parent < |t.procs|
    ensures !AsleepOn(t.procs[t.procs[q].parent], OnProc(t.procs[q].parent))
  {
    hide BaseInv, OwnData, WaitInv, Shared;
    ExiterAt(s, q);
    MeOk(s, q);
    HoldsWait(s, q);
    HoldsWait(s, a);
    ParentFixed(s, t, a, q);
    var x := t.procs[q].parent;
    if AsleepOn(t.procs[x], OnProc(x)) {
      AsleepGrows(s, t, a, x, OnProc(x));
      if x == a && s.procs[a].pc == SleepBoth(OnProc(x)) {
        OneHolder(s, a, q, WaitLock);
      }
    }
  }

  lemma ExiterAt(s: State, q: nat)
    requires WaitInv(s) && q < |s.procs|
    ensures ExiterOk(s, q)
  {
  }

  lemma ExiterKept(s: State, t: State, a: nat, q: nat)
    requires BaseInv(s) && BaseInv(t) && WaitInv(s) && WakeInv(s) && Effect(s, t, a) && q < |s.procs| && q < |t.procs|
    ensures ExiterOk(t, q)
  {
    hide BaseInv, WaitInv, WakeInv, Effect, AsleepOn;
    var pc := t.procs[q].pc;
    if WakeStep(pc) && pc.w.ToExit? {
      ExitChanKept(s, t, a, q);
    }
    if (pc.ExitHave? || pc.ExitBoth?) && 0 <= t.procs[q].parent < |t.procs| {
      ExitSleepKept(s, t, a, q);
    }
  }

  lemma WaitKept(s: State, t: State, a: nat)
    requires BaseInv(s) && BaseInv(t) && WaitInv(s) && WakeInv(s) && Effect(s, t, a)
    ensures WaitInv(t)
  {
    hide BaseInv, WakeInv, Effect, ScanOk, SleeperOk, ExiterOk;
    EffectShape(s, t, a);
    forall p: nat, q: nat | p < |t.procs| && q < |t.procs| ensures ScanOk(t, p, q) {
      ScanKept(s, t, a, p, q);
    }
    forall p: nat, q: nat | p < |t.procs| && q < |t.procs| ensures SleeperOk(t, p, q) {
      SleeperKept(s, t, a, p, q);
    }
    forall q: nat | q < |t.procs| ensures ExiterOk(t, q) {
      ExiterKept(s, t, a, q);
    }
  }

  /** Whenever wait_lock is free, no parent is asleep in wait while it has an exited child. */
  lemma NobodyWaitsInVain(s: State, p: nat, q: nat)
    requires WaitInv(s) && p < |s.procs| && q < |s.procs| && s.wl == -1
    requires s.procs[q].parent == p && s.procs[q].st == Zombie
    ensures !(s.procs[p].st == Sleeping && s.procs[p].chan == OnProc(p))
  {
    assert SleeperOk(s, p, q);
  }

  /** A slot is reclaimed only once its process has left its kernel stack for good. */
  lemma ReclaimedOffStack(s: State, c: nat, p: nat, j: nat)
    requires BaseInv(s) && c < |s.cpus| && s.cpus[c] == Run(p) && p < |s.procs| && s.procs[p].pc == WaitLocked(j)
    requires j < |s.procs| && s.procs[j].st == Zombie
    ensures s.procs[j].pc == Off(Exited) && s.procs[j].on == -1
    ensures forall d: int :: 0 <= d < |s.cpus| ==> s.cpus[d] != Run(j)
  {
    MeOk(s, p);
    MeOk(s, j);
    OthersAreOff(s, c, j);
  }

  /** A process runs on at most one CPU. */
  lemma OneCpu(s: State, c: nat, d: nat, p: nat)
    requires BaseInv(s) && c < |s.cpus| && d < |s.cpus| && s.cpus[c] == Run(p) && s.cpus[d] == Run(p)
    ensures c == d
  {
    hide LockInv, ProcsOk;
  }

  // ----------------------------------------------------------------------- statuses and pids

  ghost predicate PidOk(s: State, p: nat)
    requires p < |s.procs|
  {
    var q := s.procs[p];
    q.st != Unused ==>
      && q.pid < s.nextpid && q.pid !in s.collected
      && (if q.st == Zombie then q.pid in s.exits && s.exits[q.pid] == q.xstate else q.pid !in s.exits)
  }

  ghost predicate PidsDiffer(s: State, p: nat, q: nat)
    requires p < |s.procs| && q < |s.procs|
  {
    p != q && s.procs[p].st != Unused && s.procs[q].st != Unused ==> s.procs[p].pid != s.procs[q].pid
  }

  ghost predicate PidInv(s: State) {
    && (forall p: nat :: p < |s.procs| ==> PidOk(s, p))
    && (forall p: nat, q: nat :: p < |s.procs| && q < |s.procs| ==> PidsDiffer(s, p, q))
    && (forall i :: i in s.exits ==> i < s.nextpid)
    && (forall i :: i in s.collected ==> i in s.exits)
  }

  lemma PidsKept(s: State, t: State, a: nat, p: nat, q: nat)
    requires BaseInv(s) && PidInv(s) && Effect(s, t, a) && p < |s.procs| && q < |s.procs| && p < |t.procs|
    requires q < |t.procs|
    ensures PidsDiffer(t, p, q)
  {
    hide BaseInv, OthersQuiet, Own, ParentMoves;
    assert PidMoves(s, t, a, p) && PidMoves(s, t, a, q);
    assert PidOk(s, p) && PidOk(s, q) && PidsDiffer(s, p, q);
  }

  lemma PidKeptAt(s: State, t: State, a: nat, p: nat)
    requires BaseInv(s) && PidInv(s) && Effect(s, t, a) && p < |s.procs| && p < |t.procs|
    ensures PidOk(t, p)
  {
    hide BaseInv, ParentMoves, Came;
    assert PidMoves(s, t, a, p);
    assert PidOk(s, p) && PidOk(s, a) && PidsDiffer(s, p, a);
    assert s.nextpid !in s.exits && s.nextpid !in s.collected;
    MeOk(s, a);
    if s.procs[a].pc.WaitLocked? && s.procs[a].pc.j < |s.procs| {
      assert PidsDiffer(s, p, s.procs[a].pc.j) && PidOk(s, s.procs[a].pc.j);
    }
  }

  lemma PidKept(s: State, t: State, a: nat)
    requires BaseInv(s) && PidInv(s) && Effect(s, t, a)
    ensures PidInv(t)
  {
    hide BaseInv, Effect, PidOk, PidsDiffer;
    EffectShape(s, t, a);
    forall p: nat | p < |t.procs| ensures PidOk(t, p) {
      PidKeptAt(s, t, a, p);
    }
    forall p: nat, q: nat | p < |t.procs| && q < |t.procs| ensures PidsDiffer(t, p, q) {
      PidsKept(s, t, a, p, q);
    }
    RecordsKept(s, t, a);
  }

  lemma RecordsKept(s: State, t: State, a: nat)
    requires BaseInv(s) && PidInv(s) && Effect(s, t, a)
    ensures forall i :: i in t.exits ==> i < t.nextpid
    ensures forall i :: i in t.collected ==> i in t.exits
  {
    hide BaseInv, OthersQuiet, Own, ParentMoves, PidMoves;
    MeOk(s, a);
    assert PidOk(s, a);
    if s.procs[a].pc.WaitLocked? && s.procs[a].pc.j < |s.procs| {
      assert PidOk(s, s.procs[a].pc.j);
    }
  }

  /** Each exit status is collected at most once, and it is the status the process exited with. */
  lemma CollectedOnce(s: State, c: nat, p: nat, j: nat, k: Pick)
    requires BaseInv(s) && ForkInv(s) && PidInv(s) && c < |s.cpus| && s.cpus[c] == Run(p) && p < |s.procs|
    requires s.procs[p].pc == WaitLocked(j) && j < |s.procs| && s.procs[j].st == Zombie && !k.fails
    ensures var pid := s.procs[j].pid;
            && pid !in s.collected && pid in s.exits && s.exits[pid] == s.procs[j].xstate
            && pid in Step(s, c, k).collected
  {
    hide BaseInv, ForkInv;
    assert PidOk(s, j);
  }

  /** What is on record stays on record. */
  lemma RecordsGrow(s: State, t: State, a: nat)
    requires BaseInv(s) && PidInv(s) && (LockOnly(s, t) || Effect(s, t, a))
    ensures s.collected <= t.collected
    ensures forall i :: i in s.exits ==> i in t.exits && t.exits[i] == s.exits[i]
  {
    if !LockOnly(s, t) {
      hide BaseInv, OthersQuiet, Own, ParentMoves, PidMoves, LockOnly;
      MeOk(s, a);
      assert PidOk(s, a);
    }
  }

  // ------------------------------------------------------------------------------- all runs

  ghost predicate Inv(s: State) {
    BaseInv(s) && ForkInv(s) && WakeInv(s) && SleepLockInv(s) && ParentInv(s) && WaitInv(s) && PidInv(s)
  }

  /** A scheduler that takes or gives back a lock disturbs none of this. */
  lemma LockOnlyKept(s: State, t: State)
    requires Inv(s) && LockOnly(s, t) && BaseInv(t)
    ensures Inv(t)
  {
    hide BaseInv, ParentInv, WaitInv, PidInv, SleepLockInv;
    LockOnlyLocks(s, t);
    LockOnlyParents(s, t);
    LockOnlyWaits(s, t);
    LockOnlyPids(s, t);
  }

  lemma LockOnlyLocks(s: State, t: State)
    requires SleepLockInv(s) && LockOnly(s, t)
    ensures SleepLockInv(t)
  {
    forall p: nat | p < |t.procs| ensures LockedHas(t, p) {
      assert LockedHas(s, p);
    }
    forall p: nat, q: nat | p < |t.procs| && q < |t.procs| ensures DisjointHas(t, p, q) {
      assert DisjointHas(s, p, q);
    }
  }

  lemma LockOnlyParents(s: State, t: State)
    requires ParentInv(s) && LockOnly(s, t)
    ensures ParentInv(t)
  {
    forall q: nat | q < |t.procs| ensures ParentOk(t, q) {
      assert ParentOk(s, q);
    }
  }

  lemma LockOnlyWaits(s: State, t: State)
    requires WaitInv(s) && LockOnly(s, t)
    ensures WaitInv(t)
  {
    forall p: nat, q: nat | p < |t.procs| && q < |t.procs| ensures ScanOk(t, p, q) && SleeperOk(t, p, q) {
      assert ScanOk(s, p, q) && SleeperOk(s, p, q);
    }
    forall q: nat | q < |t.procs| ensures ExiterOk(t, q) {
      assert ExiterOk(s, q);
    }
  }

  lemma LockOnlyPids(s: State, t: State)
    requires PidInv(s) && LockOnly(s, t)
    ensures PidInv(t)
  {
    forall p: nat | p < |t.procs| ensures PidOk(t, p) {
      assert PidOk(s, p);
    }
    forall p: nat, q: nat | p < |t.procs| && q < |t.procs| ensures PidsDiffer(t, p, q) {
      assert PidsDiffer(s, p, q);
    }
  }

  lemma StepKeeps(s: State, c: nat, k: Pick)
    requires Inv(s)
    ensures Inv(Step(s, c, k))
  {
    hide BaseInv, ForkInv, WakeInv, SleepLockInv, ParentInv, WaitInv, PidInv, Effect, LockOnly, Step;
    var t := Step(s, c, k);
    var p := StepEffect(s, c, k);
    if LockOnly(s, t) {
      LockOnlyKept(s, t);
    } else {
      ForkKept(s, t, p);
      WakeKept(s, t, p);
      SleepLockKept(s, t, p);
      ParentKept(s, t, p);
      WaitKept(s, t, p);
      PidKept(s, t, p);
    }
  }

  /** The machine as it starts: one runnable process, everything else unused, all locks free. */
  ghost predicate Boot(s: State) {
    && s.init < |s.procs| && s.wl == -1 && s.exits == map[] && s.collected == {}
    && s.procs[s.init] == Proc(Runnable, NoChan, Off(FirstRun), -1, s.procs[s.init].pid, 0, -1, -1, {})
    && s.procs[s.init].pid < s.nextpid
    && (forall p :: 0 <= p < |s.procs| && p != s.init ==>
        s.procs[p] == Proc(Unused, NoChan, Off(NoThread), -1, 0, 0, -1, -1, {}))
    && (forall c :: 0 <= c < |s.cpus| ==> s.cpus[c] == Scan)
    && (forall l :: 0 <= l < |s.locks| ==> s.locks[l] == SleepLock(-1, false))
  }

  lemma BootInv(s: State)
    requires Boot(s)
    ensures Inv(s)
  {
    hide BaseInv, ForkInv, WakeInv, SleepLockInv, ParentInv, WaitInv, PidInv, Boot;
    BootBase(s);
    BootQuiet(s);
    BootTables(s);
  }

  lemma BootQuiet(s: State)
    requires Boot(s)
    ensures ForkInv(s) && WakeInv(s) && SleepLockInv(s)
  {
    forall p: int | 0 <= p < |s.procs|
      ensures ForkSlot(s.procs[p].pc) == -1 && LockPcOk(s, s.procs[p]) && LockedHas(s, p)
      ensures s.procs[p].st != Sleeping && s.procs[p].pc.Off?
    {
    }
    hide Boot, ForkSlot, LockPcOk;
    assert forall p: nat, q: nat :: p < |s.procs| && q < |s.procs| ==> DisjointHas(s, p, q) by { BootHas(s); }
    assert ForkInv(s) && WakeInv(s) && LockPcsOk(s) && NoneStranded(s);
  }

  lemma BootHas(s: State)
    requires Boot(s)
    ensures forall p: nat, q: nat :: p < |s.procs| && q < |s.procs| ==> DisjointHas(s, p, q)
  {
  }

  lemma BootTables(s: State)
    requires Boot(s)
    ensures ParentInv(s) && WaitInv(s) && PidInv(s)
  {
    forall q: nat | q < |s.procs| ensures ParentOk(s, q) && ExiterOk(s, q) && PidOk(s, q) {
      assert s.procs[q].parent == -1;
    }
    forall p: nat, q: nat | p < |s.procs| && q < |s.procs| ensures PidsDiffer(s, p, q) && ScanOk(s, p, q)
        && SleeperOk(s, p, q) {
      assert s.procs[q].parent == -1;
    }
  }

  lemma BootBase(s: State)
    requires Boot(s)
    ensures BaseInv(s)
  {
  }

  /** Any number of steps, by any CPUs in any order. */
  ghost predicate IsRun(ss: seq<State>, cs: seq<nat>, ks: seq<Pick>) {
    && |ss| == |cs| + 1 && |ks| == |cs| && Boot(ss[0])
    && forall i :: 0 <= i < |cs| ==> ss[i + 1] == Step(ss[i], cs[i], ks[i])
  }

  /** The invariants hold in every state of every run. */
  lemma {:induction false} RunsKeep(ss: seq<State>, cs: seq<nat>, ks: seq<Pick>, i: nat)
    requires IsRun(ss, cs, ks) && i < |ss|
    ensures Inv(ss[i])
  {
    hide Inv, Boot, Step;
    if i == 0 {
      BootInv(ss[0]);
    } else {
      RunsKeep(ss, cs, ks, i - 1);
      StepKeeps(ss[i - 1], cs[i - 1], ks[i - 1]);
      assert ss[i - 1 + 1] == Step(ss[i - 1], cs[i - 1], ks[i - 1]);
    }
  }

  /** What the kernel promises in every state. */
  ghost predicate Safe(s: State) {
    && (forall c: nat, d: nat :: c < |s.cpus| && d < |s.cpus| && s.cpus[c].Run? && s.cpus[d] == s.cpus[c] ==> c == d)
    && (forall w: nat, p: nat :: w < |s.procs| && p < |s.procs| && p != w && WakeupDone(s, w) ==>
          !(s.procs[p].st == Sleeping && s.procs[p].chan == s.procs[w].pc.ch))
    && (forall p: nat, q: nat :: p < |s.procs| && q < |s.procs| && p != q ==> s.procs[p].has !! s.procs[q].has)
    && (forall p: nat, l: nat :: p < |s.procs| && l < |s.locks| && !s.locks[l].locked && s.locks[l].lk == -1 ==>
          !(s.procs[p].st == Sleeping && s.procs[p].chan == OnLock(l)))
    && (forall c: nat, p: nat, j: nat :: Reclaims(s, c, p, j) ==> OffStack(s, j))
    && (forall p: nat, q: nat :: p < |s.procs| && q < |s.procs| && s.procs[q].parent == p ==>
          && s.procs[p].st != Unused && s.procs[p].st != Zombie
          && (s.wl == -1 && s.procs[q].st == Zombie ==> !(s.procs[p].st == Sleeping && s.procs[p].chan == OnProc(p))))
  }

  /** On CPU c, p is in wait and about to free its exited child in slot j. */
  predicate Reclaims(s: State, c: nat, p: nat, j: nat) {
    && c < |s.cpus| && p < |s.procs| && j < |s.procs|
    && s.cpus[c] == Run(p) && s.procs[p].pc == WaitLocked(j) && s.procs[j].st == Zombie
  }

  /** The process in slot j has left its kernel stack for good. */
  predicate OffStack(s: State, j: nat) {
    && j < |s.procs| && s.procs[j].pc == Off(Exited) && s.procs[j].on == -1
    && forall d: int :: 0 <= d < |s.cpus| ==> s.cpus[d] != Run(j)
  }

  predicate WakeupDone(s: State, w: nat)
    requires w < |s.procs|
  {
    s.procs[w].pc.Waking? && s.procs[w].pc.j >= |s.procs|
  }

  lemma InvSafe(s: State)
    requires Inv(s)
    ensures Safe(s)
  {
    hide BaseInv, ForkInv, WakeInv, SleepLockInv, ParentInv, WaitInv, PidInv;
    forall c: nat, d: nat | c < |s.cpus| && d < |s.cpus| && s.cpus[c].Run? && s.cpus[d] == s.cpus[c] ensures c == d {
      OneCpu(s, c, d, s.cpus[c].p);
    }
    forall w: nat, p: nat | w < |s.procs| && p < |s.procs| && p != w && WakeupDone(s, w)
      ensures !(s.procs[p].st == Sleeping && s.procs[p].chan == s.procs[w].pc.ch)
    {
      NoLostWakeup(s, w, p);
    }
    forall p: nat, q: nat | p < |s.procs| && q < |s.procs| && p != q ensures s.procs[p].has !! s.procs[q].has {
      forall l | l in s.procs[p].has && l in s.procs[q].has ensures false {
        SleepLockExclusive(s, p, q, l);
      }
    }
    forall p: nat, l: nat | p < |s.procs| && l < |s.locks| && !s.locks[l].locked && s.locks[l].lk == -1
      ensures !(s.procs[p].st == Sleeping && s.procs[p].chan == OnLock(l))
    {
      FreeLockHasNoSleepers(s, p, l);
    }
    forall c: nat, p: nat, j: nat | Reclaims(s, c, p, j) ensures OffStack(s, j) {
      ReclaimedOffStack(s, c, p, j);
    }
    forall p: nat, q: nat | p < |s.procs| && q < |s.procs| && s.procs[q].parent == p
      ensures s.procs[p].st != Unused && s.procs[p].st != Zombie
      ensures s.wl == -1 && s.procs[q].st == Zombie ==> !(s.procs[p].st == Sleeping && s.procs[p].chan == OnProc(p))
    {
      NoDeadParents(s, q);
      if s.wl == -1 && s.procs[q].st == Zombie {
        NobodyWaitsInVain(s, p, q);
      }
    }
  }

  /**
   In every state of every run, whatever the interleaving: a process runs on at most one CPU;
   a finished wakeup has left nobody else asleep; a sleep lock has at most one owner and a free
   one no sleepers; a slot being reclaimed is off its stack; parents are alive; and no parent
   sleeps in wait past its child's exit.
   */
  lemma RunsAreSafe(ss: seq<State>, cs: seq<nat>, ks: seq<Pick>, i: nat)
    requires IsRun(ss, cs, ks) && i < |ss|
    ensures Safe(ss[i])
  {
    RunsKeep(ss, cs, ks, i);
    InvSafe(ss[i]);
  }

  /** The step is wait taking the status of the process with this pid. */
  ghost predicate Collects(s: State, c: nat, k: Pick, pid: nat) {
    exists p: nat, j: nat :: Reclaims(s, c, p, j) && s.procs[j].pid == pid && !k.fails
  }

  lemma CollectingRecords(s: State, c: nat, k: Pick, pid: nat)
    requires Inv(s) && Collects(s, c, k, pid)
    ensures pid !in s.collected && pid in s.exits && pid in Step(s, c, k).collected
  {
    var p: nat, j: nat :| Reclaims(s, c, p, j) && s.procs[j].pid == pid && !k.fails;
    hide BaseInv, ForkInv, WakeInv, SleepLockInv, ParentInv, WaitInv, PidInv, Step;
    CollectedOnce(s, c, p, j, k);
  }

  lemma {:induction false} RecordsLast(ss: seq<State>, cs: seq<nat>, ks: seq<Pick>, i: nat, j: nat)
    requires IsRun(ss, cs, ks) && i <= j < |ss|
    ensures ss[i].collected <= ss[j].collected
    ensures forall pid :: pid in ss[i].exits ==> pid in ss[j].exits && ss[j].exits[pid] == ss[i].exits[pid]
    decreases j - i
  {
    hide Inv, Boot, Step, Effect, LockOnly, BaseInv, ForkInv, PidInv;
    if i < j {
      RecordsLast(ss, cs, ks, i, j - 1);
      var s := ss[j - 1];
      RunsKeep(ss, cs, ks, j - 1);
      InvParts(s);
      var p := StepEffect(s, cs[j - 1], ks[j - 1]);
      assert ss[j - 1 + 1] == Step(s, cs[j - 1], ks[j - 1]);
      RecordsGrow(s, ss[j], p);
    }
  }

  lemma InvParts(s: State)
    requires Inv(s)
    ensures BaseInv(s) && ForkInv(s) && PidInv(s)
  {
    hide BaseInv, ForkInv, WakeInv, SleepLockInv, ParentInv, WaitInv, PidInv;
  }

  /** In every run, no exit status is collected twice. */
  lemma RunsCollectOnce(ss: seq<State>, cs: seq<nat>, ks: seq<Pick>, i: nat, j: nat, pid: nat)
    requires IsRun(ss, cs, ks) && i < j < |cs| && Collects(ss[i], cs[i], ks[i], pid)
    ensures !Collects(ss[j], cs[j], ks[j], pid)
  {
    hide Inv, Boot, Step, Collects;
    RunsKeep(ss, cs, ks, i);
    RunsKeep(ss, cs, ks, j);
    CollectingRecords(ss[i], cs[i], ks[i], pid);
    assert ss[i + 1] == Step(ss[i], cs[i], ks[i]);
    RecordsLast(ss, cs, ks, i + 1, j);
    if Collects(ss[j], cs[j], ks[j], pid) {
      CollectingRecords(ss[j], cs[j], ks[j], pid);
    }
  }

  /** ... and the status collected is the one the process exited with, at whatever earlier time. */
  lemma RunsCollectTheStatus(ss: seq<State>, cs: seq<nat>, ks: seq<Pick>, i: nat, j: nat, q: nat)
    requires IsRun(ss, cs, ks) && i <= j < |ss| && q < |ss[j].procs| && ss[j].procs[q].st == Zombie
    requires ss[j].procs[q].pid in ss[i].exits
    ensures ss[j].procs[q].xstate == ss[i].exits[ss[j].procs[q].pid]
  {
    hide Boot, Step, BaseInv, ForkInv, WakeInv, SleepLockInv, ParentInv, WaitInv;
    RunsKeep(ss, cs, ks, j);
    assert PidOk(ss[j], q);
    RecordsLast(ss, cs, ks, i, j);
  }
}
