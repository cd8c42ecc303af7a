/**
 Who can go on (kernel/proc.c, kernel/sleeplock.c): what a thread waits for, that spin locks do not
 deadlock, and that sleep and the sleep locks return only with what they were called for.
 */
module KernelProgress {
  import opened Common
  import opened Kernel
  import opened KernelSafety
  import opened KernelTheorems
  import opened KernelCalls

  // ------------------------------------------------------------------------------ spinning

  /** The spin lock that a thread of process p is at an acquire of, if it is at one. */
  function Wants(s: State, p: nat): Option<Lock>
    requires p < |s.procs|
  {
    match s.procs[p].pc
    case SleepHave(_) => Some(ProcLock(p))
    case SleepReacquire(ch) => Some(LockOf(ch))
    case Waking(_, j, _) => if j < |s.procs| && j != p then Some(ProcLock(j)) else None
    case AcquireWant(l) => Some(InnerLock(l))
    case ReleaseWant(l) => Some(InnerLock(l))
    case MonitorWant(l) => Some(InnerLock(l))
    case ExitWant(_) => Some(WaitLock)
    case ExitHave(_) => Some(ProcLock(p))
    case WaitWant => Some(WaitLock)
    case WaitScan(j, _) => if j < |s.procs| && s.procs[j].parent == p then Some(ProcLock(j)) else None
    case ForkNamed(_) => Some(WaitLock)
    case ForkReady(j) => Some(ProcLock(j))
    case _ => None
  }

  /** It spins there: somebody has the lock. */
  predicate Blocked(s: State, p: nat)
    requires p < |s.procs|
  {
    Wants(s, p).Some? && Holder(s, Wants(s, p).value) != -1
  }

  lemma SleepGoes(s: State, c: nat, p: nat)
    requires c < |s.cpus| && p < |s.procs| && ProcOk(s, p, s.procs[p]) && SleepStep(s.procs[p].pc)
    requires !s.procs[p].pc.Off?
    ensures SleepThread(s, c, p) == s <==> Blocked(s, p)
  {
    var t := SleepThread(s, c, p);
    assert Blocked(s, p) || (p < |t.procs| && t.procs[p].pc != s.procs[p].pc);
  }

  lemma WakeGoes(s: State, c: nat, p: nat)
    requires p < |s.procs| && ProcOk(s, p, s.procs[p]) && WakeStep(s.procs[p].pc)
    ensures WakeThread(s, c, p) == s <==> Blocked(s, p)
  {
    var t := WakeThread(s, c, p);
    assert Blocked(s, p) || (p < |t.procs| && t.procs[p].pc != s.procs[p].pc);
  }

  lemma SleepLockGoes(s: State, c: nat, p: nat)
    requires p < |s.procs| && ProcOk(s, p, s.procs[p]) && SleepLockStep(s.procs[p].pc)
    ensures SleepLockThread(s, c, p) == s <==> Blocked(s, p)
  {
    var t := SleepLockThread(s, c, p);
    assert Blocked(s, p) || (p < |t.procs| && t.procs[p].pc != s.procs[p].pc);
  }

  lemma MonitorGoes(s: State, c: nat, p: nat, k: Pick)
    requires p < |s.procs| && ProcOk(s, p, s.procs[p]) && MonitorStep(s.procs[p].pc)
    ensures MonitorThread(s, c, p, k) == s <==> Blocked(s, p)
  {
    var t := MonitorThread(s, c, p, k);
    assert Blocked(s, p) || (p < |t.procs| && t.procs[p].pc != s.procs[p].pc);
  }

  lemma ExitGoes(s: State, c: nat, p: nat)
    requires p < |s.procs| && ProcOk(s, p, s.procs[p]) && ExitStep(s.procs[p].pc)
    ensures ExitThread(s, c, p) == s <==> Blocked(s, p)
  {
    var t := ExitThread(s, c, p);
    assert Blocked(s, p) || (p < |t.procs| && t.procs[p].pc != s.procs[p].pc);
  }

  lemma WaitGoes(s: State, c: nat, p: nat, fails: bool)
    requires p < |s.procs| && ProcOk(s, p, s.procs[p]) && WaitStep(s.procs[p].pc)
    ensures WaitThread(s, c, p, fails) == s <==> Blocked(s, p)
  {
    var t := WaitThread(s, c, p, fails);
    assert Blocked(s, p) || (p < |t.procs| && t.procs[p].pc != s.procs[p].pc);
  }

  lemma ForkGoes(s: State, c: nat, p: nat, fails: bool)
    requires p < |s.procs| && ProcOk(s, p, s.procs[p]) && ForkStep(s.procs[p].pc)
    ensures ForkThread(s, c, p, fails) == s <==> Blocked(s, p)
  {
    var t := ForkThread(s, c, p, fails);
    assert Blocked(s, p) || (p < |t.procs| && t.procs[p].pc != s.procs[p].pc);
  }

  /** A thread in the kernel takes a step, unless it spins for a lock that somebody has. */
  lemma ThreadGoes(s: State, c: nat, k: Pick, p: nat)
    requires BaseInv(s) && c < |s.cpus| && s.cpus[c] == Run(p) && p < |s.procs| && s.procs[p].pc != User
    requires !k.interrupt
    ensures Step(s, c, k) == s <==> Blocked(s, p)
  {
    hide BaseInv, SleepThread, WakeThread, SleepLockThread, MonitorThread, ExitThread, WaitThread, ForkThread, Blocked;
    MeOk(s, p);
    OnCpu(s, c, p);
    var pc := s.procs[p].pc;
    if SleepStep(pc) {
      SleepGoes(s, c, p);
    } else if WakeStep(pc) {
      WakeGoes(s, c, p);
    } else if SleepLockStep(pc) {
      SleepLockGoes(s, c, p);
    } else if MonitorStep(pc) {
      MonitorGoes(s, c, p, k);
    } else if ExitStep(pc) {
      ExitGoes(s, c, p);
    } else if WaitStep(pc) {
      WaitGoes(s, c, p, k.fails);
    } else if ForkStep(pc) {
      ForkGoes(s, c, p, k.fails);
    } else {
      KillGoes(s, c, p);
    }
  }

  lemma KillGoes(s: State, c: nat, p: nat)
    requires p < |s.procs| && ProcOk(s, p, s.procs[p]) && s.procs[p].pc.KillLocked?
    ensures KillThread(s, c, p) != s && !Blocked(s, p)
  {
    hide WithHolder, Holder;
  }

  // ------------------------------------------------------------------------- no deadlock

  /** CPU c is at an acquire of a lock that CPU d has. */
  ghost predicate WaitsFor(s: State, c: nat, d: nat) {
    && c < |s.cpus| && d < |s.cpus| && s.cpus[c].Run? && s.cpus[c].p < |s.procs|
    && Wants(s, s.cpus[c].p).Some? && Holder(s, Wants(s, s.cpus[c].p).value) == d
  }

  /** Whatever is left open, the next step of CPU d changes something. */
  ghost predicate Moves(s: State, d: nat) {
    forall k: Pick :: !k.interrupt ==> Step(s, d, k) != s
  }

  lemma WantedIsLock(s: State, p: nat)
    requires p < |s.procs| && ProcOk(s, p, s.procs[p]) && Wants(s, p).Some?
    ensures IsLock(s, Wants(s, p).value) && Wants(s, p).value !in Holds(s.procs[p].pc, p)
  {
  }

  /** Whoever spins has not got the lock itself: it is another CPU's. */
  lemma SpinsForAnother(s: State, c: nat, p: nat) returns (d: nat)
    requires BaseInv(s) && c < |s.cpus| && s.cpus[c] == Run(p) && p < |s.procs| && Blocked(s, p)
    ensures d != c && WaitsFor(s, c, d) && Wants(s, p).value in CpuHolds(s, d)
  {
    hide Wants, Holds, ProcOk, Holder;
    MeOk(s, p);
    WantedIsLock(s, p);
    d := Holder(s, Wants(s, p).value);
  }

  /** A thread that has some process's lock wants no lock at all. */
  lemma ProcLockLast(s: State, p: nat, j: int)
    requires p < |s.procs| && ProcLock(j) in Holds(s.procs[p].pc, p)
    ensures Wants(s, p).None?
  {
  }

  /** A CPU that has a lock and does not spin goes on. */
  lemma HolderMoves(s: State, d: nat, x: Lock)
    requires BaseInv(s) && d < |s.cpus| && x in CpuHolds(s, d)
    requires s.cpus[d].Run? && s.cpus[d].p < |s.procs| ==> !Blocked(s, s.cpus[d].p)
    ensures Moves(s, d)
  {
    forall k: Pick | !k.interrupt ensures Step(s, d, k) != s {
      if s.cpus[d].Run? {
        hide BaseInv, Step, Blocked;
        ThreadGoes(s, d, k, s.cpus[d].p);
      } else {
        hide BaseInv;
        assert Step(s, d, k).cpus[d] != s.cpus[d];
      }
    }
  }

  /** A CPU that has a process's lock goes on. */
  lemma ProcHolderMoves(s: State, d: nat, j: int)
    requires BaseInv(s) && d < |s.cpus| && ProcLock(j) in CpuHolds(s, d)
    ensures Moves(s, d)
  {
    hide BaseInv, Step, Wants;
    if s.cpus[d].Run? && s.cpus[d].p < |s.procs| {
      ProcLockLast(s, s.cpus[d].p, j);
    }
    HolderMoves(s, d, ProcLock(j));
  }

  /** What a thread with a lock wants is some process's lock. */
  lemma SecondLock(s: State, p: nat, x: Lock)
    requires p < |s.procs| && x in Holds(s.procs[p].pc, p) && Wants(s, p).Some?
    ensures Wants(s, p).value.ProcLock?
  {
  }

  /**
   Spin locks never deadlock: a CPU that spins waits for another one that goes on, or for one that
   waits for a third that goes on.
   */
  lemma NoDeadlock(ss: seq<State>, cs: seq<nat>, ks: seq<Pick>, i: nat, c: nat)
    requires IsRun(ss, cs, ks) && i < |ss| && c < |ss[i].cpus|
    requires ss[i].cpus[c].Run? && ss[i].cpus[c].p < |ss[i].procs| && Blocked(ss[i], ss[i].cpus[c].p)
    ensures exists d: nat :: d != c && WaitsFor(ss[i], c, d)
                             && (Moves(ss[i], d) || exists e: nat :: WaitsFor(ss[i], d, e) && Moves(ss[i], e))
  {
    hide Boot, Inv, Step, Moves, Blocked;
    var s := ss[i];
    RunsKeep(ss, cs, ks, i);
    InvParts(s);
    var d := SpinsForAnother(s, c, s.cpus[c].p);
    ChainMoves(s, d, Wants(s, s.cpus[c].p).value);
  }

  lemma ChainMoves(s: State, d: nat, x: Lock)
    requires BaseInv(s) && d < |s.cpus| && x in CpuHolds(s, d)
    ensures Moves(s, d) || exists e: nat :: WaitsFor(s, d, e) && Moves(s, e)
  {
    hide BaseInv, Moves, Step, Wants, Holds, Blocked;
    if s.cpus[d].Run? && s.cpus[d].p < |s.procs| && Blocked(s, s.cpus[d].p) {
      var e := SpinsForAnother(s, d, s.cpus[d].p);
      BlockedWants(s, s.cpus[d].p);
      SecondLock(s, s.cpus[d].p, x);
      ProcHolderMoves(s, e, Wants(s, s.cpus[d].p).value.i);
    } else {
      HolderMoves(s, d, x);
    }
  }

  lemma BlockedWants(s: State, p: nat)
    requires p < |s.procs| && Blocked(s, p)
    ensures Wants(s, p).Some?
  {
  }

  // ------------------------------------------------------------------------------- sleep

  ghost predicate AsleepOn(s: State, p: nat, ch: Chan) {
    p < |s.procs| && s.procs[p].st == Sleeping && s.procs[p].chan == ch
  }

  /** In sleep, and not yet asleep. */
  ghost predicate Dozing(s: State, p: nat, ch: Chan) {
    p < |s.procs| && (s.procs[p].pc == SleepHave(ch) || s.procs[p].pc == SleepBoth(ch) || s.procs[p].pc == SleepOwn(ch))
  }

  lemma DozeOn(s: State, c: nat, k: Pick, p: nat, ch: Chan)
    requires Inv(s) && Dozing(s, p, ch)
    ensures Dozing(Step(s, c, k), p, ch) || AsleepOn(Step(s, c, k), p, ch)
  {
    hide BaseInv, ForkInv, WakeInv, SleepLockInv, ParentInv, WaitInv, PidInv, LockOnly, Effect;
    if c < |s.cpus| && s.cpus[c] == Run(p) {
      OwnDoze(s, c, k, p, ch);
    } else if c < |s.cpus| {
      var a := StepEffect(s, c, k);
      MeOk(s, p);
      if LockOnly(s, Step(s, c, k)) {
        LockOnlyDoze(s, Step(s, c, k), p, ch);
      } else {
        RunningStays(s, c, k, p);
        EffectShape(s, Step(s, c, k), a);
        SamePc(s, Step(s, c, k), a, p);
      }
    }
  }

  lemma LockOnlyDoze(s: State, t: State, p: nat, ch: Chan)
    requires LockOnly(s, t) && Dozing(s, p, ch)
    ensures Dozing(t, p, ch)
  {
  }

  lemma OwnDoze(s: State, c: nat, k: Pick, p: nat, ch: Chan)
    requires c < |s.cpus| && s.cpus[c] == Run(p) && Dozing(s, p, ch)
    ensures Dozing(Step(s, c, k), p, ch) || AsleepOn(Step(s, c, k), p, ch)
  {
  }

  /** A scheduler does not touch a process that is running. */
  lemma RunningStays(s: State, c: nat, k: Pick, p: nat)
    requires c < |s.cpus| && p < |s.procs| && s.procs[p].st == Running
    ensures s.cpus[c] == Locked(p) ==> LockOnly(s, Step(s, c, k))
  {
  }

  /** Whoever calls sleep is asleep on the channel before it gets any further. */
  lemma {:induction false} SleepsFirst(ss: seq<State>, cs: seq<nat>, ks: seq<Pick>, i: nat, j: nat, p: nat, ch: Chan)
    requires IsRun(ss, cs, ks) && i <= j < |ss| && Dozing(ss[i], p, ch) && !Dozing(ss[j], p, ch)
    ensures exists n: nat :: i < n <= j && AsleepOn(ss[n], p, ch)
    decreases j - i
  {
    hide Boot, Inv, Step, Dozing, AsleepOn;
    if i < j {
      RunsKeep(ss, cs, ks, i);
      DozeOn(ss[i], cs[i], ks[i], p, ch);
      assert ss[i + 1] == Step(ss[i], cs[i], ks[i]);
      if !AsleepOn(ss[i + 1], p, ch) {
        SleepsFirst(ss, cs, ks, i + 1, j, p, ch);
      }
    }
  }

  // ------------------------------------------------------------------------- sleep locks

  /** At the end of acquiresleep the process has the lock; from where releasesleep lets go of it, it has not. */
  ghost predicate LockDone(s: State, p: nat)
    requires p < |s.procs|
  {
    var q := s.procs[p];
    && (q.pc.AcquireDone? ==> q.pc.l in q.has)
    && (q.pc.ReleaseDone? ==> q.pc.l !in q.has)
    && ((q.pc.Waking? || q.pc.WakingLocked?) && q.pc.ch.OnLock? ==> q.pc.ch.l !in q.has)
  }

  lemma LockDoneOwn(s: State, t: State, a: nat)
    requires Effect(s, t, a) && ProcOk(s, a, s.procs[a]) && a < |t.procs| && LockDone(s, a)
    ensures LockDone(t, a)
  {
    hide OthersQuiet, Shared, CameSleep, CameMonitor, CameExit, CameWait, CameFork;
  }

  lemma LockDoneOther(s: State, t: State, a: nat, p: nat)
    requires Effect(s, t, a) && p < |s.procs| && p < |t.procs| && p != a && LockDone(s, p)
    ensures LockDone(t, p)
  {
    hide Effect;
    SamePc(s, t, a, p);
  }

  lemma {:induction false} RunsKeepLockDone(ss: seq<State>, cs: seq<nat>, ks: seq<Pick>, i: nat, p: nat)
    requires IsRun(ss, cs, ks) && i < |ss| && p < |ss[i].procs|
    ensures LockDone(ss[i], p)
  {
    if i == 0 {
      hide Step;
      BootDone(ss[0], p);
    } else {
      hide Boot, Step, BaseInv, ForkInv, WakeInv, SleepLockInv, ParentInv, WaitInv, PidInv, Effect, LockDone;
      var j := i - 1;
      RunsKeep(ss, cs, ks, j);
      var a := StepEffect(ss[j], cs[j], ks[j]);
      assert ss[j + 1] == Step(ss[j], cs[j], ks[j]);
      RunsKeepLockDone(ss, cs, ks, j, p);
      if LockOnly(ss[j], ss[i]) {
        LockOnlyDone(ss[j], ss[i], p);
      } else if p == a {
        MeOk(ss[j], p);
        LockDoneOwn(ss[j], ss[i], p);
      } else {
        LockDoneOther(ss[j], ss[i], a, p);
      }
    }
  }

  lemma BootDone(s: State, p: nat)
    requires Boot(s) && p < |s.procs|
    ensures LockDone(s, p)
  {
  }

  lemma LockOnlyDone(s: State, t: State, p: nat)
    requires LockOnly(s, t) && p < |s.procs| && p < |t.procs| && LockDone(s, p)
    ensures LockDone(t, p)
  {
  }

  /** acquiresleep returns with the lock, which is locked and nobody else's; releasesleep returns without it. */
  lemma SleepLocksReturn(ss: seq<State>, cs: seq<nat>, ks: seq<Pick>, i: nat, p: nat)
    requires StepOf(ss, cs, ks, i, p) && (ss[i].procs[p].pc.AcquireDone? || ss[i].procs[p].pc.ReleaseDone?)
    ensures var l, t := ss[i].procs[p].pc.l, ss[i + 1];
            && t.procs[p].pc == User && l < |t.locks|
            && (l in t.procs[p].has <==> ss[i].procs[p].pc.AcquireDone?)
            && (l in t.procs[p].has ==>
                  t.locks[l].locked && forall q: nat :: q < |t.procs| && q != p ==> l !in t.procs[q].has)
  {
    hide Boot, Inv, LockDone, Step;
    RunsKeep(ss, cs, ks, i);
    InvParts(ss[i]);
    RunsKeepLockDone(ss, cs, ks, i, p);
    assert ss[i + 1] == Step(ss[i], cs[i], ks[i]);
    var l := ss[i].procs[p].pc.l;
    SleepLockReturn(ss[i], cs[i], ks[i], p, l);
    if l in ss[i + 1].procs[p].has {
      assert HasOwner(ss[i + 1], l);
      LockedIffOwned(ss, cs, ks, i + 1, l);
      RunsKeep(ss, cs, ks, i + 1);
      NobodyElse(ss[i + 1], p, l);
    }
  }

  lemma NobodyElse(s: State, p: nat, l: nat)
    requires Inv(s) && p < |s.procs| && l in s.procs[p].has
    ensures forall q: nat :: q < |s.procs| && q != p ==> l !in s.procs[q].has
  {
    hide BaseInv, ForkInv, WakeInv, SleepLockInv, ParentInv, WaitInv, PidInv;
    forall q: nat | q < |s.procs| && l in s.procs[q].has ensures q == p {
      SleepLockExclusive(s, p, q, l);
    }
  }

  lemma SleepLockReturn(s: State, c: nat, k: Pick, p: nat, l: nat)
    requires BaseInv(s) && c < |s.cpus| && s.cpus[c] == Run(p) && p < |s.procs| && p < |Step(s, c, k).procs|
    requires LockDone(s, p) && (s.procs[p].pc == AcquireDone(l) || s.procs[p].pc == ReleaseDone(l))
    ensures Step(s, c, k).procs[p].pc == User && l < |Step(s, c, k).locks|
    ensures l in Step(s, c, k).procs[p].has <==> s.procs[p].pc.AcquireDone?
  {
    hide LockInv, RunInv;
    MeOk(s, p);
  }

  // --------------------------------------------------------------------------- scheduler

  /** A scheduler that has a process's lock runs it exactly if it is runnable, and otherwise lets go of it. */
  lemma SchedulerRuns(s: State, c: nat, k: Pick, j: nat)
    requires BaseInv(s) && c < |s.cpus| && s.cpus[c] == Locked(j) && j < |s.procs|
    ensures var t := Step(s, c, k);
            && c < |t.cpus| && j < |t.procs|
            && if s.procs[j].st == Runnable then
                 t.cpus[c] == Run(j) && t.procs[j].st == Running && t.procs[j].on == c && t.procs[j].lock == c
               else t.cpus[c] == Scan && t.procs[j] == s.procs[j].(lock := -1)
  {
    assert ProcLock(j) in CpuHolds(s, c);
    assert Holder(s, ProcLock(j)) == c;
  }
}
