/**
 What every interleaving of kernel threads keeps (kernel/proc.c, kernel/sleeplock.c): no lost
 wakeup, mutual exclusion of sleep locks, and the safety of exit, wait and reparent.
 */
module KernelSafety {
  import opened Kernel

  // ---------------------------------------------------- what a step does to other processes

  /** A slot without a thread that could go on: unused, not yet run, or exited. */
  predicate Blank(pc: Pc) {
    pc == Off(NoThread) || pc == Off(FirstRun) || pc == Off(Exited)
  }

  /** What another process's step may do to a process. */
  ghost predicate Quiet(q: Proc, r: Proc) {
    && (r.pc == q.pc || (Blank(r.pc) && Blank(q.pc)))
    && (r.st == Sleeping ==> q.st == Sleeping && r.chan == q.chan)
    && (r.st == Zombie ==> q.st == Zombie && r.pid == q.pid && r.xstate == q.xstate)
    && (r.st == Unused ==> q.st == Unused || q.st == Zombie || q.st == Used)
    && (r.st == Used ==> q.st == Unused || q.st == Used)
    && (r.has == q.has || (r.has == {} && r.pc == Off(NoThread)))
  }

  ghost predicate SameShape(s: State, t: State) {
    |t.procs| == |s.procs| && |t.locks| == |s.locks| && |t.cpus| == |s.cpus| && t.init == s.init
  }

  /** Only a fork changes the state of the slot it is filling. */
  ghost predicate OthersQuiet(s: State, t: State, p: int, slot: int) {
    && SameShape(s, t)
    && forall i :: 0 <= i < |s.procs| && i != p ==>
         Quiet(s.procs[i], t.procs[i]) && (s.procs[i].st == Used && i != slot ==> t.procs[i].st == Used)
  }

  lemma StartQuiet(s: State, c: nat, p: nat, k: Pick)
    requires p < |s.procs| && c < |s.cpus|
    ensures OthersQuiet(s, Start(s, c, p, k), p, -1)
  {
    hide Acquire, Release;
  }

  lemma SleepQuiet(s: State, c: nat, p: nat, k: Pick)
    requires p < |s.procs| && c < |s.cpus| && SleepStep(s.procs[p].pc)
    ensures OthersQuiet(s, SleepThread(s, c, p), p, -1)
  {
    hide Acquire, Release;
  }

  lemma WakeQuiet(s: State, c: nat, p: nat, k: Pick)
    requires p < |s.procs| && c < |s.cpus| && WakeStep(s.procs[p].pc)
    ensures OthersQuiet(s, WakeThread(s, c, p), p, -1)
  {
    hide Acquire, Release;
  }

  lemma SleepLockQuiet(s: State, c: nat, p: nat, k: Pick)
    requires p < |s.procs| && c < |s.cpus| && SleepLockStep(s.procs[p].pc)
    ensures OthersQuiet(s, SleepLockThread(s, c, p), p, -1)
  {
    hide Acquire, Release;
  }

  lemma PreemptQuiet(s: State, c: nat, p: nat)
    requires p < |s.procs| && c < |s.cpus|
    ensures OthersQuiet(s, Acquire(s, c, p, ProcLock(p), Yielding(s.procs[p].pc)), p, Filling(s.procs[p].pc))
  {
    hide Acquire;
  }

  lemma MonitorQuiet(s: State, c: nat, p: nat, k: Pick)
    requires p < |s.procs| && c < |s.cpus| && MonitorStep(s.procs[p].pc)
    ensures OthersQuiet(s, MonitorThread(s, c, p, k), p, -1)
  {
    hide Acquire, Release;
  }

  lemma ExitQuiet(s: State, c: nat, p: nat, k: Pick)
    requires p < |s.procs| && c < |s.cpus| && ExitStep(s.procs[p].pc)
    ensures OthersQuiet(s, ExitThread(s, c, p), p, -1)
  {
    hide Acquire, Release;
  }

  lemma WaitQuiet(s: State, c: nat, p: nat, k: Pick)
    requires p < |s.procs| && c < |s.cpus| && BaseInv(s) && s.cpus[c] == Run(p) && WaitStep(s.procs[p].pc)
    ensures OthersQuiet(s, WaitThread(s, c, p, k.fails), p, -1)
  {
    hide BaseInv, Acquire, Release;
    MeOk(s, p);
    if s.procs[p].pc.WaitLocked? {
      CollectedQuiet(s, c, p, k);
    }
  }

  lemma CollectedQuiet(s: State, c: nat, p: nat, k: Pick)
    requires p < |s.procs| && c < |s.cpus| && BaseInv(s) && s.cpus[c] == Run(p) && s.procs[p].pc.WaitLocked?
    ensures OthersQuiet(s, WaitThread(s, c, p, k.fails), p, -1)
  {
    hide LockInv, RunInv, ProcsOk;
    MeOk(s, p);
    var j := s.procs[p].pc.j;
    if s.procs[j].st == Zombie {
      OthersAreOff(s, c, j);
      MeOk(s, j);
    }
  }

  lemma ForkQuiet(s: State, c: nat, p: nat, k: Pick)
    requires p < |s.procs| && c < |s.cpus| && BaseInv(s) && ForkInv(s) && s.cpus[c] == Run(p) && ForkStep(s.procs[p].pc)
    ensures OthersQuiet(s, ForkThread(s, c, p, k.fails), p, Filling(s.procs[p].pc))
  {
    hide LockInv, RunInv, ProcsOk;
    MeOk(s, p);
    var j := s.procs[p].pc.j;
    MeOk(s, j);
    if s.procs[j].st == Unused && s.procs[p].pc.ForkLocked? {
      OthersAreOff(s, c, j);
    }
    SlotQuiet(s, c, p, k, j);
  }

  lemma SlotQuiet(s: State, c: nat, p: nat, k: Pick, j: nat)
    requires p < |s.procs| && c < |s.cpus| && j < |s.procs| && s.procs[p].st == Running
    requires ForkStep(s.procs[p].pc) && s.procs[p].pc.j == j
    requires s.procs[p].pc.ForkLocked? && s.procs[j].st == Unused ==> Blank(s.procs[j].pc)
    requires !s.procs[p].pc.ForkLocked? ==> s.procs[j].st == Used && Blank(s.procs[j].pc)
    ensures OthersQuiet(s, ForkThread(s, c, p, k.fails), p, Filling(s.procs[p].pc))
  {
    hide Acquire, Release;
  }

  lemma KillQuiet(s: State, c: nat, p: nat, k: Pick)
    requires p < |s.procs| && c < |s.cpus|
    ensures OthersQuiet(s, KillThread(s, c, p), p, -1)
  {
    hide Acquire, Release;
  }

  lemma ThreadQuiet(s: State, c: nat, p: nat, k: Pick)
    requires p < |s.procs| && c < |s.cpus| && BaseInv(s) && s.cpus[c] == Run(p) && ForkInv(s)
    ensures OthersQuiet(s, ThreadStep(s, c, p, k), p, Filling(s.procs[p].pc))
  {
    hide BaseInv, ForkInv, Start, SleepThread, WakeThread, SleepLockThread, MonitorThread, ExitThread, WaitThread,
      ForkThread, KillThread, Acquire;
    hide OthersQuiet;
    var pc := s.procs[p].pc;
    MeOk(s, p);
    if k.interrupt && Preemptible(pc) {
      PreemptQuiet(s, c, p);
    } else if pc == User {
      StartQuiet(s, c, p, k);
    } else if SleepStep(pc) {
      SleepQuiet(s, c, p, k);
    } else if WakeStep(pc) {
      WakeQuiet(s, c, p, k);
    } else if SleepLockStep(pc) {
      SleepLockQuiet(s, c, p, k);
    } else if MonitorStep(pc) {
      MonitorQuiet(s, c, p, k);
    } else if ExitStep(pc) {
      ExitQuiet(s, c, p, k);
    } else if WaitStep(pc) {
      WaitQuiet(s, c, p, k);
    } else if ForkStep(pc) {
      ForkQuiet(s, c, p, k);
    } else {
      KillQuiet(s, c, p, k);
    }
  }

  // ------------------------------------------------------ what a step does to its own process

  ghost predicate CameSleep(s: State, t: State, p: int, q: Proc, pc: Pc)
    requires |s.procs| == |t.procs| && |s.locks| == |t.locks|
  {
    match pc
    case Yielding(at) =>
      && q.pc == at && Preemptible(at)
      && (0 <= Filling(at) < |s.procs| ==> t.procs[Filling(at)].st == s.procs[Filling(at)].st)
    case InSched(k) =>
      || (k.AfterYield? && q.pc == Yielding(k.at))
      || (k.AfterSleep? && q.pc == SleepOwn(k.ch))
      || (k == Exited && q.pc == ExitZombie)
    case Off(k) => q.pc == InSched(k)
    case Back(k) => q.pc == Off(k) && q.st == Runnable
    case SleepHave(ch) =>
      || (ch.OnLock? && q.pc == AcquireHave(ch.l) && ch.l < |s.locks| && s.locks[ch.l].locked)
      || (ch.OnCond? && q.pc == MonitorHave(ch.l))
      || (ch == OnProc(p) && q.pc.WaitScan? && q.pc.j >= |s.procs|)
    case SleepBoth(ch) => q.pc == SleepHave(ch)
    case SleepOwn(ch) => q.pc == SleepBoth(ch)
    case SleepTidy(ch) => q.pc == Back(AfterSleep(ch))
    case SleepReacquire(ch) => q.pc == SleepTidy(ch)
    case _ => q.pc == User
  }

  ghost predicate CameWake(s: State, t: State, p: int, q: Proc, pc: Pc)
    requires |s.procs| == |t.procs| && |s.locks| == |t.locks|
  {
    match pc
    case Waking(ch, j, w) =>
      || (j == 0 && w == ToRelease && ch.OnLock? && q.pc == ReleaseHave(ch.l))
      || (j == 0 && w == ToMonitor && ch.OnCond? && q.pc == MonitorHave(ch.l))
      || (j == 0 && w.ToReparent? && 0 < w.j <= |s.procs| && q.pc == Reparenting(w.j - 1, w.status)
          && s.procs[w.j - 1].parent == p && t.procs[w.j - 1].parent == s.init && ch == OnProc(s.init))
      || (j == 0 && w.ToExit? && q.pc.Reparenting? && q.pc.status == w.status && q.pc.j >= |s.procs|
          && ch == OnProc(q.parent))
      || (j > 0 && q.pc == Waking(ch, j - 1, w) && j - 1 == p)
      || (0 < j <= |s.procs| && q.pc == WakingLocked(ch, j - 1, w)
          && !(t.procs[j - 1].st == Sleeping && t.procs[j - 1].chan == ch))
    case WakingLocked(ch, j, w) => q.pc == Waking(ch, j, w) && j < |s.procs| && j != p
    case _ => false
  }

  ghost predicate CameSleepLock(s: State, t: State, p: int, q: Proc, pc: Pc)
    requires |s.procs| == |t.procs| && |s.locks| == |t.locks|
  {
    match pc
    case AcquireHave(l) => q.pc == AcquireWant(l) || q.pc == SleepReacquire(OnLock(l))
    case AcquireFree(l) => q.pc == AcquireHave(l) && l < |s.locks| && !s.locks[l].locked
    case AcquireDone(l) => q.pc == AcquireFree(l)
    case ReleaseWant(l) => q.pc == User && l in q.has
    case ReleaseHave(l) => q.pc == ReleaseWant(l)
    case ReleaseDone(l) => q.pc.Waking? && q.pc.j >= |s.procs| && q.pc.ch == OnLock(l)
    case _ => q.pc == User
  }

  ghost predicate CameMonitor(s: State, q: Proc, pc: Pc) {
    match pc
    case MonitorHave(l) =>
      || q.pc == MonitorWant(l)
      || (q.pc.SleepReacquire? && q.pc.ch.OnCond? && q.pc.ch.l == l)
      || (q.pc.Waking? && q.pc.j >= |s.procs| && q.pc.w == ToMonitor)
    case _ => q.pc == User
  }

  ghost predicate CameExit(s: State, t: State, p: int, q: Proc, pc: Pc)
    requires |s.procs| == |t.procs| && |s.locks| == |t.locks|
  {
    match pc
    case ExitWant(_) => q.pc == User && p != s.init && q.has == {}
    case Reparenting(j, status) =>
      || (j == 0 && q.pc == ExitWant(status))
      || (0 < j <= |s.procs| && q.pc == Reparenting(j - 1, status) && s.procs[j - 1].parent != p)
      || (q.pc.Waking? && q.pc.w == ToReparent(j, status) && q.pc.j >= |s.procs|)
    case ExitHave(status) => q.pc.Waking? && q.pc.w == ToExit(status) && q.pc.j >= |s.procs|
    case ExitBoth(status) => q.pc == ExitHave(status)
    case ExitZombie => q.pc.ExitBoth?
    case _ => false
  }

  ghost predicate CameWait(s: State, t: State, p: int, q: Proc, pc: Pc)
    requires |s.procs| == |t.procs| && |s.locks| == |t.locks|
  {
    match pc
    case WaitScan(j, kids) =>
      || (j == 0 && !kids && (q.pc == WaitWant || q.pc.SleepReacquire?))
      || (0 < j <= |s.procs| && q.pc == WaitScan(j - 1, kids) && s.procs[j - 1].parent != p)
      || (0 < j <= |s.procs| && q.pc == WaitLocked(j - 1) && s.procs[j - 1].st != Zombie && kids)
    case WaitLocked(j) => q.pc.WaitScan? && q.pc.j == j && j < |s.procs| && s.procs[j].parent == p
    case WaitGot(j) => q.pc == WaitLocked(j)
    case WaitDone => (q.pc.WaitScan? && q.pc.j >= |s.procs|) || q.pc.WaitGot?
    case _ => q.pc == User
  }

  ghost predicate CameFork(s: State, t: State, p: int, q: Proc, pc: Pc)
    requires |s.procs| == |t.procs| && |s.locks| == |t.locks|
  {
    match pc
    case ForkHave(j) => q.pc == ForkLocked(j) && j < |s.procs| && s.procs[j].st == Unused && t.procs[j].st == Used
    case ForkNamed(j) => q.pc == ForkHave(j) && (j < |s.procs| ==> t.procs[j].st == s.procs[j].st)
    case ForkParent(j) => q.pc == ForkNamed(j) && (j < |s.procs| ==> t.procs[j].st == s.procs[j].st)
    case ForkReady(j) =>
      q.pc == ForkParent(j) && (j < |s.procs| ==> t.procs[j].st == s.procs[j].st && t.procs[j].parent == p)
    case ForkRun(j) => q.pc == ForkReady(j) && (j < |s.procs| ==> t.procs[j].st == s.procs[j].st)
    case _ => q.pc == User
  }

  /** How a thread came to where it is now. */
  ghost predicate Came(s: State, t: State, p: int, q: Proc, r: Proc)
    requires |s.procs| == |t.procs| && |s.locks| == |t.locks|
  {
    var pc := r.pc;
    pc == q.pc || (q.pc == Back(AfterYield(pc)) && Preemptible(pc)) ||
    if pc == User then
      || q.pc == Back(FirstRun) || q.pc.MonitorHave? || q.pc.AcquireDone? || q.pc.ReleaseDone? || q.pc.WaitDone?
      || q.pc.ForkLocked? || q.pc.ForkHave? || q.pc.ForkRun? || q.pc.KillLocked?
    else if SleepStep(pc) then CameSleep(s, t, p, q, pc)
    else if WakeStep(pc) then CameWake(s, t, p, q, pc)
    else if SleepLockStep(pc) then CameSleepLock(s, t, p, q, pc)
    else if MonitorStep(pc) then CameMonitor(s, q, pc)
    else if ExitStep(pc) then CameExit(s, t, p, q, pc)
    else if WaitStep(pc) then CameWait(s, t, p, q, pc)
    else if ForkStep(pc) then CameFork(s, t, p, q, pc)
    else q.pc == User
  }

  /** What of its own data a thread may change, and where. */
  ghost predicate OwnData(s: State, t: State, q: Proc, r: Proc) {
    && r.pid == q.pid
    && (r.parent == q.parent || (q.pc.Reparenting? && r.parent == s.init))
    && (r.st == Sleeping ==> (q.st == Sleeping && r.chan == q.chan) || q.pc == SleepOwn(r.chan))
    && (r.st == Zombie ==> (q.st == Zombie && r.xstate == q.xstate) || (q.pc.ExitBoth? && r.xstate == q.pc.status))
    && r.has == (match q.pc
                 case AcquireFree(l) => if l < |s.locks| then q.has + {l} else q.has
                 case ReleaseHave(l) => if l < |s.locks| then q.has - {l} else q.has
                 case _ => q.has)
  }

  ghost predicate Own(s: State, t: State, p: nat)
    requires p < |s.procs| == |t.procs| && |s.locks| == |t.locks|
  {
    && Came(s, t, p, s.procs[p], t.procs[p]) && OwnData(s, t, s.procs[p], t.procs[p])
    && (t.procs[p].pc == s.procs[p].pc ==> t == s)
  }

  lemma StartOwned(s: State, c: nat, p: nat, k: Pick)
    requires p < |s.procs| && c < |s.cpus| && s.procs[p].pc == User
    ensures SameShape(s, Start(s, c, p, k)) && Own(s, Start(s, c, p, k), p)
  {
    hide Acquire, Release, CameWake, CameSleep;
  }

  lemma SleepOwned(s: State, c: nat, p: nat, k: Pick)
    requires p < |s.procs| && c < |s.cpus| && ProcOk(s, p, s.procs[p]) && SleepStep(s.procs[p].pc)
    ensures SameShape(s, SleepThread(s, c, p)) && Own(s, SleepThread(s, c, p), p)
  {
    hide Acquire, Release, CameWake, CameExit, CameFork;
  }

  lemma WakeOwned(s: State, c: nat, p: nat, k: Pick)
    requires p < |s.procs| && c < |s.cpus| && ProcOk(s, p, s.procs[p]) && WakeStep(s.procs[p].pc)
    ensures SameShape(s, WakeThread(s, c, p)) && Own(s, WakeThread(s, c, p), p)
  {
    hide Acquire, Release, CameSleep, CameWait, CameFork;
  }

  lemma SleepLockOwned(s: State, c: nat, p: nat, k: Pick)
    requires p < |s.procs| && c < |s.cpus| && ProcOk(s, p, s.procs[p]) && SleepLockStep(s.procs[p].pc)
    ensures SameShape(s, SleepLockThread(s, c, p)) && Own(s, SleepLockThread(s, c, p), p)
  {
    hide Acquire, Release, CameExit, CameWait, CameFork;
  }

  lemma PreemptOwned(s: State, c: nat, p: nat)
    requires p < |s.procs| && c < |s.cpus| && Preemptible(s.procs[p].pc)
    ensures SameShape(s, Acquire(s, c, p, ProcLock(p), Yielding(s.procs[p].pc)))
    ensures Own(s, Acquire(s, c, p, ProcLock(p), Yielding(s.procs[p].pc)), p)
  {
    hide Acquire;
  }

  lemma MonitorOwned(s: State, c: nat, p: nat, k: Pick)
    requires p < |s.procs| && c < |s.cpus| && ProcOk(s, p, s.procs[p]) && MonitorStep(s.procs[p].pc)
    ensures SameShape(s, MonitorThread(s, c, p, k)) && Own(s, MonitorThread(s, c, p, k), p)
  {
    hide Acquire, Release, CameSleepLock, CameExit, CameWait, CameFork;
  }

  lemma ExitOwned(s: State, c: nat, p: nat, k: Pick)
    requires p < |s.procs| && c < |s.cpus| && ProcOk(s, p, s.procs[p]) && ExitStep(s.procs[p].pc)
    ensures SameShape(s, ExitThread(s, c, p)) && Own(s, ExitThread(s, c, p), p)
  {
    if s.procs[p].pc.Reparenting? {
      ReparentOwned(s, c, p);
    } else if s.procs[p].pc.ExitBoth? {
      ZombieOwned(s, c, p);
    } else {
      ExitLockOwned(s, c, p);
    }
  }

  lemma ZombieOwned(s: State, c: nat, p: nat)
    requires p < |s.procs| && c < |s.cpus| && ProcOk(s, p, s.procs[p]) && s.procs[p].pc.ExitBoth?
    ensures SameShape(s, ExitThread(s, c, p)) && Own(s, ExitThread(s, c, p), p)
  {
    hide Acquire, Release, CameSleepLock, CameWait, CameFork, CameWake;
  }

  lemma ExitLockOwned(s: State, c: nat, p: nat)
    requires p < |s.procs| && c < |s.cpus| && ProcOk(s, p, s.procs[p])
    requires s.procs[p].pc.ExitWant? || s.procs[p].pc.ExitHave? || s.procs[p].pc.ExitZombie?
    ensures SameShape(s, ExitThread(s, c, p)) && Own(s, ExitThread(s, c, p), p)
  {
    hide Acquire, Release, CameSleepLock, CameWait, CameFork, CameWake;
  }

  lemma ReparentOwned(s: State, c: nat, p: nat)
    requires p < |s.procs| && c < |s.cpus| && ProcOk(s, p, s.procs[p]) && s.procs[p].pc.Reparenting?
    ensures SameShape(s, ExitThread(s, c, p)) && Own(s, ExitThread(s, c, p), p)
  {
    hide ProcOk, Own, CameSleep, CameSleepLock, CameMonitor, CameWait, CameFork;
    var Reparenting(j, status) := s.procs[p].pc;
    if j >= |s.procs| {
      MovedOwn(s, ExitThread(s, c, p), p, Waking(OnProc(s.procs[p].parent), 0, ToExit(status)));
    } else if s.procs[j].parent == p {
      HandedOver(s, c, p);
    } else {
      MovedOwn(s, ExitThread(s, c, p), p, Reparenting(j + 1, status));
    }
  }

  /** A child goes to init. */
  lemma HandedOver(s: State, c: nat, p: nat)
    requires p < |s.procs| && s.procs[p].pc.Reparenting? && s.procs[p].pc.j < |s.procs|
    requires s.procs[s.procs[p].pc.j].parent == p
    ensures SameShape(s, ExitThread(s, c, p)) && Own(s, ExitThread(s, c, p), p)
  {
    hide CameSleep, CameSleepLock, CameMonitor, CameWait, CameFork, CameExit;
  }

  /** A thread that only moves on, or waits for a lock, changes nothing of its own but where it is. */
  lemma MovedOwn(s: State, t: State, p: nat, pc: Pc)
    requires p < |s.procs| && (t == s || Moved(s, t, p, pc)) && pc != s.procs[p].pc
    requires !s.procs[p].pc.AcquireFree? && !s.procs[p].pc.ReleaseHave?
    requires |s.procs| == |t.procs| && |s.locks| == |t.locks| && Came(s, t, p, s.procs[p], s.procs[p].(pc := pc))
    ensures SameShape(s, t) && Own(s, t, p)
  {
    if t != s {
      CameSame(s, t, p, s.procs[p], s.procs[p].(pc := pc), t.procs[p]);
    }
    hide Came;
  }

  lemma CameSame(s: State, t: State, p: nat, q: Proc, r: Proc, r': Proc)
    requires |s.procs| == |t.procs| && |s.locks| == |t.locks| && r.pc == r'.pc && Came(s, t, p, q, r)
    ensures Came(s, t, p, q, r')
  {
  }

  lemma WaitScanOwned(s: State, c: nat, p: nat, k: Pick)
    requires p < |s.procs| && c < |s.cpus| && ProcOk(s, p, s.procs[p]) && s.procs[p].pc.WaitScan?
    ensures SameShape(s, WaitThread(s, c, p, k.fails)) && Own(s, WaitThread(s, c, p, k.fails), p)
  {
    hide Acquire, Release, ProcOk, Own, CameWake, CameSleepLock, CameExit, CameFork;
    var WaitScan(j, kids) := s.procs[p].pc;
    if j >= |s.procs| {
      MovedOwn(s, WaitThread(s, c, p, k.fails), p, if kids && !k.fails then SleepHave(OnProc(p)) else WaitDone);
    } else {
      WaitNextOwned(s, c, p, k);
    }
  }

  lemma WaitNextOwned(s: State, c: nat, p: nat, k: Pick)
    requires p < |s.procs| && c < |s.cpus| && ProcOk(s, p, s.procs[p]) && s.procs[p].pc.WaitScan?
    requires s.procs[p].pc.j < |s.procs|
    ensures SameShape(s, WaitThread(s, c, p, k.fails)) && Own(s, WaitThread(s, c, p, k.fails), p)
  {
    hide Acquire, Release, ProcOk, Own, CameWake, CameSleepLock, CameExit, CameFork;
    var t := WaitThread(s, c, p, k.fails);
    var WaitScan(j, kids) := s.procs[p].pc;
    MovedOwn(s, t, p, if s.procs[j].parent == p then WaitLocked(j) else WaitScan(j + 1, kids));
  }

  lemma WaitLockedOwned(s: State, c: nat, p: nat, k: Pick)
    requires p < |s.procs| && c < |s.cpus| && ProcOk(s, p, s.procs[p]) && s.procs[p].pc.WaitLocked?
    ensures SameShape(s, WaitThread(s, c, p, k.fails)) && Own(s, WaitThread(s, c, p, k.fails), p)
  {
    hide Acquire, Release, CameWake, CameSleepLock, CameExit, CameFork;
  }

  lemma WaitOwned(s: State, c: nat, p: nat, k: Pick)
    requires p < |s.procs| && c < |s.cpus| && ProcOk(s, p, s.procs[p]) && WaitStep(s.procs[p].pc)
    ensures SameShape(s, WaitThread(s, c, p, k.fails)) && Own(s, WaitThread(s, c, p, k.fails), p)
  {
    hide WaitThread, Own;
    if s.procs[p].pc.WaitScan? {
      WaitScanOwned(s, c, p, k);
    } else if s.procs[p].pc.WaitLocked? {
      WaitLockedOwned(s, c, p, k);
    } else {
      WaitRestOwned(s, c, p, k);
    }
  }

  lemma WaitRestOwned(s: State, c: nat, p: nat, k: Pick)
    requires p < |s.procs| && c < |s.cpus| && ProcOk(s, p, s.procs[p])
    requires s.procs[p].pc.WaitWant? || s.procs[p].pc.WaitGot? || s.procs[p].pc.WaitDone?
    ensures SameShape(s, WaitThread(s, c, p, k.fails)) && Own(s, WaitThread(s, c, p, k.fails), p)
  {
    hide Acquire, Release, CameSleep, CameWake, CameSleepLock, CameExit, CameFork, CameMonitor;
  }

  lemma ForkLockedOwned(s: State, c: nat, p: nat, k: Pick)
    requires p < |s.procs| && c < |s.cpus| && ProcOk(s, p, s.procs[p]) && s.procs[p].pc.ForkLocked?
    ensures SameShape(s, ForkThread(s, c, p, k.fails)) && Own(s, ForkThread(s, c, p, k.fails), p)
  {
    hide Acquire, Release, CameSleep, CameWake, CameSleepLock, CameExit, CameWait;
  }

  lemma ForkHaveOwned(s: State, c: nat, p: nat, k: Pick)
    requires p < |s.procs| && c < |s.cpus| && ProcOk(s, p, s.procs[p]) && s.procs[p].pc.ForkHave? && ForkInv(s)
    ensures SameShape(s, ForkThread(s, c, p, k.fails)) && Own(s, ForkThread(s, c, p, k.fails), p)
  {
    hide Acquire, Release, ForkInv, CameSleep, CameWake, CameSleepLock, CameExit, CameWait;
    SlotIsOther(s, p);
  }

  lemma ForkRestOwned(s: State, c: nat, p: nat, k: Pick)
    requires p < |s.procs| && c < |s.cpus| && ProcOk(s, p, s.procs[p]) && ForkSlot(s.procs[p].pc) != -1
    requires !s.procs[p].pc.ForkHave? && ForkInv(s)
    ensures SameShape(s, ForkThread(s, c, p, k.fails)) && Own(s, ForkThread(s, c, p, k.fails), p)
  {
    hide Acquire, Release, ForkInv, CameSleep, CameWake, CameSleepLock, CameExit, CameWait;
    SlotIsOther(s, p);
  }

  lemma ForkOwned(s: State, c: nat, p: nat, k: Pick)
    requires p < |s.procs| && c < |s.cpus| && ProcOk(s, p, s.procs[p]) && ForkStep(s.procs[p].pc) && ForkInv(s)
    ensures SameShape(s, ForkThread(s, c, p, k.fails)) && Own(s, ForkThread(s, c, p, k.fails), p)
  {
    hide ForkThread, ForkInv, Own;
    if s.procs[p].pc.ForkLocked? {
      ForkLockedOwned(s, c, p, k);
    } else if s.procs[p].pc.ForkHave? {
      ForkHaveOwned(s, c, p, k);
    } else {
      ForkRestOwned(s, c, p, k);
    }
  }

  lemma KillOwned(s: State, c: nat, p: nat, k: Pick)
    requires p < |s.procs| && c < |s.cpus| && ProcOk(s, p, s.procs[p]) && s.procs[p].pc.KillLocked?
    ensures SameShape(s, KillThread(s, c, p)) && Own(s, KillThread(s, c, p), p)
  {
    hide Acquire, Release, CameSleep, CameWake, CameSleepLock, CameExit, CameWait, CameFork;
  }

  lemma SlotIsOther(s: State, p: nat)
    requires p < |s.procs| && ProcOk(s, p, s.procs[p]) && ForkInv(s) && ForkSlot(s.procs[p].pc) != -1
    ensures ForkSlot(s.procs[p].pc) != p
    ensures 0 <= ForkSlot(s.procs[p].pc) < |s.procs| && s.procs[ForkSlot(s.procs[p].pc)].st == Used
  {
  }

  lemma ThreadOwned(s: State, c: nat, p: nat, k: Pick)
    requires p < |s.procs| && c < |s.cpus| && BaseInv(s) && s.cpus[c] == Run(p) && ForkInv(s)
    ensures SameShape(s, ThreadStep(s, c, p, k)) && Own(s, ThreadStep(s, c, p, k), p)
  {
    hide BaseInv, ForkInv, Start, SleepThread, WakeThread, SleepLockThread, MonitorThread, ExitThread, WaitThread,
      ForkThread, KillThread, Acquire;
    hide Own;
    var pc := s.procs[p].pc;
    MeOk(s, p);
    if k.interrupt && Preemptible(pc) {
      PreemptOwned(s, c, p);
    } else if pc == User {
      StartOwned(s, c, p, k);
    } else if SleepStep(pc) {
      SleepOwned(s, c, p, k);
    } else if WakeStep(pc) {
      WakeOwned(s, c, p, k);
    } else if SleepLockStep(pc) {
      SleepLockOwned(s, c, p, k);
    } else if MonitorStep(pc) {
      MonitorOwned(s, c, p, k);
    } else if ExitStep(pc) {
      ExitOwned(s, c, p, k);
    } else if WaitStep(pc) {
      WaitOwned(s, c, p, k);
    } else if ForkStep(pc) {
      ForkOwned(s, c, p, k);
    } else {
      KillOwned(s, c, p, k);
    }
  }

  // ---------------------------------------------------------- what a step does to shared data

  /** Flags, parents, pids and statuses change where the code says so, and nowhere else. */
  ghost predicate Shared(s: State, t: State, p: nat)
    requires p < |s.procs| && SameShape(s, t)
  {
    var pc := s.procs[p].pc;
    && (forall l :: 0 <= l < |s.locks| && pc != AcquireFree(l) && pc != ReleaseHave(l) ==>
        t.locks[l].locked == s.locks[l].locked)
    && (forall l :: 0 <= l < |s.locks| ==>
          (pc == AcquireFree(l) ==> t.locks[l].locked) && (pc == ReleaseHave(l) ==> !t.locks[l].locked))
    && (forall i :: 0 <= i < |s.procs| ==> ParentMoves(s, t, p, i) && PidMoves(s, t, p, i))
    && (forall i :: 0 <= i < |s.procs| ==> FreeMoves(s, t, p, i) && StateMoves(s, t, p, i))
    && (t.exits == s.exits || (pc.ExitBoth? && t.exits == s.exits[s.procs[p].pid := pc.status]))
    && (pc.ExitBoth? ==> t.procs[p].st == Zombie && t.exits == s.exits[s.procs[p].pid := pc.status])
    && (t.collected == s.collected ||
        (pc.WaitLocked? && pc.j < |s.procs| && s.procs[pc.j].st == Zombie && t.procs[pc.j].st == Unused
         && t.collected == s.collected + {s.procs[pc.j].pid}))
    && s.nextpid <= t.nextpid
  }

  ghost predicate ParentMoves(s: State, t: State, p: nat, i: int)
    requires p < |s.procs| && SameShape(s, t) && 0 <= i < |s.procs|
  {
    var pc := s.procs[p].pc;
    || t.procs[i].parent == s.procs[i].parent
    || (t.procs[i].parent == -1 && t.procs[i].st == Unused)
    || (pc.Reparenting? && pc.j == i && s.procs[i].parent == p && t.procs[i].parent == s.init)
    || (pc == ForkParent(i) && t.procs[i].parent == p && s.procs[i].st == Used)
  }

  /** A slot is freed by the wait that collects it or the fork that gives up filling it, and then it is blank. */
  ghost predicate FreeMoves(s: State, t: State, p: nat, i: int)
    requires p < |s.procs| && SameShape(s, t) && 0 <= i < |s.procs|
  {
    var pc := s.procs[p].pc;
    t.procs[i].st == Unused && s.procs[i].st != Unused ==>
      && t.procs[i].parent == -1 && t.procs[i].has == {}
      && ((pc == WaitLocked(i) && s.procs[i].st == Zombie && t.procs[p].pc == WaitGot(i)) || pc == ForkHave(i))
  }

  /** A sleeper is woken by wakeup or kill, and a process is run by being switched to when it is runnable. */
  ghost predicate StateMoves(s: State, t: State, p: nat, i: int)
    requires p < |s.procs| && SameShape(s, t) && 0 <= i < |s.procs|
  {
    var pc, q := s.procs[p].pc, s.procs[i];
    && (q.st == Sleeping && t.procs[i].st != Sleeping ==>
        t.procs[i].st == Runnable && ((pc.WakingLocked? && pc.j == i && pc.ch == q.chan) || pc == KillLocked(i)))
    && (q.st != Running && t.procs[i].st == Running ==> i == p && q.st == Runnable && q.pc.Off?)
  }

  ghost predicate PidMoves(s: State, t: State, p: nat, i: int)
    requires p < |s.procs| && SameShape(s, t) && 0 <= i < |s.procs|
  {
    || t.procs[i].st == Unused
    || (t.procs[i].pid == s.procs[i].pid && s.procs[i].st != Unused && (s.procs[i].st == Zombie ==>
        t.procs[i].st == Zombie && t.procs[i].xstate == s.procs[i].xstate))
    || (s.procs[p].pc.ForkLocked? && s.procs[p].pc.j == i && t.procs[i].st == Used && t.procs[i].pid == s.nextpid
        && t.nextpid == s.nextpid + 1)
  }

  lemma StartShared(s: State, c: nat, p: nat, k: Pick)
    requires p < |s.procs| && c < |s.cpus| && s.procs[p].pc == User
    ensures SameShape(s, Start(s, c, p, k)) && Shared(s, Start(s, c, p, k), p)
  {
    hide Acquire, Release;
  }

  lemma SleepShared(s: State, c: nat, p: nat, k: Pick)
    requires p < |s.procs| && c < |s.cpus| && ProcOk(s, p, s.procs[p]) && SleepStep(s.procs[p].pc)
    ensures SameShape(s, SleepThread(s, c, p)) && Shared(s, SleepThread(s, c, p), p)
  {
    hide Acquire, Release;
  }

  lemma WakeShared(s: State, c: nat, p: nat, k: Pick)
    requires p < |s.procs| && c < |s.cpus| && ProcOk(s, p, s.procs[p]) && WakeStep(s.procs[p].pc)
    ensures SameShape(s, WakeThread(s, c, p)) && Shared(s, WakeThread(s, c, p), p)
  {
    hide Acquire, Release;
  }

  lemma SleepLockShared(s: State, c: nat, p: nat, k: Pick)
    requires p < |s.procs| && c < |s.cpus| && ProcOk(s, p, s.procs[p]) && SleepLockStep(s.procs[p].pc)
    ensures SameShape(s, SleepLockThread(s, c, p)) && Shared(s, SleepLockThread(s, c, p), p)
  {
    hide Acquire, Release;
  }

  lemma PreemptShared(s: State, c: nat, p: nat)
    requires p < |s.procs| && c < |s.cpus| && ProcOk(s, p, s.procs[p]) && Preemptible(s.procs[p].pc)
    ensures SameShape(s, Acquire(s, c, p, ProcLock(p), Yielding(s.procs[p].pc)))
    ensures Shared(s, Acquire(s, c, p, ProcLock(p), Yielding(s.procs[p].pc)), p)
  {
    hide Acquire;
  }

  lemma MonitorShared(s: State, c: nat, p: nat, k: Pick)
    requires p < |s.procs| && c < |s.cpus| && ProcOk(s, p, s.procs[p]) && MonitorStep(s.procs[p].pc)
    ensures SameShape(s, MonitorThread(s, c, p, k)) && Shared(s, MonitorThread(s, c, p, k), p)
  {
    hide Acquire, Release;
  }

  lemma ReparentShared(s: State, c: nat, p: nat)
    requires p < |s.procs| && c < |s.cpus| && ProcOk(s, p, s.procs[p]) && s.procs[p].pc.Reparenting?
    ensures SameShape(s, ExitThread(s, c, p)) && Shared(s, ExitThread(s, c, p), p)
  {
  }

  lemma ExitRestShared(s: State, c: nat, p: nat)
    requires p < |s.procs| && c < |s.cpus| && ProcOk(s, p, s.procs[p])
    requires ExitStep(s.procs[p].pc) && !s.procs[p].pc.Reparenting?
    ensures SameShape(s, ExitThread(s, c, p)) && Shared(s, ExitThread(s, c, p), p)
  {
    hide Acquire, Release;
  }

  lemma ExitShared(s: State, c: nat, p: nat, k: Pick)
    requires p < |s.procs| && c < |s.cpus| && ProcOk(s, p, s.procs[p]) && ExitStep(s.procs[p].pc)
    ensures SameShape(s, ExitThread(s, c, p)) && Shared(s, ExitThread(s, c, p), p)
  {
    hide ExitThread, Shared;
    if s.procs[p].pc.Reparenting? {
      ReparentShared(s, c, p);
    } else {
      ExitRestShared(s, c, p);
    }
  }

  lemma WaitLockedShared(s: State, c: nat, p: nat, k: Pick)
    requires p < |s.procs| && c < |s.cpus| && ProcOk(s, p, s.procs[p]) && s.procs[p].pc.WaitLocked?
    ensures SameShape(s, WaitThread(s, c, p, k.fails)) && Shared(s, WaitThread(s, c, p, k.fails), p)
  {
    hide Acquire, Release;
  }

  lemma WaitRestShared(s: State, c: nat, p: nat, k: Pick)
    requires p < |s.procs| && c < |s.cpus| && ProcOk(s, p, s.procs[p])
    requires WaitStep(s.procs[p].pc) && !s.procs[p].pc.WaitLocked?
    ensures SameShape(s, WaitThread(s, c, p, k.fails)) && Shared(s, WaitThread(s, c, p, k.fails), p)
  {
    hide Acquire, Release;
  }

  lemma WaitShared(s: State, c: nat, p: nat, k: Pick)
    requires p < |s.procs| && c < |s.cpus| && ProcOk(s, p, s.procs[p]) && WaitStep(s.procs[p].pc)
    ensures SameShape(s, WaitThread(s, c, p, k.fails)) && Shared(s, WaitThread(s, c, p, k.fails), p)
  {
    hide WaitThread, Shared;
    if s.procs[p].pc.WaitLocked? {
      WaitLockedShared(s, c, p, k);
    } else {
      WaitRestShared(s, c, p, k);
    }
  }

  lemma ForkLockedShared(s: State, c: nat, p: nat, k: Pick)
    requires p < |s.procs| && c < |s.cpus| && ProcOk(s, p, s.procs[p]) && s.procs[p].pc.ForkLocked?
    ensures SameShape(s, ForkThread(s, c, p, k.fails)) && Shared(s, ForkThread(s, c, p, k.fails), p)
  {
    hide Acquire, Release;
  }

  lemma ForkHaveShared(s: State, c: nat, p: nat, k: Pick)
    requires p < |s.procs| && c < |s.cpus| && ProcOk(s, p, s.procs[p]) && s.procs[p].pc.ForkHave? && ForkInv(s)
    ensures SameShape(s, ForkThread(s, c, p, k.fails)) && Shared(s, ForkThread(s, c, p, k.fails), p)
  {
    hide ForkInv, Acquire, Release;
    SlotIsOther(s, p);
  }

  lemma ForkRestShared(s: State, c: nat, p: nat, k: Pick)
    requires p < |s.procs| && c < |s.cpus| && ProcOk(s, p, s.procs[p]) && ForkInv(s)
    requires ForkStep(s.procs[p].pc) && !s.procs[p].pc.ForkLocked? && !s.procs[p].pc.ForkHave?
    ensures SameShape(s, ForkThread(s, c, p, k.fails)) && Shared(s, ForkThread(s, c, p, k.fails), p)
  {
    hide ForkInv, Acquire, Release;
    SlotIsOther(s, p);
  }

  lemma ForkShared(s: State, c: nat, p: nat, k: Pick)
    requires p < |s.procs| && c < |s.cpus| && ProcOk(s, p, s.procs[p]) && ForkStep(s.procs[p].pc) && ForkInv(s)
    ensures SameShape(s, ForkThread(s, c, p, k.fails)) && Shared(s, ForkThread(s, c, p, k.fails), p)
  {
    hide ForkInv, ForkThread, Shared;
    if s.procs[p].pc.ForkLocked? {
      ForkLockedShared(s, c, p, k);
    } else if s.procs[p].pc.ForkHave? {
      ForkHaveShared(s, c, p, k);
    } else {
      ForkRestShared(s, c, p, k);
    }
  }

  lemma KillShared(s: State, c: nat, p: nat, k: Pick)
    requires p < |s.procs| && c < |s.cpus| && ProcOk(s, p, s.procs[p]) && s.procs[p].pc.KillLocked?
    ensures SameShape(s, KillThread(s, c, p)) && Shared(s, KillThread(s, c, p), p)
  {
    hide Acquire, Release;
  }

  lemma ThreadShared(s: State, c: nat, p: nat, k: Pick)
    requires p < |s.procs| && c < |s.cpus| && BaseInv(s) && s.cpus[c] == Run(p) && ForkInv(s)
    ensures SameShape(s, ThreadStep(s, c, p, k)) && Shared(s, ThreadStep(s, c, p, k), p)
  {
    hide BaseInv, ForkInv, Start, SleepThread, WakeThread, SleepLockThread, MonitorThread, ExitThread, WaitThread,
      ForkThread, KillThread, Acquire;
    hide Shared;
    var pc := s.procs[p].pc;
    MeOk(s, p);
    if k.interrupt && Preemptible(pc) {
      PreemptShared(s, c, p);
    } else if pc == User {
      StartShared(s, c, p, k);
    } else if SleepStep(pc) {
      SleepShared(s, c, p, k);
    } else if WakeStep(pc) {
      WakeShared(s, c, p, k);
    } else if SleepLockStep(pc) {
      SleepLockShared(s, c, p, k);
    } else if MonitorStep(pc) {
      MonitorShared(s, c, p, k);
    } else if ExitStep(pc) {
      ExitShared(s, c, p, k);
    } else if WaitStep(pc) {
      WaitShared(s, c, p, k);
    } else if ForkStep(pc) {
      ForkShared(s, c, p, k);
    } else {
      KillShared(s, c, p, k);
    }
  }

  // ------------------------------------------------------------------------ a step, summed up

  /** The step was process p's own, or the scheduler's dealing with p. */
  ghost predicate Effect(s: State, t: State, p: nat) {
    && p < |s.procs| && SameShape(s, t)
    && OthersQuiet(s, t, p, Filling(s.procs[p].pc)) && Own(s, t, p) && Shared(s, t, p)
  }

  /** A scheduler took or gave back the lock of one process, and nothing else. */
  ghost predicate LockOnly(s: State, t: State) {
    && SameShape(s, t) && t.locks == s.locks && t.wl == s.wl && t.nextpid == s.nextpid
    && t.exits == s.exits && t.collected == s.collected
    && (forall i :: 0 <= i < |s.procs| ==> t.procs[i] == s.procs[i].(lock := t.procs[i].lock))
    && (forall c :: 0 <= c < |s.cpus| && s.cpus[c].Run? ==> t.cpus[c] == s.cpus[c])
  }

  lemma SchedulerEffect(s: State, c: nat, k: Pick) returns (p: nat)
    requires BaseInv(s) && c < |s.cpus| && !s.cpus[c].Run?
    ensures LockOnly(s, SchedulerStep(s, c, k)) || (s.cpus[c] == Locked(p) && Effect(s, SchedulerStep(s, c, k), p))
  {
    p := 0;
    if s.cpus[c].Locked? && s.cpus[c].j < |s.procs| && s.procs[s.cpus[c].j].st == Runnable {
      p := s.cpus[c].j;
      SwitchInKeeps(s, c, p);
      SwitchInEffect(s, c, p);
    }
  }

  lemma SwitchInEffect(s: State, c: nat, j: nat)
    requires c < |s.cpus| && j < |s.procs| && s.procs[j].st == Runnable && s.procs[j].pc.Off?
    ensures Effect(s, SwitchIn(s, c, j), j)
  {
  }

  lemma StepEffect(s: State, c: nat, k: Pick) returns (p: nat)
    requires BaseInv(s) && ForkInv(s)
    ensures LockOnly(s, Step(s, c, k)) || Effect(s, Step(s, c, k), p)
    ensures c < |s.cpus| ==> LockOnly(s, Step(s, c, k)) || s.cpus[c] == Run(p) || s.cpus[c] == Locked(p)
    ensures c >= |s.cpus| ==> Step(s, c, k) == s
    ensures c < |s.cpus| && s.cpus[c].Run? ==> s.cpus[c] == Run(p) && Effect(s, Step(s, c, k), p)
    ensures BaseInv(Step(s, c, k))
  {
    hide LockInv, ProcsOk, ForkInv, ThreadStep, SchedulerStep, OthersQuiet, Own, Shared;
    p := 0;
    BaseStep(s, c, k);
    if c < |s.cpus| {
      if s.cpus[c].Run? {
        p := s.cpus[c].p;
        ThreadQuiet(s, c, p, k);
        ThreadOwned(s, c, p, k);
        ThreadShared(s, c, p, k);
      } else {
        p := SchedulerEffect(s, c, k);
      }
    }
  }
}
