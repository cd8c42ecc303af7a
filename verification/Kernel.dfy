/**
 Processes, CPUs and locks (kernel/proc.c, kernel/sleeplock.c) as a machine of small steps.

 Each CPU runs its scheduler or the kernel thread of one process. One step is one lock
 operation, or the accesses one thread makes under a lock it holds. A step that has to wait
 for a lock changes nothing, as a spinning CPU does. swtch transfers control with p->lock held.
 A timer interrupt can make a thread yield wherever it holds no lock, in the kernel too.
 */
module Kernel {
  // ------------------------------------------------------------------------------- state

  datatype ProcState = Unused | Used | Sleeping | Runnable | Running | Zombie

  /**
   What a process sleeps on: a sleep lock, a condition of a client that is guarded by a spin lock
   (the two ends of a pipe, a disk buffer), or (in wait) the process itself.
   */
  datatype Chan = NoChan | OnLock(l: nat) | OnCond(l: nat, n: nat) | OnProc(i: int)

  /** p->lock, the spin lock inside a sleep lock, and wait_lock. */
  datatype Lock = ProcLock(i: int) | InnerLock(l: int) | WaitLock

  /** Where a thread that has been switched out goes on. */
  datatype Cont = NoThread | FirstRun | AfterYield(at: Pc) | AfterSleep(ch: Chan) | Exited

  /** Where wakeup returns to. */
  datatype WakeCont = ToRelease | ToMonitor | ToReparent(j: nat, status: int) | ToExit(status: int)

  datatype Pc =
    | User
    // yield, to go on at the point where the interrupt came
    | Yielding(at: Pc)
    // sched: about to switch out, switched out, switched in again
    | InSched(k: Cont)
    | Off(k: Cont)
    | Back(k: Cont)
    // sleep
    | SleepHave(ch: Chan)
    | SleepBoth(ch: Chan)
    | SleepOwn(ch: Chan)
    | SleepTidy(ch: Chan)
    | SleepReacquire(ch: Chan)
    // wakeup
    | Waking(ch: Chan, j: nat, w: WakeCont)
    | WakingLocked(ch: Chan, j: nat, w: WakeCont)
    // acquiresleep and releasesleep
    | AcquireWant(l: nat)
    | AcquireHave(l: nat)
    | AcquireFree(l: nat)
    | AcquireDone(l: nat)
    | ReleaseWant(l: nat)
    | ReleaseHave(l: nat)
    | ReleaseDone(l: nat)
    // a client of sleep and wakeup, with a spin lock of its own
    | MonitorWant(l: nat)
    | MonitorHave(l: nat)
    // exit
    | ExitWant(status: int)
    | Reparenting(j: nat, status: int)
    | ExitHave(status: int)
    | ExitBoth(status: int)
    | ExitZombie
    // wait
    | WaitWant
    | WaitScan(j: nat, kids: bool)
    | WaitLocked(j: nat)
    | WaitGot(j: nat)
    | WaitDone
    // fork
    | ForkLocked(j: nat)
    | ForkHave(j: nat)
    | ForkNamed(j: nat)
    | ForkParent(j: nat)
    | ForkReady(j: nat)
    | ForkRun(j: nat)
    // kill
    | KillLocked(j: nat)

  /**
   `on` is the CPU the thread runs on, -1 if none; `lock` the CPU holding p->lock, -1 if none;
   `has` the sleep locks the process has acquired and not yet released.
   */
  datatype Proc = Proc(st: ProcState, chan: Chan, pc: Pc, parent: int, pid: nat, xstate: int, lock: int, on: int,
                       has: set<nat>)

  /** A sleep lock: its inner spin lock and the flag. */
  datatype SleepLock = SleepLock(lk: int, locked: bool)

  /** A CPU's scheduler: looking, holding a process's lock, running it, or just returned to. */
  datatype Cpu = Scan | Locked(j: nat) | Run(p: nat) | Returned(j: nat)

  /** `exits` records each exit status; `collected` the pids whose status wait has returned. */
  datatype State = State(procs: seq<Proc>, cpus: seq<Cpu>, locks: seq<SleepLock>, wl: int, init: nat, nextpid: nat,
                         exits: map<nat, int>, collected: set<nat>)

  /** What a step leaves open: which operation a process starts, on what, and how tests outside this model go. */
  datatype Pick = Pick(op: nat, j: nat, status: int, fails: bool, interrupt: bool)

  // ------------------------------------------------------------------------------- locks

  function Holder(s: State, x: Lock): int {
    match x
    case ProcLock(i) => if 0 <= i < |s.procs| then s.procs[i].lock else -1
    case InnerLock(l) => if 0 <= l < |s.locks| then s.locks[l].lk else -1
    case WaitLock => s.wl
  }

  predicate IsLock(s: State, x: Lock) {
    match x
    case ProcLock(i) => 0 <= i < |s.procs|
    case InnerLock(l) => 0 <= l < |s.locks|
    case WaitLock => true
  }

  function WithHolder(s: State, x: Lock, c: int): State {
    match x
    case ProcLock(i) => if 0 <= i < |s.procs| then s.(procs := s.procs[i := s.procs[i].(lock := c)]) else s
    case InnerLock(l) => if 0 <= l < |s.locks| then s.(locks := s.locks[l := s.locks[l].(lk := c)]) else s
    case WaitLock => s.(wl := c)
  }

  /** The lock that protects the condition a channel stands for. */
  function LockOf(ch: Chan): Lock {
    match ch
    case OnLock(l) => InnerLock(l)
    case OnCond(l, _) => InnerLock(l)
    case _ => WaitLock
  }

  /** The locks a thread of process p holds at a point of its code. */
  function Holds(pc: Pc, p: int): set<Lock> {
    match pc
    case User => {}
    case Yielding(_) => {ProcLock(p)}
    case InSched(_) => {ProcLock(p)}
    case Off(_) => {}
    case Back(_) => {ProcLock(p)}
    case SleepHave(ch) => {LockOf(ch)}
    case SleepBoth(ch) => {LockOf(ch), ProcLock(p)}
    case SleepOwn(_) => {ProcLock(p)}
    case SleepTidy(_) => {ProcLock(p)}
    case SleepReacquire(_) => {}
    case Waking(ch, _, _) => {LockOf(ch)}
    case WakingLocked(ch, j, _) => {LockOf(ch), ProcLock(j)}
    case AcquireWant(_) => {}
    case AcquireHave(l) => {InnerLock(l)}
    case AcquireFree(l) => {InnerLock(l)}
    case AcquireDone(l) => {InnerLock(l)}
    case ReleaseWant(_) => {}
    case ReleaseHave(l) => {InnerLock(l)}
    case ReleaseDone(l) => {InnerLock(l)}
    case MonitorWant(_) => {}
    case MonitorHave(l) => {InnerLock(l)}
    case ExitWant(_) => {}
    case Reparenting(_, _) => {WaitLock}
    case ExitHave(_) => {WaitLock}
    case ExitBoth(_) => {WaitLock, ProcLock(p)}
    case ExitZombie => {WaitLock, ProcLock(p)}
    case WaitWant => {}
    case WaitScan(_, _) => {WaitLock}
    case WaitLocked(j) => {WaitLock, ProcLock(j)}
    case WaitGot(j) => {WaitLock, ProcLock(j)}
    case WaitDone => {WaitLock}
    case ForkLocked(j) => {ProcLock(j)}
    case ForkHave(j) => {ProcLock(j)}
    case ForkNamed(_) => {}
    case ForkParent(_) => {WaitLock}
    case ForkReady(_) => {}
    case ForkRun(j) => {ProcLock(j)}
    case KillLocked(j) => {ProcLock(j)}
  }

  /** Where interrupts are on: no spin lock is held. */
  predicate Preemptible(pc: Pc) {
    pc.User? || pc.SleepReacquire? || pc.AcquireWant? || pc.ReleaseWant? || pc.MonitorWant? || pc.ExitWant?
    || pc.WaitWant? || pc.ForkNamed? || pc.ForkReady?
  }

  /** Where a thread is in its own code, whether or not it is being preempted there. */
  function Place(pc: Pc): Pc {
    match pc
    case Yielding(at) => at
    case InSched(AfterYield(at)) => at
    case Off(AfterYield(at)) => at
    case Back(AfterYield(at)) => at
    case _ => pc
  }

  function CpuHolds(s: State, c: int): set<Lock> {
    if 0 <= c < |s.cpus| then
      match s.cpus[c]
      case Scan => {}
      case Locked(j) => {ProcLock(j)}
      case Returned(j) => {ProcLock(j)}
      case Run(p) => if p < |s.procs| then Holds(s.procs[p].pc, p) else {}
    else {}
  }

  // -------------------------------------------------------------------------------- steps

  function WithProc(s: State, p: nat, q: Proc): State
    requires p < |s.procs|
  {
    s.(procs := s.procs[p := q])
  }

  function Go(s: State, p: nat, pc: Pc): State
    requires p < |s.procs|
  {
    WithProc(s, p, s.procs[p].(pc := pc))
  }

  /** The thread of p has moved on to pc, and a lock may have changed hands. */
  ghost predicate Moved(s: State, t: State, p: nat, pc: Pc) {
    && |t.procs| == |s.procs| && |t.locks| == |s.locks|
    && t.cpus == s.cpus && t.init == s.init && t.nextpid == s.nextpid && t.exits == s.exits
        && t.collected == s.collected
    && (forall i :: 0 <= i < |s.procs| ==>
          t.procs[i] == s.procs[i].(lock := t.procs[i].lock, pc := if i == p then pc else s.procs[i].pc))
    && (forall l :: 0 <= l < |s.locks| ==> t.locks[l].locked == s.locks[l].locked)
  }

  /** acquire: spin while another CPU has the lock. */
  function Acquire(s: State, c: nat, p: nat, x: Lock, pc: Pc): (t: State)
    requires p < |s.procs|
    ensures t == s || Moved(s, t, p, pc)
  {
    if IsLock(s, x) && Holder(s, x) == -1 then Go(WithHolder(s, x, c), p, pc) else s
  }

  function Release(s: State, p: nat, x: Lock, pc: Pc): (t: State)
    requires p < |s.procs|
    ensures Moved(s, t, p, pc)
  {
    Go(WithHolder(s, x, -1), p, pc)
  }

  /**
   The operation a process starts. Only the owner of a sleep lock releases it, a process exits with
   none, and init does not exit.
   */
  function Start(s: State, c: nat, p: nat, k: Pick): State
    requires p < |s.procs|
  {
    match k.op
    case 1 => if k.j < |s.locks| then Go(s, p, AcquireWant(k.j)) else s
    case 2 => if k.j < |s.locks| && k.j in s.procs[p].has then Go(s, p, ReleaseWant(k.j)) else s
    case 3 => if p != s.init && s.procs[p].has == {} then Go(s, p, ExitWant(k.status)) else s
    case 4 => Go(s, p, WaitWant)
    case 5 => if k.j < |s.procs| then Acquire(s, c, p, ProcLock(k.j), ForkLocked(k.j)) else s
    case 6 => if k.j < |s.procs| then Acquire(s, c, p, ProcLock(k.j), KillLocked(k.j)) else s
    case 7 => if k.j < |s.locks| then Go(s, p, MonitorWant(k.j)) else s
    case _ => s
  }

  /** swtch from process p to the scheduler of its CPU, which now holds p's lock. */
  function SwitchOut(s: State, c: nat, p: nat, k: Cont): State
    requires p < |s.procs| && c < |s.cpus|
  {
    WithProc(s, p, s.procs[p].(pc := Off(k), on := -1)).(cpus := s.cpus[c := Returned(p)])
  }

  /** swtch to a process, whatever its thread is doing: nothing here checks that it is not running. */
  function SwitchIn(s: State, c: nat, j: nat): State
    requires j < |s.procs| && c < |s.cpus|
  {
    var q := s.procs[j];
    WithProc(s, j, q.(st := Running, on := c,
        pc := if q.pc.Off? then Back(q.pc.k) else q.pc)).(cpus := s.cpus[c := Run(j)])
  }

  function WakeReturn(s: State, p: nat, ch: Chan, w: WakeCont): State
    requires p < |s.procs|
  {
    match w
    case ToRelease => if ch.OnLock? then Go(s, p, ReleaseDone(ch.l)) else s
    case ToMonitor => if ch.OnCond? then Go(s, p, MonitorHave(ch.l)) else s
    case ToReparent(j, status) => Go(s, p, Reparenting(j, status))
    case ToExit(status) => Go(s, p, ExitHave(status))
  }

  /** A sleeper on ch becomes runnable. */
  function Woken(q: Proc, ch: Chan): Proc {
    if q.st == Sleeping && q.chan == ch then q.(st := Runnable) else q
  }

  /** freeproc. */
  function Freed(q: Proc): Proc {
    q.(st := Unused, chan := NoChan, pc := Off(NoThread), parent := -1, pid := 0, xstate := 0, has := {})
  }

  // The steps of each function, by where the thread of process p on CPU c is.

  predicate SleepStep(pc: Pc) {
    pc.Yielding? || pc.InSched? || pc.Off? || pc.Back? || pc.SleepHave? || pc.SleepBoth? || pc.SleepOwn?
        || pc.SleepTidy? || pc.SleepReacquire?
  }

  /** Where sleep returns to. */
  function Awake(ch: Chan): Pc {
    match ch
    case OnLock(l) => AcquireHave(l)
    case OnCond(l, _) => MonitorHave(l)
    case _ => WaitScan(0, false)
  }

  /** yield, sched and sleep. */
  function SleepThread(s: State, c: nat, p: nat): State
    requires p < |s.procs| && c < |s.cpus|
  {
    var me := s.procs[p];
    match me.pc
    case Yielding(at) => WithProc(s, p, me.(st := Runnable, pc := InSched(AfterYield(at))))
    case InSched(kk) => SwitchOut(s, c, p, kk)
    case Back(kk) =>
      (match kk
       case AfterSleep(ch) => WithProc(s, p, me.(chan := NoChan, pc := SleepTidy(ch)))
       case AfterYield(at) => Release(s, p, ProcLock(p), at)
       case _ => Release(s, p, ProcLock(p), User))
    case SleepHave(ch) => Acquire(s, c, p, ProcLock(p), SleepBoth(ch))
    case SleepBoth(ch) => Release(s, p, LockOf(ch), SleepOwn(ch))
    case SleepOwn(ch) => WithProc(s, p, me.(chan := ch, st := Sleeping, pc := InSched(AfterSleep(ch))))
    case SleepTidy(ch) => Release(s, p, ProcLock(p), SleepReacquire(ch))
    case SleepReacquire(ch) => Acquire(s, c, p, LockOf(ch), Awake(ch))
    case _ => s
  }

  predicate WakeStep(pc: Pc) {
    pc.Waking? || pc.WakingLocked?
  }

  /** wakeup. */
  function WakeThread(s: State, c: nat, p: nat): State
    requires p < |s.procs|
  {
    match s.procs[p].pc
    case Waking(ch, j, w) =>
      if j >= |s.procs| then WakeReturn(s, p, ch, w)
      else if j == p then Go(s, p, Waking(ch, j + 1, w))
      else Acquire(s, c, p, ProcLock(j), WakingLocked(ch, j, w))
    case WakingLocked(ch, j, w) =>
      if j < |s.procs| then Release(WithProc(s, j, Woken(s.procs[j], ch)), p, ProcLock(j), Waking(ch, j + 1, w)) else s
    case _ => s
  }

  predicate SleepLockStep(pc: Pc) {
    pc.AcquireWant? || pc.AcquireHave? || pc.AcquireFree? || pc.AcquireDone? || pc.ReleaseWant? || pc.ReleaseHave?
        || pc.ReleaseDone?
  }

  /** acquiresleep and releasesleep. */
  function SleepLockThread(s: State, c: nat, p: nat): State
    requires p < |s.procs|
  {
    var me := s.procs[p];
    match me.pc
    case AcquireWant(l) => Acquire(s, c, p, InnerLock(l), AcquireHave(l))
    case AcquireHave(l) =>
      if l >= |s.locks| then s
      else Go(s, p, if s.locks[l].locked then SleepHave(OnLock(l)) else AcquireFree(l))
    case AcquireFree(l) =>
      if l >= |s.locks| then s
      else WithProc(s.(locks := s.locks[l := s.locks[l].(locked := true)]), p,
          me.(has := me.has + {l}, pc := AcquireDone(l)))
    case AcquireDone(l) => Release(s, p, InnerLock(l), User)
    case ReleaseWant(l) => Acquire(s, c, p, InnerLock(l), ReleaseHave(l))
    case ReleaseHave(l) =>
      if l >= |s.locks| then s
      else WithProc(s.(locks := s.locks[l := s.locks[l].(locked := false)]), p,
                    me.(has := me.has - {l}, pc := Waking(OnLock(l), 0, ToRelease)))
    case ReleaseDone(l) => Release(s, p, InnerLock(l), User)
    case _ => s
  }

  predicate MonitorStep(pc: Pc) {
    pc.MonitorWant? || pc.MonitorHave?
  }

  /** A client: it may sleep on any of its conditions, wake their sleepers, or leave, each time it has its lock. */
  function MonitorThread(s: State, c: nat, p: nat, k: Pick): State
    requires p < |s.procs|
  {
    match s.procs[p].pc
    case MonitorWant(l) => Acquire(s, c, p, InnerLock(l), MonitorHave(l))
    case MonitorHave(l) =>
      if k.op == 0 then Release(s, p, InnerLock(l), User)
      else if k.op == 1 then Go(s, p, SleepHave(OnCond(l, k.j)))
      else Go(s, p, Waking(OnCond(l, k.j), 0, ToMonitor))
    case _ => s
  }

  predicate ExitStep(pc: Pc) {
    pc.ExitWant? || pc.Reparenting? || pc.ExitHave? || pc.ExitBoth? || pc.ExitZombie?
  }

  /** exit, with reparent. */
  function ExitThread(s: State, c: nat, p: nat): State
    requires p < |s.procs|
  {
    var me := s.procs[p];
    match me.pc
    case ExitWant(status) => Acquire(s, c, p, WaitLock, Reparenting(0, status))
    case Reparenting(j, status) =>
      if j >= |s.procs| then Go(s, p, Waking(OnProc(me.parent), 0, ToExit(status)))
      else if s.procs[j].parent == p then
        Go(WithProc(s, j, s.procs[j].(parent := s.init)), p, Waking(OnProc(s.init), 0, ToReparent(j + 1, status)))
      else Go(s, p, Reparenting(j + 1, status))
    case ExitHave(status) => Acquire(s, c, p, ProcLock(p), ExitBoth(status))
    case ExitBoth(status) =>
      WithProc(s, p, me.(st := Zombie, xstate := status, pc := ExitZombie)).(exits := s.exits[me.pid := status])
    case ExitZombie => Release(s, p, WaitLock, InSched(Exited))
    case _ => s
  }

  predicate WaitStep(pc: Pc) {
    pc.WaitWant? || pc.WaitScan? || pc.WaitLocked? || pc.WaitGot? || pc.WaitDone?
  }

  /** wait; whether it was killed and whether copyout fails is left open. */
  function WaitThread(s: State, c: nat, p: nat, fails: bool): State
    requires p < |s.procs|
  {
    match s.procs[p].pc
    case WaitWant => Acquire(s, c, p, WaitLock, WaitScan(0, false))
    case WaitScan(j, kids) =>
      if j >= |s.procs| then Go(s, p, if kids && !fails then SleepHave(OnProc(p)) else WaitDone)
      else if s.procs[j].parent == p then Acquire(s, c, p, ProcLock(j), WaitLocked(j))
      else Go(s, p, WaitScan(j + 1, kids))
    case WaitLocked(j) =>
      if j >= |s.procs| then s
      else if s.procs[j].st != Zombie then Release(s, p, ProcLock(j), WaitScan(j + 1, true))
      else if fails then Go(s, p, WaitGot(j))
      else Go(WithProc(s, j, Freed(s.procs[j])).(collected := s.collected + {s.procs[j].pid}), p, WaitGot(j))
    case WaitGot(j) => Release(s, p, ProcLock(j), WaitDone)
    case WaitDone => Release(s, p, WaitLock, User)
    case _ => s
  }

  predicate ForkStep(pc: Pc) {
    pc.ForkLocked? || pc.ForkHave? || pc.ForkNamed? || pc.ForkParent? || pc.ForkReady? || pc.ForkRun?
  }

  /** fork, with allocproc; whether there is memory for the child is left open. */
  function ForkThread(s: State, c: nat, p: nat, fails: bool): State
    requires p < |s.procs|
  {
    match s.procs[p].pc
    case ForkLocked(j) =>
      if j < |s.procs| && s.procs[j].st == Unused then
        var q := s.procs[j].(st := Used, pid := s.nextpid, pc := Off(FirstRun));
        Go(WithProc(s, j, q).(nextpid := s.nextpid + 1), p, ForkHave(j))
      else Release(s, p, ProcLock(j), User)
    case ForkHave(j) =>
      if j >= |s.procs| then s
      else if fails then Release(WithProc(s, j, Freed(s.procs[j])), p, ProcLock(j), User)
      else Release(s, p, ProcLock(j), ForkNamed(j))
    case ForkNamed(j) => Acquire(s, c, p, WaitLock, ForkParent(j))
    case ForkParent(j) =>
      if j < |s.procs| then Release(WithProc(s, j, s.procs[j].(parent := p)), p, WaitLock, ForkReady(j)) else s
    case ForkReady(j) => Acquire(s, c, p, ProcLock(j), ForkRun(j))
    case ForkRun(j) =>
      if j < |s.procs| then Release(WithProc(s, j, s.procs[j].(st := Runnable)), p, ProcLock(j), User) else s
    case _ => s
  }

  /** kill. */
  function KillThread(s: State, c: nat, p: nat): State
    requires p < |s.procs|
  {
    match s.procs[p].pc
    case KillLocked(j) =>
      if j < |s.procs| then
        Release(WithProc(s, j, if s.procs[j].st == Sleeping then s.procs[j].(st := Runnable) else s.procs[j]),
                p, ProcLock(j), User)
      else s
    case _ => s
  }

  /** One step of the kernel thread of process p on CPU c. */
  function ThreadStep(s: State, c: nat, p: nat, k: Pick): State
    requires p < |s.procs| && c < |s.cpus|
  {
    var pc := s.procs[p].pc;
    if k.interrupt && Preemptible(pc) then Acquire(s, c, p, ProcLock(p), Yielding(pc))
    else if pc == User then Start(s, c, p, k)
    else if SleepStep(pc) then SleepThread(s, c, p)
    else if WakeStep(pc) then WakeThread(s, c, p)
    else if SleepLockStep(pc) then SleepLockThread(s, c, p)
    else if MonitorStep(pc) then MonitorThread(s, c, p, k)
    else if ExitStep(pc) then ExitThread(s, c, p)
    else if WaitStep(pc) then WaitThread(s, c, p, k.fails)
    else if ForkStep(pc) then ForkThread(s, c, p, k.fails)
    else KillThread(s, c, p)
  }

  /** One step of a CPU's scheduler. */
  function SchedulerStep(s: State, c: nat, k: Pick): State
    requires c < |s.cpus|
  {
    match s.cpus[c]
    case Scan =>
      if k.j < |s.procs| && s.procs[k.j].lock == -1 then
        WithProc(s, k.j, s.procs[k.j].(lock := c)).(cpus := s.cpus[c := Locked(k.j)])
      else s
    case Locked(j) =>
      if j < |s.procs| && s.procs[j].st == Runnable then SwitchIn(s, c, j)
      else WithHolder(s, ProcLock(j), -1).(cpus := s.cpus[c := Scan])
    case Returned(j) => WithHolder(s, ProcLock(j), -1).(cpus := s.cpus[c := Scan])
    case Run(_) => s
  }

  /** One step of CPU c. */
  function Step(s: State, c: nat, k: Pick): State {
    if c >= |s.cpus| then s
    else if s.cpus[c].Run? then
      if s.cpus[c].p < |s.procs| then ThreadStep(s, c, s.cpus[c].p, k) else s
    else SchedulerStep(s, c, k)
  }

  // --------------------------------------------------------------------- basic invariants

  /** A lock is held by the CPU whose thread is in a section that holds it, and by no other. */
  ghost predicate LockInv(s: State) {
    && (forall c: int, x: Lock :: 0 <= c < |s.cpus| && x in CpuHolds(s, c) ==> IsLock(s, x) && Holder(s, x) == c)
    && (forall x: Lock :: IsLock(s, x) && Holder(s, x) != -1 ==>
          0 <= Holder(s, x) < |s.cpus| && x in CpuHolds(s, Holder(s, x)))
  }

  /** A process runs where it says it runs. */
  ghost predicate RunInv(s: State) {
    && (forall c: int :: 0 <= c < |s.cpus| && s.cpus[c].Run? ==>
          s.cpus[c].p < |s.procs| && s.procs[s.cpus[c].p].on == c)
    && (forall p: int :: 0 <= p < |s.procs| && s.procs[p].on != -1 ==>
          0 <= s.procs[p].on < |s.cpus| && s.cpus[s.procs[p].on] == Run(p))
  }

  ghost predicate ChanOk(s: State, p: int, ch: Chan) {
    match ch
    case OnLock(l) => l < |s.locks|
    case OnCond(l, _) => l < |s.locks|
    case OnProc(i) => i == p
    case NoChan => false
  }

  ghost predicate WakeOk(s: State, ch: Chan, w: WakeCont) {
    match w
    case ToRelease => ch.OnLock? && ch.l < |s.locks|
    case ToMonitor => ch.OnCond? && ch.l < |s.locks|
    case _ => ch.OnProc?
  }

  /** A point where a thread can be preempted. */
  ghost predicate PlaceOk(s: State, p: int, at: Pc) {
    && Preemptible(at)
    && match at
       case SleepReacquire(ch) => ChanOk(s, p, ch)
       case AcquireWant(l) => l < |s.locks|
       case ReleaseWant(l) => l < |s.locks|
       case MonitorWant(l) => l < |s.locks|
       case ForkNamed(j) => j < |s.procs|
       case ForkReady(j) => j < |s.procs|
       case _ => true
  }

  /** What a process's state and channel can be at each point of its code. */
  ghost predicate ProcOk(s: State, p: int, q: Proc) {
    && (q.on == -1 <==> q.pc.Off?)
    && match q.pc
       case Off(k) =>
         (match k
          case NoThread => q.st == Unused
          case FirstRun => q.st == Used || q.st == Runnable
          case AfterYield(at) => q.st == Runnable && PlaceOk(s, p, at)
          case AfterSleep(ch) => ChanOk(s, p, ch) && (q.st == Runnable || (q.st == Sleeping && q.chan == ch))
          case Exited => q.st == Zombie)
       case InSched(k) =>
         (match k
          case AfterYield(at) => q.st == Runnable && PlaceOk(s, p, at)
          case AfterSleep(ch) => ChanOk(s, p, ch) && q.st == Sleeping && q.chan == ch
          case Exited => q.st == Zombie
          case _ => false)
       case Back(k) =>
         && q.st == Running && k != NoThread && k != Exited && (k.AfterSleep? ==> ChanOk(s, p, k.ch))
         && (k.AfterYield? ==> PlaceOk(s, p, k.at))
       case Yielding(at) => q.st == Running && PlaceOk(s, p, at)
       case ExitZombie => q.st == Zombie
       case SleepHave(ch) => q.st == Running && ChanOk(s, p, ch)
       case SleepBoth(ch) => q.st == Running && ChanOk(s, p, ch)
       case SleepOwn(ch) => q.st == Running && ChanOk(s, p, ch)
       case SleepTidy(ch) => q.st == Running && ChanOk(s, p, ch)
       case SleepReacquire(ch) => q.st == Running && ChanOk(s, p, ch)
       case Waking(ch, j, w) => q.st == Running && WakeOk(s, ch, w)
       case WakingLocked(ch, j, w) => q.st == Running && j < |s.procs| && j != p && WakeOk(s, ch, w)
       case AcquireWant(l) => q.st == Running && l < |s.locks|
       case AcquireHave(l) => q.st == Running && l < |s.locks|
       case AcquireFree(l) => q.st == Running && l < |s.locks|
       case AcquireDone(l) => q.st == Running && l < |s.locks|
       case ReleaseWant(l) => q.st == Running && l < |s.locks|
       case ReleaseHave(l) => q.st == Running && l < |s.locks|
       case ReleaseDone(l) => q.st == Running && l < |s.locks|
       case MonitorWant(l) => q.st == Running && l < |s.locks|
       case MonitorHave(l) => q.st == Running && l < |s.locks|
       case WaitLocked(j) => q.st == Running && j < |s.procs|
       case WaitGot(j) => q.st == Running && j < |s.procs|
       case ForkLocked(j) => q.st == Running && j < |s.procs|
       case ForkHave(j) => q.st == Running && j < |s.procs|
       case ForkNamed(j) => q.st == Running && j < |s.procs|
       case ForkParent(j) => q.st == Running && j < |s.procs|
       case ForkReady(j) => q.st == Running && j < |s.procs|
       case ForkRun(j) => q.st == Running && j < |s.procs|
       case KillLocked(j) => q.st == Running && j < |s.procs|
       case _ => q.st == Running
  }

  ghost predicate ProcsOk(s: State) {
    forall p: int :: 0 <= p < |s.procs| ==> ProcOk(s, p, s.procs[p])
  }

  ghost predicate BaseInv(s: State) {
    LockInv(s) && RunInv(s) && ProcsOk(s)
  }

  // ---------------------------------------------- how the basic invariants survive a change

  /** A thread moves on, keeping the locks it holds; only its own state and channel may change. */
  lemma MoveKeeps(s: State, c: nat, p: nat, q: Proc)
    requires BaseInv(s) && c < |s.cpus| && s.cpus[c] == Run(p) && p < |s.procs|
    requires q.on == s.procs[p].on && q.lock == s.procs[p].lock && Holds(q.pc, p) == Holds(s.procs[p].pc, p)
    requires ProcOk(s, p, q)
    ensures BaseInv(WithProc(s, p, q))
  {
    var t := WithProc(s, p, q);
    HoldersSame(s, t);
    forall d: int | 0 <= d < |s.cpus| ensures CpuHolds(t, d) == CpuHolds(s, d) {
      assert s.cpus[d] == Run(p) ==> d == c;
    }
    ProcsSame(s, t);
  }

  ghost predicate SameHolders(s: State, t: State) {
    forall x: Lock :: IsLock(t, x) == IsLock(s, x) && Holder(t, x) == Holder(s, x)
  }

  lemma HoldersSame(s: State, t: State)
    requires |t.procs| == |s.procs| && |t.locks| == |s.locks| && t.wl == s.wl
    requires forall i :: 0 <= i < |s.procs| ==> t.procs[i].lock == s.procs[i].lock
    requires forall l :: 0 <= l < |s.locks| ==> t.locks[l].lk == s.locks[l].lk
    ensures SameHolders(s, t)
  {
  }

  lemma ProcsSame(s: State, t: State)
    requires |t.procs| == |s.procs| && |t.locks| == |s.locks|
    ensures forall p: int, q: Proc :: ProcOk(t, p, q) == ProcOk(s, p, q)
  {
  }

  /** Another process's state changes, and its thread with it only if it has none on a CPU. */
  lemma OtherKeeps(s: State, j: nat, q: Proc)
    requires BaseInv(s) && j < |s.procs| && q.on == s.procs[j].on && q.lock == s.procs[j].lock
    requires q.pc == s.procs[j].pc || (q.pc.Off? && s.procs[j].pc.Off?)
    requires ProcOk(s, j, q)
    ensures BaseInv(WithProc(s, j, q))
  {
    hide Holds;
    var t := WithProc(s, j, q);
    HoldersSame(s, t);
    forall d: int | 0 <= d < |s.cpus| ensures CpuHolds(t, d) == CpuHolds(s, d) {
      assert ProcOk(s, j, s.procs[j]);
      assert s.cpus[d] == Run(j) ==> q.pc == s.procs[j].pc;
    }
    ProcsSame(s, t);
  }

  lemma HolderOf(s: State, x: Lock, c: int, y: Lock)
    requires IsLock(s, x)
    ensures Holder(WithHolder(s, x, c), y) == if y == x then c else Holder(s, y)
    ensures IsLock(WithHolder(s, x, c), y) == IsLock(s, y)
  {
  }

  /** acquire: the thread comes to hold one lock more. */
  lemma AcquireKeeps(s: State, c: nat, p: nat, x: Lock, pc: Pc)
    requires BaseInv(s) && c < |s.cpus| && s.cpus[c] == Run(p) && p < |s.procs|
    requires Holds(pc, p) == Holds(s.procs[p].pc, p) + {x}
    requires ProcOk(s, p, s.procs[p].(pc := pc))
    ensures BaseInv(Acquire(s, c, p, x, pc))
  {
    hide Holds, ProcOk;
    if IsLock(s, x) && Holder(s, x) == -1 {
      HandOver(s, c, p, x, c, pc);
    }
  }

  /** release: the thread comes to hold one lock fewer. */
  lemma ReleaseKeeps(s: State, c: nat, p: nat, x: Lock, pc: Pc)
    requires BaseInv(s) && c < |s.cpus| && s.cpus[c] == Run(p) && p < |s.procs|
    requires x in Holds(s.procs[p].pc, p) && Holds(pc, p) == Holds(s.procs[p].pc, p) - {x}
    requires ProcOk(s, p, s.procs[p].(pc := pc))
    ensures BaseInv(Release(s, p, x, pc))
  {
    hide Holds, ProcOk;
    assert x in CpuHolds(s, c);
    HandOver(s, c, p, x, -1, pc);
  }

  /** One lock changes hands between nobody and the CPU running p, and p's thread moves on. */
  lemma HandOver(s: State, c: nat, p: nat, x: Lock, to: int, pc: Pc)
    requires BaseInv(s) && c < |s.cpus| && s.cpus[c] == Run(p) && p < |s.procs| && IsLock(s, x)
    requires to == c || to == -1
    requires to == c ==> Holder(s, x) == -1 && Holds(pc, p) == Holds(s.procs[p].pc, p) + {x}
    requires to == -1 ==> Holder(s, x) == c && Holds(pc, p) == Holds(s.procs[p].pc, p) - {x}
    requires ProcOk(s, p, s.procs[p].(pc := pc))
    ensures BaseInv(Go(WithHolder(s, x, to), p, pc))
  {
    hide Holds, ProcOk, LockInv;
    var t := Go(WithHolder(s, x, to), p, pc);
    forall y: Lock ensures Holder(t, y) == (if y == x then to else Holder(s, y)) && IsLock(t, y) == IsLock(s, y) {
      HolderOf(s, x, to, y);
      HoldersSame(WithHolder(s, x, to), t);
    }
    forall d: int | 0 <= d < |s.cpus| && d != c ensures CpuHolds(t, d) == CpuHolds(s, d) {
      assert s.cpus[d] != Run(p);
    }
    LockChange(s, t, c, x, to);
    HandOverProcs(s, p, x, to, pc);
  }

  lemma LockChange(s: State, t: State, c: nat, x: Lock, to: int)
    requires LockInv(s) && c < |s.cpus| == |t.cpus| && IsLock(s, x)
    requires forall y: Lock :: Holder(t, y) == (if y == x then to else Holder(s, y)) && IsLock(t, y) == IsLock(s, y)
    requires forall d: int :: 0 <= d < |s.cpus| && d != c ==> CpuHolds(t, d) == CpuHolds(s, d)
    requires (to == c && Holder(s, x) == -1 && CpuHolds(t, c) == CpuHolds(s, c) + {x}) ||
             (to == -1 && Holder(s, x) == c && CpuHolds(t, c) == CpuHolds(s, c) - {x})
    ensures LockInv(t)
  {
    hide Holds, CpuHolds, Holder, IsLock;
  }

  lemma HandOverProcs(s: State, p: nat, x: Lock, to: int, pc: Pc)
    requires ProcsOk(s) && p < |s.procs| && ProcOk(s, p, s.procs[p].(pc := pc))
    ensures ProcsOk(Go(WithHolder(s, x, to), p, pc))
  {
    hide ProcOk;
    var t := Go(WithHolder(s, x, to), p, pc);
    ProcsSame(s, t);
    forall i: int | 0 <= i < |t.procs| ensures ProcOk(t, i, t.procs[i]) {
      LockDoesNotMatter(s, i, t.procs[i], if i == p then s.procs[p].(pc := pc) else s.procs[i]);
    }
  }

  lemma LockDoesNotMatter(s: State, p: int, q: Proc, r: Proc)
    requires q == r.(lock := q.lock)
    ensures ProcOk(s, p, q) == ProcOk(s, p, r)
  {
  }

  /** The slot a fork is filling, preempted or not; -1 if none. */
  function ForkSlot(pc: Pc): int {
    Filling(Place(pc))
  }

  function Filling(pc: Pc): int {
    match pc
    case ForkHave(j) => j
    case ForkNamed(j) => j
    case ForkParent(j) => j
    case ForkReady(j) => j
    case ForkRun(j) => j
    case _ => -1
  }

  /** A slot being filled is marked so, and by one fork only. */
  ghost predicate ForkInv(s: State) {
    && (forall p: int :: 0 <= p < |s.procs| && ForkSlot(s.procs[p].pc) != -1 ==>
          0 <= ForkSlot(s.procs[p].pc) < |s.procs| && s.procs[ForkSlot(s.procs[p].pc)].st == Used)
    && (forall p: int, q: int :: 0 <= p < |s.procs| && 0 <= q < |s.procs| && p != q && ForkSlot(s.procs[p].pc) != -1 ==>
          ForkSlot(s.procs[q].pc) != ForkSlot(s.procs[p].pc))
  }

  /** A process whose lock another CPU holds is in no section that holds it. */
  lemma LockExcludes(s: State, c: nat, j: nat)
    requires BaseInv(s) && c < |s.cpus| && j < |s.procs| && ProcLock(j) in CpuHolds(s, c) && s.cpus[c] != Run(j)
    ensures s.procs[j].on != -1 ==> ProcLock(j) !in Holds(s.procs[j].pc, j)
    ensures !s.procs[j].pc.InSched? && s.procs[j].pc != ExitZombie && !s.procs[j].pc.SleepOwn?
  {
    var d := s.procs[j].on;
    assert ProcOk(s, j, s.procs[j]);
    assert Holder(s, ProcLock(j)) == c;
    assert d != -1 ==> 0 <= d < |s.cpus| && s.cpus[d] == Run(j) && CpuHolds(s, d) == Holds(s.procs[j].pc, j);
    assert d != -1 ==> (ProcLock(j) in CpuHolds(s, d) ==> Holder(s, ProcLock(j)) == d);
  }

  /** Only a process switched out can be asleep, dead or unused while its lock is in other hands. */
  lemma OthersAreOff(s: State, c: nat, j: nat)
    requires BaseInv(s) && c < |s.cpus| && j < |s.procs| && ProcLock(j) in CpuHolds(s, c) && s.cpus[c] != Run(j)
    ensures s.procs[j].st != Running ==> s.procs[j].pc.Off? && s.procs[j].on == -1
  {
    LockExcludes(s, c, j);
    assert ProcOk(s, j, s.procs[j]);
  }

  /** swtch out hands p's lock to the scheduler of the same CPU. */
  lemma SwitchOutKeeps(s: State, c: nat, p: nat, k: Cont)
    requires BaseInv(s) && c < |s.cpus| && s.cpus[c] == Run(p) && p < |s.procs| && s.procs[p].pc == InSched(k)
    ensures BaseInv(SwitchOut(s, c, p, k))
  {
    var t := SwitchOut(s, c, p, k);
    HoldersSame(s, t);
    forall d: int | 0 <= d < |s.cpus| ensures CpuHolds(t, d) == CpuHolds(s, d) {
      assert s.cpus[d] == Run(p) ==> d == c;
    }
    ProcsSame(s, t);
    assert ProcOk(s, p, s.procs[p]);
  }

  /** swtch in finds the process switched out: p->lock makes sure of it. */
  lemma SwitchInKeeps(s: State, c: nat, j: nat)
    requires BaseInv(s) && c < |s.cpus| && s.cpus[c] == Locked(j) && j < |s.procs| && s.procs[j].st == Runnable
    ensures s.procs[j].on == -1 && s.procs[j].pc.Off?
    ensures BaseInv(SwitchIn(s, c, j))
  {
    OthersAreOff(s, c, j);
    var t := SwitchIn(s, c, j);
    HoldersSame(s, t);
    forall d: int | 0 <= d < |s.cpus| ensures CpuHolds(t, d) == CpuHolds(s, d) {
    }
    ProcsSame(s, t);
    assert ProcOk(s, j, s.procs[j]);
  }

  lemma SchedulerBase(s: State, c: nat, k: Pick)
    requires BaseInv(s) && c < |s.cpus| && !s.cpus[c].Run?
    ensures BaseInv(SchedulerStep(s, c, k))
  {
    hide ProcOk;
    var t := SchedulerStep(s, c, k);
    if s.cpus[c].Locked? && s.cpus[c].j < |s.procs| && s.procs[s.cpus[c].j].st == Runnable {
      SwitchInKeeps(s, c, s.cpus[c].j);
    } else if t != s {
      var j := if s.cpus[c].Scan? then k.j else s.cpus[c].j;
      var to := if s.cpus[c].Scan? then c else -1;
      assert !s.cpus[c].Scan? ==> ProcLock(j) in CpuHolds(s, c) && IsLock(s, ProcLock(j));
      assert t.procs == WithHolder(s, ProcLock(j), to).procs && t.locks == s.locks && t.wl == s.wl;
      SchedulerLock(s, t, c, j, to);
    }
  }

  lemma SchedulerLock(s: State, t: State, c: nat, j: nat, to: int)
    requires BaseInv(s) && c < |s.cpus| && !s.cpus[c].Run? && j < |s.procs|
    requires (to == c && s.cpus[c] == Scan && s.procs[j].lock == -1 && t.cpus == s.cpus[c := Locked(j)]) ||
             (to == -1 && CpuHolds(s, c) == {ProcLock(j)} && t.cpus == s.cpus[c := Scan])
    requires t.procs == WithHolder(s, ProcLock(j), to).procs && t.locks == s.locks && t.wl == s.wl
    ensures BaseInv(t)
  {
    hide Holds, ProcOk, LockInv;
    assert to == -1 ==> Holder(s, ProcLock(j)) == c by { assert LockInv(s); LockHeld(s, c, j); }
    forall y: Lock ensures Holder(t, y) == (if y == ProcLock(j) then to else Holder(s, y))
        && IsLock(t, y) == IsLock(s, y) {
      HolderOf(s, ProcLock(j), to, y);
    }
    forall d: int | 0 <= d < |s.cpus| && d != c ensures CpuHolds(t, d) == CpuHolds(s, d) {
    }
    LockChange(s, t, c, ProcLock(j), to);
    ProcsSame(s, t);
    forall i: int | 0 <= i < |t.procs| ensures ProcOk(t, i, t.procs[i]) {
      LockDoesNotMatter(s, i, t.procs[i], s.procs[i]);
    }
  }

  lemma LockHeld(s: State, c: nat, j: nat)
    requires LockInv(s) && c < |s.cpus|
    ensures ProcLock(j) in CpuHolds(s, c) ==> Holder(s, ProcLock(j)) == c
  {
  }

  /** Sleep-lock flags, statuses and pids matter to none of this. */
  lemma RestKeeps(s: State, t: State)
    requires BaseInv(s) && t.procs == s.procs && t.cpus == s.cpus && t.wl == s.wl && |t.locks| == |s.locks|
    requires forall l :: 0 <= l < |s.locks| ==> t.locks[l].lk == s.locks[l].lk
    ensures BaseInv(t)
  {
    hide Holds, ProcOk;
    HoldersSame(s, t);
    forall d: int | 0 <= d < |s.cpus| ensures CpuHolds(t, d) == CpuHolds(s, d) {
    }
    ProcsSame(s, t);
  }

  lemma StartBase(s: State, c: nat, p: nat, k: Pick)
    requires BaseInv(s) && c < |s.cpus| && s.cpus[c] == Run(p) && p < |s.procs| && s.procs[p].pc == User
    ensures BaseInv(Start(s, c, p, k))
  {
    hide LockInv, RunInv, ProcsOk, Acquire, Release, WithHolder;
    var me := s.procs[p];
    MeOk(s, p);
    match k.op
    case 1 => if k.j < |s.locks| { MoveKeeps(s, c, p, me.(pc := AcquireWant(k.j))); }
    case 2 => if k.j < |s.locks| { MoveKeeps(s, c, p, me.(pc := ReleaseWant(k.j))); }
    case 3 => MoveKeeps(s, c, p, me.(pc := ExitWant(k.status)));
    case 4 => MoveKeeps(s, c, p, me.(pc := WaitWant));
    case 5 => if k.j < |s.procs| { AcquireKeeps(s, c, p, ProcLock(k.j), ForkLocked(k.j)); }
    case 6 => if k.j < |s.procs| { AcquireKeeps(s, c, p, ProcLock(k.j), KillLocked(k.j)); }
    case 7 => if k.j < |s.locks| { MoveKeeps(s, c, p, me.(pc := MonitorWant(k.j))); }
    case _ =>
  }

  /** An interrupt where no lock is held. */
  lemma PreemptBase(s: State, c: nat, p: nat)
    requires BaseInv(s) && c < |s.cpus| && s.cpus[c] == Run(p) && p < |s.procs| && Preemptible(s.procs[p].pc)
    ensures BaseInv(Acquire(s, c, p, ProcLock(p), Yielding(s.procs[p].pc)))
  {
    hide LockInv, RunInv, ProcsOk, Acquire;
    MeOk(s, p);
    AcquireKeeps(s, c, p, ProcLock(p), Yielding(s.procs[p].pc));
  }

  /** The steps of a client. */
  lemma MonitorBase(s: State, c: nat, p: nat, k: Pick)
    requires BaseInv(s) && c < |s.cpus| && s.cpus[c] == Run(p) && p < |s.procs| && MonitorStep(s.procs[p].pc)
    ensures BaseInv(MonitorThread(s, c, p, k))
  {
    hide LockInv, RunInv, ProcsOk, Acquire, Release, WithHolder;
    var me := s.procs[p];
    MeOk(s, p);
    match me.pc
    case MonitorWant(l) => AcquireKeeps(s, c, p, InnerLock(l), MonitorHave(l));
    case MonitorHave(l) =>
      if k.op == 0 {
        ReleaseKeeps(s, c, p, InnerLock(l), User);
      } else if k.op == 1 {
        MoveKeeps(s, c, p, me.(pc := SleepHave(OnCond(l, k.j))));
      } else {
        MoveKeeps(s, c, p, me.(pc := Waking(OnCond(l, k.j), 0, ToMonitor)));
      }
  }

  /** The steps of sched, yield and sleep. */
  lemma SleepBase(s: State, c: nat, p: nat, k: Pick)
    requires BaseInv(s) && c < |s.cpus| && s.cpus[c] == Run(p) && p < |s.procs|
    requires SleepStep(s.procs[p].pc)
    ensures BaseInv(SleepThread(s, c, p))
  {
    hide LockInv, RunInv, ProcsOk, Acquire, Release, WithHolder;
    var me := s.procs[p];
    assert ProcOk(s, p, me) by { MeOk(s, p); }
    match me.pc
    case Yielding(at) => MoveKeeps(s, c, p, me.(st := Runnable, pc := InSched(AfterYield(at))));
    case InSched(kk) => SwitchOutKeeps(s, c, p, kk);
    case Off(_) =>
    case Back(kk) =>
      if kk.AfterSleep? {
        MoveKeeps(s, c, p, me.(chan := NoChan, pc := SleepTidy(kk.ch)));
      } else if kk.AfterYield? {
        ReleaseKeeps(s, c, p, ProcLock(p), kk.at);
      } else {
        ReleaseKeeps(s, c, p, ProcLock(p), User);
      }
    case SleepHave(ch) => AcquireKeeps(s, c, p, ProcLock(p), SleepBoth(ch));
    case SleepBoth(ch) => ReleaseKeeps(s, c, p, LockOf(ch), SleepOwn(ch));
    case SleepOwn(ch) => MoveKeeps(s, c, p, me.(chan := ch, st := Sleeping, pc := InSched(AfterSleep(ch))));
    case SleepTidy(ch) => ReleaseKeeps(s, c, p, ProcLock(p), SleepReacquire(ch));
    case SleepReacquire(ch) => AcquireKeeps(s, c, p, LockOf(ch), Awake(ch));
  }

  lemma MeOk(s: State, p: nat)
    requires BaseInv(s) && p < |s.procs|
    ensures ProcOk(s, p, s.procs[p])
  {
  }

  /** The steps of wakeup. */
  lemma WakeBase(s: State, c: nat, p: nat, k: Pick)
    requires BaseInv(s) && c < |s.cpus| && s.cpus[c] == Run(p) && p < |s.procs|
    requires WakeStep(s.procs[p].pc)
    ensures BaseInv(WakeThread(s, c, p))
  {
    hide LockInv, RunInv, ProcsOk, Acquire, Release, WithHolder;
    var me := s.procs[p];
    MeOk(s, p);
    match me.pc
    case Waking(ch, j, w) =>
      if j >= |s.procs| {
        MoveKeeps(s, c, p, WakeReturn(s, p, ch, w).procs[p]);
      } else if j == p {
        MoveKeeps(s, c, p, me.(pc := Waking(ch, j + 1, w)));
      } else {
        AcquireKeeps(s, c, p, ProcLock(j), WakingLocked(ch, j, w));
      }
    case WakingLocked(ch, j, w) =>
      OthersAreOff(s, c, j);
      MeOk(s, j);
      OtherKeeps(s, j, Woken(s.procs[j], ch));
      var u := WithProc(s, j, Woken(s.procs[j], ch));
      ProcsSame(s, u);
      ReleaseKeeps(u, c, p, ProcLock(j), Waking(ch, j + 1, w));
  }

  /** The steps of acquiresleep and releasesleep. */
  lemma SleepLockBase(s: State, c: nat, p: nat, k: Pick)
    requires BaseInv(s) && c < |s.cpus| && s.cpus[c] == Run(p) && p < |s.procs|
    requires SleepLockStep(s.procs[p].pc)
    ensures BaseInv(SleepLockThread(s, c, p))
  {
    hide LockInv, RunInv, ProcsOk, Acquire, Release, WithHolder;
    var me := s.procs[p];
    MeOk(s, p);
    match me.pc
    case AcquireWant(l) => AcquireKeeps(s, c, p, InnerLock(l), AcquireHave(l));
    case AcquireHave(l) => MoveKeeps(s, c, p,
        me.(pc := if s.locks[l].locked then SleepHave(OnLock(l)) else AcquireFree(l)));
    case AcquireFree(l) =>
      var u := s.(locks := s.locks[l := s.locks[l].(locked := true)]);
      RestKeeps(s, u);
      MoveKeeps(u, c, p, me.(has := me.has + {l}, pc := AcquireDone(l)));
    case AcquireDone(l) => ReleaseKeeps(s, c, p, InnerLock(l), User);
    case ReleaseWant(l) => AcquireKeeps(s, c, p, InnerLock(l), ReleaseHave(l));
    case ReleaseHave(l) =>
      var u := s.(locks := s.locks[l := s.locks[l].(locked := false)]);
      RestKeeps(s, u);
      MoveKeeps(u, c, p, me.(has := me.has - {l}, pc := Waking(OnLock(l), 0, ToRelease)));
    case ReleaseDone(l) => ReleaseKeeps(s, c, p, InnerLock(l), User);
  }

  /** The steps of exit. */
  lemma ExitBase(s: State, c: nat, p: nat, k: Pick)
    requires BaseInv(s) && c < |s.cpus| && s.cpus[c] == Run(p) && p < |s.procs|
    requires ExitStep(s.procs[p].pc)
    ensures BaseInv(ExitThread(s, c, p))
  {
    hide LockInv, RunInv, ProcsOk, Acquire, Release, WithHolder;
    var me := s.procs[p];
    MeOk(s, p);
    match me.pc
    case ExitWant(status) => AcquireKeeps(s, c, p, WaitLock, Reparenting(0, status));
    case Reparenting(j, status) =>
      if j >= |s.procs| {
        MoveKeeps(s, c, p, me.(pc := Waking(OnProc(me.parent), 0, ToExit(status))));
      } else if s.procs[j].parent == p {
        ReparentBase(s, c, p, k);
      } else {
        MoveKeeps(s, c, p, me.(pc := Reparenting(j + 1, status)));
      }
    case ExitHave(status) => AcquireKeeps(s, c, p, ProcLock(p), ExitBoth(status));
    case ExitBoth(status) =>
      MoveKeeps(s, c, p, me.(st := Zombie, xstate := status, pc := ExitZombie));
      RestKeeps(WithProc(s, p, me.(st := Zombie, xstate := status, pc := ExitZombie)), ExitThread(s, c, p));
    case ExitZombie => ReleaseKeeps(s, c, p, WaitLock, InSched(Exited));
  }

  lemma ReparentBase(s: State, c: nat, p: nat, k: Pick)
    requires BaseInv(s) && c < |s.cpus| && s.cpus[c] == Run(p) && p < |s.procs|
    requires s.procs[p].pc.Reparenting? && s.procs[p].pc.j < |s.procs| && s.procs[s.procs[p].pc.j].parent == p
    ensures BaseInv(ExitThread(s, c, p))
  {
    hide LockInv, RunInv, ProcsOk;
    var Reparenting(j, status) := s.procs[p].pc;
    MeOk(s, p);
    MeOk(s, j);
    OtherKeeps(s, j, s.procs[j].(parent := s.init));
    var u := WithProc(s, j, s.procs[j].(parent := s.init));
    MoveKeeps(u, c, p, u.procs[p].(pc := Waking(OnProc(s.init), 0, ToReparent(j + 1, status))));
  }

  /** The steps of wait. */
  lemma WaitBase(s: State, c: nat, p: nat, k: Pick)
    requires BaseInv(s) && c < |s.cpus| && s.cpus[c] == Run(p) && p < |s.procs|
    requires WaitStep(s.procs[p].pc)
    ensures BaseInv(WaitThread(s, c, p, k.fails))
  {
    hide LockInv, RunInv, ProcsOk, Acquire, Release, WithHolder;
    var me := s.procs[p];
    MeOk(s, p);
    match me.pc
    case WaitWant => AcquireKeeps(s, c, p, WaitLock, WaitScan(0, false));
    case WaitScan(j, kids) =>
      if j >= |s.procs| {
        MoveKeeps(s, c, p, me.(pc := if kids && !k.fails then SleepHave(OnProc(p)) else WaitDone));
      } else if s.procs[j].parent == p {
        AcquireKeeps(s, c, p, ProcLock(j), WaitLocked(j));
      } else {
        MoveKeeps(s, c, p, me.(pc := WaitScan(j + 1, kids)));
      }
    case WaitLocked(j) => WaitLockedBase(s, c, p, k);
    case WaitGot(j) => ReleaseKeeps(s, c, p, ProcLock(j), WaitDone);
    case WaitDone => ReleaseKeeps(s, c, p, WaitLock, User);
  }

  lemma WaitLockedBase(s: State, c: nat, p: nat, k: Pick)
    requires BaseInv(s) && c < |s.cpus| && s.cpus[c] == Run(p) && p < |s.procs| && s.procs[p].pc.WaitLocked?
    ensures BaseInv(WaitThread(s, c, p, k.fails))
  {
    hide LockInv, RunInv, ProcsOk;
    MeOk(s, p);
    var j := s.procs[p].pc.j;
    if s.procs[j].st != Zombie {
      ReleaseKeeps(s, c, p, ProcLock(j), WaitScan(j + 1, true));
    } else if k.fails {
      MoveKeeps(s, c, p, s.procs[p].(pc := WaitGot(j)));
    } else {
      CollectBase(s, c, p, k);
    }
  }

  lemma CollectBase(s: State, c: nat, p: nat, k: Pick)
    requires BaseInv(s) && c < |s.cpus| && s.cpus[c] == Run(p) && p < |s.procs|
    requires s.procs[p].pc.WaitLocked? && s.procs[p].pc.j < |s.procs| && s.procs[s.procs[p].pc.j].st == Zombie
    requires !k.fails
    ensures BaseInv(WaitThread(s, c, p, k.fails))
  {
    hide LockInv, RunInv, ProcsOk;
    var j := s.procs[p].pc.j;
    MeOk(s, p);
    OthersAreOff(s, c, j);
    OtherKeeps(s, j, Freed(s.procs[j]));
    var u := WithProc(s, j, Freed(s.procs[j])).(collected := s.collected + {s.procs[j].pid});
    RestKeeps(WithProc(s, j, Freed(s.procs[j])), u);
    MoveKeeps(u, c, p, s.procs[p].(pc := WaitGot(j)));
  }

  /** The steps of fork. */
  lemma ForkBase(s: State, c: nat, p: nat, k: Pick)
    requires BaseInv(s) && c < |s.cpus| && s.cpus[c] == Run(p) && p < |s.procs|
    requires ForkInv(s) && ForkStep(s.procs[p].pc)
    ensures BaseInv(ForkThread(s, c, p, k.fails))
  {
    hide LockInv, RunInv, ProcsOk, ForkInv, Acquire, Release, WithHolder;
    var me := s.procs[p];
    MeOk(s, p);
    match me.pc
    case ForkLocked(j) =>
      if s.procs[j].st == Unused {
        AllocBase(s, c, p, k);
      } else {
        ReleaseKeeps(s, c, p, ProcLock(j), User);
      }
    case ForkHave(j) =>
      if k.fails {
        FreeSlotBase(s, c, p, k);
      } else {
        ReleaseKeeps(s, c, p, ProcLock(j), ForkNamed(j));
      }
    case ForkNamed(j) => AcquireKeeps(s, c, p, WaitLock, ForkParent(j));
    case ForkParent(j) => SetParentBase(s, c, p, k);
    case ForkReady(j) => AcquireKeeps(s, c, p, ProcLock(j), ForkRun(j));
    case ForkRun(j) => MakeRunnableBase(s, c, p, k);
  }

  lemma FreeSlotBase(s: State, c: nat, p: nat, k: Pick)
    requires BaseInv(s) && c < |s.cpus| && s.cpus[c] == Run(p) && p < |s.procs|
    requires ForkInv(s) && s.procs[p].pc.ForkHave? && k.fails
    ensures BaseInv(ForkThread(s, c, p, k.fails))
  {
    hide LockInv, RunInv, ProcsOk, ForkInv;
    MeOk(s, p);
    var j := s.procs[p].pc.j;
    SlotBase(s, c, p, j, Freed(s.procs[j]), ProcLock(j), User);
  }

  lemma SetParentBase(s: State, c: nat, p: nat, k: Pick)
    requires BaseInv(s) && c < |s.cpus| && s.cpus[c] == Run(p) && p < |s.procs|
    requires ForkInv(s) && s.procs[p].pc.ForkParent?
    ensures BaseInv(ForkThread(s, c, p, k.fails))
  {
    hide LockInv, RunInv, ProcsOk, ForkInv;
    MeOk(s, p);
    var j := s.procs[p].pc.j;
    SlotBase(s, c, p, j, s.procs[j].(parent := p), WaitLock, ForkReady(j));
  }

  lemma MakeRunnableBase(s: State, c: nat, p: nat, k: Pick)
    requires BaseInv(s) && c < |s.cpus| && s.cpus[c] == Run(p) && p < |s.procs|
    requires ForkInv(s) && s.procs[p].pc.ForkRun?
    ensures BaseInv(ForkThread(s, c, p, k.fails))
  {
    hide LockInv, RunInv, ProcsOk, ForkInv;
    MeOk(s, p);
    var j := s.procs[p].pc.j;
    SlotBase(s, c, p, j, s.procs[j].(st := Runnable), ProcLock(j), User);
  }

  /** A change to the slot being filled, and the release of a lock. */
  lemma SlotBase(s: State, c: nat, p: nat, j: nat, q: Proc, x: Lock, pc: Pc)
    requires BaseInv(s) && c < |s.cpus| && s.cpus[c] == Run(p) && p < |s.procs|
    requires ForkInv(s) && ForkSlot(s.procs[p].pc) == j < |s.procs|
    requires x in Holds(s.procs[p].pc, p) && Holds(pc, p) == Holds(s.procs[p].pc, p) - {x}
    requires ProcOk(s, p, s.procs[p].(pc := pc))
    requires q == Freed(s.procs[j]) || q == s.procs[j].(parent := p) || q == s.procs[j].(st := Runnable)
    ensures BaseInv(Release(WithProc(s, j, q), p, x, pc))
  {
    hide LockInv, RunInv, ProcsOk;
    MeOk(s, p);
    MeOk(s, j);
    OtherKeeps(s, j, q);
    var u := WithProc(s, j, q);
    assert u.procs[p] == s.procs[p];
    ProcsSame(s, u);
    ReleaseKeeps(u, c, p, x, pc);
  }

  lemma AllocBase(s: State, c: nat, p: nat, k: Pick)
    requires BaseInv(s) && c < |s.cpus| && s.cpus[c] == Run(p) && p < |s.procs|
    requires s.procs[p].pc.ForkLocked? && s.procs[p].pc.j < |s.procs| && s.procs[s.procs[p].pc.j].st == Unused
    ensures BaseInv(ForkThread(s, c, p, k.fails))
  {
    hide LockInv, RunInv, ProcsOk;
    var j := s.procs[p].pc.j;
    MeOk(s, p);
    OthersAreOff(s, c, j);
    var q := s.procs[j].(st := Used, pid := s.nextpid, pc := Off(FirstRun));
    OtherKeeps(s, j, q);
    var u := WithProc(s, j, q).(nextpid := s.nextpid + 1);
    RestKeeps(WithProc(s, j, q), u);
    MoveKeeps(u, c, p, s.procs[p].(pc := ForkHave(j)));
  }

  lemma KillBase(s: State, c: nat, p: nat, k: Pick)
    requires BaseInv(s) && c < |s.cpus| && s.cpus[c] == Run(p) && p < |s.procs|
    requires s.procs[p].pc.KillLocked?
    ensures BaseInv(KillThread(s, c, p))
  {
    hide LockInv, RunInv, ProcsOk;
    var j := s.procs[p].pc.j;
    MeOk(s, p);
    MeOk(s, j);
    if j != p { OthersAreOff(s, c, j); }
    var q := if s.procs[j].st == Sleeping then s.procs[j].(st := Runnable) else s.procs[j];
    OtherKeeps(s, j, q);
    var u := WithProc(s, j, q);
    assert u.procs[p] == s.procs[p];
    ProcsSame(s, u);
    ReleaseKeeps(u, c, p, ProcLock(j), User);
  }

  lemma ThreadBase(s: State, c: nat, p: nat, k: Pick)
    requires BaseInv(s) && ForkInv(s) && c < |s.cpus| && s.cpus[c] == Run(p) && p < |s.procs|
    ensures BaseInv(ThreadStep(s, c, p, k))
  {
    hide BaseInv, ForkInv, Start, SleepThread, WakeThread, SleepLockThread, MonitorThread, ExitThread, WaitThread,
      ForkThread, KillThread, Acquire;
    var pc := s.procs[p].pc;
    if k.interrupt && Preemptible(pc) {
      PreemptBase(s, c, p);
    } else if pc == User {
      StartBase(s, c, p, k);
    } else if SleepStep(pc) {
      SleepBase(s, c, p, k);
    } else if WakeStep(pc) {
      WakeBase(s, c, p, k);
    } else if SleepLockStep(pc) {
      SleepLockBase(s, c, p, k);
    } else if MonitorStep(pc) {
      MonitorBase(s, c, p, k);
    } else if ExitStep(pc) {
      ExitBase(s, c, p, k);
    } else if WaitStep(pc) {
      WaitBase(s, c, p, k);
    } else if ForkStep(pc) {
      ForkBase(s, c, p, k);
    } else {
      KillBase(s, c, p, k);
    }
  }

  lemma BaseStep(s: State, c: nat, k: Pick)
    requires BaseInv(s) && ForkInv(s)
    ensures BaseInv(Step(s, c, k))
  {
    hide LockInv, ProcsOk, ForkInv, ThreadStep, SchedulerStep;
    if c < |s.cpus| {
      if s.cpus[c].Run? {
        ThreadBase(s, c, s.cpus[c].p, k);
      } else {
        SchedulerBase(s, c, k);
      }
    }
  }
}
