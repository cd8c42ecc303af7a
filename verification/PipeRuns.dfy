/**
 Writers and readers of one pipe side by side (kernel/pipe.c, pipewrite, piperead, pipeclose).

 A step is what one thread does between two points where the order could matter. The lock,
 sleep and wakeup are atomic here; that no wakeup falls between a test and its sleep is
 proved of the scheduler itself.
 */
module PipeRuns {
  import opened Bytes
  import opened Common
  import opened Pipe

  /** A call of pipewrite: its bytes, when it began, how many are in, how many since its last wakeup. */
  datatype Writing = Writing(src: seq<Byte>, from: nat, i: nat, untold: nat)

  /** A call of piperead: how many bytes it may take, when it began, what it has delivered, what it has taken. */
  datatype Reading = Reading(n: nat, from: nat, got: seq<Byte>, used: nat)

  datatype Pc =
    | Idle
    | WWait(w: Writing)     // wants the lock
    | WLoop(w: Writing)     // has it, at the head of the loop
    | WSleep(w: Writing)    // asleep on nwrite
    | RWait(r: Reading)
    | RCheck(r: Reading)    // at the test for an empty pipe
    | RSleep(r: Reading)    // asleep on nread
    | RCopy(r: Reading)     // at the head of the copying loop
    | RLeave(r: Reading)    // past it

  /** `put` and `taken` are all bytes that went in and came out, each with its thread. */
  datatype Moved = Moved(val: Byte, who: nat)

  datatype State = State(ring: Ring, readopen: bool, writeopen: bool, lock: Option<nat>, pcs: seq<Pc>,
                         put: seq<Moved>, taken: seq<Moved>)

  datatype Event =
    | StartWrite(t: nat, src: seq<Byte>)
    | StartRead(t: nat, n: nat)
    | Acquire(t: nat)
    | WriteByte(t: nat)
    | WriteSleep(t: nat)
    | WriteAbort(t: nat)    // the reader is gone or the process was killed
    | WriteEnd(t: nat)      // all in, or copyin failed
    | ReadAbort(t: nat)     // killed
    | ReadBlock(t: nat)
    | ReadGo(t: nat)
    | ReadByte(t: nat, ok: bool)
    | ReadEnd(t: nat)
    | Killed(t: nat)        // kill wakes a thread that is asleep
    | CloseRead
    | CloseWrite

  predicate Writer(pc: Pc) {
    pc.WWait? || pc.WLoop? || pc.WSleep?
  }

  predicate Reader(pc: Pc) {
    pc.RWait? || pc.RCheck? || pc.RSleep? || pc.RCopy? || pc.RLeave?
  }

  predicate Holding(pc: Pc) {
    pc.WLoop? || pc.RCheck? || pc.RCopy? || pc.RLeave?
  }

  ghost predicate At(s: State, t: nat) {
    t < |s.pcs| && s.lock == Some(t) && |s.ring.data| == PIPESIZE
  }

  ghost predicate Enabled(s: State, e: Event) {
    match e
    case StartWrite(t, src) => t < |s.pcs| && s.pcs[t].Idle? && s.writeopen
    case StartRead(t, n) => t < |s.pcs| && s.pcs[t].Idle? && s.readopen
    case Acquire(t) => t < |s.pcs| && s.lock.None? && (s.pcs[t].WWait? || s.pcs[t].RWait?)
    case WriteByte(t) => At(s, t) && s.pcs[t].WLoop? && s.pcs[t].w.i < |s.pcs[t].w.src| && s.readopen && !Full(s.ring)
    case WriteSleep(t) => At(s, t) && s.pcs[t].WLoop? && s.pcs[t].w.i < |s.pcs[t].w.src| && s.readopen && Full(s.ring)
    case WriteAbort(t) => At(s, t) && s.pcs[t].WLoop? && s.pcs[t].w.i < |s.pcs[t].w.src|
    case WriteEnd(t) =>
      && At(s, t) && s.pcs[t].WLoop?
      && (s.pcs[t].w.i < |s.pcs[t].w.src| ==> s.readopen && !Full(s.ring))
    case ReadAbort(t) => At(s, t) && s.pcs[t].RCheck? && Empty(s.ring) && s.writeopen
    case ReadBlock(t) => At(s, t) && s.pcs[t].RCheck? && Empty(s.ring) && s.writeopen
    case ReadGo(t) => At(s, t) && s.pcs[t].RCheck? && !(Empty(s.ring) && s.writeopen)
    case ReadByte(t, ok) => At(s, t) && s.pcs[t].RCopy? && |s.pcs[t].r.got| < s.pcs[t].r.n && !Empty(s.ring)
    case ReadEnd(t) =>
      && At(s, t)
      && (s.pcs[t].RLeave? || (s.pcs[t].RCopy? && (|s.pcs[t].r.got| >= s.pcs[t].r.n || Empty(s.ring))))
    case Killed(t) => t < |s.pcs| && (s.pcs[t].RSleep? || s.pcs[t].WSleep?)
    // a thread in a call keeps its end of the pipe open
    case CloseRead => s.lock.None? && s.readopen && forall t: nat :: t < |s.pcs| ==> !Reader(s.pcs[t])
    case CloseWrite => s.lock.None? && s.writeopen && forall t: nat :: t < |s.pcs| ==> !Writer(s.pcs[t])
  }

  function Woken(pc: Pc, readers: bool): Pc {
    match pc
    case RSleep(r) => if readers then RWait(r) else pc
    case WSleep(w) => if readers then pc else WWait(w)
    case _ => pc
  }

  /** wakeup(&pi->nread) or wakeup(&pi->nwrite) */
  function Wake(pcs: seq<Pc>, readers: bool): (r: seq<Pc>)
    ensures |r| == |pcs| && forall t: nat :: t < |pcs| ==> r[t] == Woken(pcs[t], readers)
  {
    seq(|pcs|, (t: nat) requires t < |pcs| => Woken(pcs[t], readers))
  }

  ghost function Step(s: State, e: Event): State
    requires Enabled(s, e)
  {
    match e
    case StartWrite(t, src) => s.(pcs := s.pcs[t := WWait(Writing(src, |s.put|, 0, 0))])
    case StartRead(t, n) => s.(pcs := s.pcs[t := RWait(Reading(n, |s.taken|, [], 0))])
    case Acquire(t) =>
      s.(lock := Some(t), pcs := s.pcs[t := if s.pcs[t].WWait? then WLoop(s.pcs[t].w) else RCheck(s.pcs[t].r)])
    case WriteByte(t) =>
      var w := s.pcs[t].w;
      s.(ring := Put(s.ring, w.src[w.i]), put := s.put + [Moved(w.src[w.i], t)],
         pcs := s.pcs[t := WLoop(w.(i := w.i + 1, untold := w.untold + 1))])
    case WriteSleep(t) => s.(lock := None, pcs := Wake(s.pcs, true)[t := WSleep(s.pcs[t].w.(untold := 0))])
    case WriteAbort(t) => s.(lock := None, pcs := s.pcs[t := Idle])
    case WriteEnd(t) => s.(lock := None, pcs := Wake(s.pcs, true)[t := Idle])
    case ReadAbort(t) => s.(lock := None, pcs := s.pcs[t := Idle])
    case ReadBlock(t) => s.(lock := None, pcs := s.pcs[t := RSleep(s.pcs[t].r)])
    case ReadGo(t) => s.(pcs := s.pcs[t := RCopy(s.pcs[t].r)])
    case ReadByte(t, ok) =>
      var r, ch := s.pcs[t].r, Next(s.ring);
      s.(ring := Take(s.ring), taken := s.taken + [Moved(ch, t)],
         pcs := s.pcs[t := if ok then RCopy(r.(got := r.got + [ch], used := r.used
             + 1)) else RLeave(r.(used := r.used + 1))])
    case ReadEnd(t) => s.(lock := None, pcs := Wake(s.pcs, false)[t := Idle])
    case Killed(t) => s.(pcs := s.pcs[t := if s.pcs[t].RSleep? then RWait(s.pcs[t].r) else WWait(s.pcs[t].w)])
    case CloseRead => s.(readopen := false, pcs := Wake(s.pcs, false))
    case CloseWrite => s.(writeopen := false, pcs := Wake(s.pcs, true))
  }

  // --------------------------------------------------------------------------- first in, first out

  function Values(m: seq<Moved>): seq<Byte> {
    seq(|m|, (i: nat) requires i < |m| => m[i].val)
  }

  lemma ValuesSnoc(m: seq<Moved>, x: Moved)
    ensures Values(m + [x]) == Values(m) + [x.val]
  {
  }

  /** The bytes taken are the first of the bytes put in, and the ring holds the others. */
  ghost predicate Fifo(s: State) {
    RingOk(s.ring, Values(s.put), |s.taken|) && Values(s.taken) <= Values(s.put)
  }

  lemma FifoBound(s: State)
    requires Fifo(s)
    ensures |s.taken| <= |s.put|
  {
  }

  lemma FifoStep(s: State, e: Event)
    requires Fifo(s) && Enabled(s, e)
    ensures Fifo(Step(s, e))
  {
    hide RingOk, Full, Empty;
    match e {
      case WriteByte(t) =>
        var w := s.pcs[t].w;
        PutKeeps(s.ring, Values(s.put), |s.taken|, w.src[w.i]);
        ValuesSnoc(s.put, Moved(w.src[w.i], t));
      case ReadByte(t, ok) =>
        TakeKeeps(s.ring, Values(s.put), |s.taken|);
        ValuesSnoc(s.taken, Moved(Next(s.ring), t));
      case _ =>
    }
  }

  // ------------------------------------------------------------------------- what each call did

  /** The bytes thread t moved since `from`. */
  function Mine(m: seq<Moved>, from: nat, t: nat): (r: seq<Byte>)
    ensures |m| <= from ==> r == []
    decreases |m|
  {
    if |m| <= from then []
    else
      var rest := Mine(m[..|m| - 1], from, t);
      if m[|m| - 1].who == t then rest + [m[|m| - 1].val] else rest
  }

  lemma MineSnoc(m: seq<Moved>, x: Moved, from: nat, t: nat)
    requires from <= |m|
    ensures Mine(m + [x], from, t) == if x.who == t then Mine(m, from, t) + [x.val] else Mine(m, from, t)
  {
    assert (m + [x])[..|m|] == m;
  }

  /** A write in progress has put in exactly the first bytes of its source, in order. */
  ghost predicate WroteOk(s: State, t: nat)
    requires t < |s.pcs|
  {
    Writer(s.pcs[t]) ==>
      var w := s.pcs[t].w;
      w.from <= |s.put| && w.i <= |w.src| && w.untold <= w.i && Mine(s.put, w.from, t) == w.src[..w.i]
  }

  /** A read in progress has delivered what it took, but for the byte of a copyout that failed. */
  ghost predicate ReadOk(s: State, t: nat)
    requires t < |s.pcs|
  {
    Reader(s.pcs[t]) ==>
      var r := s.pcs[t].r; var mine := Mine(s.taken, r.from, t);
      && r.from <= |s.taken| && |r.got| <= r.n && r.used == |mine|
      && (!s.pcs[t].RLeave? ==> mine == r.got)
      && (s.pcs[t].RLeave? ==> mine != [] && mine[..|mine| - 1] == r.got)
      && (s.pcs[t].RWait? || s.pcs[t].RCheck? || s.pcs[t].RSleep? ==> r.used == 0)
  }

  lemma WroteStep(s: State, e: Event, t: nat)
    requires Enabled(s, e) && t < |s.pcs| && WroteOk(s, t)
    ensures |Step(s, e).pcs| == |s.pcs| && WroteOk(Step(s, e), t)
  {
    hide Full, Empty, Next, Put, Take, Mine;
    if e.WriteByte? {
      WriteByteStep(s, e.t, t);
    } else {
      StepLength(s, e);
    }
  }

  lemma WriteByteStep(s: State, u: nat, t: nat)
    requires Enabled(s, WriteByte(u)) && t < |s.pcs| && WroteOk(s, t)
    ensures WroteOk(Step(s, WriteByte(u)), t)
  {
    hide Full, Empty, Next, Put, Take, Mine;
    var w, pc := s.pcs[u].w, s.pcs[t];
    if Writer(pc) {
      MineSnoc(s.put, Moved(w.src[w.i], u), pc.w.from, t);
      assert t == u ==> w.src[..w.i + 1] == w.src[..w.i] + [w.src[w.i]];
    }
  }

  lemma ReadStep(s: State, e: Event, t: nat)
    requires Enabled(s, e) && t < |s.pcs| && ReadOk(s, t)
    ensures |Step(s, e).pcs| == |s.pcs| && ReadOk(Step(s, e), t)
  {
    hide Full, Empty, Next, Put, Take, Mine;
    if e.ReadByte? {
      ReadByteStep(s, e.t, e.ok, t);
    } else {
      StepLength(s, e);
    }
  }

  lemma ReadByteStep(s: State, u: nat, ok: bool, t: nat)
    requires Enabled(s, ReadByte(u, ok)) && t < |s.pcs| && ReadOk(s, t)
    ensures ReadOk(Step(s, ReadByte(u, ok)), t)
  {
    hide Full, Empty, Next, Put, Take, Mine, ReadOk;
    var ch := Next(s.ring);
    if t != u {
      ReadByteOther(s, Step(s, ReadByte(u, ok)), u, ch, t);
    } else {
      ReadByteOwn(s, Step(s, ReadByte(u, ok)), u, ok, ch);
    }
  }

  lemma ReadByteOther(s: State, n: State, u: nat, ch: Byte, t: nat)
    requires t < |s.pcs| == |n.pcs| && t != u && ReadOk(s, t) && n.pcs[t] == s.pcs[t]
    requires n.taken == s.taken + [Moved(ch, u)]
    ensures ReadOk(n, t)
  {
    hide Mine;
    if Reader(s.pcs[t]) {
      MineSnoc(s.taken, Moved(ch, u), s.pcs[t].r.from, t);
    }
  }

  lemma ReadByteOwn(s: State, n: State, u: nat, ok: bool, ch: Byte)
    requires u < |s.pcs| == |n.pcs| && ReadOk(s, u) && s.pcs[u].RCopy? && |s.pcs[u].r.got| < s.pcs[u].r.n
    requires n.taken == s.taken + [Moved(ch, u)]
    requires var r := s.pcs[u].r;
             n.pcs[u] == if ok then RCopy(r.(got := r.got + [ch], used := r.used + 1)) else RLeave(r.(used := r.used
                 + 1))
    ensures ReadOk(n, u)
  {
    hide Mine;
    var r := s.pcs[u].r;
    var mine := Mine(s.taken, r.from, u);
    MineSnoc(s.taken, Moved(ch, u), r.from, u);
    assert (mine + [ch])[..|mine|] == mine;
  }

  // ------------------------------------------------------------------------------- the lock

  ghost predicate LockOk(s: State, t: nat)
    requires t < |s.pcs|
  {
    && (Holding(s.pcs[t]) <==> s.lock == Some(t))
    && (Reader(s.pcs[t]) ==> s.readopen) && (Writer(s.pcs[t]) ==> s.writeopen)
  }

  lemma LockStep(s: State, e: Event, t: nat)
    requires Enabled(s, e) && t < |s.pcs| && forall u: nat :: u < |s.pcs| ==> LockOk(s, u)
    ensures |Step(s, e).pcs| == |s.pcs| && LockOk(Step(s, e), t)
  {
    hide Full, Empty, Next, Put, Take;
    assert LockOk(s, t);
    match e {
      case StartWrite(_, _) =>
      case StartRead(_, _) =>
      case Killed(_) =>
      case CloseRead =>
      case CloseWrite =>
      case _ =>
        var u := e.t;
        assert LockOk(s, u);
    }
  }

  // ----------------------------------------------------------------------- sleepers and wakeups

  /** A writer sleeps only while the pipe is full, or until the reader that made room lets go of the lock. */
  ghost predicate WriterSleepOk(s: State, t: nat)
    requires t < |s.pcs|
  {
    s.pcs[t].WSleep? ==>
      || (Full(s.ring) && s.readopen)
      || (s.lock.Some? && s.lock.value < |s.pcs| && (s.pcs[s.lock.value].RCopy? || s.pcs[s.lock.value].RLeave?)
          && s.pcs[s.lock.value].r.used > 0)
  }

  /** A reader sleeps only while the pipe is empty, or until the writer that filled it lets go of the lock. */
  ghost predicate ReaderSleepOk(s: State, t: nat)
    requires t < |s.pcs|
  {
    s.pcs[t].RSleep? ==>
      || (Empty(s.ring) && s.writeopen)
      || (s.lock.Some? && s.lock.value < |s.pcs| && s.pcs[s.lock.value].WLoop? && s.pcs[s.lock.value].w.untold > 0)
  }

  /** Bytes readers have not been told of are still in the pipe, and belong to the writer with the lock. */
  ghost predicate UntoldOk(s: State, t: nat)
    requires t < |s.pcs|
  {
    && (s.pcs[t].WLoop? ==> |s.put| >= |s.taken| + s.pcs[t].w.untold)
    && (s.pcs[t].WWait? || s.pcs[t].WSleep? ==> s.pcs[t].w.untold == 0)
  }

  lemma UntoldStep(s: State, e: Event, t: nat)
    requires Enabled(s, e) && t < |s.pcs| && LockOk(s, t) && UntoldOk(s, t) && |s.taken| <= |s.put|
    ensures |Step(s, e).pcs| == |s.pcs| && UntoldOk(Step(s, e), t)
  {
    hide Full, Empty, Next, Put, Take, Mine;
  }

  lemma WriterSleepStep(s: State, e: Event, t: nat)
    requires Enabled(s, e) && t < |s.pcs| && WriterSleepOk(s, t)
    requires forall u: nat :: u < |s.pcs| ==> LockOk(s, u) && ReadOk(s, u)
    ensures |Step(s, e).pcs| == |s.pcs| && WriterSleepOk(Step(s, e), t)
  {
    hide Full, Empty, Next, Put, Take, Mine;
    assert LockOk(s, t);
    if s.lock.Some? && s.lock.value < |s.pcs| {
      assert LockOk(s, s.lock.value) && ReadOk(s, s.lock.value);
    }
    StepLength(s, e);
    assert WriterSleepOk(Step(s, e), t);
  }

  /** A killed writer leaves without waking the readers, though it has put bytes in and one is asleep. */
  ghost predicate LeavesAsleep(s: State, e: Event) {
    Enabled(s, e) && e.WriteAbort? && s.pcs[e.t].w.untold > 0 && exists q: nat :: q < |s.pcs| && s.pcs[q].RSleep?
  }

  lemma ReaderSleepStep(s: State, e: Event, t: nat)
    requires Enabled(s, e) && t < |s.pcs| && ReaderSleepOk(s, t) && !LeavesAsleep(s, e)
    requires forall u: nat :: u < |s.pcs| ==> LockOk(s, u)
    ensures |Step(s, e).pcs| == |s.pcs| && ReaderSleepOk(Step(s, e), t)
  {
    hide Full, Empty, Next, Put, Take;
    assert LockOk(s, t);
    if s.lock.Some? && s.lock.value < |s.pcs| {
      assert LockOk(s, s.lock.value);
    }
  }

  // --------------------------------------------------------------------------------- every run

  ghost predicate Inv(s: State) {
    && Fifo(s)
    && forall t: nat :: t < |s.pcs| ==>
        LockOk(s, t) && WroteOk(s, t) && ReadOk(s, t) && UntoldOk(s, t) && WriterSleepOk(s, t)
  }

  ghost predicate ReadersOk(s: State) {
    forall t: nat :: t < |s.pcs| ==> ReaderSleepOk(s, t)
  }

  ghost predicate Start(s: State) {
    && |s.ring.data| == PIPESIZE && s.ring.nread == 0 && s.ring.nwrite == 0 && s.readopen && s.writeopen
    && s.lock.None? && s.put == [] && s.taken == []
    && forall t: nat :: t < |s.pcs| ==> s.pcs[t].Idle?
  }

  ghost predicate IsRun(ss: seq<State>, es: seq<Event>) {
    && |ss| == |es| + 1 && Start(ss[0])
    && forall i: nat :: i < |es| ==> Enabled(ss[i], es[i]) && ss[i + 1] == Step(ss[i], es[i])
  }

  lemma StepKeeps(s: State, e: Event)
    requires Inv(s) && Enabled(s, e)
    ensures Inv(Step(s, e))
  {
    hide LockOk, WroteOk, ReadOk, UntoldOk, WriterSleepOk, Fifo, Enabled, Step;
    FifoStep(s, e);
    FifoBound(s);
    forall t: nat | t < |s.pcs| ensures
        |Step(s, e).pcs| == |s.pcs| && LockOk(Step(s, e), t) && WroteOk(Step(s, e), t)
        && ReadOk(Step(s, e), t) && UntoldOk(Step(s, e), t) && WriterSleepOk(Step(s, e), t) {
      LockStep(s, e, t);
      WroteStep(s, e, t);
      ReadStep(s, e, t);
      UntoldStep(s, e, t);
      WriterSleepStep(s, e, t);
    }
    StepLength(s, e);
  }

  lemma StepLength(s: State, e: Event)
    requires Enabled(s, e)
    ensures |Step(s, e).pcs| == |s.pcs|
  {
  }

  /** A step lets a reader sleep on with bytes in the pipe exactly when it is such an abort. */
  lemma ReadersStep(s: State, e: Event)
    requires Inv(s) && ReadersOk(s) && Enabled(s, e)
    ensures ReadersOk(Step(s, e)) <==> !LeavesAsleep(s, e)
  {
    StepLength(s, e);
    if LeavesAsleep(s, e) {
      hide Full, Put, Take, Next, Mine;
      var q: nat :| q < |s.pcs| && s.pcs[q].RSleep?;
      assert UntoldOk(s, e.t);
      TestsAreRight(s.ring, Values(s.put), |s.taken|);
      assert !ReaderSleepOk(Step(s, e), q);
    } else {
      hide LockOk, ReaderSleepOk, Enabled, Step, LeavesAsleep, WroteOk, ReadOk, UntoldOk, WriterSleepOk, Fifo;
      forall t: nat | t < |s.pcs| ensures ReaderSleepOk(Step(s, e), t) {
        ReaderSleepStep(s, e, t);
      }
    }
  }

  lemma {:induction false} RunsKeep(ss: seq<State>, es: seq<Event>, i: nat)
    requires IsRun(ss, es) && i < |ss|
    ensures Inv(ss[i])
    ensures (forall j: nat :: j < i ==> !LeavesAsleep(ss[j], es[j])) ==> ReadersOk(ss[i])
  {
    if i > 0 {
      hide Inv, Step, Enabled, ReadersOk, Start, LeavesAsleep;
      RunsKeep(ss, es, i - 1);
      var j := i - 1;
      StepKeeps(ss[j], es[j]);
      assert ss[j + 1] == Step(ss[j], es[j]);
      if forall j: nat :: j < i ==> !LeavesAsleep(ss[j], es[j]) {
        ReadersStep(ss[j], es[j]);
      }
    }
  }

  /** In every run the bytes taken are a prefix of the bytes put in, and at most PIPESIZE wait. */
  lemma RunsAreFifo(ss: seq<State>, es: seq<Event>, i: nat)
    requires IsRun(ss, es) && i < |ss|
    ensures Values(ss[i].taken) <= Values(ss[i].put)
    ensures Waiting(ss[i].ring) == |ss[i].put| - |ss[i].taken| <= PIPESIZE
  {
    RunsKeep(ss, es, i);
    TestsAreRight(ss[i].ring, Values(ss[i].put), |ss[i].taken|);
  }

  /** Once both ends are closed no thread is in a call, so the page can be freed. */
  lemma ClosedIsIdle(ss: seq<State>, es: seq<Event>, i: nat, t: nat)
    requires IsRun(ss, es) && i < |ss| && t < |ss[i].pcs|
    ensures !ss[i].readopen && !ss[i].writeopen ==> ss[i].pcs[t].Idle? && ss[i].lock != Some(t)
  {
    RunsKeep(ss, es, i);
    assert LockOk(ss[i], t);
  }

  /** With the lock free, a sleeping writer has no room to write in. */
  lemma WritersAreWoken(ss: seq<State>, es: seq<Event>, i: nat, t: nat)
    requires IsRun(ss, es) && i < |ss| && t < |ss[i].pcs| && ss[i].lock.None? && ss[i].pcs[t].WSleep?
    ensures |ss[i].put| == |ss[i].taken| + PIPESIZE && ss[i].readopen
  {
    RunsKeep(ss, es, i);
    assert WriterSleepOk(ss[i], t);
    TestsAreRight(ss[i].ring, Values(ss[i].put), |ss[i].taken|);
  }

  /** The run that goes one step further. */
  function Then(run: (seq<State>, seq<Event>), e: Event, s: State): (seq<State>, seq<Event>) {
    (run.0 + [s], run.1 + [e])
  }

  lemma ThenIsRun(run: (seq<State>, seq<Event>), e: Event, s: State)
    requires IsRun(run.0, run.1) && Enabled(run.0[|run.1|], e) && s == Step(run.0[|run.1|], e)
    ensures IsRun(Then(run, e, s).0, Then(run, e, s).1)
  {
    hide Enabled, Step, Start;
    var ss, es := run.0 + [s], run.1 + [e];
    forall i: nat | i < |es| ensures Enabled(ss[i], es[i]) && ss[i + 1] == Step(ss[i], es[i]) {
      if i < |run.1| {
        assert run.0[i + 1] == Step(run.0[i], run.1[i]);
      }
    }
  }

  /** The readers are not always told: one asleep, a byte put in, the writer killed before its wakeup. */
  lemma ReaderLeftAsleep(zeros: seq<Byte>) returns (ss: seq<State>, es: seq<Event>)
    requires |zeros| == PIPESIZE
    ensures IsRun(ss, es) && !ReadersOk(ss[|es|])
    ensures ss[|es|].lock.None? && |ss[|es|].put| == 1 && ss[|es|].taken == []
    ensures |ss[|es|].pcs| == 2 && ss[|es|].pcs[0].RSleep?
  {
    var r, w := Reading(1, 0, [], 0), Writing([7, 8], 0, 0, 0);
    var ring := Ring(zeros, 0, 0);
    var s0 := State(ring, true, true, None, [Idle, Idle], [], []);
    var s1 := s0.(pcs := [RWait(r), Idle]);
    var s2 := s0.(lock := Some(0), pcs := [RCheck(r), Idle]);
    var s3 := s0.(pcs := [RSleep(r), Idle]);
    var s4 := s0.(pcs := [RSleep(r), WWait(w)]);
    var s5 := s0.(lock := Some(1), pcs := [RSleep(r), WLoop(w)]);
    var s6 := State(Put(ring, 7), true, true, Some(1), [RSleep(r), WLoop(w.(i := 1, untold := 1))], [Moved(7, 1)], []);
    var s7 := s6.(lock := None, pcs := [RSleep(r), Idle]);
    assert IsRun([s0], []);
    var run := ([s0], []);
    hide IsRun, Put, ReadersOk;
    run := Further(run, StartRead(0, 1), s0, s1);
    run := Further(run, Acquire(0), s1, s2);
    run := Further(run, ReadBlock(0), s2, s3);
    run := Further(run, StartWrite(1, [7, 8]), s3, s4);
    run := Further(run, Acquire(1), s4, s5);
    run := Further(run, WriteByte(1), s5, s6);
    run := Further(run, WriteAbort(1), s6, s7);
    ss, es := run.0, run.1;
    Asleep(s7, ring);
  }

  /** A pipe with one byte in it, that thread 1 has put there. */
  function WithOneByte(ring: Ring): State
    requires |ring.data| == PIPESIZE
  {
    State(Put(ring, 7), true, true, None, [Idle, Idle], [Moved(7, 1)], [])
  }

  lemma OneByteIn(ring: Ring) returns (run: (seq<State>, seq<Event>))
    requires |ring.data| == PIPESIZE && ring.nread == ring.nwrite == 0
    ensures |run.0| == |run.1| + 1 && IsRun(run.0, run.1) && run.0[|run.1|] == WithOneByte(ring)
  {
    var w := Writing([7], 0, 0, 0);
    var s0 := State(ring, true, true, None, [Idle, Idle], [], []);
    var s1 := s0.(pcs := [Idle, WWait(w)]);
    var s2 := s0.(lock := Some(1), pcs := [Idle, WLoop(w)]);
    var s3 := WithOneByte(ring).(lock := Some(1), pcs := [Idle, WLoop(w.(i := 1, untold := 1))]);
    assert IsRun([s0], []);
    run := ([s0], []);
    hide IsRun, Put;
    run := Further(run, StartWrite(1, [7]), s0, s1);
    run := Further(run, Acquire(1), s1, s2);
    run := Further(run, WriteByte(1), s2, s3);
    run := Further(run, WriteEnd(1), s3, WithOneByte(ring));
  }

  /** A byte is lost: it is taken out of the pipe, and the copy to the user fails. */
  lemma ByteLost(zeros: seq<Byte>) returns (ss: seq<State>, es: seq<Event>)
    requires |zeros| == PIPESIZE
    ensures IsRun(ss, es) && |es| > 0 && es[|es| - 1] == ReadByte(0, false)
    ensures var s := ss[|es|];
            && Values(s.put) == [7] == Values(s.taken) && Waiting(s.ring) == 0
            && |s.pcs| == 2 && s.pcs[0].RLeave? && s.pcs[0].r.got == []
  {
    var r, ring := Reading(1, 0, [], 0), Ring(zeros, 0, 0);
    var run := OneByteIn(ring);
    OneByte(ring);
    var s4 := WithOneByte(ring);
    var s5 := s4.(pcs := [RWait(r), Idle]);
    var s6 := s4.(lock := Some(0), pcs := [RCheck(r), Idle]);
    var s7 := s4.(lock := Some(0), pcs := [RCopy(r), Idle]);
    var s8 := s7.(ring := Take(s4.ring), pcs := [RLeave(r.(used := 1)), Idle], taken := [Moved(7, 0)]);
    hide IsRun, Put, Take, Next, Empty;
    run := Further(run, StartRead(0, 1), s4, s5);
    run := Further(run, Acquire(0), s5, s6);
    run := Further(run, ReadGo(0), s6, s7);
    run := Further(run, ReadByte(0, false), s7, s8);
    ss, es := run.0, run.1;
    RunsAreFifo(ss, es, |es|);
    assert Values([Moved(7, 1)]) == [7] == Values([Moved(7, 0)]);
  }

  lemma OneByte(ring: Ring)
    requires |ring.data| == PIPESIZE && ring.nread == ring.nwrite == 0
    ensures |Put(ring, 7).data| == PIPESIZE && !Empty(Put(ring, 7)) && Next(Put(ring, 7)) == 7 && !Full(ring)
  {
  }

  lemma Further(run: (seq<State>, seq<Event>), e: Event, s: State, t: State) returns (r: (seq<State>, seq<Event>))
    requires |run.0| == |run.1| + 1 && run.0[|run.1|] == s && IsRun(run.0, run.1)
    requires Enabled(s, e) && t == Step(s, e)
    ensures |r.0| == |r.1| + 1 && r.0[|r.1|] == t && IsRun(r.0, r.1) && r.1 == run.1 + [e]
  {
    ThenIsRun(run, e, t);
    r := Then(run, e, t);
  }

  lemma Asleep(s: State, ring: Ring)
    requires |ring.data| == PIPESIZE && ring.nread == ring.nwrite == 0 && s.ring == Put(ring, 7)
    requires s.lock.None? && |s.pcs| == 2 && s.pcs[0].RSleep?
    ensures !ReadersOk(s)
  {
    assert !ReaderSleepOk(s, 0);
  }
}
