/**
 Every interleaving of file-system operations over the log and the buffer cache, with crashes
 (kernel/log.c, kernel/bio.c).

 One event is one critical section of the source: an admission by begin_op, a buffer brought in
 or recycled by bget, the bread / change / log_write / brelse idiom under the buffer's lock, an
 end_op, one block write of a commit, or a power loss followed by a reboot whose recovery may
 itself be cut short any number of times. Each run is shown to refine one atomic disk.
 */
module LogRuns {
  import opened LogDisk
  import opened Log

  /** An outstanding operation and the distinct blocks it has logged so far. */
  datatype Op = Op(id: nat, logged: set<int>)

  /** `Committing` is end_op's commit() with `done` block writes already issued. */
  datatype Phase = Running | Committing(base: Disk, bs: seq<int>, cs: seq<Block>, done: nat)

  datatype State = State(disk: Disk, cache: map<int, Block>, pins: multiset<int>, lh: seq<int>,
                         ops: seq<Op>, phase: Phase)

  datatype Event =
    | Begin(id: nat)
    | Load(b: nat)
    | Evict(b: nat)
    | Update(i: nat, b: nat, data: Block)
    | End(i: nat)
    | DiskWrite
    | CommitDone
    | Crash(ks: seq<nat>)

  ghost function Plan(l: Layout, p: Phase): seq<Write>
    requires p.Committing? && l.Fits(|p.base|) && HomeAddresses(l, |p.base|, p.bs) && |p.bs| == |p.cs|
  {
    CommitWrites(l, p.base[l.start], p.bs, p.cs)
  }

  ghost predicate PhaseOk(l: Layout, len: nat, p: Phase) {
    p.Committing? ==>
      && |p.base| == len && l.Fits(len)
      && HomeAddresses(l, len, p.bs) && |p.bs| == |p.cs|
      && p.done <= |Plan(l, p)|
  }

  /** What the source checks before taking the step, and what the step needs of its caller. */
  ghost predicate Enabled(l: Layout, s: State, e: Event) {
    match e
    case Begin(id) =>
      && s.phase.Running?
      && |s.lh| + (|s.ops| + 1) * MAXOPBLOCKS <= LOGSIZE
      && forall i :: 0 <= i < |s.ops| ==> s.ops[i].id != id
    case Load(b) => b < |s.disk|
    case Evict(b) => b in s.cache && b !in s.pins
    case Update(i, b, data) =>
      && i < |s.ops| && b < |s.disk| && !l.InLog(b)
      && |s.ops[i].logged + {b as int}| <= MAXOPBLOCKS       // the caller keeps to its reservation
      && |s.lh| < LOGSIZE && |s.lh| < l.size - 1             // log_write does not panic
    case End(i) => i < |s.ops|
    case DiskWrite => PhaseOk(l, |s.disk|, s.phase) && s.phase.Committing? && s.phase.done < |Plan(l, s.phase)|
    case CommitDone => PhaseOk(l, |s.disk|, s.phase) && s.phase.Committing? && s.phase.done == |Plan(l, s.phase)|
    case Crash(ks) => l.Fits(|s.disk|) && HeadOk(l, |s.disk|, s.disk[l.start])
  }

  function Without<T>(s: seq<T>, i: nat): seq<T>
    requires i < |s|
  {
    s[..i] + s[i + 1..]
  }

  /** The caller changes a buffer it holds and log_write records and pins it, once per transaction. */
  ghost function Updated(s: State, i: nat, b: nat, data: Block): State
    requires i < |s.ops|
  {
    var op := s.ops[i].(logged := s.ops[i].logged + {b as int});
    var t := s.(cache := s.cache[b := data], ops := s.ops[i := op]);
    if b in s.lh then t else t.(lh := s.lh + [b], pins := s.pins + multiset{b as int})
  }

  ghost function Step(l: Layout, s: State, e: Event): State
    requires Enabled(l, s, e)
  {
    match e
    case Begin(id) => s.(ops := s.ops + [Op(id, {})])
    case Load(b) => s.(cache := s.cache[b := Cached(s.disk, s.cache, b)])
    case Evict(b) => s.(cache := s.cache - {b as int})
    case Update(i, b, data) => Updated(s, i, b, data)
    case End(i) =>
      var t := s.(ops := Without(s.ops, i));
      if |t.ops| > 0 then t else
        t.(phase := Committing(s.disk, s.lh, Pick(Through(s.disk, s.cache), s.lh), 0))
    case DiskWrite =>
      var w := Plan(l, s.phase)[s.phase.done];
      var m := |s.phase.bs|;
      State(Put(s.disk, w),
            s.cache[w.block := w.data],
            if m < s.phase.done <= 2 * m then s.pins - multiset{w.block as int} else s.pins,
            if s.phase.done == 2 * m + 1 then [] else s.lh,
            s.ops,
            s.phase.(done := s.phase.done + 1))
    case CommitDone => s.(phase := Running)
    case Crash(ks) =>
      State(Recover(l, CrashingRecovery(l, s.disk, ks)), map[], multiset{}, [], [], Running)
  }

  // ---------------------------------------------------------------- the atomic disk

  datatype Entry = Entry(id: nat, write: Write)

  /**
   The specification: a disk that operations update at once and that becomes durable in whole
   operations. `history` lists the updates since boot image `initial` that have not been lost;
   the first `kept` of them are durable.
   */
  datatype Atomic = Atomic(initial: Disk, history: seq<Entry>, kept: nat, live: seq<nat>)

  function Writes(h: seq<Entry>): seq<Write> {
    seq(|h|, i requires 0 <= i < |h| => h[i].write)
  }

  function Current(a: Atomic): Disk {
    Apply(a.initial, Writes(a.history))
  }

  function Durable(a: Atomic): Disk
    requires a.kept <= |a.history|
  {
    Apply(a.initial, Writes(a.history[..a.kept]))
  }

  /** No operation is half durable, and no live operation is durable at all. */
  ghost predicate WholeOperations(a: Atomic) {
    && a.kept <= |a.history|
    && (forall i, j :: 0 <= i < a.kept <= j < |a.history| ==> a.history[i].id != a.history[j].id)
    && (forall i, k :: 0 <= i < a.kept && 0 <= k < |a.live| ==> a.history[i].id != a.live[k])
  }

  /** The header write is where a commit takes effect. */
  ghost predicate CommitPoint(s: State, e: Event) {
    e.DiskWrite? && s.phase.Committing? && s.phase.done == |s.phase.bs|
  }

  /** What the atomic disk itself demands: above all, no commit while an operation is live. */
  ghost predicate AtomicEnabled(a: Atomic, s: State, e: Event) {
    && a.kept <= |a.history|
    && (e.Update? || e.End? ==> e.i < |a.live|)
    && (CommitPoint(s, e) ==> a.live == [])
  }

  /** Each begin_op is given a name of its own. */
  ghost predicate NewName(a: Atomic, e: Event) {
    e.Begin? ==> forall i :: 0 <= i < |a.history| ==> a.history[i].id != e.id
  }

  ghost function AtomicStep(a: Atomic, s: State, e: Event): Atomic
    requires AtomicEnabled(a, s, e)
  {
    match e
    case Begin(id) => a.(live := a.live + [id])
    case Update(i, b, data) => a.(history := a.history + [Entry(a.live[i], Write(b, data))])
    case End(i) => a.(live := Without(a.live, i))
    case DiskWrite => if CommitPoint(s, e) then a.(kept := |a.history|) else a
    case Crash(ks) => a.(history := a.history[..a.kept], live := [])
    case _ => a
  }

  lemma AtomicKeepsWhole(a: Atomic, s: State, e: Event)
    requires WholeOperations(a) && AtomicEnabled(a, s, e) && NewName(a, e)
    ensures WholeOperations(AtomicStep(a, s, e))
  {
  }

  // ------------------------------------------------------------------ the refinement

  /** Pins left when `done` writes of a commit of `bs` have been issued. */
  function PinsLeft(bs: seq<int>, done: nat): multiset<int> {
    var m := |bs|;
    if done <= m then multiset(bs) else if done <= 2 * m then multiset(bs[done - m - 1..]) else multiset{}
  }

  /** Where a commit in progress has got to on the disk and in memory. */
  ghost predicate CommitProgress(l: Layout, s: State) {
    && s.phase.Committing? && PhaseOk(l, |s.disk|, s.phase)
    && s.ops == []
    && s.phase.base[l.start][0] == 0
    && s.disk == Apply(s.phase.base, Plan(l, s.phase)[..s.phase.done])
    && s.pins == PinsLeft(s.phase.bs, s.phase.done)
    && s.lh == (if s.phase.done == |Plan(l, s.phase)| then [] else s.phase.bs)
  }

  /** What a commit in progress means for the atomic disk. */
  ghost predicate CommitMeaning(l: Layout, p: Phase, a: Atomic)
    requires p.Committing? && |p.bs| == |p.cs| && a.kept <= |a.history|
  {
    && Installed(l, p.base, p.bs, p.cs, Current(a))
    && (p.done <= |p.bs| ==> SameHome(l, p.base, Durable(a)))
    && (p.done > |p.bs| ==> a.kept == |a.history|)
  }

  ghost predicate RunningInv(l: Layout, s: State, a: Atomic)
    requires l.Fits(|s.disk|) && a.kept <= |a.history|
  {
    && s.disk[l.start][0] == 0
    && s.pins == multiset(s.lh)
    && SameHome(l, s.disk, Durable(a))
  }

  ghost predicate Refines(l: Layout, s: State, a: Atomic) {
    && l.Fits(|s.disk|)
    && HomeAddresses(l, |s.disk|, s.lh)
    && Coherent(s.disk, s.cache, s.pins)
    && WholeOperations(a)
    && |s.ops| == |a.live| && (forall i :: 0 <= i < |s.ops| ==> s.ops[i].id == a.live[i])
    && SameHome(l, Through(s.disk, s.cache), Current(a))
    && (if s.phase.Committing? then CommitProgress(l, s) && CommitMeaning(l, s.phase, a) else RunningInv(l, s, a))
  }

  lemma WritesSnoc(d: Disk, h: seq<Entry>, x: Entry)
    ensures Apply(d, Writes(h + [x])) == Put(Apply(d, Writes(h)), x.write)
  {
    assert Writes(h + [x])[..|h|] == Writes(h);
  }

  lemma LoadKeeps(disk: Disk, cache: map<int, Block>, pins: multiset<int>, b: nat)
    requires Coherent(disk, cache, pins) && b < |disk|
    ensures var c := cache[b := Cached(disk, cache, b)];
            Coherent(disk, c, pins) && Through(disk, c) == Through(disk, cache)
  {
  }

  lemma EvictKeeps(disk: Disk, cache: map<int, Block>, pins: multiset<int>, b: nat)
    requires Coherent(disk, cache, pins) && b in cache && b !in pins
    ensures Coherent(disk, cache - {b as int}, pins) && Through(disk, cache - {b as int}) == Through(disk, cache)
  {
  }

  lemma CacheSteps(l: Layout, s: State, a: Atomic, e: Event)
    requires Refines(l, s, a) && Enabled(l, s, e) && (e.Load? || e.Evict?)
    ensures Refines(l, Step(l, s, e), a)
  {
    if e.Load? {
      LoadKeeps(s.disk, s.cache, s.pins, e.b);
    } else {
      EvictKeeps(s.disk, s.cache, s.pins, e.b);
    }
  }

  lemma BeginStep(l: Layout, s: State, a: Atomic, e: Event)
    requires Refines(l, s, a) && Enabled(l, s, e) && e.Begin? && NewName(a, e)
    ensures AtomicEnabled(a, s, e) && Refines(l, Step(l, s, e), AtomicStep(a, s, e))
  {
    AtomicKeepsWhole(a, s, e);
  }

  lemma UpdateKeeps(disk: Disk, cache: map<int, Block>, bs: seq<int>, b: nat, data: Block)
    requires Coherent(disk, cache, multiset(bs)) && b < |disk|
    ensures Coherent(disk, cache[b := data], if b in bs then multiset(bs) else multiset(bs) + multiset{b as int})
  {
    assert b in bs ==> b as int in multiset(bs);
  }

  lemma SamePut(l: Layout, v: Disk, c: Disk, w: Write)
    requires SameHome(l, v, c)
    ensures SameHome(l, Put(v, w), Put(c, w))
  {
  }

  /** No commit is under way while an operation is outstanding. */
  lemma LiveMeansRunning(l: Layout, s: State, a: Atomic)
    requires Refines(l, s, a) && s.ops != []
    ensures s.phase.Running?
  {
    hide Coherent, Through, SameHome, WholeOperations, HomeAddresses, Current, Durable, CommitMeaning, PhaseOk;
  }

  /** Logging an update moves the current contents and not the durable ones. */
  lemma UpdateAtomic(a: Atomic, x: Entry)
    requires a.kept <= |a.history|
    ensures var b := a.(history := a.history + [x]);
            Current(b) == Put(Current(a), x.write) && Durable(b) == Durable(a)
  {
    hide Writes, Apply;
    WritesSnoc(a.initial, a.history, x);
    assert (a.history + [x])[..a.kept] == a.history[..a.kept];
  }

  lemma UpdatedRefines(l: Layout, s: State, a: Atomic, i: nat, w: Write)
    requires Refines(l, s, a) && i < |s.ops| && w.block < |s.disk| && !l.InLog(w.block)
    requires |s.lh| < LOGSIZE && |s.lh| < l.size - 1
    requires a.kept <= |a.history| && WholeOperations(a.(history := a.history + [Entry(a.live[i], w)]))
    ensures Refines(l, Updated(s, i, w.block, w.data), a.(history := a.history + [Entry(a.live[i], w)]))
  {
    hide Coherent, Through, SameHome, WholeOperations, HomeAddresses, Current, Durable, Put, CommitProgress,
      CommitMeaning;
    LiveMeansRunning(l, s, a);
    UpdateAtomic(a, Entry(a.live[i], w));
    ThroughPut(s.disk, s.cache, w);
    SamePut(l, Through(s.disk, s.cache), Current(a), w);
    UpdateKeeps(s.disk, s.cache, s.lh, w.block, w.data);
    if w.block !in s.lh {
      HomeFacts(l, |s.disk|, s.lh);
      LogAppends(l, |s.disk|, s.lh, w.block);
    }
  }

  lemma UpdateStep(l: Layout, s: State, a: Atomic, e: Event)
    requires Refines(l, s, a) && Enabled(l, s, e) && e.Update?
    ensures AtomicEnabled(a, s, e) && Refines(l, Step(l, s, e), AtomicStep(a, s, e))
  {
    hide Refines, WholeOperations, Updated;
    RefinesBounds(l, s, a);
    AtomicKeepsWhole(a, s, e);
    UpdatedRefines(l, s, a, e.i, Write(e.b, e.data));
  }

  lemma RefinesBounds(l: Layout, s: State, a: Atomic)
    requires Refines(l, s, a)
    ensures a.kept <= |a.history| && |s.ops| == |a.live| && WholeOperations(a)
  {
  }

  lemma ThroughPut(disk: Disk, cache: map<int, Block>, w: Write)
    requires w.block < |disk|
    ensures Through(disk, cache[w.block := w.data]) == Put(Through(disk, cache), w)
  {
    ThroughUpdate(disk, cache, w.block, w.data);
  }

  /** When the last operation ends, the logged blocks are all that separates the disk from the current contents. */
  lemma CommitOpens(l: Layout, disk: Disk, cache: map<int, Block>, bs: seq<int>, cur: Disk)
    requires HomeAddresses(l, |disk|, bs) && Coherent(disk, cache, multiset(bs))
    requires SameHome(l, Through(disk, cache), cur)
    ensures Installed(l, disk, bs, Pick(Through(disk, cache), bs), cur)
  {
    var v := Through(disk, cache);
    forall c | 0 <= c < |disk| && !l.InLog(c) && c !in bs ensures v[c] == disk[c] {
      assert c !in multiset(bs);
    }
  }

  lemma EndStep(l: Layout, s: State, a: Atomic, e: Event)
    requires Refines(l, s, a) && Enabled(l, s, e) && e.End?
    ensures AtomicEnabled(a, s, e) && Refines(l, Step(l, s, e), AtomicStep(a, s, e))
  {
    hide Coherent, Through, SameHome, Installed, WholeOperations, HomeAddresses, Apply, Writes, CommitWrites;
    WholeBounds(a);
    var t, b := Step(l, s, e), AtomicStep(a, s, e);
    AtomicKeepsWhole(a, s, e);
    HomeFacts(l, |s.disk|, s.lh);
    if |t.ops| == 0 {
      CommitOpens(l, s.disk, s.cache, s.lh, Current(a));
      assert Plan(l, t.phase)[..0] == [];
      assert Apply(s.disk, []) == s.disk by { ApplyNothing(s.disk); }
    }
  }

  lemma ApplyNothing(d: Disk)
    ensures Apply(d, []) == d
  {
  }

  lemma WholeBounds(a: Atomic)
    requires WholeOperations(a)
    ensures a.kept <= |a.history|
  {
  }

  /** The t-th block write of a commit: log copies, header, home blocks, cleared header. */
  lemma PlanAt(l: Layout, p: Phase, t: nat)
    requires p.Committing? && PhaseOk(l, |p.base|, p) && t < |Plan(l, p)|
    ensures |Plan(l, p)| == 2 * |p.bs| + 2
    ensures var w := Plan(l, p)[t];
            && w.block < |p.base|
            && (|p.bs| < t <= 2 * |p.bs| ==> w == Write(p.bs[t - |p.bs| - 1], p.cs[t - |p.bs| - 1]))
            && (!(|p.bs| < t <= 2 * |p.bs|) ==> l.InLog(w.block))
  {
  }

  /** Writing out what bread already returns, or a log block, changes no home block as bread returns it. */
  lemma WriteOutKeeps(l: Layout, v: Disk, c: Disk, w: Write)
    requires SameHome(l, v, c) && w.block < |v|
    requires l.InLog(w.block) || c[w.block] == w.data
    ensures SameHome(l, Put(v, w), c)
  {
  }

  lemma WriteOutCoherent(disk: Disk, cache: map<int, Block>, pins: multiset<int>, w: Write, unpin: bool)
    requires Coherent(disk, cache, pins) && w.block < |disk|
    ensures Coherent(Put(disk, w), cache[w.block := w.data],
                     if unpin then pins - multiset{w.block as int} else pins)
  {
  }

  lemma PinsStep(bs: seq<int>, done: nat)
    ensures PinsLeft(bs, done + 1) ==
            if |bs| < done <= 2 * |bs| then PinsLeft(bs, done) - multiset{bs[done - |bs| - 1]} else PinsLeft(bs, done)
  {
    var m := |bs|;
    if done == m {
      assert bs[0..] == bs;
    } else if m < done <= 2 * m {
      MultisetTail(bs, done - m - 1);
    }
  }

  lemma DiskWriteProgress(l: Layout, s: State)
    requires CommitProgress(l, s) && Enabled(l, s, DiskWrite)
    ensures CommitProgress(l, Step(l, s, DiskWrite))
  {
    hide Apply, CommitWrites, PinsLeft, HomeAddresses;
    var t, p := Step(l, s, DiskWrite), s.phase;
    var ws, done := Plan(l, p), p.done;
    assert |ws| == 2 * |p.bs| + 2 by { PlanAt(l, p, done); }
    assert t.phase == p.(done := done + 1);
    assert Plan(l, t.phase) == ws;
    assert t.disk == Apply(p.base, ws[..done + 1]) by { ApplySnoc(p.base, ws, done); }
    assert |t.disk| == |s.disk|;
    assert t.pins == PinsLeft(p.bs, done + 1) by {
      PlanAt(l, p, done);
      PinsStep(p.bs, done);
    }
  }

  lemma DiskWriteViews(l: Layout, s: State, c: Disk)
    requires CommitProgress(l, s) && Enabled(l, s, DiskWrite)
    requires Coherent(s.disk, s.cache, s.pins) && SameHome(l, Through(s.disk, s.cache), c)
    requires Installed(l, s.phase.base, s.phase.bs, s.phase.cs, c)
    ensures var t := Step(l, s, DiskWrite);
            Coherent(t.disk, t.cache, t.pins) && SameHome(l, Through(t.disk, t.cache), c)
  {
    var m, done := |s.phase.bs|, s.phase.done;
    var w := Plan(l, s.phase)[done];
    PlanAt(l, s.phase, done);
    WriteOutCoherent(s.disk, s.cache, s.pins, w, m < done <= 2 * m);
    ThroughWrite(s.disk, s.cache, w);
    WriteOutKeeps(l, Through(s.disk, s.cache), c, w);
  }

  lemma DiskWriteStep(l: Layout, s: State, a: Atomic)
    requires Refines(l, s, a) && Enabled(l, s, DiskWrite)
    ensures AtomicEnabled(a, s, DiskWrite) && Refines(l, Step(l, s, DiskWrite), AtomicStep(a, s, DiskWrite))
  {
    var t, b := Step(l, s, DiskWrite), AtomicStep(a, s, DiskWrite);
    AtomicKeepsWhole(a, s, DiskWrite);
    assert Current(b) == Current(a);
    DiskWriteProgress(l, s);
    DiskWriteViews(l, s, Current(a));
    assert HomeAddresses(l, |t.disk|, t.lh);
    assert CommitMeaning(l, t.phase, b);
  }

  lemma ThroughWrite(disk: Disk, cache: map<int, Block>, w: Write)
    requires w.block < |disk|
    ensures Through(Put(disk, w), cache[w.block := w.data]) == Put(Through(disk, cache), w)
  {
  }

  lemma CommitDoneStep(l: Layout, s: State, a: Atomic, e: Event)
    requires Refines(l, s, a) && Enabled(l, s, e) && e.CommitDone?
    ensures Refines(l, Step(l, s, e), a)
  {
    var Committing(base, bs, cs, done) := s.phase;
    assert Plan(l, s.phase)[..done] == Plan(l, s.phase);
    if |bs| > 0 {
      CommitComplete(l, base, bs, cs);
      InstalledTwice(l, base, base, bs, cs, Current(a), s.disk);
      assert a.history[..a.kept] == a.history;
    }
  }

  /** After a crash at any point of a run, a completed recovery leaves the durable disk. */
  lemma CrashRecovers(l: Layout, s: State, a: Atomic, ks: seq<nat>)
    requires Refines(l, s, a)
    ensures HeadOk(l, |s.disk|, s.disk[l.start])
    ensures var r := Recover(l, CrashingRecovery(l, s.disk, ks));
            r[l.start][0] == 0 && SameHome(l, r, Durable(a))
  {
    if s.phase.Running? {
      RecoverEmpty(l, s.disk);
      RecoveryIsIdempotent(l, s.disk, ks);
      RecoverInstalls(l, CrashingRecovery(l, s.disk, ks));
    } else {
      CrashInCommit(l, s, a, ks);
    }
  }

  lemma CrashInCommit(l: Layout, s: State, a: Atomic, ks: seq<nat>)
    requires Refines(l, s, a) && s.phase.Committing?
    ensures HeadOk(l, |s.disk|, s.disk[l.start])
    ensures var r := Recover(l, CrashingRecovery(l, s.disk, ks));
            r[l.start][0] == 0 && SameHome(l, r, Durable(a))
  {
    var Committing(base, bs, cs, done) := s.phase;
    CrashAtomicity(l, base, bs, cs, done, ks);
    assert CutCommit(l, base, bs, cs, done) == s.disk;
    if done > |bs| {
      InstalledTwice(l, base, base, bs, cs, Current(a), Recover(l, CrashingRecovery(l, s.disk, ks)));
      assert a.history[..a.kept] == a.history;
    }
  }

  lemma FreshBoot(l: Layout, r: Disk, a: Atomic)
    requires l.Fits(|r|) && r[l.start][0] == 0 && WholeOperations(a) && a.live == []
    requires a.kept == |a.history| && SameHome(l, r, Durable(a))
    ensures Refines(l, State(r, map[], multiset{}, [], [], Running), a)
  {
    assert Through(r, map[]) == r;
    assert a.history[..a.kept] == a.history;
  }

  lemma CrashStep(l: Layout, s: State, a: Atomic, ks: seq<nat>)
    requires Refines(l, s, a)
    ensures Enabled(l, s, Crash(ks)) && AtomicEnabled(a, s, Crash(ks))
    ensures Refines(l, Step(l, s, Crash(ks)), AtomicStep(a, s, Crash(ks)))
  {
    CrashRecovers(l, s, a, ks);
    AtomicKeepsWhole(a, s, Crash(ks));
    assert a.history[..a.kept][..a.kept] == a.history[..a.kept];
    FreshBoot(l, Recover(l, CrashingRecovery(l, s.disk, ks)), AtomicStep(a, s, Crash(ks)));
  }

  lemma StepRefines(l: Layout, s: State, a: Atomic, e: Event)
    requires Refines(l, s, a) && Enabled(l, s, e) && NewName(a, e)
    ensures AtomicEnabled(a, s, e) && Refines(l, Step(l, s, e), AtomicStep(a, s, e))
  {
    match e
    case Begin(_) => BeginStep(l, s, a, e);
    case Load(_) => CacheSteps(l, s, a, e);
    case Evict(_) => CacheSteps(l, s, a, e);
    case Update(_, _, _) => UpdateStep(l, s, a, e);
    case End(_) => EndStep(l, s, a, e);
    case DiskWrite => DiskWriteStep(l, s, a);
    case CommitDone => CommitDoneStep(l, s, a, e);
    case Crash(ks) => CrashStep(l, s, a, ks);
  }

  // ------------------------------------------------------------------------- runs

  ghost predicate Booted(l: Layout, s: State) {
    l.Fits(|s.disk|) && s == State(s.disk, map[], multiset{}, [], [], Running) && s.disk[l.start][0] == 0
  }

  /** A run of the kernel: each event is enabled and leads to the next state. */
  ghost predicate IsRun(l: Layout, ss: seq<State>, es: seq<Event>) {
    && |ss| == |es| + 1
    && Booted(l, ss[0])
    && (forall i :: 0 <= i < |es| ==>
          Enabled(l, ss[i], es[i]) && ss[i + 1] == Step(l, ss[i], es[i]))
  }

  ghost predicate DistinctNames(es: seq<Event>) {
    forall i, j :: 0 <= i < j < |es| && es[i].Begin? && es[j].Begin? ==> es[i].id != es[j].id
  }

  /** Every operation the atomic disk knows of was begun among `es`. */
  ghost predicate Named(a: Atomic, es: seq<Event>) {
    && (forall i :: 0 <= i < |a.history| ==> Begin(a.history[i].id) in es)
    && (forall i :: 0 <= i < |a.live| ==> Begin(a.live[i]) in es)
  }

  lemma NamedStep(a: Atomic, s: State, es: seq<Event>, e: Event)
    requires Named(a, es) && AtomicEnabled(a, s, e) && DistinctNames(es + [e])
    ensures NewName(a, e) && Named(AtomicStep(a, s, e), es + [e])
  {
    if e.Begin? {
      forall i | 0 <= i < |a.history| ensures a.history[i].id != e.id {
        var k :| 0 <= k < |es| && es[k] == Begin(a.history[i].id);
        assert (es + [e])[k] == es[k] && (es + [e])[|es|] == e;
      }
    }
  }

  lemma NamedStepRefines(l: Layout, s: State, a: Atomic, es: seq<Event>, e: Event)
    requires Refines(l, s, a) && Enabled(l, s, e) && Named(a, es) && DistinctNames(es + [e])
    ensures AtomicEnabled(a, s, e)
    ensures Refines(l, Step(l, s, e), AtomicStep(a, s, e)) && Named(AtomicStep(a, s, e), es + [e])
  {
    if e.Begin? {
      assert AtomicEnabled(a, s, e);
      NamedStep(a, s, es, e);
      StepRefines(l, s, a, e);
    } else {
      StepRefines(l, s, a, e);
      NamedStep(a, s, es, e);
    }
  }

  /** The atomic disk goes through the same events, and is allowed each of them. */
  ghost predicate IsAtomicRun(ss: seq<State>, es: seq<Event>, atoms: seq<Atomic>) {
    && |atoms| == |ss| == |es| + 1
    && atoms[0] == Atomic(ss[0].disk, [], 0, [])
    && forall i :: 0 <= i < |es| ==>
         AtomicEnabled(atoms[i], ss[i], es[i]) && atoms[i + 1] == AtomicStep(atoms[i], ss[i], es[i])
  }

  lemma RunPrefix(l: Layout, ss: seq<State>, es: seq<Event>, n: nat)
    requires IsRun(l, ss, es) && DistinctNames(es) && n <= |es|
    ensures IsRun(l, ss[..n + 1], es[..n]) && DistinctNames(es[..n])
  {
  }

  lemma AtomicRunExtends(ss: seq<State>, es: seq<Event>, atoms: seq<Atomic>)
    requires |ss| == |es| + 1 && |es| > 0
    requires IsAtomicRun(ss[..|es|], es[..|es| - 1], atoms)
    requires AtomicEnabled(atoms[|es| - 1], ss[|es| - 1], es[|es| - 1])
    ensures IsAtomicRun(ss, es, atoms + [AtomicStep(atoms[|es| - 1], ss[|es| - 1], es[|es| - 1])])
  {
    var n := |es| - 1;
    var all := atoms + [AtomicStep(atoms[n], ss[n], es[n])];
    forall i | 0 <= i < |es|
      ensures AtomicEnabled(all[i], ss[i], es[i]) && all[i + 1] == AtomicStep(all[i], ss[i], es[i])
    {
      if i < n {
        assert es[..n][i] == es[i] && ss[..n + 1][i] == ss[i];
      }
    }
  }

  ghost predicate AllRefine(l: Layout, ss: seq<State>, atoms: seq<Atomic>) {
    |ss| == |atoms| && forall i :: 0 <= i < |ss| ==> Refines(l, ss[i], atoms[i])
  }

  lemma AllRefineExtends(l: Layout, ss: seq<State>, atoms: seq<Atomic>, s: State, a: Atomic)
    requires AllRefine(l, ss, atoms) && Refines(l, s, a)
    ensures AllRefine(l, ss + [s], atoms + [a])
  {
  }

  lemma Last<T>(s: seq<T>)
    requires s != []
    ensures s == s[..|s| - 1] + [s[|s| - 1]]
  {
  }

  lemma AtomicRunStep(l: Layout, ss: seq<State>, es: seq<Event>, atoms: seq<Atomic>) returns (a: Atomic)
    requires IsRun(l, ss, es) && DistinctNames(es) && |es| > 0
    requires IsAtomicRun(ss[..|es|], es[..|es| - 1], atoms)
    requires Refines(l, ss[|es| - 1], atoms[|es| - 1]) && Named(atoms[|es| - 1], es[..|es| - 1])
    ensures IsAtomicRun(ss, es, atoms + [a]) && Refines(l, ss[|es|], a) && Named(a, es)
  {
    var n := |es| - 1;
    Last(es);
    NamedStepRefines(l, ss[n], atoms[n], es[..n], es[n]);
    AtomicRunExtends(ss, es, atoms);
    a := AtomicStep(atoms[n], ss[n], es[n]);
    assert ss[n + 1] == Step(l, ss[n], es[n]);
  }

  // ------------------------------------------------------------------------- durability

  /** The blocks the log is to make durable. */
  function Pending(s: State): seq<int> {
    if s.phase.Committing? then s.phase.bs else s.lh
  }

  predicate IsPending(s: State, a: Atomic, i: nat) {
    i < |a.history| && a.history[i].write.block in Pending(s)
  }

  /**
   Every update that is not durable yet is to a block in the log; and with no operation outstanding
   and no commit under way there is none.
   */
  ghost predicate Settled(s: State, a: Atomic) {
    && a.kept <= |a.history|
    && (forall i: nat :: a.kept <= i < |a.history| ==> IsPending(s, a, i))
    && (s.phase.Running? && s.ops == [] ==> a.kept == |a.history|)
  }

  lemma SettledStep(l: Layout, s: State, a: Atomic, e: Event)
    requires Settled(s, a) && Refines(l, s, a) && Enabled(l, s, e) && AtomicEnabled(a, s, e)
    ensures Settled(Step(l, s, e), AtomicStep(a, s, e))
  {
    hide Coherent, Through, SameHome, Installed, WholeOperations, HomeAddresses, Apply, Writes;
    match e
    case CommitDone => DoneIsDurable(l, s, a);
    case DiskWrite => WriteSettled(l, s, a);
    case Update(i, b, data) => UpdateSettled(l, s, a, e);
    case _ => OtherSettled(l, s, a, e);
  }

  /** Past its commit point a commit has made everything durable, and one of an empty log had nothing to do. */
  lemma DoneIsDurable(l: Layout, s: State, a: Atomic)
    requires Settled(s, a) && Refines(l, s, a) && Enabled(l, s, CommitDone)
    ensures a.kept == |a.history|
  {
    hide Coherent, Through, SameHome, Installed, WholeOperations, HomeAddresses, Apply, Writes;
    assert a.kept == |a.history| || IsPending(s, a, a.kept);
  }

  lemma UpdateSettled(l: Layout, s: State, a: Atomic, e: Event)
    requires Settled(s, a) && Refines(l, s, a) && Enabled(l, s, e) && AtomicEnabled(a, s, e) && e.Update?
    ensures Settled(Step(l, s, e), AtomicStep(a, s, e))
  {
    LiveMeansRunning(l, s, a);
    hide Refines, Enabled;
    var t, b := Step(l, s, e), AtomicStep(a, s, e);
    forall i: nat | b.kept <= i < |b.history| ensures IsPending(t, b, i) {
      assert i < |a.history| ==> IsPending(s, a, i);
    }
  }

  lemma OtherSettled(l: Layout, s: State, a: Atomic, e: Event)
    requires Settled(s, a) && Refines(l, s, a) && Enabled(l, s, e) && AtomicEnabled(a, s, e)
    requires !e.Update? && !e.DiskWrite? && !e.CommitDone?
    ensures Settled(Step(l, s, e), AtomicStep(a, s, e))
  {
    hide Coherent, Through, SameHome, Installed, WholeOperations, HomeAddresses, Apply, Writes;
    if s.ops != [] {
      LiveMeansRunning(l, s, a);
    }
    var t, b := Step(l, s, e), AtomicStep(a, s, e);
    forall i: nat | b.kept <= i < |b.history| ensures IsPending(t, b, i) {
      assert IsPending(s, a, i);
    }
  }

  lemma WriteSettled(l: Layout, s: State, a: Atomic)
    requires Settled(s, a) && Refines(l, s, a) && Enabled(l, s, DiskWrite) && AtomicEnabled(a, s, DiskWrite)
    ensures Settled(Step(l, s, DiskWrite), AtomicStep(a, s, DiskWrite))
  {
    hide Coherent, Through, SameHome, Installed, WholeOperations, HomeAddresses, Apply, Writes;
    var t, b := Step(l, s, DiskWrite), AtomicStep(a, s, DiskWrite);
    forall i: nat | b.kept <= i < |b.history| ensures IsPending(t, b, i) {
      assert IsPending(s, a, i);
    }
  }

  ghost predicate AllSettled(ss: seq<State>, atoms: seq<Atomic>) {
    |ss| == |atoms| && forall i :: 0 <= i < |ss| ==> Settled(ss[i], atoms[i])
  }

  lemma {:induction false} SettledAt(l: Layout, ss: seq<State>, es: seq<Event>, atoms: seq<Atomic>, i: nat)
    requires IsRun(l, ss, es) && IsAtomicRun(ss, es, atoms) && AllRefine(l, ss, atoms) && i < |ss|
    ensures Settled(ss[i], atoms[i])
  {
    hide Enabled, Step, AtomicEnabled, AtomicStep, Refines;
    if i > 0 {
      SettledAt(l, ss, es, atoms, i - 1);
      var j := i - 1;
      assert ss[j + 1] == Step(l, ss[j], es[j]) && atoms[j + 1] == AtomicStep(atoms[j], ss[j], es[j]);
      SettledStep(l, ss[j], atoms[j], es[j]);
    }
  }

  /** What is durable stays, through any number of later commits and crashes. */
  lemma {:induction false} DurableStays(ss: seq<State>, es: seq<Event>, atoms: seq<Atomic>, i: nat, j: nat)
    requires IsAtomicRun(ss, es, atoms) && i <= j < |atoms| && atoms[i].kept <= |atoms[i].history|
    ensures atoms[i].kept <= atoms[j].kept <= |atoms[j].history|
    ensures atoms[i].history[..atoms[i].kept] == atoms[j].history[..atoms[i].kept]
    decreases j - i
  {
    hide AtomicEnabled, AtomicStep;
    if i < j {
      DurableStays(ss, es, atoms, i, j - 1);
      var k := j - 1;
      assert AtomicEnabled(atoms[k], ss[k], es[k]) && atoms[k + 1] == AtomicStep(atoms[k], ss[k], es[k]);
      KeptGrows(atoms[k], ss[k], es[k], atoms[i].kept);
    }
  }

  lemma KeptGrows(a: Atomic, s: State, e: Event, n: nat)
    requires AtomicEnabled(a, s, e) && n <= a.kept
    ensures var b := AtomicStep(a, s, e);
            a.kept <= b.kept <= |b.history| && b.history[..n] == a.history[..n]
  {
  }

  /**
   An update of an operation that has ended is never lost once the log has come to rest: from a
   state with nothing outstanding and no commit under way, everything updated so far is there in
   every later state, whatever crashes come between.
   */
  lemma EndedIsDurable(l: Layout, ss: seq<State>, es: seq<Event>, atoms: seq<Atomic>, i: nat, j: nat)
    requires IsRun(l, ss, es) && IsAtomicRun(ss, es, atoms) && AllRefine(l, ss, atoms) && i <= j < |ss|
    requires ss[i].phase.Running? && ss[i].ops == []
    ensures atoms[i].history <= atoms[j].history && |atoms[i].history| <= atoms[j].kept
  {
    hide Enabled, Step, AtomicEnabled, AtomicStep, Refines;
    SettledAt(l, ss, es, atoms, i);
    DurableStays(ss, es, atoms, i, j);
    var h := atoms[i].history;
    assert h[..|h|] == h && atoms[j].history[..|h|] == h;
  }

  /** A commit never gets stuck: there is a block write to issue, or it is done. */
  lemma CommitGoesOn(l: Layout, s: State, a: Atomic)
    requires Refines(l, s, a) && s.phase.Committing?
    ensures Enabled(l, s, DiskWrite) <==> !Enabled(l, s, CommitDone)
  {
    hide Coherent, Through, SameHome, Installed, WholeOperations, HomeAddresses, Apply, Writes, CommitMeaning;
  }

  /** From one state to another by these steps. */
  ghost predicate Steps(l: Layout, ss: seq<State>, es: seq<Event>) {
    && |ss| == |es| + 1
    && forall i: nat :: i < |es| ==> Enabled(l, ss[i], es[i]) && ss[i + 1] == Step(l, ss[i], es[i])
  }

  lemma StepsCons(l: Layout, s: State, e: Event, ss: seq<State>, es: seq<Event>)
    requires Enabled(l, s, e) && Steps(l, ss, es) && ss[0] == Step(l, s, e)
    ensures Steps(l, [s] + ss, [e] + es)
  {
    hide Enabled, Step;
    var tt, fs := [s] + ss, [e] + es;
    forall i: nat | i < |fs| ensures Enabled(l, tt[i], fs[i]) && tt[i + 1] == Step(l, tt[i], fs[i]) {
      if i > 0 {
        assert ss[i - 1 + 1] == Step(l, ss[i - 1], es[i - 1]);
      }
    }
  }

  /** A commit left to itself comes to its end by its own disk writes alone, and then the log is at rest. */
  lemma {:induction false} CommitEnds(l: Layout, s: State, a: Atomic) returns (ss: seq<State>, es: seq<Event>)
    requires Refines(l, s, a) && s.phase.Committing? && PhaseOk(l, |s.disk|, s.phase)
    ensures |ss| == |es| + 1 && Steps(l, ss, es) && ss[0] == s
    ensures forall i: nat :: i < |es| ==> es[i].DiskWrite? || es[i].CommitDone?
    ensures ss[|es|].phase.Running? && ss[|es|].ops == []
    decreases |Plan(l, s.phase)| - s.phase.done
  {
    hide Refines, Coherent, Through, SameHome, Plan, PhaseOk, Apply;
    CommitGoesOn(l, s, a);
    if Enabled(l, s, CommitDone) {
      var t := Step(l, s, CommitDone);
      AloneInCommit(l, s, a);
      assert Steps(l, [t], []);
      ss, es := [s, t], [CommitDone];
      StepsCons(l, s, CommitDone, [t], []);
      assert [s] + [t] == [s, t] && [CommitDone] + [] == [CommitDone];
    } else {
      var t := Step(l, s, DiskWrite);
      DiskWriteStep(l, s, a);
      StillCommitting(l, s, a);
      var tt, fs := CommitEnds(l, t, AtomicStep(a, s, DiskWrite));
      ss, es := [s] + tt, [DiskWrite] + fs;
      StepsCons(l, s, DiskWrite, tt, fs);
    }
  }

  lemma AloneInCommit(l: Layout, s: State, a: Atomic)
    requires Refines(l, s, a) && s.phase.Committing?
    ensures s.ops == []
  {
  }

  lemma StillCommitting(l: Layout, s: State, a: Atomic)
    requires Refines(l, s, a) && Enabled(l, s, DiskWrite)
    ensures var t := Step(l, s, DiskWrite);
            && t.phase == s.phase.(done := s.phase.done + 1) && PhaseOk(l, |t.disk|, t.phase)
            && Plan(l, t.phase) == Plan(l, s.phase)
  {
    hide Refines, CommitWrites;
  }

  /**
   Log plus cache refine one atomic disk: every run, however its operations interleave and
   wherever it crashes, is matched step by step by a run of the atomic disk, which commits only
   when no operation is live. Whenever the log is at rest, all updates are durable.
   */
  lemma {:induction false} RunsRefineAtomicDisk(l: Layout, ss: seq<State>, es: seq<Event>) returns (atoms: seq<Atomic>)
    requires IsRun(l, ss, es) && DistinctNames(es)
    ensures IsAtomicRun(ss, es, atoms)
    ensures AllRefine(l, ss, atoms) && AllSettled(ss, atoms)
    ensures Named(atoms[|es|], es)
    decreases |es|
  {
    if |es| == 0 {
      atoms := [Atomic(ss[0].disk, [], 0, [])];
      assert atoms[0].history[..0] == [];
      FreshBoot(l, ss[0].disk, atoms[0]);
    } else {
      var n := |es| - 1;
      Last(es);
      Last(ss);
      RunPrefix(l, ss, es, n);
      var prefix := RunsRefineAtomicDisk(l, ss[..n + 1], es[..n]);
      var a := AtomicRunStep(l, ss, es, prefix);
      atoms := prefix + [a];
      AllRefineExtends(l, ss[..n + 1], prefix, ss[n + 1], a);
    }
    hide Enabled, Step, AtomicEnabled, AtomicStep, Refines, Settled;
    forall i | 0 <= i < |ss| ensures Settled(ss[i], atoms[i]) {
      SettledAt(l, ss, es, atoms, i);
    }
  }

  /** In any reachable state, bread returns the latest logged contents of a home block. */
  lemma BreadReturnsLatest(l: Layout, s: State, a: Atomic, b: nat)
    requires Refines(l, s, a) && b < |s.disk| && !l.InLog(b)
    ensures |Current(a)| == |s.disk| && Cached(s.disk, s.cache, b) == Current(a)[b]
  {
    assert Through(s.disk, s.cache)[b] == Current(a)[b];
  }

  /**
   No uncommitted contents reach a home block: on disk it holds durable contents, or contents
   that a commit past its commit point is about to replace.
   */
  lemma HomeBlocksHoldCommitted(l: Layout, s: State, a: Atomic, b: nat)
    requires Refines(l, s, a) && b < |s.disk| && !l.InLog(b)
    ensures |Durable(a)| == |s.disk|
    ensures s.disk[b] == Durable(a)[b] ||
            (s.phase.Committing? && |s.phase.bs| < s.phase.done && b in s.phase.bs && s.disk[b] == s.phase.base[b])
  {
    hide Coherent, Through, HomeAddresses, Apply, CommitWrites, Writes;
    ApplyLength(a.initial, Writes(a.history[..a.kept]));
    ApplyLength(a.initial, Writes(a.history));
    if s.phase.Committing? {
      var p := s.phase;
      if p.done <= |p.bs| {
        CommitPrefix(l, p.base, p.bs, p.cs, p.done);
        assert SameHome(l, s.disk, p.base);
      } else {
        assert a.history[..a.kept] == a.history;
        HomeBlockMidInstall(l, s, a, b);
      }
    }
  }

  lemma HomeBlockMidInstall(l: Layout, s: State, a: Atomic, b: nat)
    requires Refines(l, s, a) && b < |s.disk| && !l.InLog(b)
    requires s.phase.Committing? && |s.phase.bs| < s.phase.done
    ensures |Current(a)| == |s.disk|
    ensures s.disk[b] == Current(a)[b] || (b in s.phase.bs && s.disk[b] == s.phase.base[b])
  {
    var Committing(base, bs, cs, done) := s.phase;
    CommitPrefix(l, base, bs, cs, done);
    if done == 2 * |bs| + 2 {
      InstalledTwice(l, base, base, bs, cs, Current(a), s.disk);
    } else {
      var j := done - |bs| - 1;
      if b in bs[..j] {
        var i :| 0 <= i < j && bs[i] == b;
      } else if b !in bs {
        assert s.disk[b] == base[b];
      }
    }
  }

  // -------------------------------------------------------------------- log space

  /** What the outstanding operations may still add to the log. */
  function Unused(ops: seq<Op>): int {
    if ops == [] then 0 else Unused(ops[..|ops| - 1]) + (MAXOPBLOCKS - |ops[|ops| - 1].logged|)
  }

  ghost predicate SpaceInv(s: State) {
    && (forall i :: 0 <= i < |s.ops| ==>
          |s.ops[i].logged| <= MAXOPBLOCKS && forall b :: b in s.ops[i].logged ==> b in s.lh)
    && |s.lh| + Unused(s.ops) <= LOGSIZE
  }

  lemma {:induction false} UnusedSplit(a: seq<Op>, b: seq<Op>)
    ensures Unused(a + b) == Unused(a) + Unused(b)
  {
    if b == [] {
      assert a + b == a;
    } else {
      assert (a + b)[..|a + b| - 1] == a + b[..|b| - 1];
      UnusedSplit(a, b[..|b| - 1]);
    }
  }

  lemma {:induction false} UnusedBound(ops: seq<Op>)
    ensures Unused(ops) <= |ops| * MAXOPBLOCKS
    ensures (forall i :: 0 <= i < |ops| ==> |ops[i].logged| <= MAXOPBLOCKS) ==> 0 <= Unused(ops)
  {
    if ops != [] { UnusedBound(ops[..|ops| - 1]); }
  }

  lemma UnusedAt(ops: seq<Op>, i: nat)
    requires i < |ops|
    ensures Unused(ops) == Unused(Without(ops, i)) + (MAXOPBLOCKS - |ops[i].logged|)
  {
    var a, x, c := ops[..i], [ops[i]], ops[i + 1..];
    assert Unused(x) == MAXOPBLOCKS - |ops[i].logged| by { assert x[..0] == []; }
    hide Unused;
    UnusedSplit(a, x);
    UnusedSplit(a + x, c);
    UnusedSplit(a, c);
    assert ops == a + x + c;
  }

  lemma SpaceBegin(l: Layout, s: State, id: nat)
    requires SpaceInv(s) && Enabled(l, s, Begin(id))
    ensures SpaceInv(s.(ops := s.ops + [Op(id, {})]))
  {
    hide Unused;
    UnusedBound(s.ops);
    UnusedSnoc(s.ops, Op(id, {}));
  }

  lemma UnusedSnoc(ops: seq<Op>, op: Op)
    ensures Unused(ops + [op]) == Unused(ops) + (MAXOPBLOCKS - |op.logged|)
  {
    UnusedAt(ops + [op], |ops|);
    assert Without(ops + [op], |ops|) == ops;
  }

  lemma SpaceUpdate(l: Layout, s: State, e: Event)
    requires SpaceInv(s) && e.Update? && Enabled(l, s, e)
    ensures SpaceInv(Step(l, s, e))
  {
    var t, was := Step(l, s, e), s.ops[e.i].logged;
    UnusedAt(s.ops, e.i);
    UnusedAt(t.ops, e.i);
    assert Without(t.ops, e.i) == Without(s.ops, e.i);
    if e.b in was {
      assert was + {e.b as int} == was;
    }
    assert e.b !in s.lh ==> e.b !in was;
    assert t.ops[e.i].logged == was + {e.b as int};
  }

  lemma SpaceEnd(s: State, i: nat)
    requires SpaceInv(s) && i < |s.ops|
    ensures SpaceInv(s.(ops := Without(s.ops, i)))
  {
    UnusedAt(s.ops, i);
  }

  lemma SpaceStep(l: Layout, s: State, e: Event)
    requires SpaceInv(s) && Enabled(l, s, e)
    requires e.DiskWrite? ==> s.ops == []
    ensures SpaceInv(Step(l, s, e))
  {
    match e
    case Begin(id) => SpaceBegin(l, s, id);
    case Update(i, b, data) => SpaceUpdate(l, s, e);
    case End(i) => SpaceEnd(s, i);
    case _ =>
  }

  /** No operation is outstanding while a commit is under way. */
  ghost predicate AloneInv(s: State) {
    s.phase.Committing? ==> s.ops == []
  }

  lemma AloneStep(l: Layout, s: State, e: Event)
    requires AloneInv(s) && Enabled(l, s, e)
    ensures AloneInv(Step(l, s, e))
  {
    hide PhaseOk, Plan, HeadOk, Recover, CrashingRecovery, Pick, Through, Put;
  }

  /**
   Log space: in every run whose operations keep to MAXOPBLOCKS blocks each, the logged blocks
   plus everything the outstanding operations may still add fit in LOGSIZE.
   */
  lemma {:induction false} LogSpace(l: Layout, ss: seq<State>, es: seq<Event>, k: nat)
    requires IsRun(l, ss, es) && k < |ss|
    ensures SpaceInv(ss[k]) && AloneInv(ss[k])
  {
    if k > 0 {
      hide Enabled, Step, SpaceInv;
      LogSpace(l, ss, es, k - 1);
      assert ss[k - 1 + 1] == Step(l, ss[k - 1], es[k - 1]);
      CommitIsAlone(l, ss[k - 1], es[k - 1]);
      AloneStep(l, ss[k - 1], es[k - 1]);
      SpaceStep(l, ss[k - 1], es[k - 1]);
    }
  }

  lemma CommitIsAlone(l: Layout, s: State, e: Event)
    requires AloneInv(s) && Enabled(l, s, e)
    ensures e.DiskWrite? ==> s.ops == []
  {
  }
}
