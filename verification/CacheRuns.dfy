/**
 Whole runs of the log over the NBUF linked buffers (kernel/log.c, kernel/bio.c).

 A state has the buffers with their contents and reference counts where LogRuns has a map. Steps
 are those of bget, the disk read of bread, brelse, and the log's own, on the buffer each of them
 has in hand. Every run is one of LogRuns, and so refines the atomic disk.
 */
module CacheRuns {
  import opened Common
  import opened LogDisk
  import opened CacheSimulation
  import L = Log
  import R = LogRuns
  import B = Bcache

  /** `held` has the references of callers of bget, `pinned` those of bpin. */
  datatype State = State(k: Concrete, held: multiset<nat>, pinned: multiset<nat>, disk: Disk, lh: seq<int>,
                         ops: seq<R.Op>, phase: R.Phase)

  datatype Event =
    | Get(b: nat, c: nat)                       // bget of block b returns buffer c
    | Fill(c: nat)                              // bread reads the disk
    | Release(c: nat)                           // brelse
    | Begin(id: nat)
    | Update(i: nat, c: nat, data: Block)       // the holder changes buffer c and calls log_write
    | End(i: nat)
    | DiskWrite(c: nat)                         // a block write of commit, from buffer c
    | CommitDone
    | Crash(ks: seq<nat>)

  /** The state of the log over a map and pins. */
  function Logged(s: State, cache: map<int, Block>, pins: multiset<int>): R.State {
    R.State(s.disk, cache, pins, s.lh, s.ops, s.phase)
  }

  ghost predicate Represents(dev: nat, s: State, r: R.State) {
    && r == Logged(s, r.cache, r.pins)
    && Simulates(s.k, s.pinned, dev, r.cache, r.pins) && B.Counts(s.k.bufs, s.held, s.pinned)
  }

  function Fewer(n: nat): nat {
    if n > 0 then n - 1 else 0
  }

  function WithCount(k: Concrete, c: nat, n: nat): Concrete
    requires c < |k.bufs|
  {
    k.(bufs := k.bufs[c := k.bufs[c].(refcnt := n)])
  }

  ghost predicate Shaped(s: State) {
    |s.k.bufs| == B.NBUF + 1 && |s.k.data| == B.NBUF
  }

  /** What bread gives for block b: what a buffer holds, or else the disk. */
  ghost predicate Shows(s: State, dev: nat, b: int, x: Block) {
    || (exists c: nat :: b >= 0 && Holds(s.k, dev, c, b) && s.k.data[c] == x)
    || (!Buffered(s.k, dev, b) && 0 <= b < |s.disk| && s.disk[b] == x)
  }

  /** bget: one more reference to the buffer of the block, or an unused buffer taken over. */
  ghost predicate Gets(s: State, t: State, dev: nat, b: nat, c: nat) {
    && Shaped(s) && c < B.NBUF && t == s.(k := t.k, held := s.held + multiset{c})
    && if B.Cached(s.k.bufs, dev, b) then B.Is(s.k.bufs[c], dev, b) && t.k == WithCount(s.k, c, s.k.bufs[c].refcnt + 1)
       else s.k.bufs[c].refcnt == 0 && t.k == s.k.(bufs := s.k.bufs[c := Recycled(s.k.bufs[c], dev, b)])
  }

  ghost predicate Fills(s: State, t: State, dev: nat, c: nat) {
    && Shaped(s) && c < B.NBUF && s.k.bufs[c].dev == dev && !s.k.bufs[c].valid && s.k.bufs[c].blockno < |s.disk|
    && t == s.(k := Concrete(s.k.bufs[c := s.k.bufs[c].(valid := true)], s.k.data[c := s.disk[s.k.bufs[c].blockno]]))
  }

  ghost predicate Releases(s: State, t: State, c: nat) {
    && Shaped(s) && c < B.NBUF && c in s.held
    && t == s.(k := s.k.(bufs := t.k.bufs), held := s.held - multiset{c})
    && B.LinksOnly(WithCount(s.k, c, Fewer(s.k.bufs[c].refcnt)).bufs, t.k.bufs)
  }

  ghost predicate Updates(l: Layout, s: State, t: State, dev: nat, i: nat, c: nat, data: Block) {
    && Shaped(s) && Pinnable(s.k, dev, c) && c in s.held && R.Enabled(l, Logged(s, map[], multiset{}),
        R.Update(i, s.k.bufs[c].blockno, data))
    && (var b, k := s.k.bufs[c].blockno, s.k.(data := s.k.data[c := data]);
        var op := s.ops[i].(logged := s.ops[i].logged + {b as int});
        var u := s.(k := k, ops := s.ops[i := op]);
        t == if b in s.lh then u
             else u.(k := WithCount(k, c, k.bufs[c].refcnt + 1), lh := s.lh + [b], pinned := s.pinned + multiset{c}))
  }

  /** The last operation out fixes what commit will write: what bread gives for each block in the log. */
  ghost predicate Ends(s: State, t: State, dev: nat, i: nat) {
    && i < |s.ops|
    && (var u := s.(ops := R.Without(s.ops, i));
        if |u.ops| > 0 then t == u
        else
          && t.phase.Committing? && t == u.(phase := R.Committing(s.disk, s.lh, t.phase.cs, 0))
          && |t.phase.cs| == |s.lh| && forall j :: 0 <= j < |s.lh| ==> Shows(s, dev, s.lh[j], t.phase.cs[j]))
  }

  /** bwrite of the buffer in hand, and bunpin when it is a home block that is installed. */
  ghost predicate Writes(l: Layout, s: State, t: State, dev: nat, c: nat) {
    && Shaped(s) && c < B.NBUF && R.Enabled(l, Logged(s, map[], multiset{}), R.DiskWrite)
    && (var w, m := R.Plan(l, s.phase)[s.phase.done], |s.phase.bs|;
        var k := s.k.(data := s.k.data[c := w.data]);
        var installs := m < s.phase.done <= 2 * m;
        && w.block >= 0 && Holds(s.k, dev, c, w.block) && c in s.held
        && t == State(if installs then WithCount(k, c, Fewer(k.bufs[c].refcnt)) else k,
                      s.held, if installs then s.pinned - multiset{c} else s.pinned, Put(s.disk, w),
                      if s.phase.done == 2 * m + 1 then [] else s.lh, s.ops, s.phase.(done := s.phase.done + 1)))
  }

  /** binit: no buffer holds anything. */
  ghost predicate Blank(k: Concrete) {
    && |k.bufs| == B.NBUF + 1 && |k.data| == B.NBUF && B.OneEach(k.bufs)
    && forall c: nat :: c < |k.bufs| ==> k.bufs[c].dev == 0 && k.bufs[c].refcnt == 0
  }

  ghost predicate Crashes(l: Layout, s: State, t: State, ks: seq<nat>) {
    && R.Enabled(l, Logged(s, map[], multiset{}), R.Crash(ks))
    && Blank(t.k)
    && t == State(t.k, multiset{}, multiset{}, Recover(l, CrashingRecovery(l, s.disk, ks)), [], [], R.Running)
  }

  ghost predicate Next(l: Layout, dev: nat, s: State, e: Event, t: State) {
    match e
    case Get(b, c) => Gets(s, t, dev, b, c)
    case Fill(c) => Fills(s, t, dev, c)
    case Release(c) => Releases(s, t, c)
    case Begin(id) =>
      R.Enabled(l, Logged(s, map[], multiset{}), R.Begin(id)) && t == s.(ops := s.ops + [R.Op(id, {})])
    case Update(i, c, data) => Updates(l, s, t, dev, i, c, data)
    case End(i) => Ends(s, t, dev, i)
    case DiskWrite(c) => Writes(l, s, t, dev, c)
    case CommitDone => R.Enabled(l, Logged(s, map[], multiset{}), R.CommitDone) && t == s.(phase := R.Running)
    case Crash(ks) => Crashes(l, s, t, ks)
  }

  // ------------------------------------------------------------------------ one step at a time

  /** A step of the buffers is this step of the log, or none that the log can see. */
  ghost predicate Follows(l: Layout, r: R.State, es: seq<R.Event>, q: R.State) {
    if es == [] then q == r else |es| == 1 && R.Enabled(l, r, es[0]) && q == R.Step(l, r, es[0])
  }

  lemma GetFollows(l: Layout, dev: nat, s: State, t: State, r: R.State, b: nat, c: nat)
      returns (es: seq<R.Event>, q: R.State)
    requires Represents(dev, s, r) && Gets(s, t, dev, b, c)
    ensures Represents(dev, t, q) && Follows(l, r, es, q) && forall e :: e in es ==> !e.Begin?
  {
    hide Simulates;
    if B.Cached(s.k.bufs, dev, b) {
      es, q := [], r;
      HitSimulates(s.k, s.pinned, t.k, dev, b, c, r.cache, r.pins);
    } else {
      assert s.k.bufs[c].refcnt == s.held[c] + s.pinned[c];
      MissSimulates(s.k, s.pinned, dev, c, b, r.cache, r.pins);
      q := r.(cache := CacheSimulation.Without(s.k, dev, c, r.cache));
      es := if s.k.bufs[c].dev == dev && s.k.bufs[c].valid then [R.Evict(s.k.bufs[c].blockno)] else [];
    }
  }

  lemma FillFollows(l: Layout, dev: nat, s: State, t: State, r: R.State, c: nat) returns (es: seq<R.Event>, q: R.State)
    requires Represents(dev, s, r) && Fills(s, t, dev, c)
    ensures Represents(dev, t, q) && Follows(l, r, es, q) && forall e :: e in es ==> !e.Begin?
  {
    hide Simulates;
    var b := s.k.bufs[c].blockno;
    FillSimulates(s.k, s.pinned, dev, c, b, s.disk, r.cache, r.pins);
    es, q := [R.Load(b)], r.(cache := r.cache[b := L.Cached(s.disk, r.cache, b)]);
  }

  lemma ReleaseFollows(dev: nat, s: State, t: State, r: R.State, c: nat)
    requires Represents(dev, s, r) && Releases(s, t, c)
    ensures Represents(dev, t, r)
  {
    hide Simulates;
    assert s.k.bufs[c].refcnt == s.held[c] + s.pinned[c];
    ReleaseSimulates(s.k, s.pinned, t.k.bufs, c, Fewer(s.k.bufs[c].refcnt), dev, r.cache, r.pins);
  }

  lemma UpdateFollows(l: Layout, dev: nat, s: State, t: State, r: R.State, i: nat, c: nat, data: Block)
      returns (es: seq<R.Event>, q: R.State)
    requires Represents(dev, s, r) && Updates(l, s, t, dev, i, c, data)
    ensures Represents(dev, t, q) && Follows(l, r, es, q) && forall e :: e in es ==> !e.Begin?
  {
    hide Simulates;
    var b := s.k.bufs[c].blockno;
    es := [R.Update(i, b, data)];
    q := R.Step(l, r, es[0]);
    WriteSimulates(s.k, s.pinned, dev, c, data, r.cache, r.pins);
    var k := s.k.(data := s.k.data[c := data]);
    if b !in s.lh {
      PinSimulates(k, s.pinned, dev, c, q.cache, r.pins);
      CountsSimulate(k, t.pinned, t.k.bufs, dev, q.cache, q.pins);
    }
  }

  lemma EndFollows(l: Layout, dev: nat, s: State, t: State, r: R.State, i: nat)
      returns (es: seq<R.Event>, q: R.State)
    requires Represents(dev, s, r) && Ends(s, t, dev, i) && HomeAddresses(l, |s.disk|, s.lh)
    ensures Represents(dev, t, q) && Follows(l, r, es, q) && forall e :: e in es ==> !e.Begin?
  {
    es := [R.End(i)];
    q := R.Step(l, r, es[0]);
    if |t.ops| == 0 {
      var views := L.Through(s.disk, r.cache);
      var cs := L.Pick(views, s.lh);
      forall j | 0 <= j < |s.lh| ensures cs[j] == t.phase.cs[j] {
        assert Shows(s, dev, s.lh[j], t.phase.cs[j]);
        ShownIs(dev, s, r, s.lh[j], t.phase.cs[j]);
      }
      assert cs == t.phase.cs;
    }
  }

  /** What bread gives is what the log says the block holds. */
  lemma ShownIs(dev: nat, s: State, r: R.State, b: int, x: Block)
    requires Represents(dev, s, r) && 0 <= b < |s.disk| && Shows(s, dev, b, x)
    ensures x == L.Cached(s.disk, r.cache, b)
  {
    if b in r.cache {
      assert Buffered(s.k, dev, b);
    }
  }

  lemma WriteFollows(l: Layout, dev: nat, s: State, t: State, r: R.State, c: nat)
      returns (es: seq<R.Event>, q: R.State)
    requires Represents(dev, s, r) && Writes(l, s, t, dev, c)
    requires s.phase.Committing? && R.CommitProgress(l, r)
    ensures Represents(dev, t, q) && Follows(l, r, es, q) && forall e :: e in es ==> !e.Begin?
  {
    hide Simulates, R.CommitProgress, HomeAddresses;
    es := [R.DiskWrite];
    var w, m := R.Plan(l, s.phase)[s.phase.done], |s.phase.bs|;
    q := R.Step(l, r, es[0]);
    WriteSimulates(s.k, s.pinned, dev, c, w.data, r.cache, r.pins);
    var k := s.k.(data := s.k.data[c := w.data]);
    if m < s.phase.done <= 2 * m {
      StillPinned(l, dev, s, r, c);
      UnpinSimulates(k, s.pinned, dev, c, q.cache, r.pins);
      CountsSimulate(k, t.pinned, t.k.bufs, dev, q.cache, q.pins);
    }
  }

  /** A home block about to be installed is pinned, and so is its buffer. */
  lemma StillPinned(l: Layout, dev: nat, s: State, r: R.State, c: nat)
    requires Represents(dev, s, r) && s.phase.Committing? && R.CommitProgress(l, r)
    requires |s.phase.bs| < s.phase.done <= 2 * |s.phase.bs|
    requires var w := R.Plan(l, s.phase)[s.phase.done]; w.block >= 0 && Holds(s.k, dev, c, w.block)
    ensures c in s.pinned
  {
    var bs, j := s.phase.bs, s.phase.done - |s.phase.bs| - 1;
    assert R.Plan(l, s.phase)[s.phase.done].block == bs[j];
    assert bs[j..][0] == bs[j];
    assert bs[j] in r.pins;
  }

  lemma CrashFollows(l: Layout, dev: nat, s: State, t: State, r: R.State, ks: seq<nat>)
      returns (es: seq<R.Event>, q: R.State)
    requires Represents(dev, s, r) && Crashes(l, s, t, ks)
    ensures Represents(dev, t, q) && Follows(l, r, es, q) && forall e :: e in es ==> !e.Begin?
  {
    es := [R.Crash(ks)];
    q := R.Step(l, r, es[0]);
    assert dev != 0;
    EmptySimulates(t.k, t.pinned, dev);
  }

  lemma StepFollows(l: Layout, dev: nat, s: State, e: Event, t: State, r: R.State, a: R.Atomic)
      returns (es: seq<R.Event>, q: R.State)
    requires Represents(dev, s, r) && Next(l, dev, s, e, t) && R.Refines(l, r, a)
    ensures Represents(dev, t, q) && Follows(l, r, es, q)
    ensures forall x :: x in es && x.Begin? ==> e == Begin(x.id)
  {
    hide Represents, Gets, Fills, Releases, Updates, Ends, Writes, Crashes, R.Refines, R.Enabled, R.Step, Follows,
      HomeAddresses, R.CommitProgress;
    LogIs(dev, s, r);
    LogFacts(l, r, a);
    es, q := [], r;
    match e
    case Get(b, c) => es, q := GetFollows(l, dev, s, t, r, b, c);
    case Fill(c) => es, q := FillFollows(l, dev, s, t, r, c);
    case Release(c) =>
      ReleaseFollows(dev, s, t, r, c);
      Stutters(l, r);
    case Begin(id) => es, q := BeginFollows(l, dev, s, t, r, id);
    case Update(i, c, data) => es, q := UpdateFollows(l, dev, s, t, r, i, c, data);
    case End(i) => es, q := EndFollows(l, dev, s, t, r, i);
    case DiskWrite(c) =>
      InCommit(l, s, t, dev, c);
      es, q := WriteFollows(l, dev, s, t, r, c);
    case CommitDone => es, q := DoneFollows(l, dev, s, t, r);
    case Crash(ks) => es, q := CrashFollows(l, dev, s, t, r, ks);
  }

  lemma Stutters(l: Layout, r: R.State)
    ensures Follows(l, r, [], r)
  {
  }

  lemma LogFacts(l: Layout, r: R.State, a: R.Atomic)
    requires R.Refines(l, r, a)
    ensures HomeAddresses(l, |r.disk|, r.lh) && (r.phase.Committing? ==> R.CommitProgress(l, r))
  {
    hide HomeAddresses, R.CommitProgress;
  }

  lemma BeginFollows(l: Layout, dev: nat, s: State, t: State, r: R.State, id: nat)
      returns (es: seq<R.Event>, q: R.State)
    requires Represents(dev, s, r) && Next(l, dev, s, Begin(id), t)
    ensures Represents(dev, t, q) && Follows(l, r, es, q) && es == [R.Begin(id)]
  {
    hide Simulates;
    es, q := [R.Begin(id)], r.(ops := r.ops + [R.Op(id, {})]);
  }

  lemma DoneFollows(l: Layout, dev: nat, s: State, t: State, r: R.State) returns (es: seq<R.Event>, q: R.State)
    requires Represents(dev, s, r) && Next(l, dev, s, CommitDone, t)
    ensures Represents(dev, t, q) && Follows(l, r, es, q) && es == [R.CommitDone]
  {
    hide Simulates;
    es, q := [R.CommitDone], r.(phase := R.Running);
  }

  lemma LogIs(dev: nat, s: State, r: R.State)
    requires Represents(dev, s, r)
    ensures r == Logged(s, r.cache, r.pins)
  {
  }

  lemma InCommit(l: Layout, s: State, t: State, dev: nat, c: nat)
    requires Writes(l, s, t, dev, c)
    ensures s.phase.Committing?
  {
  }

  // --------------------------------------------------------------------------------- whole runs

  ghost predicate Booted(l: Layout, s: State) {
    && Blank(s.k) && s == State(s.k, multiset{}, multiset{}, s.disk, [], [], R.Running)
    && l.Fits(|s.disk|) && s.disk[l.start][0] == 0
  }

  ghost predicate IsRun(l: Layout, dev: nat, ks: seq<State>, es: seq<Event>) {
    && |ks| == |es| + 1 && Booted(l, ks[0])
    && forall i :: 0 <= i < |es| ==> Next(l, dev, ks[i], es[i], ks[i + 1])
  }

  ghost predicate DistinctNames(es: seq<Event>) {
    forall i, j :: 0 <= i < j < |es| && es[i].Begin? && es[j].Begin? ==> es[i].id != es[j].id
  }

  /** State i of the buffers stands for state at[i] of the log. */
  ghost predicate Matched(dev: nat, ks: seq<State>, ss: seq<R.State>, at: seq<nat>) {
    |at| == |ks| && forall i :: 0 <= i < |ks| ==> at[i] < |ss| && Represents(dev, ks[i], ss[at[i]])
  }

  /** Every name begun in the log was begun in the run of the buffers. */
  ghost predicate NamesFrom(log: seq<R.Event>, es: seq<Event>) {
    forall x :: x in log && x.Begin? ==> Begin(x.id) in es
  }

  lemma BootRepresents(l: Layout, dev: nat, s: State)
    requires Booted(l, s) && dev != 0
    ensures Represents(dev, s, Logged(s, map[], multiset{})) && R.IsRun(l, [Logged(s, map[], multiset{})], [])
  {
    EmptySimulates(s.k, s.pinned, dev);
  }

  lemma LogExtends(l: Layout, ss: seq<R.State>, es: seq<R.Event>, more: seq<R.Event>, q: R.State)
    requires R.IsRun(l, ss, es) && Follows(l, ss[|es|], more, q)
    ensures R.IsRun(l, if more == [] then ss else ss + [q], es + more)
  {
    hide R.Enabled, R.Step, R.Booted;
    if more == [] {
      assert es + more == es;
    } else {
      var all, evs := ss + [q], es + more;
      forall i | 0 <= i < |evs| ensures R.Enabled(l, all[i], evs[i]) && all[i + 1] == R.Step(l, all[i], evs[i]) {
        if i < |es| {
          assert evs[i] == es[i] && all[i] == ss[i] && all[i + 1] == ss[i + 1];
        }
      }
    }
  }

  lemma NamesStay(log: seq<R.Event>, more: seq<R.Event>, es: seq<Event>, e: Event)
    requires NamesFrom(log, es) && R.DistinctNames(log) && |more| <= 1 && DistinctNames(es + [e])
    requires forall x :: x in more && x.Begin? ==> e == Begin(x.id)
    ensures NamesFrom(log + more, es + [e]) && R.DistinctNames(log + more)
  {
    var all := es + [e];
    if |more| == 1 && more[0].Begin? {
      assert more[0] in more;
      forall i | 0 <= i < |log| && log[i].Begin? ensures log[i].id != more[0].id {
        assert log[i] in log;
        var j :| 0 <= j < |es| && es[j] == Begin(log[i].id);
        assert all[j] == es[j] && all[|es|] == e;
      }
    }
    forall x | x in log + more && x.Begin? ensures Begin(x.id) in all {
      if x in log {
        assert Begin(x.id) in es;
      }
    }
  }

  /** Every run of the buffers is a run of the log. */
  lemma {:induction false} RunsAreLogRuns(l: Layout, dev: nat, ks: seq<State>, es: seq<Event>)
      returns (ss: seq<R.State>, log: seq<R.Event>, at: seq<nat>)
    requires IsRun(l, dev, ks, es) && dev != 0 && DistinctNames(es)
    ensures R.IsRun(l, ss, log) && R.DistinctNames(log) && NamesFrom(log, es)
    ensures Matched(dev, ks, ss, at) && at[|es|] == |log|
    ensures |ss| == |log| + 1
    decreases |es|
  {
    hide Represents, Next, Booted, R.IsRun, Follows, NamesFrom, R.DistinctNames, DistinctNames, R.Refines,
      R.IsAtomicRun, R.Named, IsRun;
    if es == [] {
      ss, log, at := FirstRun(l, dev, ks);
      return;
    }
    var n := |es| - 1;
    Shorter(l, dev, ks, es);
    ss, log, at := RunsAreLogRuns(l, dev, ks[..n + 1], es[..n]);
    var atoms := R.RunsRefineAtomicDisk(l, ss, log);
    var more, q := NextFollows(l, dev, ks, es[n], ss, log, at, atoms);
    FollowsOne(l, ss[|log|], more, q);
    LogExtends(l, ss, log, more, q);
    assert es[..n] + [es[n]] == es;
    NamesStay(log, more, es[..n], es[n]);
    MatchedMore(dev, ks, ss, log, at, more, q);
    ss, log, at := if more == [] then ss else ss + [q], log + more, at + [|log + more|];
  }

  lemma FirstRun(l: Layout, dev: nat, ks: seq<State>) returns (ss: seq<R.State>, log: seq<R.Event>, at: seq<nat>)
    requires IsRun(l, dev, ks, []) && dev != 0
    ensures R.IsRun(l, ss, log) && R.DistinctNames(log) && NamesFrom(log, []) && log == [] && |ss| == 1
    ensures Matched(dev, ks, ss, at) && at == [0]
  {
    hide Represents, Booted, R.IsRun;
    BootRepresents(l, dev, ks[0]);
    ss, log, at := [Logged(ks[0], map[], multiset{})], [], [0];
  }

  lemma NextFollows(l: Layout, dev: nat, ks: seq<State>, e: Event, ss: seq<R.State>, log: seq<R.Event>,
          at: seq<nat>, atoms: seq<R.Atomic>) returns (more: seq<R.Event>, q: R.State)
    requires |ks| >= 2 && Matched(dev, ks[..|ks| - 1], ss, at) && at[|ks| - 2] == |log| < |ss|
    requires Next(l, dev, ks[|ks| - 2], e, ks[|ks| - 1]) && R.AllRefine(l, ss, atoms)
    ensures Represents(dev, ks[|ks| - 1], q) && Follows(l, ss[|log|], more, q)
    ensures forall x :: x in more && x.Begin? ==> e == Begin(x.id)
  {
    hide Represents, Next, Follows, R.Refines;
    var n := |ks| - 2;
    assert ks[..n + 1][n] == ks[n];
    more, q := StepFollows(l, dev, ks[n], e, ks[n + 1], ss[|log|], atoms[|log|]);
  }

  lemma MatchedMore(dev: nat, ks: seq<State>, ss: seq<R.State>, log: seq<R.Event>, at: seq<nat>, more: seq<R.Event>,
          q: R.State)
    requires |ks| >= 2 && Matched(dev, ks[..|ks| - 1], ss, at) && |ss| == |log| + 1 && |more| <= 1
    requires Represents(dev, ks[|ks| - 1], q) && (more == [] ==> q == ss[|log|])
    ensures Matched(dev, ks, if more == [] then ss else ss + [q], at + [|log + more|])
  {
    hide Represents;
    var all, ats := if more == [] then ss else ss + [q], at + [|log + more|];
    forall i | 0 <= i < |ks| ensures ats[i] < |all| && Represents(dev, ks[i], all[ats[i]]) {
      if i < |ks| - 1 {
        assert ks[..|ks| - 1][i] == ks[i];
      }
    }
  }

  lemma FollowsOne(l: Layout, r: R.State, more: seq<R.Event>, q: R.State)
    requires Follows(l, r, more, q)
    ensures |more| <= 1 && (more == [] ==> q == r)
  {
  }

  lemma Shorter(l: Layout, dev: nat, ks: seq<State>, es: seq<Event>)
    requires IsRun(l, dev, ks, es) && DistinctNames(es) && es != []
    ensures |ks| == |es| + 1
    ensures var n := |es| - 1;
            IsRun(l, dev, ks[..n + 1], es[..n]) && DistinctNames(es[..n]) && Next(l, dev, ks[n], es[n], ks[n + 1])
  {
    hide Next, Booted;
  }

  /**
   Every run over the linked buffers refines the atomic disk: the log states it goes through have
   their atomic disks, each state of the buffers stands for one of them, and when it is at rest all
   updates are durable.
   */
  lemma BuffersRefineAtomicDisk(l: Layout, dev: nat, ks: seq<State>, es: seq<Event>)
      returns (ss: seq<R.State>, log: seq<R.Event>, at: seq<nat>, atoms: seq<R.Atomic>)
    requires IsRun(l, dev, ks, es) && dev != 0 && DistinctNames(es)
    ensures R.IsRun(l, ss, log) && Matched(dev, ks, ss, at)
    ensures R.IsAtomicRun(ss, log, atoms) && R.AllRefine(l, ss, atoms)
    ensures forall i :: 0 <= i < |ks| && AtRest(ks[i]) ==> at[i] < |atoms| && AllKept(atoms[at[i]])
  {
    hide Represents, Next, Booted, R.Enabled, R.Step, R.Booted, R.AtomicEnabled, R.AtomicStep, R.Refines, IsRun;
    ss, log, at := RunsAreLogRuns(l, dev, ks, es);
    atoms := R.RunsRefineAtomicDisk(l, ss, log);
    forall i | 0 <= i < |ks| && AtRest(ks[i]) ensures at[i] < |atoms| && AllKept(atoms[at[i]]) {
      LogIs(dev, ks[i], ss[at[i]]);
      assert R.Settled(ss[at[i]], atoms[at[i]]);
    }
  }

  /** No operation is outstanding and no commit under way. */
  predicate AtRest(s: State) {
    s.phase.Running? && s.ops == []
  }

  /** Everything updated is durable. */
  predicate AllKept(a: R.Atomic) {
    a.kept == |a.history|
  }

  /** A valid buffer of a home block holds the latest logged contents of the block. */
  lemma BufferIsLatest(l: Layout, dev: nat, s: State, r: R.State, a: R.Atomic, c: nat, b: nat)
    requires Represents(dev, s, r) && R.Refines(l, r, a) && Holds(s.k, dev, c, b) && b < |s.disk| && !l.InLog(b)
    ensures |R.Current(a)| == |s.disk| && s.k.data[c] == R.Current(a)[b]
  {
    hide R.Refines;
    R.BreadReturnsLatest(l, r, a, b);
  }

  // ------------------------------------------------------------- the methods of the cache take these steps

  /** A state of the log whose buffers are those of the cache. */
  ghost function Now(x: Buffers, s: State): State
    reads x, x.cache
  {
    s.(k := x.View(), held := x.cache.held, pinned := x.cache.pinned)
  }

  method Get(x: Buffers, b: nat, ghost s: State) returns (r: Option<nat>)
    requires x.cache.Valid() && s == Now(x, s) && |x.data| == B.NBUF
    modifies x.cache
    ensures x.cache.Valid() && |x.data| == B.NBUF
    ensures r.Some? ==> Gets(s, Now(x, s), x.dev, b, r.value)
    ensures r.None? ==> Now(x, s) == s
  {
    r := x.cache.Bget(x.dev, b);
  }

  method Fill(x: Buffers, c: nat, ghost s: State, disk: Disk)
    requires x.cache.Valid() && s == Now(x, s) && |x.data| == B.NBUF && disk == s.disk
    requires c < B.NBUF && x.cache.bufs[c].dev == x.dev && !x.cache.bufs[c].valid && x.cache.bufs[c].blockno < |disk|
    modifies x, x.cache
    ensures x.cache.Valid() && Fills(s, Now(x, s), x.dev, c)
  {
    x.data := x.data[c := disk[x.cache.bufs[c].blockno]];
    x.cache.MarkValid(c);
  }

  method Release(x: Buffers, c: nat, ghost s: State)
    requires x.cache.Valid() && s == Now(x, s) && |x.data| == B.NBUF && c < B.NBUF && c in x.cache.held
    modifies x.cache
    ensures x.cache.Valid() && Releases(s, Now(x, s), c)
  {
    x.cache.Brelse(c);
  }

  /** The holder's change and the bpin of log_write. */
  method Change(x: Buffers, c: nat, data: Block, isNew: bool, l: Layout, ghost s: State, ghost i: nat)
    requires x.cache.Valid() && s == Now(x, s) && |x.data| == B.NBUF && Pinnable(s.k, x.dev, c) && c in s.held
    requires R.Enabled(l, Logged(s, map[], multiset{}), R.Update(i, s.k.bufs[c].blockno, data))
    requires isNew <==> s.k.bufs[c].blockno !in s.lh
    modifies x, x.cache
    ensures x.cache.Valid()
    ensures var b := s.k.bufs[c].blockno;
            var op := s.ops[i].(logged := s.ops[i].logged + {b as int});
            Updates(l, s, Now(x, s).(ops := s.ops[i := op], lh := if b in s.lh then s.lh else s.lh + [b]), x.dev, i, c,
                data)
  {
    hide R.Enabled;
    x.data := x.data[c := data];
    if isNew {
      x.cache.Bpin(c);
    }
  }
}
