/**
 When log_write panics with "too big a transaction" although its caller has kept to its
 reservation (kernel/log.c, begin_op and log_write).

 log_write asks whether the log is full before it asks whether the block is in the log already.
 */
module LogPanic {
  import Common
  import opened LogDisk
  import opened Log
  import opened LogRuns

  /** The test log_write makes first. */
  predicate Panics(l: Layout, s: State) {
    |s.lh| >= LOGSIZE || |s.lh| >= l.size - 1
  }

  /** Operation i calls log_write on home block b, within the MAXOPBLOCKS blocks it may write. */
  ghost predicate Due(l: Layout, s: State, i: nat, b: nat) {
    i < |s.ops| && b < |s.disk| && !l.InLog(b) && |s.ops[i].logged + {b as int}| <= MAXOPBLOCKS
  }

  /** A run goes on past such a call exactly when it does not panic. */
  lemma PanicEndsTheRun(l: Layout, s: State, i: nat, b: nat, data: Block)
    requires Due(l, s, i, b)
    ensures Enabled(l, s, Update(i, b, data)) <==> !Panics(l, s)
  {
  }

  /** A call for a block that is not in the log, or one that is, panics. */
  ghost predicate NewBlockStuck(l: Layout, s: State) {
    exists i, b :: Due(l, s, i, b) && b !in s.lh && Panics(l, s)
  }

  ghost predicate KnownBlockStuck(l: Layout, s: State) {
    exists i, b :: Due(l, s, i, b) && b in s.lh && Panics(l, s)
  }

  ghost predicate Reaches(l: Layout, d: Disk, s: State) {
    exists ss, es :: RunTo(l, d, ss, es, s)
  }

  ghost predicate RunTo(l: Layout, d: Disk, ss: seq<State>, es: seq<Event>, s: State) {
    IsRun(l, ss, es) && ss[0].disk == d && ss[|es|] == s
  }

  /** A disk to boot from, with LOGSIZE home blocks behind the log. */
  ghost predicate Bootable(l: Layout, d: Disk) {
    l.Fits(|d|) && d[l.start][0] == 0 && l.start + l.size + LOGSIZE <= |d|
  }

  // ------------------------------------------------------------------ what no run can reach

  /** While an operation still has a new block to log, the log holds fewer than LOGSIZE. */
  lemma NewBlockFits(l: Layout, s: State, i: nat, b: nat)
    requires SpaceInv(s) && Due(l, s, i, b) && b !in s.lh
    ensures |s.lh| < LOGSIZE
  {
    UnusedAt(s.ops, i);
    assert b as int !in s.ops[i].logged;
    UnusedBound(Without(s.ops, i));
  }

  /** A full log means that every outstanding operation has logged all the blocks it may. */
  lemma FullMeansUsedUp(s: State, i: nat)
    requires SpaceInv(s) && |s.lh| >= LOGSIZE && i < |s.ops|
    ensures |s.ops[i].logged| == MAXOPBLOCKS
  {
    UnusedAt(s.ops, i);
    UnusedBound(Without(s.ops, i));
  }

  lemma {:induction false} LogFits(l: Layout, ss: seq<State>, es: seq<Event>, k: nat)
    requires IsRun(l, ss, es) && k < |ss|
    ensures |ss[k].lh| <= l.size - 1
  {
    if k > 0 {
      LogFits(l, ss, es, k - 1);
      assert ss[k - 1 + 1] == Step(l, ss[k - 1], es[k - 1]);
      hide IsRun;
      LogFitsStep(l, ss[k - 1], es[k - 1]);
    }
  }

  lemma LogFitsStep(l: Layout, s: State, e: Event)
    requires Enabled(l, s, e) && 1 <= l.size && |s.lh| <= l.size - 1
    ensures |Step(l, s, e).lh| <= l.size - 1
  {
    hide PhaseOk, Plan, HeadOk, Recover, CrashingRecovery, Pick, Through, Put;
  }

  // --------------------------------------------------------------------- filling the log

  function Interval(lo: int, hi: int): (r: set<int>)
    ensures lo <= hi ==> |r| == hi - lo
    ensures forall x :: x in r <==> lo <= x < hi
    decreases hi - lo
  {
    if lo < hi then Interval(lo, hi - 1) + {hi - 1} else {}
  }

  /** The first home block behind the log. */
  function Home(l: Layout): nat {
    l.start + l.size
  }

  /** Of the first n home blocks, those that operation j has logged: ten each, in order. */
  function Share(l: Layout, j: nat, n: nat): set<int> {
    Interval(Home(l) + j * MAXOPBLOCKS, Home(l) + (if n < (j + 1) * MAXOPBLOCKS then n else (j + 1) * MAXOPBLOCKS))
  }

  ghost predicate Filled(l: Layout, s: State, len: nat, n: nat) {
    && |s.disk| == len && |s.lh| == n && (forall k :: 0 <= k < n ==> s.lh[k] == Home(l) + k)
    && |s.ops| == 3 && (forall j :: 0 <= j < 3 ==> s.ops[j].logged == Share(l, j, n))
  }

  lemma RunSnoc(l: Layout, d: Disk, ss: seq<State>, es: seq<Event>, s: State, e: Event)
    requires RunTo(l, d, ss, es, s) && Enabled(l, s, e)
    ensures RunTo(l, d, ss + [Step(l, s, e)], es + [e], Step(l, s, e))
  {
    hide Enabled, Step, Booted;
    var tt, fs := ss + [Step(l, s, e)], es + [e];
    forall i | 0 <= i < |fs| ensures Enabled(l, tt[i], fs[i]) && tt[i + 1] == Step(l, tt[i], fs[i]) {
      if i < |es| {
        assert ss[i + 1] == Step(l, ss[i], es[i]);
      }
    }
  }

  lemma ReachSnoc(l: Layout, d: Disk, s: State, e: Event)
    requires Reaches(l, d, s) && Enabled(l, s, e)
    ensures Reaches(l, d, Step(l, s, e))
  {
    var ss, es :| RunTo(l, d, ss, es, s);
    hide Enabled, Step, RunTo;
    RunSnoc(l, d, ss, es, s, e);
  }

  lemma ReachBoot(l: Layout, d: Disk)
    requires Bootable(l, d)
    ensures Reaches(l, d, State(d, map[], multiset{}, [], [], Running))
  {
    var s := State(d, map[], multiset{}, [], [], Running);
    assert RunTo(l, d, [s], [], s);
  }

  /** begin_op admits three operations to an empty log. */
  lemma ThreeBegin(l: Layout, d: Disk) returns (s: State)
    requires Bootable(l, d)
    ensures Reaches(l, d, s) && Filled(l, s, |d|, 0)
  {
    hide Reaches;
    s := State(d, map[], multiset{}, [], [], Running);
    ReachBoot(l, d);
    ReachSnoc(l, d, s, Begin(0));
    s := Step(l, s, Begin(0));
    ReachSnoc(l, d, s, Begin(1));
    s := Step(l, s, Begin(1));
    ReachSnoc(l, d, s, Begin(2));
    s := Step(l, s, Begin(2));
    NoShare(l);
  }

  lemma NoShare(l: Layout)
    ensures forall j: nat :: j < 3 ==> Share(l, j, 0) == {}
  {
    forall j: nat | j < 3 ensures Share(l, j, 0) == {} {
      assert forall x :: x !in Share(l, j, 0);
    }
  }

  /** They log the home blocks in order, ten each. */
  lemma {:induction false} FillLog(l: Layout, d: Disk, n: nat) returns (s: State)
    requires Bootable(l, d) && n <= LOGSIZE && n <= l.size - 1
    ensures Reaches(l, d, s) && Filled(l, s, |d|, n)
  {
    if n == 0 {
      s := ThreeBegin(l, d);
    } else {
      hide Reaches;
      var t := FillLog(l, d, n - 1);
      s := FillOne(l, d, t, n - 1);
    }
  }

  lemma FillOne(l: Layout, d: Disk, s: State, n: nat) returns (t: State)
    requires Bootable(l, d) && Reaches(l, d, s) && Filled(l, s, |d|, n) && n < LOGSIZE && n < l.size - 1
    ensures Reaches(l, d, t) && Filled(l, t, |d|, n + 1)
  {
    hide Reaches, Share;
    var i, b := n / MAXOPBLOCKS, Home(l) + n;
    ShareGrows(l, n);
    ReachSnoc(l, d, s, Update(i, b, Zeroes));
    t := Step(l, s, Update(i, b, Zeroes));
    assert b !in s.lh;
  }

  lemma ShareAt(l: Layout, j: nat, n: nat)
    requires j < 3 && n < LOGSIZE
    ensures if j * MAXOPBLOCKS <= n < (j + 1) * MAXOPBLOCKS
            then Share(l, j, n + 1) == Share(l, j, n) + {Home(l) + n} && |Share(l, j, n + 1)| <= MAXOPBLOCKS
            else Share(l, j, n + 1) == Share(l, j, n)
  {
  }

  lemma ShareGrows(l: Layout, n: nat)
    requires n < LOGSIZE
    ensures var i, b := n / MAXOPBLOCKS, Home(l) + n;
            && i < 3 && Share(l, i, n) + {b as int} == Share(l, i, n + 1) && |Share(l, i, n + 1)| <= MAXOPBLOCKS
            && forall j: nat :: j < 3 && j != i ==> Share(l, j, n + 1) == Share(l, j, n)
  {
    var i := if n < 10 then 0 else if n < 20 then 1 else 2;
    Common.DivUnique(n, MAXOPBLOCKS, i, n - MAXOPBLOCKS * i);
    ShareAt(l, i, n);
    forall j: nat | j < 3 && j != i ensures Share(l, j, n + 1) == Share(l, j, n) {
      ShareAt(l, j, n);
    }
  }

  // -------------------------------------------------------------------------- the two theorems

  /** The log with its last slot but the header's taken, and an operation with a new block. */
  lemma NewBlockReached(l: Layout, d: Disk) returns (s: State)
    requires Bootable(l, d) && l.size <= LOGSIZE
    ensures Reaches(l, d, s) && Filled(l, s, |d|, l.size - 1)
    ensures var i, b := (l.size - 1) / MAXOPBLOCKS, Home(l) + l.size - 1;
            Due(l, s, i, b) && b !in s.lh && Panics(l, s)
  {
    hide Reaches, Share;
    s := FillLog(l, d, l.size - 1);
    ShareGrows(l, l.size - 1);
  }

  /**
   A log_write of a new block within its reservation can find the log full exactly when the log
   area has no room for a header and LOGSIZE blocks.
   */
  lemma NewBlockPanics(l: Layout, d: Disk)
    requires Bootable(l, d)
    ensures (exists s :: Reaches(l, d, s) && NewBlockStuck(l, s)) <==> l.size <= LOGSIZE
  {
    if l.size <= LOGSIZE {
      var s := NewBlockReached(l, d);
      assert NewBlockStuck(l, s);
    }
    forall s | Reaches(l, d, s) && NewBlockStuck(l, s) ensures l.size <= LOGSIZE {
      var i, b :| Due(l, s, i, b) && b !in s.lh && Panics(l, s);
      var ss, es :| RunTo(l, d, ss, es, s);
      LogSpace(l, ss, es, |es|);
      NewBlockFits(l, s, i, b);
    }
  }

  /**
   A log_write of a block that is in the log already, which needs no room, can find the log full
   in every layout that can log a block at all.
   */
  lemma KnownBlockPanics(l: Layout, d: Disk)
    requires Bootable(l, d)
    ensures (exists s :: Reaches(l, d, s) && KnownBlockStuck(l, s)) <==> l.size >= 2
  {
    if l.size >= 2 {
      var n := if l.size - 1 < LOGSIZE then l.size - 1 else LOGSIZE;
      var s := FillLog(l, d, n);
      assert s.lh[0] == Home(l);
      assert Home(l) as int in Share(l, 0, n);
      assert s.ops[0].logged + {Home(l) as int} == Share(l, 0, n);
      assert Due(l, s, 0, Home(l)) && Home(l) in s.lh && Panics(l, s);
    }
    forall s | Reaches(l, d, s) && KnownBlockStuck(l, s) ensures l.size >= 2 {
      var i, b :| Due(l, s, i, b) && b in s.lh && Panics(l, s);
      var ss, es :| RunTo(l, d, ss, es, s);
      LogFits(l, ss, es, |es|);
    }
  }

  /** With room for LOGSIZE blocks, an operation that logs fewer than MAXOPBLOCKS never panics. */
  lemma OneSpareBlockIsEnough(l: Layout, ss: seq<State>, es: seq<Event>, i: nat, b: nat)
    requires IsRun(l, ss, es) && l.size > LOGSIZE && Due(l, ss[|es|], i, b)
    requires |ss[|es|].ops[i].logged| < MAXOPBLOCKS
    ensures !Panics(l, ss[|es|])
  {
    LogSpace(l, ss, es, |es|);
    if |ss[|es|].lh| >= LOGSIZE {
      FullMeansUsedUp(ss[|es|], i);
    }
  }

  /**
   The image mkfs builds has its log at block 2 with LOGSIZE blocks in all: the tenth block of
   the third operation finds 29 blocks logged, and panics.
   */
  lemma MkfsLayoutPanics(d: Disk) returns (s: State)
    requires |d| == 2000 && d[2][0] == 0
    ensures var l := Layout(2, LOGSIZE);
            && Reaches(l, d, s) && |s.lh| == 29 && |s.ops| == 3 && |s.ops[2].logged| == 9
            && Due(l, s, 2, 61) && 61 !in s.lh && Panics(l, s)
  {
    s := NewBlockReached(Layout(2, LOGSIZE), d);
    assert s.ops[2].logged == Share(Layout(2, LOGSIZE), 2, 29);
  }
}
