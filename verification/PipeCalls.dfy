/**
 How calls of pipewrite and piperead end and when they sleep (kernel/pipe.c), in every run of
 writers and readers side by side.
 */
module PipeCalls {
  import opened Bytes
  import opened Common
  import opened Pipe
  import opened PipeRuns

  /** The step is one of thread t's own. */
  predicate By(e: Event, t: nat) {
    !e.CloseRead? && !e.CloseWrite? && !e.Killed? && e.t == t
  }

  /** Nobody sleeps until there are bytes; nobody sleeps until there is room. */
  ghost predicate ReadersAwake(s: State) {
    forall q: nat :: q < |s.pcs| ==> !s.pcs[q].RSleep?
  }

  ghost predicate WritersAwake(s: State) {
    forall q: nat :: q < |s.pcs| ==> !s.pcs[q].WSleep?
  }

  /** A reader that copies and has taken nothing yet finds the pipe empty only if nobody will write again. */
  ghost predicate EofOk(s: State, t: nat)
    requires t < |s.pcs|
  {
    s.pcs[t].RCopy? && s.pcs[t].r.used == 0 && Empty(s.ring) ==> !s.writeopen
  }

  lemma EofStep(s: State, e: Event, t: nat)
    requires Enabled(s, e) && t < |s.pcs| && LockOk(s, t) && EofOk(s, t)
    ensures |Step(s, e).pcs| == |s.pcs| && EofOk(Step(s, e), t)
  {
    hide Full, Empty, Next, Put, Take;
  }

  lemma {:induction false} RunsEof(ss: seq<State>, es: seq<Event>, i: nat, t: nat)
    requires IsRun(ss, es) && i < |ss| && t < |ss[i].pcs|
    ensures EofOk(ss[i], t)
  {
    if i > 0 {
      hide Inv, Step, Enabled, EofOk, LockOk;
      RunsKeep(ss, es, i - 1);
      StepLength(ss[i - 1], es[i - 1]);
      assert ss[i] == Step(ss[i - 1], es[i - 1]);
      RunsEof(ss, es, i - 1, t);
      LockOkAt(ss[i - 1], t);
      EofStep(ss[i - 1], es[i - 1], t);
    } else {
      assert ss[0].pcs[t].Idle?;
    }
  }

  lemma LockOkAt(s: State, t: nat)
    requires Inv(s) && t < |s.pcs|
    ensures LockOk(s, t) && WroteOk(s, t) && ReadOk(s, t) && Fifo(s)
  {
    hide LockOk, WroteOk, ReadOk, Fifo;
  }

  /**
   A write returns by its own step, and for one of three reasons: all its bytes are in, in order, and
   nobody who waits for bytes sleeps on; it gave up; or a byte could not be fetched, though the pipe
   had room and a reader.
   */
  lemma WriteReturns(ss: seq<State>, es: seq<Event>, i: nat, t: nat)
    requires IsRun(ss, es) && i < |es| && t < |ss[i].pcs| && Writer(ss[i].pcs[t])
    requires t < |ss[i + 1].pcs| && ss[i + 1].pcs[t].Idle?
    ensures By(es[i], t) && ss[i].pcs[t].WLoop?
    ensures var w, s, n := ss[i].pcs[t].w, ss[i], ss[i + 1];
            && n.put == s.put && w.i <= |w.src| && Mine(s.put, w.from, t) == w.src[..w.i]
            && (es[i].WriteEnd? ==> ReadersAwake(n))
            && (|| (es[i].WriteEnd? && w.i == |w.src|)
                || (es[i].WriteEnd? && w.i < |w.src| && s.readopen && !Full(s.ring))
                || (es[i].WriteAbort? && w.i < |w.src|))
  {
    hide Full, Mine, Inv, Step, Enabled, LockOk, Writer, ReadersAwake;
    RunsKeep(ss, es, i);
    LockOkAt(ss[i], t);
    assert ss[i + 1] == Step(ss[i], es[i]);
    WriteLeaves(ss[i], es[i], t);
  }

  lemma WriteLeaves(s: State, e: Event, t: nat)
    requires Enabled(s, e) && t < |s.pcs| && Writer(s.pcs[t]) && LockOk(s, t)
    requires t < |Step(s, e).pcs| && Step(s, e).pcs[t].Idle?
    ensures By(e, t) && s.pcs[t].WLoop? && Step(s, e).put == s.put && (e.WriteEnd? || e.WriteAbort?)
    ensures e.WriteEnd? ==> ReadersAwake(Step(s, e))
    ensures s.pcs[t].w.i < |s.pcs[t].w.src| && e.WriteEnd? ==> s.readopen && !Full(s.ring)
    ensures e.WriteAbort? ==> s.pcs[t].w.i < |s.pcs[t].w.src|
  {
    hide Full, Empty, Next, Put, Take;
  }

  /**
   A read returns by its own step. Killed, it gives up before it took anything. Otherwise it has
   delivered what it took, but for a byte that could not be copied out, and has all it asked for or
   left the pipe empty; it delivers nothing at all only at the end of the file.
   */
  lemma ReadReturns(ss: seq<State>, es: seq<Event>, i: nat, t: nat)
    requires IsRun(ss, es) && i < |es| && t < |ss[i].pcs| && Reader(ss[i].pcs[t])
    requires t < |ss[i + 1].pcs| && ss[i + 1].pcs[t].Idle?
    ensures By(es[i], t) && ss[i + 1].taken == ss[i].taken && (es[i].ReadAbort? || es[i].ReadEnd?)
    ensures es[i].ReadAbort? ==>
              var r := ss[i].pcs[t].r; r.got == [] == Mine(ss[i].taken, r.from, t) && |ss[i].put| == |ss[i].taken|
    ensures es[i].ReadEnd? ==>
              && WritersAwake(ss[i + 1])
              && var r := ss[i].pcs[t].r; var mine := Mine(ss[i].taken, r.from, t);
              if ss[i].pcs[t].RLeave? then mine != [] && r.got == mine[..|mine| - 1]
              else
                && r.got == mine
                && (|r.got| == r.n || |ss[i].put| == |ss[i].taken|)
                && (r.got == [] && r.n > 0 ==> !ss[i].writeopen && |ss[i].put| == |ss[i].taken|)
  {
    hide Full, Empty, Mine, Inv, Step, Enabled, LockOk, Reader, WritersAwake;
    RunsKeep(ss, es, i);
    LockOkAt(ss[i], t);
    RunsEof(ss, es, i, t);
    TestsAreRight(ss[i].ring, Values(ss[i].put), |ss[i].taken|);
    assert ss[i + 1] == Step(ss[i], es[i]);
    ReadLeaves(ss[i], es[i], t);
  }

  lemma ReadLeaves(s: State, e: Event, t: nat)
    requires Enabled(s, e) && t < |s.pcs| && Reader(s.pcs[t]) && LockOk(s, t)
    requires t < |Step(s, e).pcs| && Step(s, e).pcs[t].Idle?
    ensures By(e, t) && Step(s, e).taken == s.taken && (e.ReadAbort? || e.ReadEnd?)
    ensures e.ReadAbort? ==> s.pcs[t].RCheck? && Empty(s.ring)
    ensures e.ReadEnd? ==> WritersAwake(Step(s, e)) && (s.pcs[t].RLeave? || s.pcs[t].RCopy?)
    ensures e.ReadEnd? && s.pcs[t].RCopy? ==> |s.pcs[t].r.got| >= s.pcs[t].r.n || Empty(s.ring)
  {
    hide Full, Empty, Next, Put, Take;
  }

  /** With the lock, a writer that has bytes left sleeps exactly when the pipe is full, and tells the readers first. */
  lemma WriterTurns(s: State, e: Event, t: nat)
    requires Enabled(s, e) && t < |s.pcs| && s.pcs[t].WLoop? && By(e, t) && s.pcs[t].w.i < |s.pcs[t].w.src|
    ensures |Step(s, e).pcs| == |s.pcs|
    ensures !e.WriteAbort? ==>
              var n, w := Step(s, e), s.pcs[t].w;
              && s.readopen
              && (Full(s.ring) <==> n.pcs[t].WSleep?)
              && (Full(s.ring) ==>
                    && n.pcs[t].w.(untold := w.untold) == w && n.lock.None? && n.put == s.put
                    && ReadersAwake(n))
              && (!Full(s.ring) && e.WriteByte? ==>
                    && n.pcs[t].WLoop? && n.pcs[t].w.i == w.i + 1 && n.pcs[t].w.src == w.src
                    && n.put == s.put + [Moved(w.src[w.i], t)])
              && (!Full(s.ring) && !e.WriteByte? ==> n.pcs[t].Idle? && e.WriteEnd?)
  {
    hide Put, Take, Next, Full, Empty;
    StepLength(s, e);
  }

  /** With the lock, a reader that has taken nothing sleeps exactly when the pipe is empty and a writer is there. */
  lemma ReaderTurns(s: State, e: Event, t: nat)
    requires Enabled(s, e) && t < |s.pcs| && s.pcs[t].RCheck? && By(e, t)
    ensures |Step(s, e).pcs| == |s.pcs|
    ensures var n, r := Step(s, e), s.pcs[t].r;
            if Empty(s.ring) && s.writeopen then
              n.lock.None? && (n.pcs[t] == RSleep(r) || (e.ReadAbort? && n.pcs[t].Idle?))
            else n.pcs[t] == RCopy(r) && n.lock == s.lock
  {
    hide Put, Take, Next, Full, Empty;
    StepLength(s, e);
  }

  /** A sleeping reader wakes exactly when a writer filled the pipe or is done, writing ends, or it is killed. */
  lemma ReaderWakes(s: State, e: Event, t: nat)
    requires Enabled(s, e) && t < |s.pcs| && s.pcs[t].RSleep? && LockOk(s, t)
    ensures |Step(s, e).pcs| == |s.pcs|
    ensures Step(s, e).pcs[t] ==
            if e.WriteSleep? || e.WriteEnd? || e.CloseWrite? || e == Killed(t) then RWait(s.pcs[t].r) else s.pcs[t]
  {
    hide Put, Take, Next, Full, Empty;
    StepLength(s, e);
  }

  /** A sleeping writer wakes exactly when a reader is done, the read end closes, or it is killed. */
  lemma WriterWakes(s: State, e: Event, t: nat)
    requires Enabled(s, e) && t < |s.pcs| && s.pcs[t].WSleep? && LockOk(s, t)
    ensures |Step(s, e).pcs| == |s.pcs|
    ensures Step(s, e).pcs[t] == if e.ReadEnd? || e.CloseRead? || e == Killed(t) then WWait(s.pcs[t].w) else s.pcs[t]
  {
    hide Put, Take, Next, Full, Empty;
    StepLength(s, e);
  }
}
