/**
 Runs of the virtio disk driver from the state virtio_disk_init leaves (kernel/virtio_disk.c):
 what holds in every state and across every step, however requests, device and interrupts
 interleave.
 */
module VirtioRuns {
  import opened VirtioQueue
  import opened VirtioProtocol

  /** Every descriptor free, every index 0, and nothing requested yet. */
  ghost predicate Start(s: State) {
    && Sized(s) && (forall i: nat :: i < NUM ==> s.free[i])
    && s.availIdx == 0 && s.usedIdx == 0 && s.seen == 0 && s.next == 0 && s.taken == {}
    && (forall b: nat :: b < |s.busy| ==> !s.busy[b])
    && s.reqs == map[] && s.own == map[] && s.posted == [] && s.completed == [] && s.nTaken == 0 && s.nSeen == 0
  }

  ghost predicate IsRun(ss: seq<State>, es: seq<Event>) {
    && |ss| == |es| + 1 && Start(ss[0])
    && forall i: nat :: i < |es| ==> Taken(ss, es, i)
  }

  ghost predicate Taken(ss: seq<State>, es: seq<Event>, i: nat)
    requires i < |es| && |ss| == |es| + 1
  {
    Enabled(ss[i], es[i]) && ss[i + 1] == Step(ss[i], es[i])
  }

  /** Over every interleaving of requests, device steps and interrupts. */
  lemma {:induction false} RunsKeep(ss: seq<State>, es: seq<Event>, i: nat)
    requires IsRun(ss, es) && i < |ss|
    ensures Inv(ss[i])
  {
    if i > 0 {
      hide Inv, Enabled, Step, Start;
      RunsKeep(ss, es, i - 1);
      assert Taken(ss, es, i - 1);
      StepKeeps(ss[i - 1], es[i - 1]);
    }
  }

  // ---------------------------------------------------------------------------- descriptors

  predicate Uses(s: State, h: nat, i: nat) {
    h in s.reqs && i in s.reqs[h].idx
  }

  /** A descriptor is free, or part of the chain of one request in flight. */
  lemma RunsPartition(ss: seq<State>, es: seq<Event>, n: nat, i: nat)
    requires IsRun(ss, es) && n < |ss| && i < NUM
    ensures Sized(ss[n])
    ensures ss[n].free[i] <==> forall h :: !Uses(ss[n], h, i)
    ensures forall g, h :: Uses(ss[n], g, i) && Uses(ss[n], h, i) ==> g == h
  {
    RunsKeep(ss, es, n);
    var s := ss[n];
    assert DescOk(s, i);
    forall h | Uses(s, h, i) ensures i in s.own && s.own[i] == h {
      assert ReqOk(s, h);
      var k :| 0 <= k < |s.reqs[h].idx| && s.reqs[h].idx[k] == i;
      assert s.reqs[h].idx[k] in s.own;
    }
    if i in s.own {
      assert Uses(s, s.own[i], i);
    }
  }

  /** What a request is, apart from its progress. */
  predicate SameRequest(s: State, t: State, h: nat) {
    h in s.reqs && h in t.reqs && t.reqs[h] == s.reqs[h].(phase := t.reqs[h].phase)
  }

  lemma RequestStays(s: State, e: Event, h: nat)
    requires Inv(s) && Enabled(s, e) && h in s.reqs && e != Finish(h)
    ensures SameRequest(s, Step(s, e), h)
  {
    hide Formatted, SetAll, ChainOk, ProgressOk, PostedOk, DoneOk, OneBuffer;
    if e.Prepare? {
      FreshHead(s, e.idx);
    }
  }

  /** Until the driver has finished with a request, no step touches its descriptors. */
  lemma ChainIsNotReused(ss: seq<State>, es: seq<Event>, n: nat, h: nat, i: nat)
    requires IsRun(ss, es) && n < |es| && Uses(ss[n], h, i) && es[n] != Finish(h)
    ensures Sized(ss[n]) && Sized(ss[n + 1]) && i < NUM
    ensures Uses(ss[n + 1], h, i) && ss[n + 1].desc[i] == ss[n].desc[i] && !ss[n + 1].free[i]
  {
    hide Inv, Enabled, Step;
    RunsKeep(ss, es, n);
    RunsKeep(ss, es, n + 1);
    assert Taken(ss, es, n);
    RequestStays(ss[n], es[n], h);
    ChainAt(ss[n], h, i);
    ChainAt(ss[n + 1], h, i);
    SameChain(ss[n], ss[n + 1], h, i);
  }

  /** What a descriptor of a request is for. */
  lemma ChainAt(s: State, h: nat, i: nat)
    requires Inv(s) && Uses(s, h, i)
    ensures Sized(s) && ChainOk(s, h) && i < NUM && !s.free[i]
  {
    hide ProgressOk, PostedOk, DoneOk, OneBuffer;
    assert ReqOk(s, h);
    var k :| 0 <= k < |s.reqs[h].idx| && s.reqs[h].idx[k] == i;
    assert s.reqs[h].idx[k] in s.own;
    assert DescOk(s, i);
  }

  lemma SameChain(s: State, t: State, h: nat, i: nat)
    requires Sized(s) && Sized(t) && SameRequest(s, t, h) && ChainOk(s, h) && ChainOk(t, h) && Uses(s, h, i) && i < NUM
    ensures Uses(t, h, i) && t.desc[i] == s.desc[i]
  {
    var k :| 0 <= k < |s.reqs[h].idx| && s.reqs[h].idx[k] == i;
    assert k == 0 || k == 1 || k == 2;
  }

  // ----------------------------------------------------------------------------------- rings

  lemma HistoryGrows(s: State, e: Event)
    requires Enabled(s, e)
    ensures s.posted <= Step(s, e).posted && s.completed <= Step(s, e).completed
    ensures s.nTaken <= Step(s, e).nTaken && s.nSeen <= Step(s, e).nSeen
  {
    hide Formatted, SetAll, LockFree, BufferIdle, Picked;
  }

  /** No slot of the avail ring is written again before the device has read it, though indices wrap. */
  lemma AvailIsNotReused(ss: seq<State>, es: seq<Event>, n: nat, k: nat)
    requires IsRun(ss, es) && n < |es| && ss[n + 1].nTaken <= k < |ss[n].posted|
    ensures Sized(ss[n]) && Sized(ss[n + 1])
    ensures ss[n + 1].avail[k % NUM] == ss[n].avail[k % NUM] == ss[n].posted[k]
  {
    RunsKeep(ss, es, n);
    RunsKeep(ss, es, n + 1);
    assert Taken(ss, es, n);
    HistoryGrows(ss[n], es[n]);
    assert PostedOk(ss[n], k) && PostedOk(ss[n + 1], k);
  }

  /** Nor a slot of the used ring before the driver has read it. */
  lemma UsedIsNotReused(ss: seq<State>, es: seq<Event>, n: nat, k: nat)
    requires IsRun(ss, es) && n < |es| && ss[n + 1].nSeen <= k < |ss[n].completed|
    ensures Sized(ss[n]) && Sized(ss[n + 1])
    ensures ss[n + 1].used[k % NUM] == ss[n].used[k % NUM] == ss[n].completed[k]
  {
    RunsKeep(ss, es, n);
    RunsKeep(ss, es, n + 1);
    assert Taken(ss, es, n);
    HistoryGrows(ss[n], es[n]);
    assert DoneOk(ss[n], k) && DoneOk(ss[n + 1], k);
  }

  /** The device always finds a whole chain, and the handler panics exactly of a request that the device failed. */
  lemma RunsDoNotPanic(ss: seq<State>, es: seq<Event>, n: nat)
    requires IsRun(ss, es) && n < |ss|
    ensures var s := ss[n];
            && Sized(s) && (forall h, result :: h in s.taken ==> Enabled(s, Complete(h, result)))
            && (LockFree(s) && s.seen != s.usedIdx ==> (Enabled(s, Interrupt) <==> !Failed(s)))
            && (s.next != s.availIdx ==> s.avail[s.next % NUM] in s.reqs)
  {
    RunsKeep(ss, es, n);
    hide Enabled;
    NoPanics(ss[n]);
  }

  // ------------------------------------------------------------------------------ completions

  /** Step n is the interrupt handler dealing with the request whose head is h. */
  ghost predicate Releases(ss: seq<State>, es: seq<Event>, n: nat, h: nat)
    requires n < |es| && |ss| == |es| + 1
  {
    es[n] == Interrupt && Sized(ss[n]) && ss[n].used[ss[n].seen % NUM] == h
  }

  /** The handler frees the buffer of the request that completed, which was still waiting, and no other. */
  lemma RightBuffer(ss: seq<State>, es: seq<Event>, n: nat, h: nat)
    requires IsRun(ss, es) && n < |es| && Releases(ss, es, n, h)
    ensures var s, t := ss[n], ss[n + 1];
            && h in s.reqs && s.reqs[h].phase.Done? && h in t.reqs && t.reqs[h].phase == Seen
            && s.reqs[h].buf < |s.busy| && s.busy[s.reqs[h].buf] && t.busy == s.busy[s.reqs[h].buf := false]
  {
    RunsKeep(ss, es, n);
    assert Taken(ss, es, n);
    hide Inv;
    InterruptReleases(ss[n]);
  }

  /** A request the handler has dealt with stays so until its process takes it back. */
  lemma SeenStays(s: State, e: Event, h: nat)
    requires Inv(s) && Enabled(s, e) && h in s.reqs && s.reqs[h].phase == Seen && e != Finish(h)
    ensures h in Step(s, e).reqs && Step(s, e).reqs[h].phase == Seen
  {
    hide Formatted, SetAll, ChainOk, OneBuffer;
    match e {
      case Prepare(idx, _, _) => FreshHead(s, idx);
      case Take => TakesNext(s);
      case Complete(g, result) => CompletesOwn(s, g, result);
      case Interrupt => InterruptReleases(s);
      case _ =>
    }
  }

  lemma {:induction false} SeenUntil(ss: seq<State>, es: seq<Event>, n: nat, m: nat, h: nat)
    requires IsRun(ss, es) && n <= m < |ss| && h in ss[n].reqs && ss[n].reqs[h].phase == Seen
    requires forall k: nat :: n <= k < m ==> es[k] != Finish(h)
    ensures h in ss[m].reqs && ss[m].reqs[h].phase == Seen
    decreases m - n
  {
    if n < m {
      hide Enabled, Step, Start, Inv;
      SeenUntil(ss, es, n, m - 1, h);
      RunsKeep(ss, es, m - 1);
      assert Taken(ss, es, m - 1);
      SeenStays(ss[m - 1], es[m - 1], h);
    }
  }

  /** A request is released at most once: between two releases under one head, its process has finished. */
  lemma ReleasedOnce(ss: seq<State>, es: seq<Event>, n: nat, m: nat, h: nat)
    requires IsRun(ss, es) && n < m < |es| && Releases(ss, es, n, h) && Releases(ss, es, m, h)
    ensures exists k: nat :: n < k < m && es[k] == Finish(h)
  {
    hide Start;
    RightBuffer(ss, es, n, h);
    RightBuffer(ss, es, m, h);
    if forall k: nat :: n < k < m ==> es[k] != Finish(h) {
      SeenUntil(ss, es, n + 1, m, h);
    }
  }

  ghost predicate NoFinish(es: seq<Event>, lo: nat, hi: nat, h: nat) {
    hi <= |es| && forall k: nat :: lo <= k < hi ==> es[k] != Finish(h)
  }

  /** ... and at least once: a process that finds its buffer idle has been released, and not just its predecessor. */
  lemma FinishedWasReleased(ss: seq<State>, es: seq<Event>, n: nat, h: nat)
    requires IsRun(ss, es) && n < |es| && es[n] == Finish(h)
    ensures exists k: nat :: k < n && Releases(ss, es, k, h) && NoFinish(es, k, n, h)
  {
    RunsKeep(ss, es, n);
    assert Taken(ss, es, n);
    FinishedIsSeen(ss[n], h);
    SeenCame(ss, es, n, h);
  }

  lemma {:induction false} SeenCame(ss: seq<State>, es: seq<Event>, n: nat, h: nat)
    requires IsRun(ss, es) && n < |ss| && h in ss[n].reqs && ss[n].reqs[h].phase == Seen
    ensures exists k: nat :: k < n && k < |es| && Releases(ss, es, k, h) && NoFinish(es, k, n, h)
  {
    hide Start, Inv, Enabled, Step;
    if n == 0 {
      StartIsIdle(ss[0]);
    } else {
      RunsKeep(ss, es, n - 1);
      assert Taken(ss, es, n - 1);
      SeenBefore(ss[n - 1], es[n - 1], h);
      if Releases(ss, es, n - 1, h) {
        assert NoFinish(es, n - 1, n, h);
      } else {
        SeenCame(ss, es, n - 1, h);
        var k: nat :| k < n - 1 && Releases(ss, es, k, h) && NoFinish(es, k, n - 1, h);
        assert NoFinish(es, k, n, h);
      }
    }
  }

  lemma StartIsIdle(s: State)
    requires Start(s)
    ensures s.reqs == map[]
  {
  }

  lemma SeenBefore(s: State, e: Event, h: nat)
    requires Inv(s) && Enabled(s, e) && h in Step(s, e).reqs && Step(s, e).reqs[h].phase == Seen
    ensures e != Finish(h)
    ensures (h in s.reqs && s.reqs[h].phase == Seen) || (e == Interrupt && Sized(s) && s.used[s.seen % NUM] == h)
  {
    hide Formatted, SetAll, ChainOk, OneBuffer, PostedOk, DoneOk, ProgressOk;
  }

  // --------------------------------------------------------------------------- a request's way

  /** Where a step takes a request: published, taken in that order, completed, seen in that order. */
  ghost function Moved(s: State, e: Event, h: nat): Phase
    requires h in s.reqs
  {
    var p := s.reqs[h].phase;
    if e == Publish(h) then Posted(|s.posted|)
    else if e == Event.Take && p == Posted(s.nTaken) then Phase.Taken
    else if e.Complete? && e.h == h then Done(|s.completed|, e.result)
    else if e == Interrupt && p == Done(s.nSeen, 0) then Seen
    else p
  }

  lemma RequestMoves(s: State, e: Event, h: nat)
    requires Inv(s) && Enabled(s, e) && h in s.reqs
    ensures h in Step(s, e).reqs <==> e != Finish(h)
    ensures h in Step(s, e).reqs ==> Step(s, e).reqs[h] == s.reqs[h].(phase := Moved(s, e, h))
  {
    hide Formatted, SetAll, ChainOk, OneBuffer, DescOk, ProgressOk, PostedOk, DoneOk, Inv;
    TurnOf(s, h);
    match e {
      case Prepare(idx, _, _) => FreshHead(s, idx);
      case Take => TakesNext(s);
      case Complete(g, result) => CompletesOwn(s, g, result);
      case Interrupt => InterruptReleases(s);
      case _ =>
    }
  }

  /** A request's number is its place in the order of its side. */
  lemma TurnOf(s: State, h: nat)
    requires Inv(s) && h in s.reqs
    ensures s.reqs[h].phase.Posted? ==>
              s.reqs[h].phase.at < |s.posted| && s.posted[s.reqs[h].phase.at] == h
    ensures s.reqs[h].phase.Done? ==>
              s.reqs[h].phase.at < |s.completed| && s.completed[s.reqs[h].phase.at] == h
  {
    hide ChainOk, DescOk, PostedOk, DoneOk, OneBuffer;
    assert ReqOk(s, h);
  }

  /** A request is made of three free descriptors, which no longer are, and marks its buffer busy. */
  lemma PrepareTakes(s: State, idx: seq<nat>, buf: nat, write: bool)
    requires Inv(s) && Enabled(s, Prepare(idx, buf, write))
    ensures var t := Step(s, Prepare(idx, buf, write));
            && idx[0] !in s.reqs && t.reqs == s.reqs[idx[0] := Req(idx, buf, write, Ready)]
            && |t.busy| == |s.busy| && t.busy[buf] && Sized(t)
            && forall i: nat :: i < NUM ==> t.free[i] == (s.free[i] && i !in idx)
  {
    hide ChainOk, ProgressOk, OneBuffer, PostedOk, DoneOk;
    FreshHead(s, idx);
    assert idx == [idx[0], idx[1], idx[2]];
  }

  /** Finishing a request frees its three descriptors and no others. */
  lemma FinishFrees(s: State, h: nat)
    requires Inv(s) && Enabled(s, Finish(h))
    ensures var t := Step(s, Finish(h));
            && t.reqs == s.reqs - {h} && t.busy == s.busy && Sized(t)
            && (forall i: nat :: i < NUM ==> t.free[i] == (s.free[i] || i in s.reqs[h].idx))
            && |s.reqs[h].idx| == 3 && forall k :: 0 <= k < 3 ==> s.reqs[h].idx[k] < NUM && !s.free[s.reqs[h].idx[k]]
  {
    hide ProgressOk, OneBuffer, PostedOk, DoneOk, Formatted;
    FinishedIsSeen(s, h);
    assert ChainOk(s, h);
  }

  /** A request goes from published to finished one phase at a time, and rings that wrap keep the order of each side. */
  lemma RequestLife(ss: seq<State>, es: seq<Event>, n: nat, h: nat)
    requires IsRun(ss, es) && n < |es| && h in ss[n].reqs
    ensures if es[n] == Finish(h) then h !in ss[n + 1].reqs && ss[n].reqs[h].phase == Seen
            else h in ss[n + 1].reqs && ss[n + 1].reqs[h] == ss[n].reqs[h].(phase := Moved(ss[n], es[n], h))
    ensures es[n] == Event.Take ==>
              ss[n].nTaken < |ss[n].posted| && ss[n].posted[ss[n].nTaken] in ss[n].reqs
              && ss[n].reqs[ss[n].posted[ss[n].nTaken]].phase == Posted(ss[n].nTaken)
    ensures es[n] == Interrupt ==>
              ss[n].nSeen < |ss[n].completed| && ss[n].completed[ss[n].nSeen] in ss[n].reqs
              && ss[n].reqs[ss[n].completed[ss[n].nSeen]].phase == Done(ss[n].nSeen, 0)
  {
    RunsKeep(ss, es, n);
    assert Taken(ss, es, n);
    hide Inv, Enabled, Step;
    RequestMoves(ss[n], es[n], h);
    match es[n] {
      case Take => TakesNext(ss[n]);
      case Interrupt => InterruptReleases(ss[n]);
      case Finish(g) => FinishedIsSeen(ss[n], g);
      case _ =>
    }
  }
}
