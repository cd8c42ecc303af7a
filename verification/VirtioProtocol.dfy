/**
 The driver, the device and the interrupt handler of the virtio disk as one machine
 (kernel/virtio_disk.c, virtio_disk_rw and virtio_disk_intr; section 2.6 of VIRTIO 1.1).

 Driver steps run under vdisk_lock. The device takes published chains in order and completes
 the ones it has taken in any order. Ring indices are 16-bit and wrap.
 */
module VirtioProtocol {
  import Common
  import opened VirtioQueue

  const IDX: nat := 0x1_0000
  const PENDING: nat := 0xff

  /**
   Where a request has got to; `at` is its number in the order of publication or completion, `result`
   the status the device gave it.
   */
  datatype Phase = Ready | Posted(at: nat) | Taken | Done(at: nat, result: nat) | Seen

  /** A request in flight: its three descriptors, its buffer, and its progress. */
  datatype Req = Req(idx: seq<nat>, buf: nat, write: bool, phase: Phase)

  /**
   `busy` is b->disk of each buffer. The device's own position in the avail ring is `next`.
   The rest from `reqs` on is history: requests in flight by head descriptor, which head each
   descriptor in use belongs to, every head published and completed so far, and how many of
   each the other side has dealt with.
   */
  datatype State = State(free: seq<bool>, desc: seq<Desc>, infoBuf: seq<int>, status: seq<nat>,
                         avail: seq<nat>, availIdx: nat, used: seq<nat>, usedIdx: nat,
                         seen: nat, next: nat, taken: set<nat>, busy: seq<bool>,
                         reqs: map<nat, Req>, own: map<nat, nat>, posted: seq<nat>, completed: seq<nat>, nTaken: nat,
                             nSeen: nat)

  datatype Event =
    | Prepare(idx: seq<nat>, buf: nat, write: bool)
    | Publish(h: nat)
    | Take
    | Complete(h: nat, result: nat)
    | Interrupt
    | Finish(h: nat)

  /** vdisk_lock is held by a request that has not been published yet. */
  ghost predicate LockFree(s: State) {
    forall h :: h in s.reqs ==> s.reqs[h].phase != Ready
  }

  /** No request is in flight for the buffer: its caller holds the buffer's lock. */
  ghost predicate BufferIdle(s: State, buf: nat) {
    forall h :: h in s.reqs ==> s.reqs[h].buf != buf
  }

  ghost predicate Sized(s: State) {
    && |s.free| == NUM && |s.desc| == NUM && |s.infoBuf| == NUM && |s.status| == NUM
    && |s.avail| == NUM && |s.used| == NUM
  }

  ghost predicate Enabled(s: State, e: Event) {
    && Sized(s)
    && match e
       case Prepare(idx, buf, write) =>
         LockFree(s) && BufferIdle(s, buf) && |idx| == 3 && Picked(s.free, idx) && buf < |s.busy|
       case Publish(h) => h in s.reqs && s.reqs[h].phase == Ready
       case Take => s.next != s.availIdx
       case Complete(h, _) => h in s.taken && h < NUM && s.desc[h].next < NUM && s.desc[s.desc[h].next].next < NUM
                           && s.desc[s.desc[s.desc[h].next].next].addr < NUM
       case Interrupt =>
         && LockFree(s) && s.seen != s.usedIdx && s.used[s.seen % NUM] < NUM
         && s.status[s.used[s.seen % NUM]] == 0                       // or the handler panics
         && 0 <= s.infoBuf[s.used[s.seen % NUM]] < |s.busy|
       case Finish(h) =>
         LockFree(s) && h in s.reqs && s.reqs[h].buf < |s.busy| && !s.busy[s.reqs[h].buf] && |s.reqs[h].idx| == 3
         && forall k :: 0 <= k < 3 ==> s.reqs[h].idx[k] < NUM
  }

  /** The three descriptors as virtio_disk_rw fills them in. */
  function Formatted(desc: seq<Desc>, idx: seq<nat>, buf: nat, write: bool): seq<Desc>
    requires |desc| == NUM && |idx| == 3 && idx[0] < NUM && idx[1] < NUM && idx[2] < NUM
  {
    desc[idx[0] := Desc(idx[0], 16, F_NEXT, idx[1])]
        [idx[1] := Desc(buf, 1024, (if write then 0 else F_WRITE) + F_NEXT, idx[2])]
        [idx[2] := Desc(idx[0], 1, F_WRITE, 0)]
  }

  function SetAll<T>(s: seq<T>, idx: seq<nat>, v: T): seq<T>
    requires |idx| == 3 && idx[0] < |s| && idx[1] < |s| && idx[2] < |s|
  {
    s[idx[0] := v][idx[1] := v][idx[2] := v]
  }

  ghost function Step(s: State, e: Event): State
    requires Enabled(s, e)
  {
    match e
    case Prepare(idx, buf, write) =>
      var h := idx[0];
      s.(free := SetAll(s.free, idx, false), desc := Formatted(s.desc, idx, buf, write),
         status := s.status[h := PENDING], busy := s.busy[buf := true], infoBuf := s.infoBuf[h := buf],
         avail := s.avail[s.availIdx % NUM := h],
         reqs := s.reqs[h := Req(idx, buf, write, Ready)], own := s.own[idx[0] := h][idx[1] := h][idx[2] := h])
    case Publish(h) =>
      s.(availIdx := (s.availIdx + 1) % IDX, posted := s.posted + [h],
         reqs := s.reqs[h := s.reqs[h].(phase := Posted(|s.posted|))])
    case Take =>
      var h := s.avail[s.next % NUM];
      s.(next := (s.next + 1) % IDX, taken := s.taken + {h}, nTaken := s.nTaken + 1,
         reqs := if h in s.reqs then s.reqs[h := s.reqs[h].(phase := Taken)] else s.reqs)
    case Complete(h, result) =>
      var at := s.desc[s.desc[s.desc[h].next].next].addr;
      s.(status := s.status[at := result], used := s.used[s.usedIdx % NUM := h], usedIdx := (s.usedIdx + 1) % IDX,
         taken := s.taken - {h}, completed := s.completed + [h],
         reqs := if h in s.reqs then s.reqs[h := s.reqs[h].(phase := Done(|s.completed|, result))] else s.reqs)
    case Interrupt =>
      var id := s.used[s.seen % NUM];
      s.(busy := s.busy[s.infoBuf[id] := false], seen := (s.seen + 1) % IDX, nSeen := s.nSeen + 1,
         reqs := if id in s.reqs then s.reqs[id := s.reqs[id].(phase := Seen)] else s.reqs)
    case Finish(h) =>
      var idx := s.reqs[h].idx;
      s.(infoBuf := if h < NUM then s.infoBuf[h := -1] else s.infoBuf,
         free := SetAll(s.free, idx, true), desc := SetAll(s.desc, idx, Desc(0, 0, 0, 0)),
         reqs := s.reqs - {h}, own := s.own - {idx[0], idx[1], idx[2]})
  }

  // -------------------------------------------------------------------------- invariants

  /** A request has three descriptors of its own, filled in. */
  ghost predicate ChainOk(s: State, h: nat)
    requires h in s.reqs && Sized(s)
  {
    var r := s.reqs[h];
    && |r.idx| == 3 && r.idx[0] == h && r.idx[0] < NUM && r.idx[1] < NUM && r.idx[2] < NUM
    && r.idx[0] != r.idx[1] && r.idx[0] != r.idx[2] && r.idx[1] != r.idx[2]
    && (forall k :: 0 <= k < 3 ==> r.idx[k] in s.own && s.own[r.idx[k]] == h)
    && s.desc[h] == Desc(h, 16, F_NEXT, r.idx[1])
    && s.desc[r.idx[1]] == Desc(r.buf, 1024, (if r.write then 0 else F_WRITE) + F_NEXT, r.idx[2])
    && s.desc[r.idx[2]] == Desc(h, 1, F_WRITE, 0)
  }

  /** Its buffer and its status are recorded, and both sides' rings agree with its progress. */
  ghost predicate ProgressOk(s: State, h: nat)
    requires h in s.reqs && Sized(s) && h < NUM
  {
    var r := s.reqs[h];
    && r.buf < |s.busy| && s.infoBuf[h] == r.buf
    && s.status[h] == (if r.phase.Done? then r.phase.result else if r.phase.Seen? then 0 else PENDING)
    && s.busy[r.buf] == !r.phase.Seen?
    && (h in s.taken <==> r.phase.Taken?)
    && (r.phase.Ready? ==> s.avail[s.availIdx % NUM] == h)
    && (r.phase.Posted? ==> s.nTaken <= r.phase.at < |s.posted| && s.posted[r.phase.at] == h)
    && (r.phase.Done? ==> s.nSeen <= r.phase.at < |s.completed| && s.completed[r.phase.at] == h)
  }

  ghost predicate ReqOk(s: State, h: nat)
    requires h in s.reqs && Sized(s)
  {
    ChainOk(s, h) && ProgressOk(s, h)
  }

  /** A descriptor is free, or belongs to one request in flight. */
  ghost predicate DescOk(s: State, i: nat)
    requires i < NUM && Sized(s)
  {
    && (s.free[i] <==> i !in s.own)
    && (i in s.own ==> s.own[i] in s.reqs && i in s.reqs[s.own[i]].idx)
  }

  /** An entry of the avail ring the device has not read. */
  ghost predicate PostedOk(s: State, k: nat)
    requires k < |s.posted| && Sized(s)
  {
    s.posted[k] in s.reqs && s.reqs[s.posted[k]].phase == Posted(k) && s.avail[k % NUM] == s.posted[k]
  }

  /** An entry of the used ring the driver has not read. */
  ghost predicate DoneOk(s: State, k: nat)
    requires k < |s.completed| && Sized(s)
  {
    && s.completed[k] in s.reqs && s.used[k % NUM] == s.completed[k]
    && s.reqs[s.completed[k]].phase.Done? && s.reqs[s.completed[k]].phase.at == k
  }

  ghost predicate OneBuffer(s: State, g: nat, h: nat)
    requires g in s.reqs && h in s.reqs
  {
    g != h ==> s.reqs[g].buf != s.reqs[h].buf && !(s.reqs[g].phase.Ready? && s.reqs[h].phase.Ready?)
  }

  ghost predicate Counted(s: State) {
    && s.nTaken <= |s.posted| && s.nSeen <= |s.completed|
    && s.availIdx == |s.posted| % IDX && s.next == s.nTaken % IDX
    && s.usedIdx == |s.completed| % IDX && s.seen == s.nSeen % IDX
    && (forall h :: h in s.taken ==> h in s.reqs)
  }

  ghost predicate Inv(s: State) {
    && Sized(s) && Counted(s)
    && (forall h :: h in s.reqs ==> ReqOk(s, h))
    && (forall i: nat :: i < NUM ==> DescOk(s, i))
    && (forall k: nat :: s.nTaken <= k < |s.posted| ==> PostedOk(s, k))
    && (forall k: nat :: s.nSeen <= k < |s.completed| ==> DoneOk(s, k))
    && (forall g, h :: g in s.reqs && h in s.reqs ==> OneBuffer(s, g, h))
  }

  // ----------------------------------------------------------------------------- counting

  lemma {:induction false} Pigeonhole(heads: seq<nat>, room: set<nat>)
    requires forall j :: 0 <= j < |heads| ==> heads[j] in room
    requires forall j, k :: 0 <= j < k < |heads| ==> heads[j] != heads[k]
    ensures |heads| <= |room|
  {
    if heads != [] {
      var n := |heads| - 1;
      Pigeonhole(heads[..n], room - {heads[n]});
    }
  }

  function Slots(): (r: set<nat>)
    ensures |r| == NUM && forall x: nat :: x in r <==> x < NUM
  {
    {0, 1, 2, 3, 4, 5, 6, 7}
  }

  /** While a descriptor is free, the avail ring has a slot the device has read. */
  lemma AvailRoom(s: State, i: nat)
    requires Inv(s) && i < NUM && s.free[i]
    ensures |s.posted| - s.nTaken < NUM
  {
    hide Slots, ReqOk, DescOk, OneBuffer;
    var heads := s.posted[s.nTaken..];
    forall j | 0 <= j < |heads| ensures heads[j] in Slots() - {i} {
      assert PostedOk(s, s.nTaken + j);
      HeadInUse(s, heads[j]);
    }
    forall j, k | 0 <= j < k < |heads| ensures heads[j] != heads[k] {
      assert PostedOk(s, s.nTaken + j) && PostedOk(s, s.nTaken + k);
    }
    Pigeonhole(heads, Slots() - {i});
  }

  lemma HeadInUse(s: State, h: nat)
    requires Inv(s) && h in s.reqs
    ensures h < NUM && !s.free[h]
  {
    assert ReqOk(s, h);
    assert s.reqs[h].idx[0] == h;
    assert DescOk(s, h);
  }

  /** While the device still has a request, the used ring has a slot the driver has read. */
  lemma UsedRoom(s: State, h: nat)
    requires Inv(s) && h in s.reqs && s.reqs[h].phase.Taken?
    ensures |s.completed| - s.nSeen < NUM
  {
    hide Slots, ReqOk, DescOk, OneBuffer;
    var heads := s.completed[s.nSeen..];
    HeadInUse(s, h);
    forall j | 0 <= j < |heads| ensures heads[j] in Slots() - {h} {
      assert DoneOk(s, s.nSeen + j);
      HeadInUse(s, heads[j]);
    }
    forall j, k | 0 <= j < k < |heads| ensures heads[j] != heads[k] {
      assert DoneOk(s, s.nSeen + j) && DoneOk(s, s.nSeen + k);
    }
    Pigeonhole(heads, Slots() - {h});
  }

  /** All the entries published and not yet read fit the ring, so wrapped indices tell the truth. */
  lemma PostedBound(s: State)
    requires Inv(s)
    ensures |s.posted| - s.nTaken <= NUM && (s.next != s.availIdx <==> s.nTaken < |s.posted|)
  {
    hide Slots, ReqOk, DescOk, OneBuffer;
    var heads := s.posted[s.nTaken..];
    forall j | 0 <= j < |heads| ensures heads[j] in Slots() {
      assert PostedOk(s, s.nTaken + j);
      HeadInUse(s, heads[j]);
    }
    forall j, k | 0 <= j < k < |heads| ensures heads[j] != heads[k] {
      assert PostedOk(s, s.nTaken + j) && PostedOk(s, s.nTaken + k);
    }
    Pigeonhole(heads, Slots());
    WrapEqual(s.nTaken, |s.posted|);
  }

  lemma DoneBound(s: State)
    requires Inv(s)
    ensures |s.completed| - s.nSeen <= NUM && (s.seen != s.usedIdx <==> s.nSeen < |s.completed|)
  {
    hide Slots, ReqOk, DescOk, OneBuffer;
    var heads := s.completed[s.nSeen..];
    forall j | 0 <= j < |heads| ensures heads[j] in Slots() {
      assert DoneOk(s, s.nSeen + j);
      HeadInUse(s, heads[j]);
    }
    forall j, k | 0 <= j < k < |heads| ensures heads[j] != heads[k] {
      assert DoneOk(s, s.nSeen + j) && DoneOk(s, s.nSeen + k);
    }
    Pigeonhole(heads, Slots());
    WrapEqual(s.nSeen, |s.completed|);
  }

  lemma WrapEqual(a: nat, b: nat)
    requires a <= b <= a + NUM
    ensures a % IDX == b % IDX <==> a == b
  {
  }

  lemma WrapSlot(a: nat)
    ensures a % IDX % NUM == a % NUM && (a % IDX + 1) % IDX == (a + 1) % IDX
  {
    Common.WrapSlot(a, NUM, IDX, IDX / NUM);
    Common.WrapNext(a, IDX);
  }

  // -------------------------------------------------------------------------------- steps

  /** The handler is about to read the entry of a request that the device failed. */
  ghost predicate Failed(s: State) {
    s.nSeen < |s.completed| && s.completed[s.nSeen] in s.reqs && s.reqs[s.completed[s.nSeen]].phase.Done?
    && s.reqs[s.completed[s.nSeen]].phase.result != 0
  }

  /** The device finds a well-formed chain wherever it looks, and the handler panics of a failed request only. */
  lemma NoPanics(s: State)
    requires Inv(s)
    ensures forall h, result :: h in s.taken ==> Enabled(s, Complete(h, result))
    ensures LockFree(s) && s.seen != s.usedIdx ==> (Enabled(s, Interrupt) <==> !Failed(s))
    ensures s.next != s.availIdx ==> s.avail[s.next % NUM] in s.reqs
  {
    forall h, result | h in s.taken ensures Enabled(s, Complete(h, result)) {
      assert ReqOk(s, h);
    }
    DoneBound(s);
    PostedBound(s);
    if s.seen != s.usedIdx {
      assert DoneOk(s, s.nSeen);
      WrapSlot(s.nSeen);
      assert ReqOk(s, s.completed[s.nSeen]);
    }
    if s.next != s.availIdx {
      assert PostedOk(s, s.nTaken);
      WrapSlot(s.nTaken);
    }
  }

  lemma FormattedAt(desc: seq<Desc>, idx: seq<nat>, buf: nat, write: bool)
    requires |desc| == NUM && |idx| == 3 && idx[0] < NUM && idx[1] < NUM && idx[2] < NUM
    requires idx[0] != idx[1] && idx[0] != idx[2] && idx[1] != idx[2]
    ensures var d := Formatted(desc, idx, buf, write);
            && |d| == NUM
            && d[idx[0]] == Desc(idx[0], 16, F_NEXT, idx[1])
            && d[idx[1]] == Desc(buf, 1024, (if write then 0 else F_WRITE) + F_NEXT, idx[2])
            && d[idx[2]] == Desc(idx[0], 1, F_WRITE, 0)
            && forall i: nat :: i < NUM && i !in idx ==> d[i] == desc[i]
  {
    forall i: nat | i < NUM && i !in idx ensures Formatted(desc, idx, buf, write)[i] == desc[i] {
      assert idx[0] in idx && idx[1] in idx && idx[2] in idx;
    }
  }

  lemma PrepareReq(s: State, e: Event, g: nat)
    requires Inv(s) && Enabled(s, e) && e.Prepare? && g in Step(s, e).reqs && Sized(Step(s, e))
    ensures ReqOk(Step(s, e), g)
  {
    hide Formatted, SetAll;
    FreshHead(s, e.idx);
    FormattedAt(s.desc, e.idx, e.buf, e.write);
    if g != e.idx[0] {
      PrepareOld(s, e, g);
    } else {
      hide Inv, LockFree, BufferIdle;
    }
  }

  /** What a step leaves alone at descriptor i. */
  ghost predicate SlotSame(s: State, t: State, i: nat)
    requires Sized(s) && Sized(t) && i < NUM
  {
    t.desc[i] == s.desc[i] && (i in s.own ==> i in t.own && t.own[i] == s.own[i])
  }

  lemma ChainKept(s: State, t: State, g: nat)
    requires Sized(s) && Sized(t) && g in s.reqs && g in t.reqs && ChainOk(s, g) && t.reqs[g] == s.reqs[g]
    requires forall k :: 0 <= k < 3 ==> SlotSame(s, t, s.reqs[g].idx[k])
    ensures ChainOk(t, g)
  {
    var idx := s.reqs[g].idx;
    assert SlotSame(s, t, idx[0]) && SlotSame(s, t, idx[1]) && SlotSame(s, t, idx[2]);
  }

  lemma PrepareOld(s: State, e: Event, g: nat)
    requires Inv(s) && Enabled(s, e) && e.Prepare? && g in s.reqs && g != e.idx[0] && Sized(Step(s, e))
    requires forall k :: 0 <= k < 3 ==> e.idx[k] !in s.reqs[g].idx
    ensures ReqOk(Step(s, e), g)
  {
    hide Formatted, SetAll, ChainOk;
    FormattedAt(s.desc, e.idx, e.buf, e.write);
    assert ReqOk(s, g) && s.reqs[g].phase != Ready && s.reqs[g].buf != e.buf;
    hide Inv, LockFree, BufferIdle, Picked;
    PrepareOldChain(s, e, g);
  }

  lemma PrepareOldChain(s: State, e: Event, g: nat)
    requires Sized(s) && Enabled(s, e) && e.Prepare? && g in s.reqs && g != e.idx[0] && Sized(Step(s, e))
    requires ChainOk(s, g)
    requires forall k :: 0 <= k < 3 ==> e.idx[k] !in s.reqs[g].idx
    ensures ChainOk(Step(s, e), g) && g < NUM
  {
    FormattedAt(s.desc, e.idx, e.buf, e.write);
    hide Formatted, SetAll, LockFree, BufferIdle, Picked;
    var t, idx := Step(s, e), s.reqs[g].idx;
    forall k | 0 <= k < 3 ensures SlotSame(s, t, idx[k]) {
      hide ChainOk;
      assert idx[k] in idx;
      assert idx[k] !in e.idx;
    }
    ChainKept(s, t, g);
  }

  lemma PrepareDesc(s: State, e: Event, i: nat)
    requires Inv(s) && Enabled(s, e) && e.Prepare? && i < NUM && Sized(Step(s, e))
    ensures DescOk(Step(s, e), i)
  {
    FreshHead(s, e.idx);
    assert DescOk(s, i);
    hide Inv, LockFree, BufferIdle;
    var idx := e.idx;
    assert idx[0] in idx && idx[1] in idx && idx[2] in idx;
  }

  lemma PrepareKeeps(s: State, e: Event)
    requires Inv(s) && Enabled(s, e) && e.Prepare?
    ensures Inv(Step(s, e))
  {
    hide ReqOk, DescOk, LockFree, Formatted, SetAll;
    var t, h := Step(s, e), e.idx[0];
    SetAllLength(s.free, e.idx, false);
    FormattedLength(s.desc, e.idx, e.buf, e.write);
    FreshHead(s, e.idx);
    AvailRoom(s, h);
    forall g | g in t.reqs ensures ReqOk(t, g) {
      PrepareReq(s, e, g);
    }
    forall i: nat | i < NUM ensures DescOk(t, i) {
      PrepareDesc(s, e, i);
    }
    forall k: nat | t.nTaken <= k < |t.posted| ensures PostedOk(t, k) {
      assert PostedOk(s, k);
      Common.SlotsDiffer(k, |s.posted|, NUM);
      WrapSlot(|s.posted|);
    }
    forall k: nat | t.nSeen <= k < |t.completed| ensures DoneOk(t, k) {
      assert DoneOk(s, k);
    }
    forall a, b | a in t.reqs && b in t.reqs ensures OneBuffer(t, a, b) {
      PrepareBuffers(s, e, a, b);
    }
  }

  lemma PrepareBuffers(s: State, e: Event, a: nat, b: nat)
    requires Inv(s) && Enabled(s, e) && e.Prepare? && a in Step(s, e).reqs && b in Step(s, e).reqs
    ensures OneBuffer(Step(s, e), a, b)
  {
    hide ReqOk, DescOk, PostedOk, DoneOk, Formatted, SetAll;
    if a != e.idx[0] && b != e.idx[0] {
      assert OneBuffer(s, a, b);
    }
  }

  lemma SetAllLength<T>(s: seq<T>, idx: seq<nat>, v: T)
    requires |idx| == 3 && idx[0] < |s| && idx[1] < |s| && idx[2] < |s|
    ensures |SetAll(s, idx, v)| == |s|
  {
  }

  lemma FormattedLength(desc: seq<Desc>, idx: seq<nat>, buf: nat, write: bool)
    requires |desc| == NUM && |idx| == 3 && idx[0] < NUM && idx[1] < NUM && idx[2] < NUM
    ensures |Formatted(desc, idx, buf, write)| == NUM
  {
  }

  /** Free descriptors belong to no request. */
  lemma FreshHead(s: State, idx: seq<nat>)
    requires Inv(s) && |idx| == 3 && Picked(s.free, idx)
    ensures idx[0] !in s.reqs && idx[0] !in s.taken
    ensures forall h, k :: h in s.reqs && 0 <= k < 3 ==> idx[k] !in s.reqs[h].idx
  {
    forall k | 0 <= k < 3 ensures idx[k] !in s.own {
      assert DescOk(s, idx[k]);
    }
    forall h, k | h in s.reqs && 0 <= k < 3 ensures idx[k] !in s.reqs[h].idx {
      assert ReqOk(s, h);
    }
    if idx[0] in s.reqs {
      HeadInUse(s, idx[0]);
    }
  }

  /** Only the phase of request h has changed, among requests, descriptors and owners. */
  ghost predicate OnlyPhase(s: State, t: State, h: nat) {
    && Sized(s) && Sized(t) && h in s.reqs && t.free == s.free && t.desc == s.desc && t.own == s.own
        && t.infoBuf == s.infoBuf
    && h in t.reqs && t.reqs == s.reqs[h := s.reqs[h].(phase := t.reqs[h].phase)]
  }

  lemma PhaseChains(s: State, t: State, h: nat)
    requires Inv(s) && OnlyPhase(s, t, h) && t.reqs[h].phase != Ready
    ensures forall g :: g in t.reqs ==> ChainOk(t, g)
    ensures forall i: nat :: i < NUM ==> DescOk(t, i)
    ensures forall a, b :: a in t.reqs && b in t.reqs ==> OneBuffer(t, a, b)
  {
    hide ProgressOk;
    forall g | g in t.reqs ensures ChainOk(t, g) {
      assert ReqOk(s, g);
    }
    forall i: nat | i < NUM ensures DescOk(t, i) {
      assert DescOk(s, i);
    }
    forall a, b | a in t.reqs && b in t.reqs ensures OneBuffer(t, a, b) {
      assert OneBuffer(s, a, b);
    }
  }

  lemma ProgressOf(s: State, g: nat)
    requires Inv(s) && g in s.reqs
    ensures ProgressOk(s, g) && ChainOk(s, g) && g < NUM
  {
    assert ReqOk(s, g);
  }

  lemma HeadsSmall(s: State)
    requires Inv(s)
    ensures forall g :: g in s.reqs ==> g < NUM
  {
    forall g | g in s.reqs ensures g < NUM {
      assert ReqOk(s, g);
    }
  }

  /** What the device takes is the oldest request it has not taken. */
  lemma TakesNext(s: State)
    requires Inv(s) && s.next != s.availIdx
    ensures s.nTaken < |s.posted| && s.avail[s.next % NUM] == s.posted[s.nTaken]
    ensures s.posted[s.nTaken] in s.reqs && s.reqs[s.posted[s.nTaken]].phase == Posted(s.nTaken)
  {
    PostedBound(s);
    WrapSlot(s.nTaken);
    assert PostedOk(s, s.nTaken);
  }

  /** What the device completes is a request, and the status it writes is that request's. */
  lemma CompletesOwn(s: State, h: nat, result: nat)
    requires Inv(s) && Enabled(s, Complete(h, result))
    ensures h in s.reqs && s.reqs[h].phase == Taken && s.desc[s.desc[s.desc[h].next].next].addr == h
  {
    assert ReqOk(s, h);
  }

  lemma PublishKeeps(s: State, e: Event)
    requires Inv(s) && Enabled(s, e) && e.Publish?
    ensures Inv(Step(s, e))
  {
    hide Formatted, SetAll, ChainOk, DescOk, OneBuffer, LockFree, ProgressOk, PostedOk, DoneOk;
    var t, h := Step(s, e), e.h;
    WrapSlot(|s.posted|);
    HeadsSmall(s);
    PhaseChains(s, t, h);
    forall g | g in t.reqs ensures ReqOk(t, g) {
      PublishProgress(s, e, g);
    }
    forall k: nat | t.nTaken <= k < |t.posted| ensures PostedOk(t, k) {
      PublishPosted(s, e, k);
    }
    forall k: nat | t.nSeen <= k < |t.completed| ensures DoneOk(t, k) {
      PublishDone(s, e, k);
    }
  }

  lemma PublishProgress(s: State, e: Event, g: nat)
    requires Inv(s) && Enabled(s, e) && e.Publish? && g in Step(s, e).reqs && Sized(Step(s, e)) && g < NUM
    ensures ProgressOk(Step(s, e), g)
  {
    hide ChainOk, DescOk, Formatted, SetAll, LockFree;
    ProgressOf(s, g);
    assert OneBuffer(s, g, e.h);
    WrapSlot(|s.posted|);
  }

  lemma PublishPosted(s: State, e: Event, k: nat)
    requires Inv(s) && Enabled(s, e) && e.Publish? && Step(s, e).nTaken <= k < |Step(s, e).posted| && Sized(Step(s, e))
    ensures PostedOk(Step(s, e), k)
  {
    hide ChainOk, DescOk, Formatted, SetAll, LockFree, OneBuffer;
    if k < |s.posted| {
      assert PostedOk(s, k);
    } else {
      ProgressOf(s, e.h);
      WrapSlot(|s.posted|);
    }
  }

  lemma PublishDone(s: State, e: Event, k: nat)
    requires Inv(s) && Enabled(s, e) && e.Publish? && Step(s, e).nSeen <= k < |Step(s, e).completed|
    requires Sized(Step(s, e))
    ensures DoneOk(Step(s, e), k)
  {
    hide ChainOk, DescOk, Formatted, SetAll, LockFree, OneBuffer;
    assert DoneOk(s, k);
  }

  lemma TakeKeeps(s: State, e: Event)
    requires Inv(s) && Enabled(s, e) && e.Take?
    ensures Inv(Step(s, e))
  {
    hide Formatted, SetAll, ChainOk, DescOk, OneBuffer, LockFree, ProgressOk, PostedOk, DoneOk;
    TakesNext(s);
    var t, h := Step(s, e), s.posted[s.nTaken];
    WrapSlot(s.nTaken);
    HeadsSmall(s);
    PhaseChains(s, t, h);
    forall g | g in t.reqs ensures ReqOk(t, g) {
      TakeProgress(s, e, g);
    }
    forall k: nat | t.nTaken <= k < |t.posted| ensures PostedOk(t, k) {
      TakePosted(s, e, k);
    }
    forall k: nat | t.nSeen <= k < |t.completed| ensures DoneOk(t, k) {
      TakeDone(s, e, k);
    }
  }

  lemma TakeProgress(s: State, e: Event, g: nat)
    requires Inv(s) && Enabled(s, e) && e.Take? && g in Step(s, e).reqs && Sized(Step(s, e)) && g < NUM
    ensures ProgressOk(Step(s, e), g)
  {
    hide ChainOk, DescOk, Formatted, SetAll, LockFree;
    TakesNext(s);
    ProgressOf(s, g);
  }

  lemma TakePosted(s: State, e: Event, k: nat)
    requires Inv(s) && Enabled(s, e) && e.Take? && Step(s, e).nTaken <= k < |Step(s, e).posted| && Sized(Step(s, e))
    ensures PostedOk(Step(s, e), k)
  {
    hide ChainOk, DescOk, Formatted, SetAll, LockFree, OneBuffer;
    TakesNext(s);
    assert PostedOk(s, k);
  }

  lemma TakeDone(s: State, e: Event, k: nat)
    requires Inv(s) && Enabled(s, e) && e.Take? && Step(s, e).nSeen <= k < |Step(s, e).completed| && Sized(Step(s, e))
    ensures DoneOk(Step(s, e), k)
  {
    hide ChainOk, DescOk, Formatted, SetAll, LockFree, OneBuffer;
    TakesNext(s);
    assert DoneOk(s, k);
  }

  lemma CompleteKeeps(s: State, e: Event)
    requires Inv(s) && Enabled(s, e) && e.Complete?
    ensures Inv(Step(s, e))
  {
    hide Formatted, SetAll, ChainOk, DescOk, OneBuffer, LockFree, ProgressOk, PostedOk, DoneOk;
    var t, h := Step(s, e), e.h;
    CompletesOwn(s, h, e.result);
    WrapSlot(|s.completed|);
    HeadsSmall(s);
    PhaseChains(s, t, h);
    forall g | g in t.reqs ensures ReqOk(t, g) {
      CompleteProgress(s, e, g);
    }
    forall k: nat | t.nTaken <= k < |t.posted| ensures PostedOk(t, k) {
      CompletePosted(s, e, k);
    }
    forall k: nat | t.nSeen <= k < |t.completed| ensures DoneOk(t, k) {
      CompleteDone(s, e, k);
    }
  }

  lemma CompleteProgress(s: State, e: Event, g: nat)
    requires Inv(s) && Enabled(s, e) && e.Complete? && g in Step(s, e).reqs && Sized(Step(s, e)) && g < NUM
    ensures ProgressOk(Step(s, e), g)
  {
    hide ChainOk, DescOk, Formatted, SetAll, LockFree;
    CompletesOwn(s, e.h, e.result);
    ProgressOf(s, g);
  }

  lemma CompletePosted(s: State, e: Event, k: nat)
    requires Inv(s) && Enabled(s, e) && e.Complete? && Step(s, e).nTaken <= k < |Step(s, e).posted| && Sized(Step(s, e))
    ensures PostedOk(Step(s, e), k)
  {
    hide ChainOk, DescOk, Formatted, SetAll, LockFree, OneBuffer;
    CompletesOwn(s, e.h, e.result);
    assert PostedOk(s, k);
  }

  lemma CompleteDone(s: State, e: Event, k: nat)
    requires Inv(s) && Enabled(s, e) && e.Complete? && Step(s, e).nSeen <= k < |Step(s, e).completed|
    requires Sized(Step(s, e))
    ensures DoneOk(Step(s, e), k)
  {
    hide ChainOk, DescOk, Formatted, SetAll, LockFree, OneBuffer;
    CompletesOwn(s, e.h, e.result);
    UsedRoom(s, e.h);
    WrapSlot(|s.completed|);
    if k < |s.completed| {
      assert DoneOk(s, k);
      Common.SlotsDiffer(k, |s.completed|, NUM);
    }
  }

  /** The handler releases the buffer of the request the device completed, which was still waiting. */
  lemma InterruptReleases(s: State)
    requires Inv(s) && Enabled(s, Interrupt)
    ensures s.nSeen < |s.completed|
    ensures var h := s.completed[s.nSeen];
            && s.used[s.seen % NUM] == h && h in s.reqs && s.reqs[h].phase == Done(s.nSeen, 0)
            && s.infoBuf[h] == s.reqs[h].buf && s.reqs[h].buf < |s.busy| && s.busy[s.reqs[h].buf] && s.status[h] == 0
  {
    DoneBound(s);
    WrapSlot(s.nSeen);
    assert DoneOk(s, s.nSeen);
    assert ReqOk(s, s.completed[s.nSeen]);
  }

  lemma InterruptKeeps(s: State, e: Event)
    requires Inv(s) && Enabled(s, e) && e.Interrupt?
    ensures Inv(Step(s, e))
  {
    hide Formatted, SetAll, ChainOk, DescOk, OneBuffer, LockFree, ProgressOk, PostedOk, DoneOk;
    InterruptReleases(s);
    var t, h := Step(s, e), s.completed[s.nSeen];
    WrapSlot(s.nSeen);
    HeadsSmall(s);
    PhaseChains(s, t, h);
    forall g | g in t.reqs ensures ReqOk(t, g) {
      InterruptProgress(s, e, g);
    }
    forall k: nat | t.nTaken <= k < |t.posted| ensures PostedOk(t, k) {
      InterruptPosted(s, e, k);
    }
    forall k: nat | t.nSeen <= k < |t.completed| ensures DoneOk(t, k) {
      InterruptDone(s, e, k);
    }
  }

  lemma InterruptProgress(s: State, e: Event, g: nat)
    requires Inv(s) && Enabled(s, e) && e.Interrupt? && g in Step(s, e).reqs && Sized(Step(s, e)) && g < NUM
    ensures ProgressOk(Step(s, e), g)
  {
    hide ChainOk, DescOk, Formatted, SetAll, LockFree;
    InterruptReleases(s);
    ProgressOf(s, g);
    assert OneBuffer(s, g, s.completed[s.nSeen]);
  }

  lemma InterruptPosted(s: State, e: Event, k: nat)
    requires Inv(s) && Enabled(s, e) && e.Interrupt? && Step(s, e).nTaken <= k < |Step(s, e).posted|
    requires Sized(Step(s, e))
    ensures PostedOk(Step(s, e), k)
  {
    hide ChainOk, DescOk, Formatted, SetAll, LockFree, OneBuffer;
    InterruptReleases(s);
    assert PostedOk(s, k);
  }

  lemma InterruptDone(s: State, e: Event, k: nat)
    requires Inv(s) && Enabled(s, e) && e.Interrupt? && Step(s, e).nSeen <= k < |Step(s, e).completed|
    requires Sized(Step(s, e))
    ensures DoneOk(Step(s, e), k)
  {
    hide ChainOk, DescOk, Formatted, SetAll, LockFree, OneBuffer;
    InterruptReleases(s);
    assert DoneOk(s, k);
  }

  /** A request whose buffer is no longer busy is one the handler has dealt with. */
  lemma FinishedIsSeen(s: State, h: nat)
    requires Inv(s) && Enabled(s, Finish(h))
    ensures s.reqs[h].phase == Seen && h !in s.taken && ReqOk(s, h)
    ensures IsChain(s.desc, s.free, s.reqs[h].idx)
  {
    assert ReqOk(s, h);
    var idx := s.reqs[h].idx;
    forall k | 0 <= k < 3 ensures !s.free[idx[k]] {
      assert DescOk(s, idx[k]);
    }
  }

  lemma SetAllAt<T>(s: seq<T>, idx: seq<nat>, v: T)
    requires |idx| == 3 && idx[0] < |s| && idx[1] < |s| && idx[2] < |s|
    ensures |SetAll(s, idx, v)| == |s|
    ensures forall i: nat :: i < |s| && i !in idx ==> SetAll(s, idx, v)[i] == s[i]
  {
    forall i: nat | i < |s| && i !in idx ensures SetAll(s, idx, v)[i] == s[i] {
      assert idx[0] in idx && idx[1] in idx && idx[2] in idx;
    }
  }

  lemma FinishReq(s: State, h: nat, g: nat)
    requires Inv(s) && Enabled(s, Finish(h)) && g in Step(s, Finish(h)).reqs && Sized(Step(s, Finish(h)))
    ensures ReqOk(Step(s, Finish(h)), g)
  {
    hide SetAll, ChainOk;
    FinishedIsSeen(s, h);
    assert ReqOk(s, g);
    assert OneBuffer(s, g, h);
    hide Inv, LockFree, IsChain;
    FinishChain(s, h, g);
  }

  lemma FinishChain(s: State, h: nat, g: nat)
    requires Sized(s) && Enabled(s, Finish(h)) && g in s.reqs && g != h && Sized(Step(s, Finish(h)))
    requires ChainOk(s, h) && ChainOk(s, g)
    ensures ChainOk(Step(s, Finish(h)), g) && g < NUM && h < NUM
  {
    hide SetAll, LockFree;
    var t, idx, r := Step(s, Finish(h)), s.reqs[h].idx, s.reqs[g];
    SetAllAt(s.desc, idx, Desc(0, 0, 0, 0));
    forall k | 0 <= k < 3 ensures SlotSame(s, t, r.idx[k]) {
      assert s.own[r.idx[k]] == g;
    }
    ChainKept(s, t, g);
  }

  lemma FinishDesc(s: State, h: nat, i: nat)
    requires Inv(s) && Enabled(s, Finish(h)) && i < NUM && Sized(Step(s, Finish(h)))
    ensures DescOk(Step(s, Finish(h)), i)
  {
    FinishedIsSeen(s, h);
    assert DescOk(s, i);
    var idx := s.reqs[h].idx;
    assert idx[0] in idx && idx[1] in idx && idx[2] in idx;
    hide Inv, LockFree, IsChain;
  }

  lemma FinishKeeps(s: State, e: Event)
    requires Inv(s) && Enabled(s, e) && e.Finish?
    ensures Inv(Step(s, e))
  {
    hide ReqOk, DescOk, LockFree, SetAll, IsChain;
    var t, h := Step(s, e), e.h;
    SetAllLength(s.free, s.reqs[h].idx, true);
    SetAllLength(s.desc, s.reqs[h].idx, Desc(0, 0, 0, 0));
    FinishedIsSeen(s, h);
    forall g | g in t.reqs ensures ReqOk(t, g) {
      FinishReq(s, h, g);
    }
    forall i: nat | i < NUM ensures DescOk(t, i) {
      FinishDesc(s, h, i);
    }
    forall k: nat | t.nTaken <= k < |t.posted| ensures PostedOk(t, k) {
      assert PostedOk(s, k);
    }
    forall k: nat | t.nSeen <= k < |t.completed| ensures DoneOk(t, k) {
      assert DoneOk(s, k);
    }
    forall a, b | a in t.reqs && b in t.reqs ensures OneBuffer(t, a, b) {
      assert OneBuffer(s, a, b);
    }
  }

  lemma StepKeeps(s: State, e: Event)
    requires Inv(s) && Enabled(s, e)
    ensures Inv(Step(s, e))
  {
    match e
    case Prepare(_, _, _) => PrepareKeeps(s, e);
    case Publish(_) => PublishKeeps(s, e);
    case Take => TakeKeeps(s, e);
    case Complete(_, _) => CompleteKeeps(s, e);
    case Interrupt => InterruptKeeps(s, e);
    case Finish(_) => FinishKeeps(s, e);
  }
}
