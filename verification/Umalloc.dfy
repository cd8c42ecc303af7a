/**
 The user-level allocator (user/umalloc.c), after section 8.7 of The C Programming Language,
 second edition: a circular list of free blocks in address order.

 Addresses and sizes count header-sized units. A block is a header followed by the units it
 gives out; `owner` says which block each unit belongs to that the heap has claimed. Whether
 the process has that memory is a question of its own, see Within.
 */
module Umalloc {
  import Common

  const HEADER: nat := 16
  const MINCORE: nat := 4096

  /** Units for nbytes and a header. */
  function Units(nbytes: nat): (n: nat)
    ensures n >= 1 && nbytes <= (n - 1) * HEADER < nbytes + HEADER
  {
    (nbytes + HEADER - 1) / HEADER + 1
  }

  /** The free list from the lowest address, its links and sizes, the blocks in use, and each unit's block. */
  datatype Heap = Heap(ring: seq<nat>, next: map<nat, nat>, size: map<nat, nat>, live: set<nat>, owner: map<nat, nat>)

  /** The index after i, going round. */
  function Succ(n: nat, i: nat): nat {
    if i + 1 < n then i + 1 else 0
  }

  ghost predicate Ascending(ring: seq<nat>) {
    forall i, j :: 0 <= i < j < |ring| ==> ring[i] < ring[j]
  }

  predicate LinkAt(h: Heap, i: nat)
    requires i < |h.ring|
  {
    h.ring[i] in h.next && h.ring[i] in h.size && h.next[h.ring[i]] == h.ring[Succ(|h.ring|, i)]
  }

  ghost predicate Linked(h: Heap) {
    forall i: nat :: i < |h.ring| ==> LinkAt(h, i)
  }

  predicate ApartAt(h: Heap, i: nat)
    requires i + 1 < |h.ring|
  {
    h.ring[i] in h.size && h.ring[i] + h.size[h.ring[i]] < h.ring[i + 1]
  }

  /** No free block touches the next one. */
  ghost predicate Apart(h: Heap) {
    forall i: nat :: 1 <= i < |h.ring| - 1 ==> ApartAt(h, i)
  }

  ghost predicate RingOk(h: Heap, base: nat) {
    && |h.ring| > 0 && h.ring[0] == base && Ascending(h.ring) && Linked(h) && Apart(h)
    && base in h.size && h.size[base] == 0
  }

  /** A block: on the free list after base, or in use. */
  predicate IsBlock(h: Heap, b: nat) {
    b in h.live || (|h.ring| > 0 && b in h.ring[1..])
  }

  ghost predicate BlockOwns(h: Heap, b: nat) {
    && b in h.size && h.size[b] > 0
    && forall x: nat :: b <= x < b + h.size[b] ==> x in h.owner && h.owner[x] == b
  }

  ghost predicate UnitOwned(h: Heap, x: nat)
    requires x in h.owner
  {
    IsBlock(h, h.owner[x]) && h.owner[x] in h.size && h.owner[x] <= x < h.owner[x] + h.size[h.owner[x]]
  }

  /** Every unit obtained belongs to exactly one block, and base lies below them all. */
  ghost predicate Owned(h: Heap, base: nat) {
    && (forall b :: IsBlock(h, b) ==> BlockOwns(h, b))
    && (forall x :: x in h.owner ==> UnitOwned(h, x) && base < x)
    && (forall b :: b in h.live ==> b !in h.ring)
  }

  ghost predicate HeapOk(h: Heap, base: nat) {
    RingOk(h, base) && Owned(h, base)
  }

  // ------------------------------------------------------------------------ disjointness

  /** Two blocks do not overlap: the lower one ends before the higher one starts. */
  lemma Disjoint(h: Heap, base: nat, a: nat, b: nat)
    requires HeapOk(h, base) && IsBlock(h, a) && IsBlock(h, b) && a < b
    ensures a in h.size && b in h.size && a + h.size[a] <= b
  {
    assert BlockOwns(h, a) && BlockOwns(h, b);
    assert h.owner[b] == b;
  }

  lemma RingBlock(h: Heap, i: nat)
    requires 1 <= i < |h.ring|
    ensures IsBlock(h, h.ring[i])
  {
    assert h.ring[i] == h.ring[1..][i - 1];
  }

  // --------------------------------------------------------------------------- searching

  /** Where a block at address bp belongs: after the last free block below it. */
  ghost predicate GoesAfter(ring: seq<nat>, bp: nat, t: nat) {
    t < |ring| && ring[t] < bp && (t + 1 < |ring| ==> bp < ring[t + 1])
  }

  lemma PlaceExists(ring: seq<nat>, bp: nat) returns (t: nat)
    requires |ring| > 0 && Ascending(ring) && ring[0] < bp && bp !in ring
    ensures GoesAfter(ring, bp, t)
  {
    t := 0;
    while t + 1 < |ring| && ring[t + 1] < bp
      invariant t < |ring| && ring[t] < bp
    {
      t := t + 1;
    }
  }

  // ----------------------------------------------------------- changes to the free list alone

  /** The free list without its entry i, which its predecessor's link now skips. */
  ghost function Unlinked(h: Heap, i: nat): Heap {
    if 1 <= i < |h.ring| && h.ring[i] in h.next then
      h.(ring := h.ring[..i] + h.ring[i + 1..], next := h.next[h.ring[i - 1] := h.next[h.ring[i]]])
    else h
  }

  /** Skipping entry i, index by index. */
  ghost predicate Skips(h: Heap, g: Heap, i: nat) {
    && 1 <= i < |h.ring| == |g.ring| + 1 && g.size == h.size
    && (forall j: nat :: j < i ==> g.ring[j] == h.ring[j])
    && (forall j: nat :: i <= j < |g.ring| ==> g.ring[j] == h.ring[j + 1])
    && h.ring[i] in h.next && g.next == h.next[h.ring[i - 1] := h.next[h.ring[i]]]
  }

  lemma UnlinkedSkips(h: Heap, i: nat)
    requires 1 <= i < |h.ring| && h.ring[i] in h.next
    ensures Skips(h, Unlinked(h, i), i)
  {
  }

  lemma SkipLinked(h: Heap, g: Heap, i: nat)
    requires Skips(h, g, i) && Ascending(h.ring) && Linked(h)
    ensures Linked(g) && Ascending(g.ring)
  {
    var n := |g.ring|;
    forall j: nat | j < n ensures LinkAt(g, j) {
      assert LinkAt(h, i) && LinkAt(h, j) && LinkAt(h, j + 1);
      assert j < i - 1 ==> h.ring[j] < h.ring[i - 1];
      assert j >= i ==> h.ring[i - 1] < h.ring[j + 1];
    }
    forall j, k | 0 <= j < k < n ensures g.ring[j] < g.ring[k] { }
  }

  lemma SkipApart(h: Heap, g: Heap, i: nat)
    requires Skips(h, g, i) && Ascending(h.ring) && Apart(h)
    ensures Apart(g)
  {
    forall j: nat | 1 <= j < |g.ring| - 1 ensures ApartAt(g, j) {
      assert ApartAt(h, j) && ApartAt(h, j + 1);
      assert h.ring[i - 1] < h.ring[i];
      assert i + 1 < |h.ring| ==> h.ring[i] < h.ring[i + 1];
    }
  }

  lemma SkipMembers(h: Heap, g: Heap, i: nat)
    requires Skips(h, g, i) && Ascending(h.ring)
    ensures forall b :: b in g.ring <==> b in h.ring && b != h.ring[i]
  {
    forall b | b in h.ring && b != h.ring[i] ensures b in g.ring {
      var k :| 0 <= k < |h.ring| && h.ring[k] == b;
      assert g.ring[if k < i then k else k - 1] == b;
    }
    forall b | b in g.ring ensures b in h.ring && b != h.ring[i] {
      var k :| 0 <= k < |g.ring| && g.ring[k] == b;
      assert h.ring[if k < i then k else k + 1] == b;
    }
  }

  lemma UnlinkedOk(h: Heap, base: nat, i: nat)
    requires RingOk(h, base) && 1 <= i < |h.ring|
    ensures RingOk(Unlinked(h, i), base)
    ensures forall b :: b in Unlinked(h, i).ring <==> b in h.ring && b != h.ring[i]
  {
    hide Unlinked, Ascending, Linked;
    assert h.ring[i] in h.next by { LinkedAt(h, i); }
    UnlinkedSkips(h, i);
    SkipLinked(h, Unlinked(h, i), i);
    SkipApart(h, Unlinked(h, i), i);
    SkipMembers(h, Unlinked(h, i), i);
  }

  lemma LinkedAt(h: Heap, i: nat)
    requires Linked(h) && i < |h.ring|
    ensures h.ring[i] in h.next && h.ring[i] in h.size && h.next[h.ring[i]] == h.ring[Succ(|h.ring|, i)]
  {
    assert LinkAt(h, i);
  }

  /** The free list with bp put in after its entry t. */
  ghost function LinkedIn(h: Heap, t: nat, bp: nat): Heap {
    if t < |h.ring| && h.ring[t] in h.next then
      h.(ring := h.ring[..t + 1] + [bp] + h.ring[t + 1..],
         next := h.next[bp := h.next[h.ring[t]]][h.ring[t] := bp])
    else h
  }

  /** bp after entry t, index by index. */
  ghost predicate Inserts(h: Heap, g: Heap, t: nat, bp: nat) {
    && t < |h.ring| == |g.ring| - 1 && g.size == h.size
    && (forall j: nat :: j <= t ==> g.ring[j] == h.ring[j])
    && g.ring[t + 1] == bp
    && (forall j: nat :: t + 1 < j < |g.ring| ==> g.ring[j] == h.ring[j - 1])
    && h.ring[t] in h.next && g.next == h.next[bp := h.next[h.ring[t]]][h.ring[t] := bp]
  }

  lemma LinkedInInserts(h: Heap, t: nat, bp: nat)
    requires t < |h.ring| && h.ring[t] in h.next
    ensures Inserts(h, LinkedIn(h, t, bp), t, bp)
  {
  }

  lemma NotInRing(ring: seq<nat>, bp: nat, t: nat)
    requires Ascending(ring) && GoesAfter(ring, bp, t)
    ensures bp !in ring
  {
    forall k | 0 <= k < |ring| ensures ring[k] != bp {
      assert k < t ==> ring[k] < ring[t];
      assert k > t + 1 ==> ring[t + 1] < ring[k];
    }
  }

  lemma InsertLinked(h: Heap, g: Heap, t: nat, bp: nat)
    requires Inserts(h, g, t, bp) && Ascending(h.ring) && Linked(h) && GoesAfter(h.ring, bp, t) && bp in h.size
    ensures Linked(g)
  {
    NotInRing(h.ring, bp, t);
    var n := |g.ring|;
    assert LinkAt(h, t);
    forall j: nat | j < n ensures LinkAt(g, j) {
      if j > t + 1 {
        assert LinkAt(h, j - 1) && h.ring[t] < h.ring[j - 1];
      } else if j <= t {
        assert LinkAt(h, j);
      }
    }
  }

  lemma InsertAscending(h: Heap, g: Heap, t: nat, bp: nat)
    requires Inserts(h, g, t, bp) && Ascending(h.ring) && GoesAfter(h.ring, bp, t)
    ensures Ascending(g.ring)
  {
    forall i, j | 0 <= i < j < |g.ring| ensures g.ring[i] < g.ring[j] {
      assert i < t ==> h.ring[i] < h.ring[t];
      assert j > t + 2 ==> h.ring[t + 1] < h.ring[j - 1];
    }
  }

  lemma InsertMembers(h: Heap, g: Heap, t: nat, bp: nat)
    requires Inserts(h, g, t, bp)
    ensures forall b :: b in g.ring <==> b in h.ring || b == bp
  {
    forall b | b in h.ring || b == bp ensures b in g.ring {
      if b == bp {
        assert g.ring[t + 1] == b;
      } else {
        var k :| 0 <= k < |h.ring| && h.ring[k] == b;
        assert g.ring[if k <= t then k else k + 1] == b;
      }
    }
    forall b | b in g.ring ensures b in h.ring || b == bp {
      var k :| 0 <= k < |g.ring| && g.ring[k] == b;
    }
  }

  lemma InsertApart(h: Heap, g: Heap, t: nat, bp: nat)
    requires Inserts(h, g, t, bp) && Apart(h) && bp in h.size
    requires t > 0 ==> h.ring[t] in h.size && h.ring[t] + h.size[h.ring[t]] < bp
    requires t + 1 < |h.ring| ==> bp + h.size[bp] < h.ring[t + 1]
    ensures Apart(g)
  {
    forall j: nat | 1 <= j < |g.ring| - 1 ensures ApartAt(g, j) {
      if j > t + 1 {
        assert ApartAt(h, j - 1);
      } else if j < t {
        assert ApartAt(h, j);
      }
    }
  }

  lemma LinkedInOk(h: Heap, base: nat, t: nat, bp: nat)
    requires RingOk(h, base) && GoesAfter(h.ring, bp, t) && bp in h.size
    requires t > 0 ==> h.ring[t] in h.size && h.ring[t] + h.size[h.ring[t]] < bp
    requires t + 1 < |h.ring| ==> bp + h.size[bp] < h.ring[t + 1]
    ensures RingOk(LinkedIn(h, t, bp), base)
    ensures forall b :: b in LinkedIn(h, t, bp).ring <==> b in h.ring || b == bp
  {
    hide LinkedIn, Ascending, Linked, GoesAfter;
    assert t < |h.ring| by { PlaceInRange(h.ring, bp, t); }
    LinkedAt(h, t);
    var g := LinkedIn(h, t, bp);
    LinkedInInserts(h, t, bp);
    InsertLinked(h, g, t, bp);
    InsertAscending(h, g, t, bp);
    InsertMembers(h, g, t, bp);
    InsertApart(h, g, t, bp);
  }

  lemma PlaceInRange(ring: seq<nat>, bp: nat, t: nat)
    requires GoesAfter(ring, bp, t)
    ensures t < |ring|
  {
  }

  // ------------------------------------------------------------------- changes to the blocks

  /** Block `from` becomes part of block `to`. */
  ghost function Reowned(owner: map<nat, nat>, from: nat, to: nat): map<nat, nat> {
    map x | x in owner :: if owner[x] == from then to else owner[x]
  }

  /** Every block owns its units and every unit has a block. */
  ghost predicate Tiled(h: Heap, base: nat) {
    && (forall b :: IsBlock(h, b) ==> BlockOwns(h, b))
    && (forall x :: x in h.owner ==> UnitOwned(h, x) && base < x)
  }

  /** Two blocks that touch become one. */
  lemma MergeTiled(h: Heap, g: Heap, base: nat, lo: nat, hi: nat)
    requires Tiled(h, base) && IsBlock(h, lo) && IsBlock(h, hi) && lo != hi
    requires lo in h.size && hi in h.size && lo + h.size[lo] == hi
    requires g.size == h.size[lo := h.size[lo] + h.size[hi]] && g.owner == Reowned(h.owner, hi, lo)
    requires forall b :: IsBlock(g, b) <==> IsBlock(h, b) && b != hi
    ensures Tiled(g, base)
  {
    hide IsBlock, BlockOwns;
    forall b: nat | IsBlock(g, b) ensures BlockOwns(g, b) {
      MergeBlock(h, g, lo, hi, b);
    }
    forall x | x in g.owner ensures UnitOwned(g, x) && base < x {
      assert UnitOwned(h, x);
      assert BlockOwns(h, lo) && BlockOwns(h, hi);
    }
  }

  lemma MergeBlock(h: Heap, g: Heap, lo: nat, hi: nat, b: nat)
    requires BlockOwns(h, lo) && BlockOwns(h, hi) && BlockOwns(h, b) && lo + h.size[lo] == hi && b != hi
    requires g.size == h.size[lo := h.size[lo] + h.size[hi]] && g.owner == Reowned(h.owner, hi, lo)
    ensures BlockOwns(g, b)
  {
    forall x: nat | b <= x < b + g.size[b] ensures x in g.owner && g.owner[x] == b {
      if b == lo && x >= hi {
        assert h.owner[x] == hi;
      } else {
        assert h.owner[x] == b;
      }
    }
  }

  lemma BlocksOf(h: Heap, base: nat, b: nat)
    requires RingOk(h, base)
    ensures IsBlock(h, b) <==> b in h.live || (b in h.ring && b != base)
  {
    RingTail(h.ring, base, b);
  }

  lemma RingTail(ring: seq<nat>, base: nat, b: nat)
    requires |ring| > 0 && ring[0] == base && Ascending(ring)
    ensures b in ring[1..] <==> b in ring && b != base
  {
    if b in ring[1..] {
      var k :| 0 <= k < |ring[1..]| && ring[1..][k] == b;
      assert ring[k + 1] == b && ring[0] < ring[k + 1];
    }
    if b in ring && b != base {
      var k :| 0 <= k < |ring| && ring[k] == b;
      assert ring[1..][k - 1] == b;
    }
  }

  lemma SizeOutsideRing(h: Heap, g: Heap, base: nat, b: nat)
    requires RingOk(h, base) && b !in h.ring && g.ring == h.ring && g.next == h.next
    requires forall x :: x in h.size && x != b ==> x in g.size && g.size[x] == h.size[x]
    ensures RingOk(g, base)
  {
    forall i: nat | i < |g.ring| ensures LinkAt(g, i) {
      assert LinkAt(h, i) && h.ring[i] != b;
    }
    forall i: nat | 1 <= i < |g.ring| - 1 ensures ApartAt(g, i) {
      assert ApartAt(h, i) && h.ring[i] != b;
    }
  }

  /** free, first half: a free block right above bp joins it. */
  ghost function AbsorbedUp(h: Heap, t: nat, bp: nat): Heap {
    if t + 1 < |h.ring| && bp in h.size && h.ring[t + 1] in h.size then
      var q := h.ring[t + 1];
      Unlinked(h, t + 1).(size := h.size[bp := h.size[bp] + h.size[q]], owner := Reowned(h.owner, q, bp))
    else h
  }

  lemma AbsorbedUpOk(h: Heap, base: nat, t: nat, bp: nat)
    requires HeapOk(h, base) && bp in h.live && GoesAfter(h.ring, bp, t) && t + 1 < |h.ring|
    requires bp in h.size && bp + h.size[bp] == h.ring[t + 1]
    ensures var g := AbsorbedUp(h, t, bp);
            && HeapOk(g, base) && g.live == h.live && bp in g.size && GoesAfter(g.ring, bp, t)
            && (t + 1 < |g.ring| ==> bp + g.size[bp] < g.ring[t + 1])
            && g.ring == h.ring[..t + 1] + h.ring[t + 2..] && g.owner.Keys == h.owner.Keys
  {
    hide Linked, Apart, Ascending, BlockOwns;
    var q, g := h.ring[t + 1], AbsorbedUp(h, t, bp);
    LinkedAt(h, t + 1);
    UnlinkedOk(h, base, t + 1);
    var u := Unlinked(h, t + 1);
    SizeOutsideRing(u, g, base, bp);
    forall b: nat ensures IsBlock(g, b) <==> IsBlock(h, b) && b != q {
      BlocksOf(h, base, b);
      BlocksOf(g, base, b);
    }
    RingBlock(h, t + 1);
    MergeTiled(h, g, base, bp, q);
    UpGap(h, g, t, bp);
  }

  lemma UpGap(h: Heap, g: Heap, t: nat, bp: nat)
    requires t + 1 < |h.ring| && Apart(h) && Ascending(h.ring) && g.ring == h.ring[..t + 1] + h.ring[t + 2..]
    requires h.ring[t] < bp && bp in h.size && bp in g.size && h.ring[t + 1] in h.size
    requires bp + h.size[bp] == h.ring[t + 1] && g.size[bp] == h.size[bp] + h.size[h.ring[t + 1]]
    ensures GoesAfter(g.ring, bp, t) && (t + 1 < |g.ring| ==> bp + g.size[bp] < g.ring[t + 1])
  {
    if t + 2 < |h.ring| {
      assert ApartAt(h, t + 1);
      assert g.ring[t + 1] == h.ring[t + 2];
    }
  }

  /** The same blocks, however many of them are free. */
  lemma SameBlocksTiled(h: Heap, g: Heap, base: nat)
    requires Tiled(h, base) && g.size == h.size && g.owner == h.owner
    requires forall b: nat :: IsBlock(g, b) <==> IsBlock(h, b)
    ensures Tiled(g, base)
  {
    hide IsBlock;
    forall b: nat | IsBlock(g, b) ensures BlockOwns(g, b) {
      assert BlockOwns(h, b);
    }
    forall x | x in g.owner ensures UnitOwned(g, x) && base < x {
      assert UnitOwned(h, x);
    }
  }

  /** free, second half: bp goes on the free list after entry t. */
  ghost function PutIn(h: Heap, t: nat, bp: nat): Heap {
    LinkedIn(h, t, bp).(live := h.live - {bp})
  }

  lemma PutInOk(h: Heap, base: nat, t: nat, bp: nat)
    requires HeapOk(h, base) && bp in h.live && GoesAfter(h.ring, bp, t) && bp in h.size
    requires t > 0 ==> h.ring[t] in h.size && h.ring[t] + h.size[h.ring[t]] != bp
    requires t + 1 < |h.ring| ==> bp + h.size[bp] < h.ring[t + 1]
    ensures HeapOk(PutIn(h, t, bp), base)
  {
    hide Linked, Apart, Ascending, BlockOwns;
    var g := PutIn(h, t, bp);
    if t > 0 {
      RingBlock(h, t);
      Disjoint(h, base, h.ring[t], bp);
    }
    LinkedInOk(h, base, t, bp);
    SizeOutsideRing0(LinkedIn(h, t, bp), g, base);
    forall b: nat ensures IsBlock(g, b) <==> IsBlock(h, b) {
      BlocksOf(h, base, b);
      BlocksOf(g, base, b);
      assert BlockOwns(h, bp) by { assert IsBlock(h, bp); }
      AboveBase(h, base, bp);
    }
    SameBlocksTiled(h, g, base);
  }

  lemma AboveBase(h: Heap, base: nat, b: nat)
    requires Tiled(h, base) && IsBlock(h, b)
    ensures b in h.size && base < b
  {
    assert BlockOwns(h, b);
    assert h.owner[b] == b;
  }

  lemma SizeOutsideRing0(h: Heap, g: Heap, base: nat)
    requires RingOk(h, base) && g.ring == h.ring && g.next == h.next && g.size == h.size
    ensures RingOk(g, base)
  {
    forall i: nat | i < |g.ring| ensures LinkAt(g, i) {
      assert LinkAt(h, i);
    }
    forall i: nat | 1 <= i < |g.ring| - 1 ensures ApartAt(g, i) {
      assert ApartAt(h, i);
    }
  }

  /** free, second half: bp joins the free block right below it. */
  ghost function AbsorbedDown(h: Heap, t: nat, bp: nat): Heap {
    if t < |h.ring| && bp in h.size && h.ring[t] in h.size then
      var p := h.ring[t];
      h.(size := h.size[p := h.size[p] + h.size[bp]], owner := Reowned(h.owner, bp, p), live := h.live - {bp})
    else h
  }

  lemma AbsorbedDownOk(h: Heap, base: nat, t: nat, bp: nat)
    requires HeapOk(h, base) && bp in h.live && GoesAfter(h.ring, bp, t) && bp in h.size && t > 0
    requires h.ring[t] in h.size && h.ring[t] + h.size[h.ring[t]] == bp
    requires t + 1 < |h.ring| ==> bp + h.size[bp] < h.ring[t + 1]
    ensures HeapOk(AbsorbedDown(h, t, bp), base) && AbsorbedDown(h, t, bp).owner.Keys == h.owner.Keys
  {
    hide Linked, Apart, Ascending, BlockOwns;
    var p, g := h.ring[t], AbsorbedDown(h, t, bp);
    DownRing(h, g, base, t, bp);
    RingBlock(h, t);
    forall b: nat ensures IsBlock(g, b) <==> IsBlock(h, b) && b != bp {
      BlocksOf(h, base, b);
      BlocksOf(g, base, b);
    }
    MergeTiled(h, g, base, p, bp);
  }

  lemma DownRing(h: Heap, g: Heap, base: nat, t: nat, bp: nat)
    requires RingOk(h, base) && 0 < t < |h.ring| && g.ring == h.ring && g.next == h.next
    requires h.ring[t] in h.size && bp in h.size && g.size == h.size[h.ring[t] := h.size[h.ring[t]] + h.size[bp]]
    requires h.ring[t] + h.size[h.ring[t]] == bp && (t + 1 < |h.ring| ==> bp + h.size[bp] < h.ring[t + 1])
    ensures RingOk(g, base)
  {
    forall i: nat | i < |g.ring| ensures LinkAt(g, i) {
      assert LinkAt(h, i);
    }
    forall i: nat | 1 <= i < |g.ring| - 1 ensures ApartAt(g, i) {
      assert ApartAt(h, i);
      assert i != t ==> h.ring[i] != h.ring[t];
    }
    assert h.ring[0] < h.ring[t];
  }

  /** malloc, exact fit: the whole block leaves the free list. */
  ghost function TakenWhole(h: Heap, i: nat): Heap {
    if i < |h.ring| then Unlinked(h, i).(live := h.live + {h.ring[i]}) else h
  }

  lemma TakenWholeOk(h: Heap, base: nat, i: nat)
    requires HeapOk(h, base) && 1 <= i < |h.ring|
    ensures HeapOk(TakenWhole(h, i), base) && h.ring[i] !in h.live
  {
    hide Linked, Apart, Ascending, BlockOwns;
    var g := TakenWhole(h, i);
    UnlinkedOk(h, base, i);
    LinkedAt(h, i);
    SizeOutsideRing0(Unlinked(h, i), g, base);
    RingBlock(h, i);
    forall b: nat ensures IsBlock(g, b) <==> IsBlock(h, b) {
      BlocksOf(h, base, b);
      BlocksOf(g, base, b);
    }
    SameBlocksTiled(h, g, base);
  }

  /** A block's last n units become a block in use. */
  ghost function SplitOff(h: Heap, i: nat, n: nat): Heap {
    if i < |h.ring| && h.ring[i] in h.size && h.size[h.ring[i]] >= n then
      var p := h.ring[i];
      var b := p + (h.size[p] - n);
      h.(size := h.size[p := h.size[p] - n][b := n], live := h.live + {b},
         owner := map x | x in h.owner :: if h.owner[x] == p && x >= b then b else h.owner[x])
    else h
  }

  lemma SplitOffOk(h: Heap, base: nat, i: nat, n: nat)
    requires HeapOk(h, base) && 1 <= i < |h.ring| && 0 < n && h.ring[i] in h.size && n < h.size[h.ring[i]]
    ensures var b := h.ring[i] + (h.size[h.ring[i]] - n);
            HeapOk(SplitOff(h, i, n), base) && !IsBlock(h, b) && b !in h.ring
                && SplitOff(h, i, n).owner.Keys == h.owner.Keys
  {
    hide Linked, Apart, Ascending, BlockOwns;
    var p, g := h.ring[i], SplitOff(h, i, n);
    var b := p + (h.size[p] - n);
    RingBlock(h, i);
    NewBlock(h, base, p, b);
    SplitRing(h, g, base, i, n);
    forall c: nat ensures IsBlock(g, c) <==> IsBlock(h, c) || c == b {
      BlocksOf(h, base, c);
      BlocksOf(g, base, c);
    }
    SplitTiled(h, g, base, p, b, n);
  }

  lemma NewBlock(h: Heap, base: nat, p: nat, b: nat)
    requires HeapOk(h, base) && IsBlock(h, p) && p in h.size && p < b < p + h.size[p]
    ensures !IsBlock(h, b) && b !in h.ring && base < b
  {
    assert BlockOwns(h, p);
    assert h.owner[b] == p;
    assert IsBlock(h, b) ==> BlockOwns(h, b);
    BlocksOf(h, base, b);
  }

  lemma SplitRing(h: Heap, g: Heap, base: nat, i: nat, n: nat)
    requires RingOk(h, base) && 1 <= i < |h.ring| && 0 < n && h.ring[i] in h.size && n < h.size[h.ring[i]]
    requires var b := h.ring[i] + (h.size[h.ring[i]] - n);
            b !in h.ring && g.size == h.size[h.ring[i] := h.size[h.ring[i]] - n][b := n]
    requires g.ring == h.ring && g.next == h.next
    ensures RingOk(g, base)
  {
    forall j: nat | j < |g.ring| ensures LinkAt(g, j) {
      assert LinkAt(h, j);
    }
    forall j: nat | 1 <= j < |g.ring| - 1 ensures ApartAt(g, j) {
      assert ApartAt(h, j);
    }
    assert h.ring[0] < h.ring[i];
  }

  lemma SplitTiled(h: Heap, g: Heap, base: nat, p: nat, b: nat, n: nat)
    requires Tiled(h, base) && IsBlock(h, p) && p in h.size && 0 < n < h.size[p] && b == p + (h.size[p] - n)
    requires !IsBlock(h, b)
    requires g.size == h.size[p := h.size[p] - n][b := n]
    requires g.owner == map x | x in h.owner :: if h.owner[x] == p && x >= b then b else h.owner[x]
    requires forall c: nat :: IsBlock(g, c) <==> IsBlock(h, c) || c == b
    ensures Tiled(g, base)
  {
    hide IsBlock, BlockOwns;
    forall c: nat | IsBlock(g, c) ensures BlockOwns(g, c) {
      SplitBlock(h, g, p, b, n, c);
    }
    forall x | x in g.owner ensures UnitOwned(g, x) && base < x {
      assert UnitOwned(h, x);
    }
  }

  lemma SplitBlock(h: Heap, g: Heap, p: nat, b: nat, n: nat, c: nat)
    requires BlockOwns(h, p) && 0 < n < h.size[p] && b == p + (h.size[p] - n)
    requires g.size == h.size[p := h.size[p] - n][b := n]
    requires g.owner == map x | x in h.owner :: if h.owner[x] == p && x >= b then b else h.owner[x]
    requires c == b || BlockOwns(h, c)
    ensures BlockOwns(g, c)
  {
    forall x: nat | c <= x < c + g.size[c] ensures x in g.owner && g.owner[x] == c {
      if c == b || c == p {
        assert h.owner[x] == p;
      } else {
        assert h.owner[x] == c;
      }
    }
  }

  predicate InUnits(x: nat, b: nat, n: nat) {
    b <= x < b + n
  }

  /** morecore: fresh memory above everything, as one block in use. */
  ghost function Obtained(h: Heap, brk: nat, nu: nat): Heap {
    h.(size := h.size[brk := nu], live := h.live + {brk},
       owner := h.owner + map x: nat | brk <= x < brk + nu && InUnits(x, brk, nu) :: brk)
  }

  lemma ObtainedOk(h: Heap, base: nat, brk: nat, nu: nat)
    requires HeapOk(h, base) && nu > 0 && base < brk && forall x :: x in h.owner ==> x < brk
    ensures HeapOk(Obtained(h, brk, nu), base) && !IsBlock(h, brk)
  {
    hide Linked, Apart, Ascending, BlockOwns;
    var g := Obtained(h, brk, nu);
    if IsBlock(h, brk) {
      OwnsItself(h, brk);
    }
    BlocksOf(h, base, brk);
    SizeOutsideRing(h, g, base, brk);
    forall c: nat ensures IsBlock(g, c) <==> IsBlock(h, c) || c == brk {
      BlocksOf(h, base, c);
      BlocksOf(g, base, c);
    }
    ObtainedTiled(h, g, base, brk, nu);
  }

  lemma OwnsItself(h: Heap, b: nat)
    requires BlockOwns(h, b)
    ensures b in h.owner && h.owner[b] == b
  {
  }

  lemma ObtainedTiled(h: Heap, g: Heap, base: nat, brk: nat, nu: nat)
    requires Tiled(h, base) && nu > 0 && base < brk && (forall x :: x in h.owner ==> x < brk)
    requires g == Obtained(h, brk, nu)
    requires forall c: nat :: IsBlock(g, c) <==> IsBlock(h, c) || c == brk
    ensures Tiled(g, base)
  {
    hide IsBlock;
    forall c: nat | IsBlock(g, c) ensures BlockOwns(g, c) {
      if c != brk {
        assert BlockOwns(h, c);
        forall x: nat | c <= x < c + g.size[c] ensures x in g.owner && g.owner[x] == c {
          assert x in h.owner && h.owner[x] == c;
        }
      }
    }
    forall x | x in g.owner ensures UnitOwned(g, x) && base < x {
      if x in h.owner {
        assert UnitOwned(h, x);
        assert h.owner[x] <= x < brk;
      }
    }
  }

  // -------------------------------------------------------------------------------- free

  /** What free does to a heap, given where the block belongs. */
  ghost function Freed(h: Heap, t: nat, bp: nat): Heap {
    if t < |h.ring| && h.ring[t] in h.size && bp in h.size then
      var p := h.ring[t];
      var g := if t + 1 < |h.ring| && bp + h.size[bp] == h.ring[t + 1] then AbsorbedUp(h, t, bp) else h;
      if p + h.size[p] == bp then AbsorbedDown(g, t, bp) else PutIn(g, t, bp)
    else h
  }

  /** The blocks still in use have the sizes they had. */
  ghost predicate KeepsLive(h: Heap, g: Heap) {
    forall b :: b in g.live && b in h.live ==> b in h.size && b in g.size && g.size[b] == h.size[b]
  }

  /** The freed units are in a free block at least as large. */
  ghost predicate Coalesced(h: Heap, g: Heap, bp: nat) {
    && bp in g.owner && g.owner[bp] in g.ring && g.owner[bp] in g.size && bp in h.size
    && g.size[g.owner[bp]] >= h.size[bp]
  }

  lemma FreedOk(h: Heap, base: nat, t: nat, bp: nat)
    requires HeapOk(h, base) && bp in h.live && GoesAfter(h.ring, bp, t)
    ensures var g := Freed(h, t, bp);
            && HeapOk(g, base) && g.live == h.live - {bp} && g.owner.Keys == h.owner.Keys
            && t < |h.ring| && h.ring[t] in g.ring
            && KeepsLive(h, g) && Coalesced(h, g, bp)
  {
    hide RingOk, Owned, AbsorbedUp, AbsorbedDown, PutIn, IsBlock;
    FreeFacts(h, base, t, bp);
    var p := h.ring[t];
    var up := t + 1 < |h.ring| && bp + h.size[bp] == h.ring[t + 1];
    var u := if up then AbsorbedUp(h, t, bp) else h;
    LiveSizes(h, base);
    if up {
      AbsorbedUpOk(h, base, t, bp);
      AbsorbedUpKeeps(h, t, bp);
    }
    if p + h.size[p] == bp {
      AbsorbedDownOk(u, base, t, bp);
      AbsorbedDownKeeps(u, t, bp);
    } else {
      PutInOk(u, base, t, bp);
      PutInKeeps(u, base, t, bp);
    }
  }

  lemma FreeFacts(h: Heap, base: nat, t: nat, bp: nat)
    requires HeapOk(h, base) && bp in h.live && GoesAfter(h.ring, bp, t)
    ensures t < |h.ring| && h.ring[t] in h.size && bp in h.size && h.ring[t] != bp
    ensures t == 0 ==> h.ring[t] + h.size[h.ring[t]] < bp
    ensures t + 1 < |h.ring| ==> bp + h.size[bp] <= h.ring[t + 1] && h.ring[t + 1] in h.size
    ensures bp in h.owner && h.owner[bp] == bp && h.ring[t] !in h.live
  {
    LinkedAt(h, t);
    assert IsBlock(h, bp) && BlockOwns(h, bp);
    AboveBase(h, base, bp);
    if t + 1 < |h.ring| {
      RingBlock(h, t + 1);
      Disjoint(h, base, bp, h.ring[t + 1]);
    }
  }

  lemma AbsorbedUpKeeps(h: Heap, t: nat, bp: nat)
    requires t + 1 < |h.ring| && bp in h.size && h.ring[t + 1] in h.size && h.ring[t] in h.size && h.ring[t] != bp
    ensures var g := AbsorbedUp(h, t, bp); h.ring[t] in g.size && g.size[h.ring[t]] == h.size[h.ring[t]]
    ensures |AbsorbedUp(h, t, bp).ring| > t && AbsorbedUp(h, t, bp).ring[t] == h.ring[t]
    ensures forall b :: b in h.size && b != bp ==>
            b in AbsorbedUp(h, t, bp).size && AbsorbedUp(h, t, bp).size[b] == h.size[b]
    ensures bp in h.owner && h.owner[bp] == bp ==>
            bp in AbsorbedUp(h, t, bp).owner && AbsorbedUp(h, t, bp).owner[bp] == bp
    ensures bp in AbsorbedUp(h, t, bp).size && AbsorbedUp(h, t, bp).size[bp] >= h.size[bp]
  {
  }

  lemma LiveSizes(h: Heap, base: nat)
    requires HeapOk(h, base)
    ensures forall b :: b in h.live ==> b in h.size && b !in h.ring
  {
    forall b | b in h.live ensures b in h.size {
      assert IsBlock(h, b) && BlockOwns(h, b);
    }
  }

  lemma AbsorbedDownKeeps(h: Heap, t: nat, bp: nat)
    requires t < |h.ring| && bp in h.size && h.ring[t] in h.size
    ensures AbsorbedDown(h, t, bp).ring == h.ring && AbsorbedDown(h, t, bp).live == h.live - {bp}
    ensures h.ring[t] in AbsorbedDown(h, t, bp).ring
    ensures forall b :: b in h.size && b != h.ring[t] ==>
            b in AbsorbedDown(h, t, bp).size && AbsorbedDown(h, t, bp).size[b] == h.size[b]
    ensures bp in h.owner && h.owner[bp] == bp ==>
            bp in AbsorbedDown(h, t, bp).owner && AbsorbedDown(h, t, bp).owner[bp] == h.ring[t]
    ensures h.ring[t] in AbsorbedDown(h, t, bp).size && AbsorbedDown(h, t, bp).size[h.ring[t]] >= h.size[bp]
  {
  }

  lemma PutInKeeps(h: Heap, base: nat, t: nat, bp: nat)
    requires HeapOk(h, base) && GoesAfter(h.ring, bp, t)
    ensures PutIn(h, t, bp).owner == h.owner && PutIn(h, t, bp).live == h.live - {bp}
    ensures h.ring[t] in PutIn(h, t, bp).ring
    ensures PutIn(h, t, bp).size == h.size && bp in PutIn(h, t, bp).ring
  {
    LinkedAt(h, t);
    assert PutIn(h, t, bp).ring[t] == h.ring[t];
    assert PutIn(h, t, bp).ring[t + 1] == bp;
  }

  /** free looks at the next free block, and finds it above bp exactly when there is one. */
  lemma NextFree(h: Heap, base: nat, t: nat, bp: nat)
    requires HeapOk(h, base) && bp in h.live && GoesAfter(h.ring, bp, t)
    ensures t < |h.ring| && h.ring[t] in h.next && h.ring[t] in h.size && bp in h.size && h.ring[t] != bp
    ensures var q := h.next[h.ring[t]];
            && q in h.next && q in h.size
            && (bp + h.size[bp] == q <==> t + 1 < |h.ring| && bp + h.size[bp] == h.ring[t + 1])
            && (t + 1 < |h.ring| ==> q == h.ring[t + 1])
  {
    hide Owned;
    FreeFacts(h, base, t, bp);
    LinkedAt(h, t);
    LinkedAt(h, Succ(|h.ring|, t));
    assert h.ring[0] == base;
    assert base < bp by { assert t > 0 ==> h.ring[0] < h.ring[t]; }
  }

  /** The sizes free leaves are the ones the code writes. */
  lemma FreedSizes(h: Heap, base: nat, t: nat, bp: nat)
    requires HeapOk(h, base) && bp in h.live && GoesAfter(h.ring, bp, t)
    ensures t < |h.ring| && h.ring[t] in h.next && h.ring[t] in h.size && bp in h.size && h.next[h.ring[t]] in h.size
    ensures var p := h.ring[t];
            var q := h.next[p];
            var z := if bp + h.size[bp] == q then h.size[bp] + h.size[q] else h.size[bp];
            Freed(h, t, bp).size == if p + h.size[p] == bp then h.size[bp := z][p := h.size[p] + z] else h.size[bp := z]
  {
    hide RingOk, Owned, Linked, Apart, IsBlock, Reowned, LinkedIn, Unlinked;
    NextFree(h, base, t, bp);
    assert h.size[bp := h.size[bp]] == h.size;
    UnlinkedSize(h, t + 1);
    LinkedInSize(h, t, bp);
    LinkedInSize(AbsorbedUp(h, t, bp), t, bp);
    AbsorbedUpRing(h, t, bp);
  }

  lemma UnlinkedSize(h: Heap, i: nat)
    ensures Unlinked(h, i).size == h.size
  {
  }

  lemma LinkedInSize(h: Heap, t: nat, bp: nat)
    ensures LinkedIn(h, t, bp).size == h.size
  {
  }

  lemma AbsorbedUpRing(h: Heap, t: nat, bp: nat)
    ensures t + 1 < |h.ring| ==> t < |AbsorbedUp(h, t, bp).ring| && AbsorbedUp(h, t, bp).ring[t] == h.ring[t]
  {
  }

  /** The links free leaves are the ones the code writes, except in a block that is no longer one. */
  lemma FreedLinks(h: Heap, base: nat, t: nat, bp: nat)
    requires HeapOk(h, base) && bp in h.live && GoesAfter(h.ring, bp, t)
    ensures t < |h.ring| && h.ring[t] in h.next && h.ring[t] in h.size && bp in h.size && h.next[h.ring[t]] in h.next
    ensures var p := h.ring[t];
            var q := h.next[p];
            var x := if bp + h.size[bp] == q then h.next[q] else q;
            Freed(h, t, bp).next == if p + h.size[p] == bp then h.next[p := x] else h.next[bp := x][p := bp]
  {
    hide RingOk, Owned, Linked, Apart, IsBlock, Reowned;
    NextFree(h, base, t, bp);
    var p := h.ring[t];
    var q := h.next[p];
    AbsorbedUpRing(h, t, bp);
    if t + 1 < |h.ring| && bp + h.size[bp] == h.ring[t + 1] {
      var u := AbsorbedUp(h, t, bp);
      assert u.next == h.next[p := h.next[q]];
      if p + h.size[p] != bp {
        assert h.next[p := h.next[q]][bp := h.next[q]][p := bp] == h.next[bp := h.next[q]][p := bp];
      }
    } else {
      assert h.next[p := q] == h.next;
    }
  }

  /** A link in a block that is not on the free list does not matter. */
  lemma StrayLink(h: Heap, base: nat, b: nat, x: nat)
    requires HeapOk(h, base) && b !in h.ring
    ensures HeapOk(h.(next := h.next[b := x]), base)
  {
    var g := h.(next := h.next[b := x]);
    forall i: nat | i < |g.ring| ensures LinkAt(g, i) {
      assert LinkAt(h, i) && h.ring[i] != b;
    }
    forall i: nat | 1 <= i < |g.ring| - 1 ensures ApartAt(g, i) {
      assert ApartAt(h, i);
    }
    SameBlocksTiled(h, g, base);
  }

  // -------------------------------------------------------------------- the allocator itself

  /** Steps from index i to index t, going round. */
  function Ahead(n: nat, i: nat, t: nat): nat {
    if i <= t then t - i else if n + t >= i then n + t - i else 0
  }

  lemma RingIndex(h: Heap, base: nat, p: nat) returns (i: nat)
    requires RingOk(h, base) && p in h.ring
    ensures i < |h.ring| && h.ring[i] == p && p in h.next && p in h.size && h.next[p] == h.ring[Succ(|h.ring|, i)]
  {
    i :| 0 <= i < |h.ring| && h.ring[i] == p;
    LinkedAt(h, i);
  }

  /** free's loop stops at entry i exactly when bp belongs after it. */
  lemma StopsThere(h: Heap, base: nat, bp: nat, i: nat, t: nat)
    requires RingOk(h, base) && GoesAfter(h.ring, bp, t) && base < bp && i < |h.ring|
    ensures var p, q := h.ring[i], h.ring[Succ(|h.ring|, i)];
            ((bp > p && bp < q) || (p >= q && (bp > p || bp < q))) <==> i == t
  {
    var n := |h.ring|;
    assert h.ring[0] == base;
    if i + 1 < n {
      assert h.ring[i] < h.ring[i + 1];
      assert i < t ==> h.ring[i + 1] <= h.ring[t];
      assert i > t ==> h.ring[t + 1] <= h.ring[i];
    } else {
      assert i > 0 ==> h.ring[0] < h.ring[i];
      assert t < i ==> h.ring[t + 1] <= h.ring[i];
    }
  }

  class Allocator {
    const base: nat
    var next: map<nat, nat>
    var size: map<nat, nat>
    /** Where the last search ended; 0 before the first malloc. */
    var freep: nat
    ghost var ring: seq<nat>
    ghost var live: set<nat>
    ghost var owner: map<nat, nat>

    ghost function State(): Heap
      reads this
    {
      Heap(ring, next, size, live, owner)
    }

    ghost predicate Valid()
      reads this
    {
      && base > 0
      && (freep == 0 ==> live == {} && owner == map[])
      && (freep != 0 ==> HeapOk(State(), base) && freep in ring)
    }

    constructor (base: nat)
      requires base > 0
      ensures Valid() && this.base == base && freep == 0 && live == {} && owner == map[]
    {
      this.base := base;
      next, size, freep := map[], map[], 0;
      ring, live, owner := [], {}, map[];
    }

    /** The free block after which bp belongs: free's search, which always ends. */
    method FindPlace(bp: nat, ghost t: nat) returns (p: nat)
      requires freep != 0 && RingOk(State(), base) && freep in ring && base < bp && GoesAfter(ring, bp, t)
      ensures p == ring[t]
    {
      hide RingOk;
      ghost var h := State();
      ghost var i := RingIndex(h, base, freep);
      p := freep;
      while !(bp > p && bp < next[p])
        invariant 0 <= i < |ring| && p == ring[i] && p in next && next[p] == ring[Succ(|ring|, i)]
        decreases Ahead(|ring|, i, t)
        modifies {}
      {
        StopsThere(h, base, bp, i, t);
        if p >= next[p] && (bp > p || bp < next[p]) {
          return;
        }
        i := Succ(|ring|, i);
        p := next[p];
        ghost var k := RingIndexAt(h, base, i);
      }
      StopsThere(h, base, bp, i, t);
    }

    /**
     Give a block back. It joins the free blocks it touches; the memory obtained and the other
     blocks in use are the same.
     */
    method Free(bp: nat)
      requires Valid() && bp in live
      modifies this
      ensures Valid() && freep != 0 && live == old(live) - {bp} && owner.Keys == old(owner).Keys
      ensures KeepsLive(old(State()), State()) && Coalesced(old(State()), State(), bp)
    {
      hide HeapOk, KeepsLive, Coalesced, Freed, GoesAfter;
      ghost var h := State();
      ghost var t := FreePlace(h, base, bp);
      var p := FindPlace(bp, t);
      FreedAsWritten(h, base, t, bp);
      ghost var g := AsWritten(h, t, bp);
      var q := next[p];
      if bp + size[bp] == q {
        size := size[bp := size[bp] + size[q]];
        next := next[bp := next[q]];
      } else {
        next := next[bp := q];
      }
      if p + size[p] == bp {
        size := size[p := size[p] + size[bp]];
        next := next[p := next[bp]];
      } else {
        next := next[p := bp];
      }
      freep := p;
      ring, live, owner := g.ring, g.live, g.owner;
    }

    /** The first malloc: a free list of base alone. */
    method Init()
      requires Valid() && freep == 0
      modifies this
      ensures Valid() && freep == base && live == old(live) && owner == old(owner)
    {
      next := next[base := base];
      freep := base;
      size := size[base := 0];
      ring := [base];
      assert LinkAt(State(), 0);
      assert ring[1..] == [];
    }

    /** malloc's last step: all of a free block, or its tail. */
    method Allocate(prevp: nat, p: nat, nunits: nat, ghost i: nat) returns (ap: nat)
      requires Valid() && freep != 0 && 0 < i < |ring| && prevp == ring[i - 1] && p == ring[i]
      requires p in size && p in next && 0 < nunits <= size[p]
      modifies this
      ensures Valid() && freep == prevp && ap > 1 && ap - 1 !in old(live) && live == old(live) + {ap - 1}
      ensures ap - 1 in size && size[ap - 1] == nunits && owner.Keys == old(owner).Keys
      ensures KeepsLive(old(State()), State())
    {
      hide HeapOk, KeepsLive;
      ghost var h := State();
      PositiveRing(h, base, i - 1);
      PositiveRing(h, base, i);
      var b := p;
      if size[p] == nunits {
        TakenWholeOk(h, base, i);
        TakenKeeps(h, base, i);
        next := next[prevp := next[p]];
        ring := ring[..i] + ring[i + 1..];
        live := live + {p};
      } else {
        SplitOffOk(h, base, i, nunits);
        SplitKeeps(h, base, i, nunits);
        size := size[p := size[p] - nunits];
        b := p + size[p];
        size := size[b := nunits];
        live := live + {b};
        owner := map x | x in owner :: if owner[x] == p && x >= b then b else owner[x];
      }
      freep := prevp;
      ap := b + 1;
    }

    /**
     Obtain memory from sbrk, for a process of sz units, and free it. The block freed is as large
     as was asked for, whatever sbrk made of its argument.
     */
    method Morecore(nunits: nat, sz: nat, granted: bool) returns (p: nat, top: nat)
      requires Valid() && freep != 0 && nunits > 0 && Within(State(), base, sz)
      modifies this
      ensures Valid() && freep != 0 && live == old(live) && KeepsLive(old(State()), State())
      ensures var nu := CoreUnits(nunits);
              if Gives(nu, granted) then
                && p == freep && owner.Keys == Obtained(old(State()), sz, nu).owner.Keys && top == Break(sz, nu)
                && !NoneFits(State(), nunits)
              else p == 0 && State() == old(State()) && freep == old(freep) && top == sz
    {
      hide HeapOk, Coalesced;
      var nu := CoreUnits(nunits);
      ghost var h := State();
      if !Gives(nu, granted) {
        LiveSizes(h, base);
        return 0, sz;
      }
      var brk := sz;
      top := Break(sz, nu);
      ObtainedOk(h, base, brk, nu);
      LiveSizes(h, base);
      size := size[brk := nu];
      live := live + {brk};
      owner := owner + map x: nat | brk <= x < brk + nu && InUnits(x, brk, nu) :: brk;
      ghost var g := State();
      assert g == Obtained(h, brk, nu);
      Free(brk);
      CoreKept(h, g, State(), brk, nu, nunits);
      p := freep;
    }

    /**
     A block with room for nbytes, or 0 when no free block is large enough and sbrk gives
     nothing. The address returned is that of the first unit after the block's header. The heap
     stays within the process unless it grew by a request too large for the argument of sbrk.
     */
    method Malloc(nbytes: nat, sz: nat, granted: bool) returns (ap: nat, top: nat)
      requires Valid() && nbytes < UINT && Within(State(), base, sz)
      modifies this
      ensures Valid()
      ensures var n := Units(nbytes); var nu := CoreUnits(n);
              var more := NeedsCore(old(State()), old(freep), n) && Gives(nu, granted);
              && (ap == 0 <==> NeedsCore(old(State()), old(freep), n) && !Gives(nu, granted))
              && top == (if more then Break(sz, nu) else sz)
              && owner.Keys == (if more then Obtained(old(State()), sz, nu).owner.Keys else old(owner).Keys)
              && (Within(State(), base, top) <==> !more || nbytes <= LARGEST)
      ensures ap == 0 ==> live == old(live) && owner == old(owner)
      ensures ap != 0 ==>
                && ap > 1 && ap - 1 !in old(live) && live == old(live) + {ap - 1}
                && ap - 1 in size && size[ap - 1] == Units(nbytes) && KeepsLive(old(State()), State())
    {
      hide HeapOk, KeepsLive, NoneFits, Within, Obtained, Gives, Break, SbrkArg;
      var nunits := Units(nbytes);
      ghost var h := State();
      if freep == 0 {
        Init();
        EmptyFits(State(), base, nunits);
      }
      ghost var h0 := State();
      StartedFrom(h, h0, base, sz, CoreUnits(nunits));
      var prevp, p;
      ghost var i;
      prevp, p, top, i := Search(nunits, sz, granted);
      ghost var u := State();
      SameReach(h, u, base, sz);
      if NoneFits(h0, nunits) && Gives(CoreUnits(nunits), granted) {
        WithinIff(h, u, base, sz, nbytes);
      }
      if p == 0 {
        return 0, top;
      }
      ap := Allocate(prevp, p, nunits, i);
      SameReach(u, State(), base, top);
      KeepsLiveTwice(h0, u, State());
      KeptFromStart(h, h0, State());
    }

    /**
     malloc's loop: the first large enough block after freep, with the one before it. Memory is
     obtained at most once, and only when no free block is large enough.
     */
    method Search(nunits: nat, sz: nat, granted: bool) returns (prevp: nat, p: nat, top: nat, ghost i: nat)
      requires Valid() && freep != 0 && nunits > 0 && Within(State(), base, sz)
      modifies this
      ensures Valid() && freep != 0 && live == old(live) && KeepsLive(old(State()), State())
      ensures var none, gives := NoneFits(old(State()), nunits), Gives(CoreUnits(nunits), granted);
              && (p == 0 <==> none && !gives)
              && (!(none && gives) ==> State() == old(State()) && top == sz)
              && (none && gives ==>
                    && top == Break(sz, CoreUnits(nunits))
                    && owner.Keys == Obtained(old(State()), sz, CoreUnits(nunits)).owner.Keys)
      ensures p != 0 ==>
              0 < i < |ring| && prevp == ring[i - 1] && p == ring[i] && p in size && p in next && nunits <= size[p]
    {
      hide HeapOk, RingOk, KeepsLive, NoneFits, Within, Obtained, SmallSoFar, Gives, Break;
      top := sz;
      ghost var h0 := State();
      HeapRing(h0, base);
      prevp := freep;
      ghost var f := RingIndex(h0, base, freep);
      p := next[prevp];
      i := Succ(|ring|, f);
      ghost var called := false;
      SearchStarts(h0, nunits, f);
      KeepsLiveSelf(h0, base);
      ghost var k := RingIndexAt(h0, base, i);
      while size[p] < nunits
        invariant Valid() && freep != 0 && live == h0.live && KeepsLive(h0, State())
        invariant 0 <= f < |ring| && 0 <= i < |ring| && ring[f] == freep && p == ring[i]
        invariant prevp == ring[IndexBefore(|ring|, i)] && p in size && p in next
        invariant SmallSoFar(State(), nunits, f, i)
        invariant !called ==> State() == h0 && top == sz
        invariant called ==> Gives(CoreUnits(nunits), granted) && NoneFits(h0, nunits) && !NoneFits(State(), nunits)
        invariant called ==> owner.Keys == Obtained(h0, sz, CoreUnits(nunits)).owner.Keys
        invariant called ==> top == Break(sz, CoreUnits(nunits))
        decreases !called, Ahead(|ring|, i, f)
      {
        HeapRing(State(), base);
        if p == freep {
          SearchedAll(State(), base, nunits, f, i);
          assert !called;
          p, top := Morecore(nunits, sz, granted);
          if p == 0 {
            return;
          }
          called := true;
          HeapRing(State(), base);
          f := RingIndex(State(), base, freep);
          i := f;
          SearchStarts(State(), nunits, f);
        } else {
          SearchOn(State(), base, nunits, f, i);
        }
        k := RingIndexAt(State(), base, i);
        prevp, p := p, next[p];
        i := Succ(|ring|, i);
        k := RingIndexAt(State(), base, i);
      }
      BaseIsSmall(State(), base, i);
      PositiveRing(State(), base, i);
      SomeFits(State(), nunits, i);
    }
  }

  lemma SomeFits(h: Heap, nunits: nat, i: nat)
    requires i < |h.ring| && h.ring[i] in h.size && nunits <= h.size[h.ring[i]]
    ensures !NoneFits(h, nunits)
  {
  }

  lemma FreeUnit(h: Heap, base: nat, i: nat)
    requires HeapOk(h, base) && 1 <= i < |h.ring|
    ensures h.ring[i] in h.owner
  {
    RingBlock(h, i);
    assert BlockOwns(h, h.ring[i]);
  }

  lemma EmptyFits(h: Heap, base: nat, nunits: nat)
    requires HeapOk(h, base) && h.owner == map[] && nunits > 0
    ensures NoneFits(h, nunits)
  {
    if |h.ring| > 1 {
      FreeUnit(h, base, 1);
    }
    assert h.ring == [base];
  }

  /** Setting up an empty free list changes nothing that matters to later claims. */
  lemma StartedFrom(h: Heap, h0: Heap, base: nat, brk: nat, nu: nat)
    requires h0.owner == h.owner && h0.live == h.live
    ensures Obtained(h, brk, nu).owner == Obtained(h0, brk, nu).owner
    ensures Within(h, base, brk) ==> Within(h0, base, brk)
  {
  }

  lemma KeptFromStart(h: Heap, h0: Heap, g: Heap)
    requires h0 == h || h.live == {}
    requires KeepsLive(h0, g)
    ensures KeepsLive(h, g)
  {
  }

  // ----------------------------------------------------------------- the memory of the process

  const UINT: nat := 0x1_0000_0000
  /** The largest request whose size in bytes, with a header, fits an int. */
  const LARGEST: nat := 0x7FFF_FFE0

  /** Every unit the heap claims is below sz: where the process ends, in units. */
  ghost predicate Within(h: Heap, base: nat, sz: nat) {
    base < sz && forall x :: x in h.owner ==> x < sz
  }

  /** What sbrk gets: nu * sizeof(Header), converted to int. */
  function SbrkArg(nu: nat): int {
    var x := nu * HEADER % UINT;
    if x < UINT / 2 then x else x - UINT
  }

  /** sbrk fails only when it is asked for more memory and the kernel does not grant it. */
  predicate Gives(nu: nat, granted: bool) {
    SbrkArg(nu) <= 0 || granted
  }

  /** The end of a process of sz units after sbrk. */
  function Break(sz: nat, nu: nat): nat {
    Common.GrownTo(sz * HEADER, SbrkArg(nu)) / HEADER
  }

  /** malloc has to call morecore. */
  ghost predicate NeedsCore(h: Heap, freep: nat, nunits: nat) {
    freep == 0 || NoneFits(h, nunits)
  }

  /** The argument of sbrk is right exactly for requests up to LARGEST. */
  lemma ArgIsRight(nbytes: nat)
    requires nbytes < UINT
    ensures var nu := CoreUnits(Units(nbytes)); SbrkArg(nu) == nu * HEADER <==> nbytes <= LARGEST
    ensures SbrkArg(CoreUnits(Units(nbytes))) <= CoreUnits(Units(nbytes)) * HEADER
  {
    var n := Units(nbytes);
    Common.Euclid(nbytes + HEADER - 1, HEADER);
    if nbytes <= LARGEST {
      assert n * HEADER < UINT / 2;
    } else {
      assert n * HEADER >= UINT / 2 && n >= MINCORE;
    }
  }

  /** Then and only then the process ends behind what the heap claims. */
  lemma BreakIsRight(sz: nat, nbytes: nat)
    requires nbytes < UINT
    ensures var nu := CoreUnits(Units(nbytes)); sz + nu <= Break(sz, nu) <==> nbytes <= LARGEST
  {
    hide SbrkArg;
    ArgIsRight(nbytes);
    var nu := CoreUnits(Units(nbytes));
    var n := SbrkArg(nu);
    var after := Common.GrownTo(sz * HEADER, n);
    Common.Euclid(after, HEADER);
    if nbytes <= LARGEST {
      assert after == (sz + nu) * HEADER;
      Common.DivUnique(after, HEADER, sz + nu, 0);
    } else {
      assert n < nu * HEADER && after < (sz + nu) * HEADER;
    }
  }

  lemma SameReach(h: Heap, g: Heap, base: nat, sz: nat)
    ensures h.owner.Keys == g.owner.Keys ==> (Within(h, base, sz) <==> Within(g, base, sz))
  {
    if h.owner.Keys == g.owner.Keys {
      assert forall x :: x in h.owner <==> x in g.owner;
    }
  }

  /** A heap that has obtained memory is within the process exactly for requests up to LARGEST. */
  lemma WithinIff(h: Heap, g: Heap, base: nat, sz: nat, nbytes: nat)
    requires Within(h, base, sz) && nbytes < UINT
    requires g.owner.Keys == Obtained(h, sz, CoreUnits(Units(nbytes))).owner.Keys
    ensures Within(g, base, Break(sz, CoreUnits(Units(nbytes)))) <==> nbytes <= LARGEST
  {
    hide Break;
    var nu := CoreUnits(Units(nbytes));
    BreakIsRight(sz, nbytes);
    var o := Obtained(h, sz, nu);
    assert forall x :: x in g.owner <==> x in o.owner;
    assert forall x: nat :: x in o.owner <==> x in h.owner || sz <= x < sz + nu;
    assert sz + nu - 1 in g.owner;
  }

  /**
   The first malloc of a process asks for 0xFFFF_FFFF bytes: sbrk gets 16, and the address
   returned is the end of the process, though the block counts 0x1000_0001 units.
   */
  method HugeRequest(base: nat, sz: nat) returns (a: Allocator, ap: nat, top: nat)
    requires 0 < base < sz
    ensures fresh(a) && a.base == base && a.Valid() && top == sz + 1
    ensures ap != 0 && ap - 1 in a.live && ap - 1 in a.size && a.size[ap - 1] == 0x1000_0001
    ensures ap == top && !Within(a.State(), base, top)
  {
    hide HeapOk, Within, Gives, Break, NoneFits, Units, CoreUnits, KeepsLive, Obtained;
    HugeUnits(sz);
    a := new Allocator(base);
    ghost var h := a.State();
    NothingWithin(h, base, sz);
    ap, top := a.Malloc(0xFFFF_FFFF, sz, true);
    FirstObtained(h, a.State(), sz, 0x1000_0001);
    OnlyBlock(a.State(), base, ap - 1, sz, 0x1000_0001);
  }

  lemma HugeUnits(sz: nat)
    ensures Units(0xFFFF_FFFF) == 0x1000_0001 == CoreUnits(0x1000_0001) && Gives(0x1000_0001, true)
    ensures Break(sz, 0x1000_0001) == sz + 1
  {
    assert SbrkArg(0x1000_0001) == 16;
    Common.DivUnique(sz * HEADER + 16, HEADER, sz + 1, 0);
  }

  lemma NothingWithin(h: Heap, base: nat, sz: nat)
    requires h.owner == map[] && base < sz
    ensures Within(h, base, sz)
  {
  }

  lemma FirstObtained(h: Heap, g: Heap, sz: nat, nu: nat)
    requires h.owner == map[] && g.owner.Keys == Obtained(h, sz, nu).owner.Keys
    ensures forall x: nat :: x in g.owner <==> sz <= x < sz + nu
  {
    assert forall x: nat :: x in g.owner <==> x in Obtained(h, sz, nu).owner;
  }

  /** A block as large as all the memory claimed starts where that does. */
  lemma OnlyBlock(h: Heap, base: nat, b: nat, sz: nat, nu: nat)
    requires HeapOk(h, base) && IsBlock(h, b) && b in h.size && h.size[b] == nu > 0
    requires forall x: nat :: x in h.owner <==> sz <= x < sz + nu
    ensures b == sz
  {
    assert BlockOwns(h, b);
    assert b in h.owner && b + nu - 1 in h.owner;
  }

  /** How much morecore asks for. */
  function CoreUnits(nunits: nat): (nu: nat)
    ensures nu >= nunits && nu >= MINCORE && (nu == nunits || nu == MINCORE)
  {
    if nunits < MINCORE then MINCORE else nunits
  }

  /** No free block has room for nunits. */
  ghost predicate NoneFits(h: Heap, nunits: nat) {
    forall b :: b in h.ring ==> b in h.size && h.size[b] < nunits
  }

  /** Entry j has been looked at by a search that started after entry f and is now at entry i. */
  predicate Visited(f: nat, i: nat, j: nat) {
    if f < i then f < j < i else j > f || j < i
  }

  ghost predicate SmallSoFar(h: Heap, nunits: nat, f: nat, i: nat) {
    forall j: nat :: j < |h.ring| && Visited(f, i, j) ==> h.ring[j] in h.size && h.size[h.ring[j]] < nunits
  }

  function IndexBefore(n: nat, i: nat): nat {
    if i > 0 then i - 1 else if n > 0 then n - 1 else 0
  }

  lemma SearchStarts(h: Heap, nunits: nat, f: nat)
    requires f < |h.ring|
    ensures SmallSoFar(h, nunits, f, Succ(|h.ring|, f))
  {
  }

  lemma SearchOn(h: Heap, base: nat, nunits: nat, f: nat, i: nat)
    requires RingOk(h, base) && f < |h.ring| && i < |h.ring| && h.ring[i] != h.ring[f] && SmallSoFar(h, nunits, f, i)
    requires h.ring[i] in h.size && h.size[h.ring[i]] < nunits
    ensures SmallSoFar(h, nunits, f, Succ(|h.ring|, i)) && i != f
  {
    var n := |h.ring|;
    forall j: nat | j < n && Visited(f, Succ(n, i), j) ensures h.ring[j] in h.size && h.size[h.ring[j]] < nunits {
      assert j == i || Visited(f, i, j);
    }
  }

  /** Back at the start of the search: every free block is too small. */
  lemma SearchedAll(h: Heap, base: nat, nunits: nat, f: nat, i: nat)
    requires RingOk(h, base) && f < |h.ring| && i < |h.ring| && h.ring[i] == h.ring[f] && SmallSoFar(h, nunits, f, i)
    requires h.ring[i] in h.size && h.size[h.ring[i]] < nunits
    ensures NoneFits(h, nunits)
  {
    assert i == f;
    forall b | b in h.ring ensures b in h.size && h.size[b] < nunits {
      var j :| 0 <= j < |h.ring| && h.ring[j] == b;
      assert j == i || Visited(f, i, j);
    }
  }

  lemma BaseIsSmall(h: Heap, base: nat, i: nat)
    requires HeapOk(h, base) && i < |h.ring| && h.ring[i] in h.size && h.size[h.ring[i]] > 0
    ensures i > 0
  {
  }

  lemma HeapRing(h: Heap, base: nat)
    requires HeapOk(h, base)
    ensures RingOk(h, base)
  {
  }

  lemma KeepsLiveSelf(h: Heap, base: nat)
    requires HeapOk(h, base)
    ensures KeepsLive(h, h)
  {
    LiveSizes(h, base);
  }

  lemma KeepsLiveTwice(h: Heap, u: Heap, g: Heap)
    requires KeepsLive(h, u) && KeepsLive(u, g) && h.live <= u.live
    ensures KeepsLive(h, g)
  {
  }

  lemma TakenKeeps(h: Heap, base: nat, i: nat)
    requires HeapOk(h, base) && 1 <= i < |h.ring| && h.ring[i] in h.next
    ensures var g := TakenWhole(h, i);
            && g == h.(ring := h.ring[..i] + h.ring[i + 1..], next := h.next[h.ring[i - 1] := h.next[h.ring[i]]],
                live := h.live + {h.ring[i]})
            && h.ring[i - 1] in g.ring && KeepsLive(h, g)
  {
    LiveSizes(h, base);
    assert TakenWhole(h, i).ring[i - 1] == h.ring[i - 1];
  }

  lemma SplitKeeps(h: Heap, base: nat, i: nat, n: nat)
    requires HeapOk(h, base) && 1 <= i < |h.ring| && h.ring[i] in h.size && 0 < n < h.size[h.ring[i]]
    requires !IsBlock(h, h.ring[i] + (h.size[h.ring[i]] - n))
    ensures h.ring[i - 1] in SplitOff(h, i, n).ring && KeepsLive(h, SplitOff(h, i, n)) && h.ring[i] !in h.live
    ensures h.ring[i] + (h.size[h.ring[i]] - n) !in h.live
  {
    LiveSizes(h, base);
  }

  /** After morecore: the same blocks in use, and a free block as large as was asked for. */
  lemma CoreKept(h: Heap, g: Heap, f: Heap, brk: nat, nu: nat, nunits: nat)
    requires g == Obtained(h, brk, nu) && KeepsLive(g, f) && Coalesced(g, f, brk) && nunits <= nu
    requires f.live == g.live - {brk} && brk !in h.live && forall b :: b in h.live ==> b in h.size
    ensures KeepsLive(h, f) && !NoneFits(f, nunits) && f.live == h.live
  {
    assert f.owner[brk] in f.ring && f.size[f.owner[brk]] >= nunits;
  }

  /** The heap free leaves, with links and sizes as the code writes them. */
  ghost function AsWritten(h: Heap, t: nat, bp: nat): Heap {
    if t < |h.ring| && h.ring[t] in h.next && h.ring[t] in h.size && bp in h.size && h.next[h.ring[t]] in h.next
        && h.next[h.ring[t]] in h.size then
      var p := h.ring[t];
      var q := h.next[p];
      var up, down := bp + h.size[bp] == q, p + h.size[p] == bp;
      var x := if up then h.next[q] else q;
      var size := if up then h.size[bp := h.size[bp] + h.size[q]] else h.size;
      var g := Freed(h, t, bp);
      Heap(g.ring, if down then h.next[bp := x][p := x] else h.next[bp := x][p := bp],
           if down then size[p := (if p in size then size[p] else 0) + size[bp]] else size, g.live, g.owner)
    else h
  }

  lemma FreedAsWritten(h: Heap, base: nat, t: nat, bp: nat)
    requires HeapOk(h, base) && bp in h.live && GoesAfter(h.ring, bp, t)
    ensures t < |h.ring| && h.ring[t] in h.next && h.ring[t] in h.size && bp in h.size && h.ring[t] != bp
    ensures h.ring[t] >= base
    ensures h.next[h.ring[t]] in h.next && h.next[h.ring[t]] in h.size
    ensures var f := AsWritten(h, t, bp);
            && HeapOk(f, base) && h.ring[t] in f.ring && f.live == h.live - {bp} && f.owner.Keys == h.owner.Keys
            && KeepsLive(h, f) && Coalesced(h, f, bp)
  {
    hide HeapOk, Freed, GoesAfter;
    NextFree(h, base, t, bp);
    FreedOk(h, base, t, bp);
    FreedSizes(h, base, t, bp);
    FreedLinks(h, base, t, bp);
    var g, p := Freed(h, t, bp), h.ring[t];
    var q := h.next[p];
    var x := if bp + h.size[bp] == q then h.next[q] else q;
    assert h.size[bp := h.size[bp]] == h.size;
    if p + h.size[p] == bp {
      MergedIsGone(h, base, t, bp);
      StrayLink(g, base, bp, x);
      assert h.next[bp := x][p := x] == h.next[p := x][bp := x];
    }
    PositiveRing(h, base, t);
  }

  lemma MergedIsGone(h: Heap, base: nat, t: nat, bp: nat)
    requires HeapOk(h, base) && bp in h.live && GoesAfter(h.ring, bp, t) && h.ring[t] in h.size
    requires h.ring[t] + h.size[h.ring[t]] == bp
    ensures bp !in Freed(h, t, bp).ring
  {
    FreeFacts(h, base, t, bp);
    assert bp !in h.ring;
    var r := Freed(h, t, bp).ring;
    forall k | 0 <= k < |r| ensures r[k] in h.ring {
      if |r| < |h.ring| && k > t {
        assert r[k] == h.ring[k + 1];
      } else {
        assert r[k] == h.ring[k];
      }
    }
  }

  lemma PositiveRing(h: Heap, base: nat, t: nat)
    requires HeapOk(h, base) && t < |h.ring|
    ensures h.ring[t] >= base
  {
    assert t > 0 ==> h.ring[0] < h.ring[t];
  }

  lemma FreePlace(h: Heap, base: nat, bp: nat) returns (t: nat)
    requires HeapOk(h, base) && bp in h.live
    ensures GoesAfter(h.ring, bp, t) && base < bp && RingOk(h, base)
  {
    assert IsBlock(h, bp);
    AboveBase(h, base, bp);
    t := PlaceExists(h.ring, bp);
  }

  lemma RingIndexAt(h: Heap, base: nat, i: nat) returns (k: nat)
    requires RingOk(h, base) && i < |h.ring|
    ensures h.ring[i] in h.next && h.ring[i] in h.size && h.next[h.ring[i]] == h.ring[Succ(|h.ring|, i)]
  {
    k := i;
    LinkedAt(h, i);
  }

  // ------------------------------------------------------------------------- conservation

  ghost function TotalSize(h: Heap, bs: set<nat>): nat {
    if bs == {} then 0 else
      var b :| b in bs;
      (if b in h.size then h.size[b] else 0) + TotalSize(h, bs - {b})
  }

  ghost function UnitsOf(h: Heap, bs: set<nat>): set<nat> {
    set x | x in h.owner && h.owner[x] in bs
  }

  ghost function Interval(b: nat, n: nat): (r: set<nat>)
    ensures |r| == n && forall x: nat :: x in r <==> InUnits(x, b, n)
  {
    if n == 0 then {} else Interval(b, n - 1) + {b + n - 1}
  }

  lemma {:induction false} BlocksCount(h: Heap, base: nat, bs: set<nat>)
    requires HeapOk(h, base) && forall b :: b in bs ==> IsBlock(h, b)
    ensures |UnitsOf(h, bs)| == TotalSize(h, bs)
  {
    hide RingOk, IsBlock;
    if bs != {} {
      var b :| b in bs && TotalSize(h, bs) == (if b in h.size then h.size[b] else 0) + TotalSize(h, bs - {b});
      BlocksCount(h, base, bs - {b});
      assert BlockOwns(h, b);
      OneBlock(h, base, bs, b);
    } else {
      assert UnitsOf(h, bs) == {};
    }
  }

  lemma OneBlock(h: Heap, base: nat, bs: set<nat>, b: nat)
    requires Owned(h, base) && b in bs && BlockOwns(h, b)
    ensures |UnitsOf(h, bs)| == |UnitsOf(h, bs - {b})| + h.size[b]
  {
    hide IsBlock, Interval;
    forall x: nat ensures x in Interval(b, h.size[b]) <==> x in h.owner && h.owner[x] == b {
      if x in h.owner && h.owner[x] == b {
        assert UnitOwned(h, x);
      }
    }
    hide BlockOwns, Owned;
    Sizes(UnitsOf(h, bs), UnitsOf(h, bs - {b}), Interval(b, h.size[b]));
  }

  lemma Sizes(a: set<nat>, b: set<nat>, c: set<nat>)
    requires b !! c && forall x: nat :: x in a <==> x in b || x in c
    ensures |a| == |b| + |c|
  {
    assert a == b + c;
  }

  /** The free blocks and the blocks in use. */
  ghost function FreeBlocks(h: Heap, base: nat): set<nat> {
    set b | b in h.ring && b != base
  }

  lemma AllBlocks(h: Heap, base: nat)
    requires HeapOk(h, base)
    ensures FreeBlocks(h, base) !! h.live
    ensures forall b: nat :: b in FreeBlocks(h, base) + h.live <==> IsBlock(h, b)
  {
    hide BlockOwns, UnitOwned, IsBlock;
    forall b: nat ensures b in FreeBlocks(h, base) + h.live <==> IsBlock(h, b) {
      BlocksOf(h, base, b);
    }
  }

  /** The blocks in use and the free blocks add up to the memory obtained from sbrk. */
  lemma Conservation(h: Heap, base: nat)
    requires HeapOk(h, base)
    ensures FreeBlocks(h, base) !! h.live
    ensures |h.owner.Keys| == TotalSize(h, FreeBlocks(h, base) + h.live)
  {
    hide IsBlock, BlockOwns, TotalSize, FreeBlocks, RingOk;
    var all := FreeBlocks(h, base) + h.live;
    AllBlocks(h, base);
    BlocksCount(h, base, all);
    forall x | x in h.owner ensures h.owner[x] in all {
      UnitBlock(h, x);
    }
    assert UnitsOf(h, all) == h.owner.Keys;
  }

  lemma UnitBlock(h: Heap, x: nat)
    requires x in h.owner && UnitOwned(h, x)
    ensures IsBlock(h, h.owner[x])
  {
  }
}
