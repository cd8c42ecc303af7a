/**
 The buffer cache and its list of buffers in order of use (kernel/bio.c).

 The buffers and the list head are nodes 0..NBUF of one array, linked through prev and next.
 Each method is one critical section of bcache.lock.
 */
module Bcache {
  import opened Common

  const NBUF: nat := 30
  const HEAD: nat := NBUF

  datatype Buf = Buf(dev: nat, blockno: nat, valid: bool, refcnt: nat, prev: nat, next: nat)

  // ------------------------------------------------------------------------------ the ring

  /** The list read from the head round to the head. */
  function Round(order: seq<nat>): seq<nat> {
    [HEAD] + order + [HEAD]
  }

  ghost predicate LinkAt(bufs: seq<Buf>, round: seq<nat>, i: nat)
    requires i + 1 < |round|
  {
    && round[i] < |bufs| && round[i + 1] < |bufs|
    && bufs[round[i]].next == round[i + 1] && bufs[round[i + 1]].prev == round[i]
  }

  ghost predicate Ring(bufs: seq<Buf>, order: seq<nat>) {
    |bufs| == NBUF + 1 && forall i: nat :: i + 1 < |Round(order)| ==> LinkAt(bufs, Round(order), i)
  }

  ghost predicate DistinctBuffers(s: seq<nat>) {
    && (forall i :: 0 <= i < |s| ==> s[i] < NBUF)
    && (forall i, j :: 0 <= i < j < |s| ==> s[i] != s[j])
  }

  /** Every buffer is on the list, once. */
  ghost predicate Complete(order: seq<nat>) {
    |order| == NBUF && DistinctBuffers(order) && forall b: nat :: b < NBUF ==> b in order
  }

  function SetNext(bufs: seq<Buf>, b: nat, x: nat): seq<Buf>
    requires b < |bufs|
  {
    bufs[b := bufs[b].(next := x)]
  }

  function SetPrev(bufs: seq<Buf>, b: nat, x: nat): seq<Buf>
    requires b < |bufs|
  {
    bufs[b := bufs[b].(prev := x)]
  }

  function Remove(order: seq<nat>, k: nat): seq<nat> {
    if k < |order| then order[..k] + order[k + 1..] else order
  }

  function Index(order: seq<nat>, b: nat): (k: nat)
    ensures b in order ==> k < |order| && order[k] == b
  {
    if order == [] || order[0] == b then 0 else 1 + Index(order[1..], b)
  }

  /** Only the links of `after` differ from those of `before`. */
  ghost predicate LinksOnly(before: seq<Buf>, after: seq<Buf>) {
    |after| == |before| && forall i: nat :: i < |before| ==>
        after[i] == before[i].(prev := after[i].prev, next := after[i].next)
  }

  /** The neighbours of b are real nodes other than b. */
  predicate Neighbours(bufs: seq<Buf>, b: nat) {
    b < |bufs| && bufs[b].next < |bufs| && bufs[b].prev < |bufs| && bufs[b].next != b && bufs[b].prev != b
  }

  /** The two assignments that join the neighbours of b to each other. */
  function Unlinked(bufs: seq<Buf>, b: nat): seq<Buf> {
    if Neighbours(bufs, b) then SetNext(SetPrev(bufs, bufs[b].next, bufs[b].prev), bufs[b].prev, bufs[b].next) else bufs
  }

  lemma RoundDistinct(order: seq<nat>, i: nat, j: nat)
    requires DistinctBuffers(order) && i < j < |order| + 2 && (i, j) != (0, |order| + 1)
    ensures Round(order)[i] != Round(order)[j]
  {
    assert i > 0 ==> Round(order)[i] == order[i - 1];
    assert j <= |order| ==> Round(order)[j] == order[j - 1];
  }

  lemma RoundRemove(order: seq<nat>, k: nat, i: nat)
    requires k < |order| && i <= |order|
    ensures Round(Remove(order, k))[i] == Round(order)[if i <= k then i else i + 1]
  {
  }

  /** Taking a buffer out by its neighbours leaves the ring of the others. */
  lemma UnlinkRing(bufs: seq<Buf>, order: seq<nat>, k: nat)
    requires Ring(bufs, order) && DistinctBuffers(order) && k < |order|
    ensures Neighbours(bufs, order[k]) && Ring(Unlinked(bufs, order[k]), Remove(order, k))
  {
    var round, b := Round(order), order[k];
    assert LinkAt(bufs, round, k) && LinkAt(bufs, round, k + 1) && round[k + 1] == b;
    RoundDistinct(order, k, k + 1);
    RoundDistinct(order, k + 1, k + 2);
    forall i: nat | i <= |order| - 1 ensures LinkAt(Unlinked(bufs, b), Round(Remove(order, k)), i) {
      UnlinkAt(bufs, order, k, i);
    }
  }

  predicate Linked(bufs: seq<Buf>, x: nat, y: nat) {
    x < |bufs| && y < |bufs| && bufs[x].next == y && bufs[y].prev == x
  }

  lemma UnlinkLink(bufs: seq<Buf>, b: nat, x: nat, y: nat)
    requires Neighbours(bufs, b)
    requires (x == bufs[b].prev && y == bufs[b].next) || (x != bufs[b].prev && y != bufs[b].next && Linked(bufs, x, y))
    ensures Linked(Unlinked(bufs, b), x, y)
  {
  }

  lemma UnlinkAt(bufs: seq<Buf>, order: seq<nat>, k: nat, i: nat)
    requires Ring(bufs, order) && DistinctBuffers(order) && k < |order| && i < |order|
    requires Neighbours(bufs, order[k])
    requires bufs[order[k]].prev == Round(order)[k] && bufs[order[k]].next == Round(order)[k + 2]
    ensures |Round(Remove(order, k))| == |order| + 1 && LinkAt(Unlinked(bufs, order[k]), Round(Remove(order, k)), i)
  {
    hide Unlinked, Neighbours, DistinctBuffers, Ring, Round, Remove;
    RoundLength(order, k);
    RoundRemove(order, k, i);
    RoundRemove(order, k, i + 1);
    if i != k {
      StaysLinked(bufs, order, k, if i < k then i else i + 1);
    }
    UnlinkLink(bufs, order[k], Round(Remove(order, k))[i], Round(Remove(order, k))[i + 1]);
  }

  lemma RoundLength(order: seq<nat>, k: nat)
    requires k < |order|
    ensures |Round(order)| == |order| + 2 && |Round(Remove(order, k))| == |order| + 1
  {
  }

  /** A link not next to position k: neither end is a neighbour of what is there on that side. */
  lemma StaysLinked(bufs: seq<Buf>, order: seq<nat>, k: nat, j: nat)
    requires Ring(bufs, order) && DistinctBuffers(order) && k < |order| && j <= |order| && j != k && j != k + 1
    ensures Linked(bufs, Round(order)[j], Round(order)[j + 1])
    ensures Round(order)[j] != Round(order)[k] && Round(order)[j + 1] != Round(order)[k + 2]
  {
    hide DistinctBuffers;
    assert LinkAt(bufs, Round(order), j);
    if j < k {
      RoundDistinct(order, j, k);
      RoundDistinct(order, j + 1, k + 2);
    } else {
      RoundDistinct(order, k, j);
      RoundDistinct(order, k + 2, j + 1);
    }
  }

  /** The four assignments that put b between the head and the first buffer. */
  function Pushed(bufs: seq<Buf>, b: nat): seq<Buf> {
    if b < |bufs| && HEAD < |bufs| && bufs[HEAD].next < |bufs| then
      var first := bufs[HEAD].next;
      var linked := SetPrev(SetNext(bufs, b, first), b, HEAD);
      SetNext(SetPrev(linked, first, b), HEAD, b)
    else bufs
  }

  lemma PushLink(bufs: seq<Buf>, b: nat, x: nat, y: nat)
    requires HEAD < |bufs| && b < |bufs| && b != HEAD && bufs[HEAD].next < |bufs| && bufs[HEAD].next != b
    requires (x == HEAD && y == b) || (x == b && y == bufs[HEAD].next)
             || (x != HEAD && x != b && y != b && y != bufs[HEAD].next && Linked(bufs, x, y))
    ensures Linked(Pushed(bufs, b), x, y)
  {
  }

  /** Linking a buffer in after the head puts it first. */
  lemma PushRing(bufs: seq<Buf>, order: seq<nat>, b: nat)
    requires Ring(bufs, order) && DistinctBuffers([b] + order)
    ensures bufs[HEAD].next < |bufs|
    ensures Ring(Pushed(bufs, b), [b] + order)
  {
    hide Pushed;
    var round, all := Round(order), [b] + order;
    var more := Round(all);
    assert all[0] == b;
    assert LinkAt(bufs, round, 0);
    assert order != [] ==> round[1] == all[1];
    PushLength(bufs, b);
    forall i: nat | i + 1 < |more| ensures LinkAt(Pushed(bufs, b), more, i) {
      if i > 1 {
        PushAt(bufs, order, b, i);
      }
      PushLink(bufs, b, more[i], more[i + 1]);
    }
  }

  lemma PushLength(bufs: seq<Buf>, b: nat)
    ensures |Pushed(bufs, b)| == |bufs|
  {
  }

  lemma PushAt(bufs: seq<Buf>, order: seq<nat>, b: nat, i: nat)
    requires Ring(bufs, order) && DistinctBuffers([b] + order) && 1 < i <= |order| + 1
    ensures var x, y := Round([b] + order)[i], Round([b] + order)[i + 1];
            x != HEAD && x != b && y != b && y != Round(order)[1] && Linked(bufs, x, y)
  {
    var round, all := Round(order), [b] + order;
    assert LinkAt(bufs, round, i - 1);
    assert all[0] == b;
    assert all[i - 1] == order[i - 2] == round[i - 1] != b;
    assert round[1] == order[0] == all[1];
    if i <= |order| {
      assert round[i] == all[i];
    }
  }

  // ------------------------------------------------------------------------ order of use

  /** When b was last released by its last user; `freed` lists those releases, oldest first. */
  function LastFreed(freed: seq<nat>, b: nat): (r: nat)
    ensures r <= |freed|
  {
    if freed == [] then 0
    else if freed[|freed| - 1] == b then |freed|
    else LastFreed(freed[..|freed| - 1], b)
  }

  /** The list runs from the buffer released last to the one released first. */
  ghost predicate Recent(order: seq<nat>, freed: seq<nat>) {
    forall i, j :: 0 <= i < j < |order| ==> LastFreed(freed, order[i]) > LastFreed(freed, order[j])
  }

  lemma LastFreedSnoc(freed: seq<nat>, b: nat, c: nat)
    ensures LastFreed(freed + [b], c) == if b == c then |freed| + 1 else LastFreed(freed, c)
  {
    assert (freed + [b])[..|freed|] == freed;
  }

  lemma PushRecent(order: seq<nat>, freed: seq<nat>, b: nat)
    requires Recent(order, freed) && b !in order
    ensures Recent([b] + order, freed + [b])
  {
    var all := [b] + order;
    forall i, j | 0 <= i < j < |all| ensures LastFreed(freed + [b], all[i]) > LastFreed(freed + [b], all[j]) {
      LastFreedSnoc(freed, b, all[i]);
      LastFreedSnoc(freed, b, all[j]);
      assert all[j] == order[j - 1];
      assert i > 0 ==> all[i] == order[i - 1];
    }
  }

  lemma RemoveRecent(order: seq<nat>, freed: seq<nat>, k: nat)
    requires Recent(order, freed) && DistinctBuffers(order) && k < |order|
    ensures Recent(Remove(order, k), freed) && DistinctBuffers(Remove(order, k)) && order[k] !in Remove(order, k)
    ensures forall b :: b in order && b != order[k] ==> b in Remove(order, k)
  {
    hide Remove;
    var less := Remove(order, k);
    forall i: nat | i < |order| - 1 ensures |less| == |order| - 1 && less[i] == order[if i < k then i else i + 1] {
      RemoveAt(order, k, i);
    }
    RemoveAt(order, k, 0);
    forall b | b in order && b != order[k] ensures b in less {
      var i :| 0 <= i < |order| && order[i] == b;
      assert b == less[if i < k then i else i - 1];
    }
  }

  lemma RemoveAt(order: seq<nat>, k: nat, i: nat)
    requires k < |order|
    ensures |Remove(order, k)| == |order| - 1
    ensures i < |order| - 1 ==> Remove(order, k)[i] == order[if i < k then i else i + 1]
  {
  }

  // ------------------------------------------------------------------------- the counts

  /** A reference is held by whoever called bget and has not called brelse, or by a pin. */
  ghost predicate Counts(bufs: seq<Buf>, held: multiset<nat>, pinned: multiset<nat>) {
    |bufs| == NBUF + 1 && forall b: nat :: b < NBUF ==> bufs[b].refcnt == held[b] + pinned[b]
  }

  predicate Is(buf: Buf, dev: nat, blockno: nat) {
    buf.dev == dev && buf.blockno == blockno
  }

  /** A block of a device other than 0 has at most one buffer. */
  ghost predicate OneEach(bufs: seq<Buf>) {
    |bufs| == NBUF + 1 && forall a: nat, b: nat ::
        a < NBUF && b < NBUF && bufs[a].dev != 0 && Is(bufs[b], bufs[a].dev, bufs[a].blockno) ==> a == b
  }

  class Cache {
    var bufs: seq<Buf>
    ghost var order: seq<nat>
    ghost var freed: seq<nat>
    ghost var held: multiset<nat>
    ghost var pinned: multiset<nat>

    ghost predicate Valid()
      reads this
    {
      && Ring(bufs, order) && Complete(order) && Recent(order, freed)
      && Counts(bufs, held, pinned) && OneEach(bufs)
    }

    /** binit */
    constructor ()
      ensures Valid() && held == multiset{} && pinned == multiset{}
      ensures freed == seq(NBUF, i => i)
      ensures forall i: nat :: i < |bufs| ==> bufs[i].dev == 0
    {
      var blank := Buf(0, 0, false, 0, HEAD, HEAD);
      var bs := seq(NBUF + 1, i => blank);
      ghost var o: seq<nat>, f: seq<nat> := [], [];
      assert Ring(bs, o) by {
        forall i: nat | i + 1 < |Round(o)| ensures LinkAt(bs, Round(o), i) {
        }
      }
      var b := 0;
      while b < NBUF
        invariant b <= NBUF && |bs| == NBUF + 1 && |o| == b && |f| == b
        invariant forall i: nat :: i < |bs| ==> bs[i].dev == 0 && bs[i].refcnt == 0
        invariant Ring(bs, o) && DistinctBuffers(o) && Recent(o, f)
        invariant forall i :: 0 <= i < b ==> i in o && f[i] == i
        invariant forall i :: i in o ==> i < b
      {
        assert b !in o;
        PushRing(bs, o, b);
        PushRecent(o, f, b);
        o, f := [b] + o, f + [b];
        bs := SetNext(bs, b, bs[HEAD].next);
        bs := SetPrev(bs, b, HEAD);
        bs := SetPrev(bs, bs[HEAD].next, b);
        bs := SetNext(bs, HEAD, b);
        b := b + 1;
      }
      bufs, order, freed, held, pinned := bs, o, f, multiset{}, multiset{};
    }

    /**
     bget up to the release of bcache.lock. A cached block gets one more reference on its buffer;
     otherwise the least recently released buffer without references is taken over, and if there
     is none the kernel panics.
     */
    method Bget(dev: nat, blockno: nat) returns (r: Option<nat>)
      requires Valid()
      modifies this
      ensures Valid() && order == old(order) && freed == old(freed) && pinned == old(pinned)
      ensures r.Some? ==> r.value < NBUF && held == old(held) + multiset{r.value}
      ensures r.Some? && Cached(old(bufs), dev, blockno) ==>
                && Is(old(bufs)[r.value], dev, blockno)
                && bufs == old(bufs)[r.value := old(bufs)[r.value].(refcnt := old(bufs)[r.value].refcnt + 1)]
                && forall c: nat :: c < NBUF && Is(old(bufs)[c], dev, blockno) ==>
                    LastFreed(freed, c) <= LastFreed(freed, r.value)
      ensures r.Some? && !Cached(old(bufs), dev, blockno) ==>
                && old(bufs)[r.value].refcnt == 0 && r.value !in old(held) && r.value !in pinned
                && bufs == old(bufs)[r.value := old(bufs)[r.value].(dev := dev, blockno := blockno, valid := false,
                    refcnt := 1)]
                && forall c: nat :: c < NBUF && old(bufs)[c].refcnt == 0 ==>
                    LastFreed(freed, r.value) <= LastFreed(freed, c)
      ensures r.None? <==> !Cached(old(bufs), dev, blockno) && forall c: nat :: c < NBUF ==> old(bufs)[c].refcnt > 0
      ensures r.None? ==> unchanged(this)
    {
      hide Ring, Recent, Complete, OneEach, Cached;
      var hit := Lookup(dev, blockno);
      if hit.Some? {
        var b := hit.value;
        RefcntKeeps(bufs, b, bufs[b].refcnt + 1);
        bufs := bufs[b := bufs[b].(refcnt := bufs[b].refcnt + 1)];
        held := held + multiset{b};
        FieldsKeepRing(old(bufs), bufs, order, b);
        return Some(b);
      }
      r := Victim();
      if r.Some? {
        var b := r.value;
        TakeKeeps(bufs, b, dev, blockno);
        bufs := bufs[b := bufs[b].(dev := dev, blockno := blockno, valid := false, refcnt := 1)];
        held := held + multiset{b};
        FieldsKeepRing(old(bufs), bufs, order, b);
      }
    }

    /** The scan of bget forward from the head: the block's buffer, the most recent if several. */
    method Lookup(dev: nat, blockno: nat) returns (r: Option<nat>)
      requires Valid()
      ensures r.Some? <==> Cached(bufs, dev, blockno)
      ensures r.Some? ==> r.value < NBUF && Is(bufs[r.value], dev, blockno)
      ensures r.Some? ==>
              forall c: nat :: c < NBUF && Is(bufs[c], dev, blockno) ==>
                  LastFreed(freed, c) <= LastFreed(freed, r.value)
    {
      hide Recent;
      assert LinkAt(bufs, Round(order), 0);
      var b := bufs[HEAD].next;
      ghost var i := 0;
      while b != HEAD
        invariant 0 <= i <= NBUF && b == Round(order)[i + 1]
        invariant forall j :: 0 <= j < i ==> !Is(bufs[order[j]], dev, blockno)
        decreases NBUF - i
      {
        if Is(bufs[b], dev, blockno) {
          forall c: nat | c < NBUF && Is(bufs[c], dev, blockno) ensures LastFreed(freed, c) <= LastFreed(freed, b) {
            NotPassed(order, freed, i, c);
          }
          return Some(b);
        }
        assert LinkAt(bufs, Round(order), i + 1);
        b, i := bufs[b].next, i + 1;
      }
      assert i == NBUF;
      forall c: nat | c < NBUF ensures !Is(bufs[c], dev, blockno) {
        assert c in order;
      }
      return None;
    }

    /** The scan of bget back from the head: the buffer without references released longest ago. */
    method Victim() returns (r: Option<nat>)
      requires Valid()
      ensures r.Some? <==> exists c: nat :: c < NBUF && bufs[c].refcnt == 0
      ensures r.Some? ==> r.value < NBUF && bufs[r.value].refcnt == 0
      ensures r.Some? ==>
              forall c: nat :: c < NBUF && bufs[c].refcnt == 0 ==> LastFreed(freed, r.value) <= LastFreed(freed, c)
    {
      hide Recent;
      assert LinkAt(bufs, Round(order), NBUF);
      var b := bufs[HEAD].prev;
      ghost var i := NBUF;
      while b != HEAD
        invariant 0 <= i <= NBUF && b == Round(order)[i]
        invariant forall j :: i <= j < NBUF ==> bufs[order[j]].refcnt != 0
        decreases i
      {
        if bufs[b].refcnt == 0 {
          forall c: nat | c < NBUF && bufs[c].refcnt == 0 ensures LastFreed(freed, b) <= LastFreed(freed, c) {
            NotPassedBack(order, freed, i - 1, c);
          }
          return Some(b);
        }
        assert LinkAt(bufs, Round(order), i - 1);
        b, i := bufs[b].prev, i - 1;
      }
      assert i == 0;
      forall c: nat | c < NBUF ensures bufs[c].refcnt != 0 {
        assert c in order;
      }
      return None;
    }

    /** brelse after releasesleep: drop the caller's reference, and move a free buffer to the front. */
    method Brelse(b: nat)
      requires Valid() && b in held && b < NBUF
      modifies this
      ensures Valid() && held == old(held) - multiset{b} && pinned == old(pinned)
      ensures bufs[b].refcnt == old(bufs)[b].refcnt - 1
      ensures LinksOnly(old(bufs)[b := old(bufs)[b].(refcnt := bufs[b].refcnt)], bufs)
      ensures bufs[b].refcnt > 0 ==> order == old(order) && freed == old(freed)
      ensures bufs[b].refcnt == 0 ==>
              freed == old(freed) + [b] && order == [b] + Remove(old(order), Index(old(order), b))
    {
      hide Ring, Recent, LinksOnly, Remove, OneEach, Complete, Counts, Unlinked, Pushed, Neighbours, Index;
      DropKeeps(bufs, held, pinned, b);
      FieldsKeepRing(bufs, Drop(bufs, b), order, b);
      bufs := bufs[b := bufs[b].(refcnt := bufs[b].refcnt - 1)];
      held := held - multiset{b};
      LinksOnlyRefl(bufs);
      if bufs[b].refcnt == 0 {
        ghost var was, k := bufs, Index(order, b);
        OnList(order, b);
        ToFront(bufs, order, freed, k);
        MoveToHead(b);
        LinksOnlyKeep(was, bufs, held, pinned, b);
        order, freed := [b] + Remove(order, k), freed + [b];
      }
    }

    /** The pointer assignments of brelse. */
    method MoveToHead(b: nat)
      requires Neighbours(bufs, b) && HEAD < |bufs| && Unlinked(bufs, b)[HEAD].next < |bufs|
      modifies `bufs
      ensures bufs == Pushed(Unlinked(old(bufs), b), b)
    {
      bufs := SetPrev(bufs, bufs[b].next, bufs[b].prev);
      bufs := SetNext(bufs, bufs[b].prev, bufs[b].next);
      bufs := SetNext(bufs, b, bufs[HEAD].next);
      bufs := SetPrev(bufs, b, HEAD);
      bufs := SetPrev(bufs, bufs[HEAD].next, b);
      bufs := SetNext(bufs, HEAD, b);
    }

    /** bread, once the disk has been read into the buffer. */
    method MarkValid(b: nat)
      requires Valid() && b < NBUF
      modifies this`bufs
      ensures Valid() && bufs == old(bufs)[b := old(bufs)[b].(valid := true)]
    {
      bufs := bufs[b := bufs[b].(valid := true)];
      FieldsKeepRing(old(bufs), bufs, order, b);
    }

    method Bpin(b: nat)
      requires Valid() && b < NBUF
      modifies this
      ensures Valid() && order == old(order) && freed == old(freed) && held == old(held)
      ensures pinned == old(pinned) + multiset{b}
      ensures bufs == old(bufs)[b := old(bufs)[b].(refcnt := old(bufs)[b].refcnt + 1)]
    {
      bufs := bufs[b := bufs[b].(refcnt := bufs[b].refcnt + 1)];
      pinned := pinned + multiset{b};
      FieldsKeepRing(old(bufs), bufs, order, b);
    }

    method Bunpin(b: nat)
      requires Valid() && b < NBUF && b in pinned
      modifies this
      ensures Valid() && order == old(order) && freed == old(freed) && held == old(held)
      ensures pinned == old(pinned) - multiset{b}
      ensures bufs == old(bufs)[b := old(bufs)[b].(refcnt := old(bufs)[b].refcnt - 1)]
    {
      bufs := bufs[b := bufs[b].(refcnt := bufs[b].refcnt - 1)];
      pinned := pinned - multiset{b};
      FieldsKeepRing(old(bufs), bufs, order, b);
    }
  }

  ghost predicate Cached(bufs: seq<Buf>, dev: nat, blockno: nat) {
    |bufs| == NBUF + 1 && exists c: nat :: c < NBUF && Is(bufs[c], dev, blockno)
  }

  lemma OnList(order: seq<nat>, b: nat)
    requires Complete(order) && b < NBUF
    ensures Index(order, b) < NBUF == |order| && order[Index(order, b)] == b
  {
    assert b in order;
  }

  lemma RefcntKeeps(bufs: seq<Buf>, b: nat, n: nat)
    requires OneEach(bufs) && b < NBUF
    ensures OneEach(bufs[b := bufs[b].(refcnt := n)])
  {
  }

  lemma TakeKeeps(bufs: seq<Buf>, b: nat, dev: nat, blockno: nat)
    requires OneEach(bufs) && b < NBUF && !Cached(bufs, dev, blockno)
    ensures OneEach(bufs[b := bufs[b].(dev := dev, blockno := blockno, valid := false, refcnt := 1)])
  {
  }

  lemma LinksOnlyRefl(bufs: seq<Buf>)
    ensures LinksOnly(bufs, bufs)
  {
  }

  /** One reference fewer. */
  function Drop(bufs: seq<Buf>, b: nat): seq<Buf> {
    if b < |bufs| && bufs[b].refcnt > 0 then bufs[b := bufs[b].(refcnt := bufs[b].refcnt - 1)] else bufs
  }

  lemma DropKeeps(bufs: seq<Buf>, held: multiset<nat>, pinned: multiset<nat>, b: nat)
    requires Counts(bufs, held, pinned) && OneEach(bufs) && b < NBUF && b in held
    ensures |bufs| == NBUF + 1 && bufs[b].refcnt > 0
    ensures Counts(Drop(bufs, b), held - multiset{b}, pinned) && OneEach(Drop(bufs, b))
  {
    RefcntKeeps(bufs, b, bufs[b].refcnt - 1);
  }

  lemma LinksOnlyKeep(before: seq<Buf>, after: seq<Buf>, held: multiset<nat>, pinned: multiset<nat>, b: nat)
    requires LinksOnly(before, after) && Counts(before, held, pinned) && OneEach(before) && b < NBUF
    ensures Counts(after, held, pinned) && OneEach(after) && |after| == NBUF + 1 && after[b].refcnt == before[b].refcnt
  {
  }

  lemma FieldsKeepRing(before: seq<Buf>, after: seq<Buf>, order: seq<nat>, b: nat)
    requires Ring(before, order) && b < |before| && |after| == |before|
    requires after == before[b := after[b]] && after[b].next == before[b].next && after[b].prev == before[b].prev
    ensures Ring(after, order)
  {
    forall i: nat | i + 1 < |Round(order)| ensures LinkAt(after, Round(order), i) {
      assert LinkAt(before, Round(order), i);
    }
  }

  /** A buffer the forward scan has not passed is on the rest of the list, and released earlier. */
  lemma NotPassed(order: seq<nat>, freed: seq<nat>, i: nat, c: nat)
    requires Complete(order) && Recent(order, freed) && i < NBUF && c < NBUF
    requires forall j :: 0 <= j < i ==> order[j] != c
    ensures LastFreed(freed, c) <= LastFreed(freed, order[i])
  {
    assert c in order;
    var j :| 0 <= j < |order| && order[j] == c;
  }

  lemma NotPassedBack(order: seq<nat>, freed: seq<nat>, i: nat, c: nat)
    requires Complete(order) && Recent(order, freed) && i < NBUF && c < NBUF
    requires forall j :: i < j < NBUF ==> order[j] != c
    ensures LastFreed(freed, order[i]) <= LastFreed(freed, c)
  {
    assert c in order;
    var j :| 0 <= j < |order| && order[j] == c;
  }

  /** The six assignments of brelse move a buffer from anywhere in the list to its front. */
  lemma ToFront(bufs: seq<Buf>, order: seq<nat>, freed: seq<nat>, k: nat)
    requires Ring(bufs, order) && Complete(order) && Recent(order, freed) && k < NBUF
    ensures var b := order[k]; var out, front := Unlinked(bufs, b), [b] + Remove(order, k);
            && Neighbours(bufs, b) && |out| == |bufs| && out[HEAD].next < |bufs| && LinksOnly(bufs, Pushed(out, b))
            && Ring(Pushed(out, b), front) && Complete(front) && Recent(front, freed + [b])
  {
    hide Ring, Recent;
    var b, less := order[k], Remove(order, k);
    UnlinkRing(bufs, order, k);
    RemoveRecent(order, freed, k);
    RingSize(bufs, order);
    PushRing(Unlinked(bufs, b), less, b);
    PushRecent(less, freed, b);
    PushLinks(bufs, b);
    forall c: nat | c < NBUF ensures c in [b] + less {
      assert c in order;
    }
  }

  lemma RingSize(bufs: seq<Buf>, order: seq<nat>)
    requires Ring(bufs, order)
    ensures |bufs| == NBUF + 1
  {
  }

  lemma SetLinks(bufs: seq<Buf>, now: seq<Buf>, b: nat, x: nat)
    requires b < |now| && LinksOnly(bufs, now)
    ensures LinksOnly(bufs, SetNext(now, b, x)) && LinksOnly(bufs, SetPrev(now, b, x))
    ensures |SetNext(now, b, x)| == |SetPrev(now, b, x)| == |now|
  {
  }

  lemma PushLinks(bufs: seq<Buf>, b: nat)
    ensures LinksOnly(bufs, Pushed(Unlinked(bufs, b), b))
  {
    LinksOnlyRefl(bufs);
    hide LinksOnly, SetNext, SetPrev;
    if Neighbours(bufs, b) {
      SetLinks(bufs, bufs, bufs[b].next, bufs[b].prev);
      SetLinks(bufs, SetPrev(bufs, bufs[b].next, bufs[b].prev), bufs[b].prev, bufs[b].next);
    }
    var out := Unlinked(bufs, b);
    if b < |out| && HEAD < |out| && out[HEAD].next < |out| {
      var first := out[HEAD].next;
      SetLinks(bufs, out, b, first);
      SetLinks(bufs, SetNext(out, b, first), b, HEAD);
      var linked := SetPrev(SetNext(out, b, first), b, HEAD);
      SetLinks(bufs, linked, first, b);
      SetLinks(bufs, SetPrev(linked, first, b), HEAD, b);
    }
  }

  lemma {:induction false} OneEachAtLeast(m: multiset<nat>, n: nat)
    requires forall b: nat :: b < n ==> m[b] >= 1
    ensures |m| >= n
  {
    if n > 0 {
      OneEachAtLeast(m - multiset{n - 1}, n - 1);
    }
  }

  /** bget runs out of buffers only when at least NBUF references are out. */
  lemma RunningOut(bufs: seq<Buf>, held: multiset<nat>, pinned: multiset<nat>)
    requires Counts(bufs, held, pinned)
    requires forall c: nat :: c < NBUF ==> bufs[c].refcnt > 0
    ensures |held| + |pinned| >= NBUF
  {
    forall b: nat | b < NBUF ensures (held + pinned)[b] >= 1 {
      assert bufs[b].refcnt == held[b] + pinned[b];
    }
    OneEachAtLeast(held + pinned, NBUF);
  }
}
