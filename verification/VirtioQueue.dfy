/**
 The descriptors of the virtio disk driver (kernel/virtio_disk.c): which are free, and the
 chains of three that requests are made of (sections 2.6 and 5.2 of VIRTIO 1.1).
 */
module VirtioQueue {
  const NUM: nat := 8
  const F_NEXT: nat := 1
  const F_WRITE: nat := 2

  datatype Desc = Desc(addr: nat, len: nat, flags: nat, next: nat)

  predicate HasNext(d: Desc) {
    d.flags % 2 == 1
  }

  /** The lowest free descriptor, -1 if there is none. */
  function FirstFree(free: seq<bool>): (i: int)
    ensures -1 <= i < |free|
    ensures i >= 0 ==> free[i] && forall j :: 0 <= j < i ==> !free[j]
    ensures i < 0 ==> forall j :: 0 <= j < |free| ==> !free[j]
  {
    FirstFreeFrom(free, 0)
  }

  function FirstFreeFrom(free: seq<bool>, k: nat): (i: int)
    requires k <= |free|
    ensures -1 <= i < |free|
    ensures i >= 0 ==> k <= i && free[i] && forall j :: k <= j < i ==> !free[j]
    ensures i < 0 ==> forall j :: k <= j < |free| ==> !free[j]
    decreases |free| - k
  {
    if k == |free| then -1 else if free[k] then k else FirstFreeFrom(free, k + 1)
  }

  function Count(free: seq<bool>): nat {
    if free == [] then 0 else Count(free[..|free| - 1]) + (if free[|free| - 1] then 1 else 0)
  }

  lemma {:induction false} CountUpdate(free: seq<bool>, i: nat, v: bool)
    requires i < |free| && free[i] != v
    ensures Count(free[i := v]) == if v then Count(free) + 1 else Count(free) - 1
  {
    var n := |free| - 1;
    if i < n {
      CountUpdate(free[..n], i, v);
      assert free[i := v][..n] == free[..n][i := v];
    } else {
      assert free[i := v][..n] == free[..n];
    }
  }

  lemma {:induction false} CountZero(free: seq<bool>)
    ensures Count(free) == 0 <==> forall i :: 0 <= i < |free| ==> !free[i]
  {
    if free != [] {
      var n := |free| - 1;
      CountZero(free[..n]);
      assert forall i :: 0 <= i < n ==> free[..n][i] == free[i];
    }
  }

  /** Different descriptors that were free. */
  ghost predicate Picked(free: seq<bool>, idx: seq<nat>) {
    && (forall k :: 0 <= k < |idx| ==> idx[k] < |free| && free[idx[k]])
    && (forall j, k :: 0 <= j < k < |idx| ==> idx[j] != idx[k])
  }

  /** A chain: each descriptor but the last links to the next one, all of them different and in use. */
  ghost predicate IsChain(desc: seq<Desc>, free: seq<bool>, chain: seq<nat>) {
    && chain != [] && |desc| == |free|
    && (forall k :: 0 <= k < |chain| ==> chain[k] < |desc| && !free[chain[k]])
    && (forall k :: 0 <= k < |chain| - 1 ==> HasNext(desc[chain[k]]) && desc[chain[k]].next == chain[k + 1])
    && !HasNext(desc[chain[|chain| - 1]])
    && (forall j, k :: 0 <= j < k < |chain| ==> chain[j] != chain[k])
  }

  /** j is one of the first k of the chain. */
  ghost predicate Among(chain: seq<nat>, k: nat, j: nat) {
    k <= |chain| && j in chain[..k]
  }

  lemma AmongSteps(chain: seq<nat>, k: nat)
    requires k < |chain|
    ensures forall j: nat :: Among(chain, k + 1, j) <==> Among(chain, k, j) || j == chain[k]
  {
    assert chain[..k + 1] == chain[..k] + [chain[k]];
    forall j: nat ensures Among(chain, k + 1, j) <==> Among(chain, k, j) || j == chain[k] {
      assert j in chain[..k + 1] <==> j in chain[..k] || j in [chain[k]];
    }
  }

  lemma ChainStarts(desc: seq<Desc>, free: seq<bool>, chain: seq<nat>)
    requires IsChain(desc, free, chain)
    ensures chain != [] && forall j: nat :: !Among(chain, 0, j)
  {
  }

  lemma AmongAll(chain: seq<nat>, k: nat)
    requires k == |chain|
    ensures forall j: nat :: Among(chain, k, j) <==> j in chain
  {
    assert chain[..k] == chain;
  }

  /** The k-th descriptor of a chain: in use, not among those before it, and linked to the next. */
  lemma ChainAt(desc: seq<Desc>, free: seq<bool>, chain: seq<nat>, k: nat)
    requires IsChain(desc, free, chain) && k < |chain|
    ensures chain[k] < |desc| && !free[chain[k]] && !Among(chain, k, chain[k])
    ensures HasNext(desc[chain[k]]) <==> k + 1 < |chain|
    ensures k + 1 < |chain| ==> desc[chain[k]].next == chain[k + 1]
  {
  }

  class Queue {
    const free: array<bool>
    const desc: array<Desc>

    ghost predicate Valid()
      reads this
    {
      free.Length == NUM && desc.Length == NUM
    }

    constructor ()
      ensures Valid() && fresh(free) && fresh(desc) && forall i :: 0 <= i < NUM ==> free[i]
    {
      free := new bool[NUM](_ => true);
      desc := new Desc[NUM](_ => Desc(0, 0, 0, 0));
    }

    /** The lowest free descriptor, taken; -1 if there is none. */
    method AllocDesc() returns (i: int)
      requires Valid()
      modifies free
      ensures i == FirstFree(old(free[..]))
      ensures free[..] == if i < 0 then old(free[..]) else old(free[..])[i := false]
    {
      i := 0;
      while i < NUM
        invariant 0 <= i <= NUM && forall j :: 0 <= j < i ==> !free[j]
        invariant free[..] == old(free[..])
      {
        if free[i] {
          free[i] := false;
          return;
        }
        i := i + 1;
      }
      i := -1;
    }

    /** The source panics unless the descriptor exists and is in use. */
    method FreeDesc(i: nat)
      requires Valid() && i < NUM && !free[i]
      modifies free, desc
      ensures free[..] == old(free[..])[i := true] && desc[..] == old(desc[..])[i := Desc(0, 0, 0, 0)]
    {
      desc[i] := Desc(0, 0, 0, 0);
      free[i] := true;
    }

    /** Free exactly the descriptors of a chain. */
    method FreeChain(i: nat, ghost chain: seq<nat>)
      requires Valid() && IsChain(desc[..], free[..], chain) && chain[0] == i
      modifies free, desc
      ensures forall j :: 0 <= j < NUM ==> free[j] == (old(free[j]) || j in chain)
      ensures forall j :: 0 <= j < NUM && j !in chain ==> desc[j] == old(desc[j])
    {
      hide Among, IsChain;
      var at := i;
      ghost var k := 0;
      ChainStarts(desc[..], free[..], chain);
      while true
        invariant 0 <= k < |chain| && at == chain[k]
        invariant forall j: nat :: j < NUM ==> free[j] == (old(free[j]) || Among(chain, k, j))
        invariant forall j: nat :: j < NUM && !Among(chain, k, j) ==> desc[j] == old(desc[j])
        decreases |chain| - k
      {
        AmongSteps(chain, k);
        ChainAt(old(desc[..]), old(free[..]), chain, k);
        var d := desc[at];
        FreeDesc(at);
        k := k + 1;
        if !HasNext(d) {
          break;
        }
        at := d.next;
      }
      AmongAll(chain, k);
    }

    /** Three descriptors, or none at all. */
    method Alloc3Desc() returns (ok: bool, idx: seq<nat>)
      requires Valid()
      modifies free, desc
      ensures ok <==> Count(old(free[..])) >= 3
      ensures ok ==> |idx| == 3 && Picked(old(free[..]), idx) && desc[..] == old(desc[..])
      ensures ok ==> forall j :: 0 <= j < NUM ==> free[j] == (old(free[j]) && j !in idx)
      ensures !ok ==> free[..] == old(free[..])
      ensures forall j :: 0 <= j < NUM && !old(free[j]) ==> desc[j] == old(desc[j])
    {
      ghost var was := free[..];
      idx := [];
      var i := 0;
      while i < 3
        invariant 0 <= i == |idx| <= 3 && Picked(was, idx) && desc[..] == old(desc[..])
        invariant forall j :: 0 <= j < NUM ==> free[j] == (was[j] && j !in idx)
        invariant Count(free[..]) == Count(was) - i
      {
        ghost var now := free[..];
        CountZero(now);
        var x := AllocDesc();
        if x < 0 {
          Rollback(idx, was);
          return false, idx;
        }
        CountUpdate(now, x, false);
        CountZero(free[..]);
        idx := idx + [x];
        i := i + 1;
      }
      ok := true;
    }

    /** alloc3_desc's inner loop: give back what it had got. */
    method Rollback(idx: seq<nat>, ghost was: seq<bool>)
      requires Valid() && |was| == NUM && Picked(was, idx)
      requires forall j :: 0 <= j < NUM ==> free[j] == (was[j] && j !in idx)
      modifies free, desc
      ensures free[..] == was
      ensures forall j :: 0 <= j < NUM && !was[j] ==> desc[j] == old(desc[j])
    {
      var j := 0;
      while j < |idx|
        invariant 0 <= j <= |idx|
        invariant forall k :: 0 <= k < NUM ==> free[k] == (was[k] && k !in idx[j..])
        invariant forall k :: 0 <= k < NUM && !was[k] ==> desc[k] == old(desc[k])
      {
        assert idx[j..] == [idx[j]] + idx[j + 1..];
        assert idx[j] !in idx[j + 1..];
        FreeDesc(idx[j]);
        j := j + 1;
      }
    }
  }
}
