/**
 The pipe (kernel/pipe.c): a ring of PIPESIZE bytes with two 32-bit counters that wrap.

 The class runs what pipewrite and piperead do while they hold the lock. PipeRuns puts many
 of them side by side.
 */
module Pipe {
  import Common
  import opened Bytes

  const PIPESIZE: nat := 512
  const WORD: nat := 0x1_0000_0000

  // ------------------------------------------------------------------------------ the ring

  datatype Ring = Ring(data: seq<Byte>, nread: nat, nwrite: nat)

  /** `put` is every byte ever put in and `taken` how many came out; the counters are these, wrapped. */
  ghost predicate RingOk(r: Ring, put: seq<Byte>, taken: nat) {
    && |r.data| == PIPESIZE && taken <= |put| <= taken + PIPESIZE
    && r.nwrite == |put| % WORD && r.nread == taken % WORD
    && forall k: nat :: taken <= k < |put| ==> r.data[k % PIPESIZE] == put[k]
  }

  predicate Full(r: Ring) {
    r.nwrite == (r.nread + PIPESIZE) % WORD
  }

  predicate Empty(r: Ring) {
    r.nread == r.nwrite
  }

  function Put(r: Ring, b: Byte): Ring
    requires |r.data| == PIPESIZE
  {
    r.(data := r.data[r.nwrite % PIPESIZE := b], nwrite := (r.nwrite + 1) % WORD)
  }

  function Next(r: Ring): Byte
    requires |r.data| == PIPESIZE
  {
    r.data[r.nread % PIPESIZE]
  }

  function Take(r: Ring): Ring {
    r.(nread := (r.nread + 1) % WORD)
  }

  /** The number of bytes waiting, as the counters show it. */
  function Waiting(r: Ring): nat {
    (r.nwrite - r.nread) % WORD
  }

  lemma Wrap(n: nat)
    ensures n % WORD % PIPESIZE == n % PIPESIZE && (n % WORD + 1) % WORD == (n + 1) % WORD
  {
    Common.WrapSlot(n, PIPESIZE, WORD, WORD / PIPESIZE);
    Common.WrapNext(n, WORD);
  }

  lemma WrapDiffer(a: nat, b: nat)
    requires a <= b <= a + PIPESIZE
    ensures (a % WORD == b % WORD <==> a == b) && (b % WORD - a % WORD) % WORD == b - a
    ensures b % WORD == (a % WORD + PIPESIZE) % WORD <==> b == a + PIPESIZE
  {
  }

  /** The tests on wrapped counters say whether the ring is full and whether it is empty. */
  lemma TestsAreRight(r: Ring, put: seq<Byte>, taken: nat)
    requires RingOk(r, put, taken)
    ensures Full(r) <==> |put| == taken + PIPESIZE
    ensures Empty(r) <==> |put| == taken
    ensures Waiting(r) == |put| - taken <= PIPESIZE
  {
    WrapDiffer(taken, |put|);
  }

  /** A byte goes in behind the bytes waiting, and none of them is overwritten. */
  lemma PutKeeps(r: Ring, put: seq<Byte>, taken: nat, b: Byte)
    requires RingOk(r, put, taken) && !Full(r)
    ensures RingOk(Put(r, b), put + [b], taken)
  {
    TestsAreRight(r, put, taken);
    Wrap(|put|);
    forall k: nat | taken <= k < |put| + 1 ensures Put(r, b).data[k % PIPESIZE] == (put + [b])[k] {
      if k < |put| {
        Common.SlotsDiffer(k, |put|, PIPESIZE);
      }
    }
  }

  /** The byte that comes out is the oldest one waiting. */
  lemma TakeKeeps(r: Ring, put: seq<Byte>, taken: nat)
    requires RingOk(r, put, taken) && !Empty(r)
    ensures taken < |put| && Next(r) == put[taken] && RingOk(Take(r), put, taken + 1)
  {
    TestsAreRight(r, put, taken);
    Wrap(taken);
  }

  // ----------------------------------------------------------- one turn with the pipe's lock

  /** How a turn of pipewrite ends: it gives up, it sleeps until there is room, or it is done. */
  datatype Turn = Aborted | Blocked | Done

  class Pipe {
    var data: array<Byte>
    var nread: nat
    var nwrite: nat
    var readopen: bool
    var writeopen: bool
    ghost var put: seq<Byte>
    ghost var taken: nat

    ghost function View(): Ring
      reads this, data
    {
      Ring(data[..], nread, nwrite)
    }

    ghost predicate Valid()
      reads this, data
    {
      RingOk(View(), put, taken)
    }

    /** pipealloc */
    constructor ()
      ensures Valid() && fresh(data) && readopen && writeopen && put == [] && taken == 0
    {
      data := new Byte[PIPESIZE];
      nread, nwrite, readopen, writeopen := 0, 0, true, true;
      put, taken := [], 0;
    }

    /**
     The loop of pipewrite from src[start] until it returns or sleeps. The process is killed
     once it reaches killedAt, and the user's memory can be read up to `readable`.
     */
    method Write(src: seq<Byte>, start: nat, killedAt: nat, readable: nat) returns (i: nat, turn: Turn)
      requires Valid() && start <= |src|
      modifies `nwrite, `put, data
      ensures Valid() && start <= i <= |src| && put == old(put) + src[start..i]
      ensures i > start ==> readopen && i <= killedAt && i <= readable
      ensures turn.Aborted? <==> i < |src| && (!readopen || killedAt <= i)
      ensures turn.Blocked? <==> i < |src| && readopen && i < killedAt && |put| == taken + PIPESIZE
      ensures turn.Done? ==> i == |src| || readable <= i
    {
      i := start;
      while i < |src|
        invariant start <= i <= |src| && Valid() && put == old(put) + src[start..i]
        invariant i > start ==> readopen && i <= killedAt && i <= readable
      {
        TestsAreRight(View(), put, taken);
        if !readopen || killedAt <= i {
          return i, Aborted;
        }
        if nwrite == (nread + PIPESIZE) % WORD {
          return i, Blocked;
        }
        if readable <= i {
          break;
        }
        ghost var was := View();
        PutKeeps(was, put, taken, src[i]);
        data[nwrite % PIPESIZE] := src[i];
        nwrite := (nwrite + 1) % WORD;
        put := put + [src[i]];
        assert View() == Put(was, src[i]);
        i := i + 1;
      }
      turn := Done;
    }

    /** The copying loop of piperead, with room in the user's memory for `writable` bytes. */
    method Read(n: nat, writable: nat) returns (out: seq<Byte>)
      requires Valid()
      modifies `nread, `taken
      ensures Valid() && out <= old(put)[old(taken)..]
      ensures |out| == Least(n, |put| - old(taken), writable)
      ensures taken == old(taken) + |out| + (if writable < n && writable < |put| - old(taken) then 1 else 0)
    {
      out := [];
      while |out| < n
        invariant Valid() && taken == old(taken) + |out| && |out| <= n && |out| <= writable
        invariant out == put[old(taken)..taken]
        decreases n - |out|
      {
        TestsAreRight(View(), put, taken);
        if nread == nwrite {
          break;
        }
        TakeKeeps(View(), put, taken);
        var ch := data[nread % PIPESIZE];
        nread := (nread + 1) % WORD;
        taken := taken + 1;
        if writable <= |out| {
          break;
        }
        out := out + [ch];
      }
    }
  }

  function Least(a: nat, b: nat, c: nat): nat {
    if a <= b && a <= c then a else if b <= c then b else c
  }
}
