/**
 The buffer cache of Bcache carries out the cache that the log is proved over (kernel/bio.c,
 bread, brelse, bpin and bunpin; kernel/log.c).

 The log knows a map from block numbers to contents and a multiset of pinned blocks. The buffers
 of one device other than 0 are that map, and each step on the buffers is a step on the map.
 */
module CacheSimulation {
  import opened Common
  import opened LogDisk
  import L = Log
  import R = LogRuns
  import B = Bcache

  /** The buffers with their contents. */
  datatype Concrete = Concrete(bufs: seq<B.Buf>, data: seq<Block>)

  /** Buffer c holds the contents of block b of the device. */
  predicate Holds(k: Concrete, dev: nat, c: nat, b: nat) {
    c < B.NBUF && c < |k.bufs| && c < |k.data| && B.Is(k.bufs[c], dev, b) && k.bufs[c].valid
  }

  ghost predicate Simulates(k: Concrete, pinned: multiset<nat>, dev: nat, cache: map<int, Block>, pins: multiset<int>) {
    && dev != 0 && |k.data| == B.NBUF && B.OneEach(k.bufs)
    && (forall c: nat, b: nat :: Holds(k, dev, c, b) ==> b in cache && cache[b] == k.data[c])
    && (forall b: int :: b in cache ==> Buffered(k, dev, b))
    && (forall c: nat :: c in pinned ==> Pinnable(k, dev, c))
    && (forall c: nat, b: nat :: c < B.NBUF && B.Is(k.bufs[c], dev, b) ==> pins[b] == pinned[c])
    && (forall b: int :: b in pins ==> Buffered(k, dev, b))
  }

  ghost predicate Buffered(k: Concrete, dev: nat, b: int) {
    b >= 0 && exists c: nat :: Holds(k, dev, c, b)
  }

  /** Only valid buffers of the device are pinned. */
  predicate Pinnable(k: Concrete, dev: nat, c: nat) {
    c < B.NBUF && c < |k.bufs| && k.bufs[c].dev == dev && k.bufs[c].valid
  }

  /** Counts and links of a buffer do not matter. */
  predicate SameUse(x: B.Buf, y: B.Buf) {
    x.dev == y.dev && x.blockno == y.blockno && x.valid == y.valid
  }

  /** A hit in bget, brelse, and any step that changes counts and links alone, leave the map as it is. */
  lemma CountsSimulate(k: Concrete, pinned: multiset<nat>, bufs: seq<B.Buf>, dev: nat, cache: map<int, Block>,
          pins: multiset<int>)
    requires Simulates(k, pinned, dev, cache, pins) && |bufs| == |k.bufs|
    requires forall c: nat :: c < |bufs| ==> SameUse(k.bufs[c], bufs[c])
    ensures Simulates(k.(bufs := bufs), pinned, dev, cache, pins)
  {
    hide Holds, Pinnable, SameUse;
    var t := k.(bufs := bufs);
    forall c: nat, b: nat ensures Holds(t, dev, c, b) == Holds(k, dev, c, b) {
      UseOf(k, t, dev, c, b);
    }
    forall b: int | b in cache || b in pins ensures Buffered(t, dev, b) {
      var c: nat :| Holds(k, dev, c, b);
      assert Holds(t, dev, c, b);
    }
    forall c: nat | c in pinned ensures Pinnable(t, dev, c) {
      UseOf(k, t, dev, c, 0);
    }
    forall c: nat, b: nat | c < B.NBUF && B.Is(t.bufs[c], dev, b) ensures pins[b] == pinned[c] {
      UseOf(k, t, dev, c, b);
    }
    StillOneEach(k.bufs, bufs);
  }

  lemma UseOf(k: Concrete, t: Concrete, dev: nat, c: nat, b: nat)
    requires t.data == k.data && |t.bufs| == |k.bufs| && forall c: nat :: c < |t.bufs| ==> SameUse(k.bufs[c], t.bufs[c])
    ensures Holds(t, dev, c, b) == Holds(k, dev, c, b) && Pinnable(t, dev, c) == Pinnable(k, dev, c)
    ensures c < |t.bufs| ==> B.Is(t.bufs[c], dev, b) == B.Is(k.bufs[c], dev, b)
  {
    if c < |t.bufs| {
      assert SameUse(k.bufs[c], t.bufs[c]);
    }
  }

  lemma StillOneEach(before: seq<B.Buf>, after: seq<B.Buf>)
    requires B.OneEach(before) && |after| == |before| && forall c: nat :: c < |after| ==> SameUse(before[c], after[c])
    ensures B.OneEach(after)
  {
    forall a: nat, b: nat | a < B.NBUF && b < B.NBUF && after[a].dev != 0
        && B.Is(after[b], after[a].dev, after[a].blockno) ensures a == b {
      assert SameUse(before[a], after[a]) && SameUse(before[b], after[b]);
    }
  }

  /** brelse */
  lemma ReleaseSimulates(k: Concrete, pinned: multiset<nat>, bufs: seq<B.Buf>, c: nat, n: nat, dev: nat,
          cache: map<int, Block>, pins: multiset<int>)
    requires Simulates(k, pinned, dev, cache, pins) && c < B.NBUF
    requires B.LinksOnly(k.bufs[c := k.bufs[c].(refcnt := n)], bufs)
    ensures Simulates(k.(bufs := bufs), pinned, dev, cache, pins)
  {
    CountsSimulate(k, pinned, bufs, dev, cache, pins);
  }

  /** The map without the block a buffer held, if it held one. */
  function Without(k: Concrete, dev: nat, c: nat, cache: map<int, Block>): map<int, Block>
    requires c < |k.bufs|
  {
    if k.bufs[c].dev == dev && k.bufs[c].valid then cache - {k.bufs[c].blockno as int} else cache
  }

  function Recycled(x: B.Buf, dev: nat, b: nat): B.Buf {
    x.(dev := dev, blockno := b, valid := false, refcnt := 1)
  }

  /** A miss in bget: the block in the recycled buffer is evicted, which the log allows since it is not pinned. */
  lemma MissSimulates(k: Concrete, pinned: multiset<nat>, dev: nat, c: nat, b: nat, cache: map<int, Block>,
          pins: multiset<int>)
    requires Simulates(k, pinned, dev, cache, pins) && c < B.NBUF && c !in pinned && !B.Cached(k.bufs, dev, b)
    ensures var t := k.(bufs := k.bufs[c := Recycled(k.bufs[c], dev, b)]);
            Simulates(t, pinned, dev, Without(k, dev, c, cache), pins)
    ensures k.bufs[c].dev == dev && k.bufs[c].valid ==> k.bufs[c].blockno in cache && k.bufs[c].blockno !in pins
  {
    var t := k.(bufs := k.bufs[c := Recycled(k.bufs[c], dev, b)]);
    B.TakeKeeps(k.bufs, c, dev, b);
    var less := Without(k, dev, c, cache);
    assert k.bufs[c].dev == dev && k.bufs[c].valid ==> Holds(k, dev, c, k.bufs[c].blockno);
    forall a: nat, x: nat | Holds(t, dev, a, x) ensures x in less && less[x] == t.data[a] {
      assert Holds(k, dev, a, x);
    }
    forall x: int | x in less ensures Buffered(t, dev, x) {
      var a: nat :| Holds(k, dev, a, x);
      assert Holds(t, dev, a, x);
    }
    forall x: int | x in pins ensures Buffered(t, dev, x) {
      var a: nat :| Holds(k, dev, a, x);
      assert Holds(t, dev, a, x);
    }
    forall a: nat | a in pinned ensures Pinnable(t, dev, a) {
      assert Pinnable(k, dev, a);
    }
    MissPins(k, pinned, dev, c, b, pins, cache);
  }

  lemma MissPins(k: Concrete, pinned: multiset<nat>, dev: nat, c: nat, b: nat, pins: multiset<int>,
          cache: map<int, Block>)
    requires Simulates(k, pinned, dev, cache, pins) && c < B.NBUF && c !in pinned && !B.Cached(k.bufs, dev, b)
    ensures pins[b] == 0
  {
    forall a: nat ensures !Holds(k, dev, a, b) {
    }
    assert b in pins ==> Buffered(k, dev, b);
  }

  /** The disk read in bread: the block comes in as the log's Load brings it in. */
  lemma FillSimulates(k: Concrete, pinned: multiset<nat>, dev: nat, c: nat, b: nat, disk: Disk,
          cache: map<int, Block>, pins: multiset<int>)
    requires Simulates(k, pinned, dev, cache, pins) && c < B.NBUF && B.Is(k.bufs[c], dev, b) && !k.bufs[c].valid
    requires b < |disk|
    ensures b !in cache && L.Cached(disk, cache, b) == disk[b]
    ensures var t := k.(bufs := k.bufs[c := k.bufs[c].(valid := true)], data := k.data[c := disk[b]]);
            Simulates(t, pinned, dev, cache[b := L.Cached(disk, cache, b)], pins)
  {
    NotYetCached(k, pinned, dev, c, b, cache, pins);
    var t := k.(bufs := k.bufs[c := k.bufs[c].(valid := true)], data := k.data[c := disk[b]]);
    var more := cache[b := disk[b]];
    assert Holds(t, dev, c, b);
    forall a: nat, x: nat | Holds(t, dev, a, x) ensures x in more && more[x] == t.data[a] {
      assert a != c ==> Holds(k, dev, a, x);
    }
    forall x: int | x in more || x in pins ensures Buffered(t, dev, x) {
      if x != b {
        var a: nat :| Holds(k, dev, a, x);
        assert Holds(t, dev, a, x);
      }
    }
    forall a: nat | a in pinned ensures Pinnable(t, dev, a) {
      assert Pinnable(k, dev, a);
    }
  }

  lemma NotYetCached(k: Concrete, pinned: multiset<nat>, dev: nat, c: nat, b: nat, cache: map<int, Block>,
          pins: multiset<int>)
    requires Simulates(k, pinned, dev, cache, pins) && c < B.NBUF && B.Is(k.bufs[c], dev, b) && !k.bufs[c].valid
    ensures b !in cache
  {
    forall a: nat ensures !Holds(k, dev, a, b) {
    }
    assert b in cache ==> Buffered(k, dev, b);
  }

  /** A change to the contents of a buffer. */
  lemma WriteSimulates(k: Concrete, pinned: multiset<nat>, dev: nat, c: nat, x: Block, cache: map<int, Block>,
          pins: multiset<int>)
    requires Simulates(k, pinned, dev, cache, pins) && Pinnable(k, dev, c)
    ensures Simulates(k.(data := k.data[c := x]), pinned, dev, cache[k.bufs[c].blockno as int := x], pins)
  {
    var b := k.bufs[c].blockno;
    var t := k.(data := k.data[c := x]);
    assert Holds(k, dev, c, b) && Holds(t, dev, c, b);
    forall y: int | y in cache || y in pins ensures Buffered(t, dev, y) {
      var a: nat :| Holds(k, dev, a, y);
      assert Holds(t, dev, a, y);
    }
    forall a: nat, y: nat | Holds(t, dev, a, y) ensures Holds(k, dev, a, y) && (y == b <==> a == c) {
    }
    forall a: nat | a in pinned ensures Pinnable(t, dev, a) {
      assert Pinnable(k, dev, a);
    }
  }

  /** bpin, as log_write calls it for a block new to the log. */
  lemma PinSimulates(k: Concrete, pinned: multiset<nat>, dev: nat, c: nat, cache: map<int, Block>, pins: multiset<int>)
    requires Simulates(k, pinned, dev, cache, pins) && Pinnable(k, dev, c)
    ensures Simulates(k, pinned + multiset{c}, dev, cache, pins + multiset{k.bufs[c].blockno as int})
  {
    var b := k.bufs[c].blockno;
    assert Holds(k, dev, c, b);
    hide Buffered;
    forall a: nat | a in pinned + multiset{c} ensures Pinnable(k, dev, a) {
      assert a != c ==> Pinnable(k, dev, a);
    }
    forall a: nat, y: nat | a < B.NBUF && B.Is(k.bufs[a], dev, y)
      ensures (pins + multiset{b as int})[y] == (pinned + multiset{c})[a]
    {
      assert y == b <==> a == c;
    }
  }

  /** bunpin, as install_trans calls it. */
  lemma UnpinSimulates(k: Concrete, pinned: multiset<nat>, dev: nat, c: nat, cache: map<int, Block>,
          pins: multiset<int>)
    requires Simulates(k, pinned, dev, cache, pins) && c in pinned
    ensures Pinnable(k, dev, c)
    ensures Simulates(k, pinned - multiset{c}, dev, cache, pins - multiset{k.bufs[c].blockno as int})
  {
    assert Pinnable(k, dev, c);
    hide Buffered;
    var b := k.bufs[c].blockno as int;
    forall a: nat | a in pinned - multiset{c} ensures Pinnable(k, dev, a) {
      assert a in pinned;
    }
    forall a: nat, y: nat | a < B.NBUF && B.Is(k.bufs[a], dev, y) ensures (pins - multiset{b})[y] ==
        (pinned - multiset{c})[a] {
      assert y == b <==> a == c;
    }
  }

  // ------------------------------------------------------------------------------------- bread

  /** The contents of the buffers beside the cache itself. */
  class Buffers {
    const cache: B.Cache
    const dev: nat
    var data: seq<Block>

    ghost function View(): Concrete
      reads this, cache
    {
      Concrete(cache.bufs, data)
    }

    /** After binit nothing is cached and nothing pinned. */
    constructor (dev: nat)
      requires dev != 0
      ensures this.dev == dev && fresh(cache) && cache.Valid()
      ensures Simulates(View(), cache.pinned, dev, map[], multiset{})
    {
      this.dev := dev;
      cache := new B.Cache();
      data := seq(B.NBUF, _ => L.Zeroes);
      new;
      EmptySimulates(View(), cache.pinned, dev);
    }

    /**
     bread: the buffer of a block, with what the log says the block holds. The map loses at most one
     block, which is not pinned, and gains this one.
     */
    method Bread(b: nat, disk: Disk, ghost m: map<int, Block>, ghost pins: multiset<int>)
        returns (r: Option<nat>, ghost evicted: map<int, Block>)
      requires cache.Valid() && Simulates(View(), cache.pinned, dev, m, pins) && b < |disk|
      modifies this, cache
      ensures cache.Valid() && cache.pinned == old(cache.pinned)
      ensures evicted == m || exists x: int :: x in m && x !in pins && evicted == m - {x}
      ensures r.Some? ==> Holds(View(), dev, r.value, b) && data[r.value] == L.Cached(disk, m, b)
      ensures r.Some? ==> Simulates(View(), cache.pinned, dev, evicted[b := L.Cached(disk, m, b)], pins)
      ensures r.None? ==> View() == old(View())
    {
      hide Simulates, Without;
      ghost var k := View();
      ghost var pinned := cache.pinned;
      SizesOf(k, pinned, dev, m, pins);
      evicted := m;
      r := cache.Bget(dev, b);
      if r.None? {
        return;
      }
      if B.Cached(k.bufs, dev, b) {
        HitSimulates(k, pinned, View(), dev, b, r.value, m, pins);
      } else {
        MissSimulates(k, pinned, dev, r.value, b, m, pins);
        WithoutIs(k, dev, r.value, m);
        Unbuffered(k, pinned, dev, b, m, pins);
        evicted := Without(k, dev, r.value, m);
      }
      if !cache.bufs[r.value].valid {
        FillSimulates(View(), pinned, dev, r.value, b, disk, evicted, pins);
        data := data[r.value := disk[b]];
        cache.MarkValid(r.value);
      } else {
        assert evicted[b := evicted[b]] == evicted;
      }
    }
  }

  lemma EmptySimulates(k: Concrete, pinned: multiset<nat>, dev: nat)
    requires dev != 0 && |k.data| == B.NBUF && B.OneEach(k.bufs) && pinned == multiset{}
    requires forall c: nat :: c < |k.bufs| ==> k.bufs[c].dev == 0
    ensures Simulates(k, pinned, dev, map[], multiset{})
  {
  }

  /** The log's own steps for a block brought in after another was evicted. */
  lemma EvictThenLoad(l: Layout, s: R.State, x: nat, b: nat)
    requires x in s.cache && x !in s.pins && b < |s.disk|
    ensures R.Enabled(l, s, R.Evict(x))
    ensures var t := R.Step(l, s, R.Evict(x));
            && R.Enabled(l, t, R.Load(b))
            && R.Step(l, t, R.Load(b)) == s.(cache := (s.cache
                - {x as int})[b := L.Cached(s.disk, s.cache - {x as int}, b)])
  {
  }

  lemma SizesOf(k: Concrete, pinned: multiset<nat>, dev: nat, m: map<int, Block>, pins: multiset<int>)
    requires Simulates(k, pinned, dev, m, pins)
    ensures |k.data| == B.NBUF && |k.bufs| == B.NBUF + 1
  {
  }

  lemma WithoutIs(k: Concrete, dev: nat, c: nat, m: map<int, Block>)
    requires c < |k.bufs|
    ensures Without(k, dev, c, m) == m || (k.bufs[c].dev == dev && k.bufs[c].valid
            && Without(k, dev, c, m) == m - {k.bufs[c].blockno as int})
  {
  }

  lemma Unbuffered(k: Concrete, pinned: multiset<nat>, dev: nat, b: nat, m: map<int, Block>, pins: multiset<int>)
    requires Simulates(k, pinned, dev, m, pins) && !B.Cached(k.bufs, dev, b)
    ensures b !in m
  {
    forall a: nat ensures !Holds(k, dev, a, b) {
    }
    assert b in m ==> Buffered(k, dev, b);
  }

  lemma HitSimulates(k: Concrete, pinned: multiset<nat>, t: Concrete, dev: nat, b: nat, c: nat, m: map<int, Block>,
          pins: multiset<int>)
    requires Simulates(k, pinned, dev, m, pins) && c < B.NBUF && |k.bufs| == B.NBUF + 1 && B.Is(k.bufs[c], dev, b)
    requires t == k.(bufs := k.bufs[c := k.bufs[c].(refcnt := k.bufs[c].refcnt + 1)])
    ensures Simulates(t, pinned, dev, m, pins)
    ensures k.bufs[c].valid ==> b in m && m[b] == k.data[c]
  {
    CountsSimulate(k, pinned, t.bufs, dev, m, pins);
    assert k.bufs[c].valid ==> Holds(k, dev, c, b);
  }
}
