/**
 The logging layer (kernel/log.c) over a write-back view of the buffer cache (kernel/bio.c).

 `cache` holds the valid buffers; a block that is not pinned may be dropped from it whenever a
 buffer is needed, so its contents must equal the disk's. Every block write is appended to the
 ghost `trace`, so that a method's contract lists the exact writes a crash can cut short.
 */
module Log {
  import opened LogDisk

  /** A block as bread would return it. */
  function Cached(disk: Disk, cache: map<int, Block>, b: nat): Block
    requires b < |disk|
  {
    if b in cache then cache[b] else disk[b]
  }

  /** The whole disk as the rest of the kernel sees it, through bread. */
  ghost function Through(disk: Disk, cache: map<int, Block>): (v: Disk)
    ensures |v| == |disk|
    ensures forall b :: 0 <= b < |disk| ==> v[b] == Cached(disk, cache, b)
  {
    seq(|disk|, b requires 0 <= b < |disk| => Cached(disk, cache, b))
  }

  lemma PutAtEnd<T>(s: seq<T>, n: nat, x: T)
    requires n < |s|
    ensures s[n := x][..n + 1] == s[..n] + [x]
  {
  }

  lemma LogAppends(l: Layout, len: nat, bs: seq<int>, b: nat)
    requires HomeAddresses(l, len, bs) && b !in bs && b < len && !l.InLog(b)
    requires |bs| < LOGSIZE && |bs| < l.size - 1
    ensures HomeAddresses(l, len, bs + [b]) && multiset(bs + [b]) == multiset(bs) + multiset{b}
  {
  }

  /** A changed buffer that is new to the log: logging and pinning it lets go of it safely. */
  lemma QuietAppends(l: Layout, disk: Disk, cache: map<int, Block>, pins: multiset<int>, bs: seq<int>, b: nat)
    requires Quiet(l, disk, cache, pins, bs, multiset{b as int}) && b !in bs && b < |disk| && !l.InLog(b)
    requires |bs| < LOGSIZE && |bs| < l.size - 1
    ensures Quiet(l, disk, cache, pins + multiset{b as int}, bs + [b], multiset{})
  {
    LogAppends(l, |disk|, bs, b);
    assert pins + multiset{b as int} + multiset{} == pins + multiset{b as int};
  }

  /** A changed buffer already in the log is pinned already. */
  lemma QuietAbsorbs(l: Layout, disk: Disk, cache: map<int, Block>, pins: multiset<int>, bs: seq<int>, b: nat)
    requires Quiet(l, disk, cache, pins, bs, multiset{b as int}) && b in bs
    ensures Quiet(l, disk, cache, pins, bs, multiset{})
  {
    assert b in multiset(bs);
    assert pins + multiset{} == pins;
  }

  lemma QuietCoherent(l: Layout, disk: Disk, cache: map<int, Block>, pins: multiset<int>, bs: seq<int>)
    ensures Quiet(l, disk, cache, pins, bs, multiset{}) <==>
            && l.Fits(|disk|) && HomeAddresses(l, |disk|, bs) && Coherent(disk, cache, pins)
            && pins == multiset(bs) && disk[l.start][0] == 0
  {
    assert pins + multiset{} == pins;
  }

  lemma QuietModified(l: Layout, disk: Disk, cache: map<int, Block>, pins: multiset<int>, bs: seq<int>, b: nat,
          data: Block)
    requires Quiet(l, disk, cache, pins, bs, multiset{}) && b < |disk|
    ensures Quiet(l, disk, cache[b := data], pins, bs, multiset{b as int})
  {
  }

  lemma ThroughUpdate(disk: Disk, cache: map<int, Block>, b: nat, data: Block)
    requires b < |disk|
    ensures Through(disk, cache[b := data]) == Through(disk, cache)[b := data]
  {
  }

  lemma RegroupTwice<T>(t: seq<T>, a: seq<T>, x: T, b: seq<T>, y: T)
    ensures t + a + [x] + b + [y] == t + (a + [x] + b + [y])
  {
  }

  lemma Regroup<T>(t: seq<T>, a: seq<T>, x: T)
    ensures t + a + [x] == t + (a + [x])
  {
  }

  /** Unpinned buffers hold what the disk holds, and pinned blocks stay buffered. */
  ghost predicate Coherent(disk: Disk, cache: map<int, Block>, pins: multiset<int>) {
    && (forall b :: b in cache ==> 0 <= b < |disk| && (b !in pins ==> cache[b] == disk[b]))
    && (forall b :: b in pins ==> b in cache)
  }

  const Zeroes: Block := seq(WORDS, _ => 0)

  /**
   The state between transactions with logged blocks bs, while `held` buffers are in some
   caller's hands and may have been changed by it.
   */
  ghost predicate Quiet(l: Layout, disk: Disk, cache: map<int, Block>, pins: multiset<int>, bs: seq<int>,
          held: multiset<int>) {
    && l.Fits(|disk|)
    && HomeAddresses(l, |disk|, bs)
    && Coherent(disk, cache, pins + held)
    && pins == multiset(bs)
    && disk[l.start][0] == 0
  }

  function Pick(views: Disk, bs: seq<int>): (cs: seq<Block>)
    ensures |cs| == |bs|
  {
    seq(|bs|, i requires 0 <= i < |bs| => if 0 <= bs[i] < |views| then views[bs[i]] else Zeroes)
  }

  /** Of the planned writes ws, the first t have been issued, starting from disk d and view v. */
  ghost predicate Issued(disk: Disk, views: Disk, trace: seq<Write>, d: Disk, v: Disk, from: seq<Write>,
                         ws: seq<Write>, t: nat) {
    && t <= |ws| && |disk| == |d| && |views| == |v|
    && trace == from + ws[..t]
    && disk == Apply(d, ws[..t])
    && views == Apply(v, ws[..t])
  }

  lemma IssuedNone(d: Disk, v: Disk, from: seq<Write>, ws: seq<Write>)
    ensures Issued(d, v, from, d, v, from, ws, 0)
  {
    assert ws[..0] == [];
  }

  lemma IssuedNext(disk: Disk, views: Disk, trace: seq<Write>, d: Disk, v: Disk, from: seq<Write>, ws: seq<Write>,
          t: nat)
    requires Issued(disk, views, trace, d, v, from, ws, t) && t < |ws|
    ensures Issued(Put(disk, ws[t]), Put(views, ws[t]), trace + [ws[t]], d, v, from, ws, t + 1)
  {
    ApplySnoc(d, ws, t);
    ApplySnoc(v, ws, t);
    Snoc(ws, t);
    Regroup(from, ws[..t], ws[t]);
  }

  lemma IssuedAll(disk: Disk, views: Disk, trace: seq<Write>, d: Disk, v: Disk, from: seq<Write>, ws: seq<Write>)
    requires Issued(disk, views, trace, d, v, from, ws, |ws|)
    ensures trace == from + ws && disk == Apply(d, ws) && views == Apply(v, ws)
  {
    assert ws[..|ws|] == ws;
  }

  lemma HomeFacts(l: Layout, len: nat, bs: seq<int>)
    requires HomeAddresses(l, len, bs)
    ensures |bs| <= LOGSIZE && |bs| <= l.size - 1 && forall i :: 0 <= i < |bs| ==> 0 <= bs[i] < len
  {
  }

  /** The t-th copy into the log takes the block as bread returns it. */
  lemma WriteLogStep(l: Layout, v: Disk, bs: seq<int>, t: nat, views: Disk)
    requires l.Fits(|v|) && HomeAddresses(l, |v|, bs) && t < |bs|
    requires views == Apply(v, LogWrites(l, Pick(v, bs))[..t])
    ensures |views| == |v| && 0 <= bs[t] < |v| && l.start + t + 1 < |v| && |LogWrites(l, Pick(v, bs))| == |bs|
    ensures LogWrites(l, Pick(v, bs))[t] == Write(l.start + t + 1, views[bs[t]])
  {
    LogPrefix(l, v, Pick(v, bs), t);
  }

  /** The t-th home write takes the log's copy. */
  lemma InstallStep(l: Layout, v: Disk, bs: seq<int>, t: nat, views: Disk)
    requires l.Fits(|v|) && HomeAddresses(l, |v|, bs) && t < |bs|
    requires views == Apply(v, HomeWrites(bs, LogContents(l, v, |bs|))[..t])
    ensures |views| == |v| && 0 <= bs[t] < |v| && l.start + t + 1 < |v|
    ensures |HomeWrites(bs, LogContents(l, v, |bs|))| == |bs|
    ensures HomeWrites(bs, LogContents(l, v, |bs|))[t] == Write(bs[t], views[l.start + t + 1])
  {
    HomeKeepsLog(l, v, bs, LogContents(l, v, |bs|), t);
  }

  lemma HeadStep(h: Block, bs: seq<int>, i: nat)
    requires i < |bs| <= LOGSIZE
    ensures var hb := [|bs|] + bs[..i] + h[1 + i..];
            |hb| == WORDS && hb[1 + i := bs[i]] == [|bs|] + bs[..i + 1] + h[2 + i..]
  {
  }

  lemma ApplySnoc(d: Disk, ws: seq<Write>, t: nat)
    requires t < |ws|
    ensures Apply(d, ws[..t + 1]) == Put(Apply(d, ws[..t]), ws[t])
    ensures |Apply(d, ws[..t])| == |d|
  {
    assert ws[..t + 1][..t] == ws[..t];
    ApplyLength(d, ws[..t]);
  }

  lemma Snoc<T>(s: seq<T>, t: nat)
    requires t < |s|
    ensures s[..t + 1] == s[..t] + [s[t]]
  {
  }

  lemma MultisetTail(s: seq<int>, t: nat)
    requires t < |s|
    ensures multiset(s[t..]) - multiset{s[t]} == multiset(s[t + 1..]) && s[t] in multiset(s[t..])
  {
    assert s[t..] == [s[t]] + s[t + 1..];
  }

  lemma HomeKeepsLog(l: Layout, v: Disk, bs: seq<int>, cs: seq<Block>, t: nat)
    requires l.Fits(|v|) && HomeAddresses(l, |v|, bs) && |bs| == |cs| && t < |bs|
    ensures |Apply(v, HomeWrites(bs, cs)[..t])| == |v|
    ensures Apply(v, HomeWrites(bs, cs)[..t])[l.start + t + 1] == v[l.start + t + 1]
  {
    HomePrefix(l, v, bs, cs, t);
    assert l.InLog(l.start + t + 1);
    assert l.start + t + 1 !in bs[..t];
  }

  /** The four phases of a commit, applied in turn, are the whole list of its writes. */
  lemma ApplyCommit(l: Layout, d: Disk, h: Block, bs: seq<int>, cs: seq<Block>)
    requires 0 < |bs| == |cs| <= LOGSIZE
    requires forall i :: 0 <= i < |bs| ==> 0 <= bs[i]
    ensures var d2 := Put(Apply(d, LogWrites(l, cs)), Write(l.start, SetHead(h, bs)));
            Put(Apply(d2, HomeWrites(bs, cs)), Write(l.start, SetHead(SetHead(h, bs), []))) ==
            Apply(d, CommitWrites(l, h, bs, cs))
  {
    var lw, hw := LogWrites(l, cs), HomeWrites(bs, cs);
    var head := [Write(l.start, SetHead(h, bs))];
    var ws := CommitWrites(l, h, bs, cs);
    assert (lw + head)[..|lw|] == lw;
    ApplyConcat(d, lw + head, hw);
    assert ws[..|ws| - 1] == lw + head + hw;
  }

  /** While a commit runs, the log blocks read back as the logged contents. */
  lemma CommitPlan(l: Layout, v: Disk, bs: seq<int>, cs: seq<Block>)
    requires l.Fits(|v|) && HomeAddresses(l, |v|, bs) && 0 < |bs| == |cs|
    ensures var v1 := Apply(v, LogWrites(l, cs));
            && |v1| == |v| && v1[l.start] == v[l.start]
            && var v2 := Put(v1, Write(l.start, SetHead(v[l.start], bs)));
            && LogContents(l, v2, |bs|) == cs
            && |Apply(v2, HomeWrites(bs, cs))| == |v|
            && Apply(v2, HomeWrites(bs, cs))[l.start] == SetHead(v[l.start], bs)
  {
    hide Apply, HomeWrites;
    LogPrefix(l, v, cs, |cs|);
    assert LogWrites(l, cs)[..|cs|] == LogWrites(l, cs);
    var v2 := Put(Apply(v, LogWrites(l, cs)), Write(l.start, SetHead(v[l.start], bs)));
    assert LogContents(l, v2, |bs|) == cs;
    InstallOverLog(l, v, v2, bs, cs, |bs|);
    assert HomeWrites(bs, cs)[..|bs|] == HomeWrites(bs, cs);
  }

  /** The header block is never logged, so bread returns what the disk holds. */
  lemma QuietHeader(l: Layout, disk: Disk, cache: map<int, Block>, pins: multiset<int>, bs: seq<int>)
    requires Quiet(l, disk, cache, pins, bs, multiset{})
    ensures Through(disk, cache)[l.start] == disk[l.start]
  {
    assert l.InLog(l.start) && l.start !in bs;
    assert pins + multiset{} == pins;
  }

  /** Committing what bread already returns changes no home block as bread returns it. */
  lemma CommitOnViews(l: Layout, v: Disk, bs: seq<int>)
    requires l.Fits(|v|) && HomeAddresses(l, |v|, bs) && 0 < |bs|
    ensures SameHome(l, Apply(v, CommitWrites(l, v[l.start], bs, Pick(v, bs))), v)
  {
    var cs := Pick(v, bs);
    CommitComplete(l, v, bs, cs);
    var e := Apply(v, CommitWrites(l, v[l.start], bs, cs));
    forall b | 0 <= b < |v| && !l.InLog(b) ensures e[b] == v[b] {
      if b in bs {
        var i :| 0 <= i < |bs| && bs[i] == b;
      }
    }
  }

  /** The outcome of a commit's four phases, on the disk and as bread sees it. */
  lemma CommitEffect(l: Layout, d: Disk, v: Disk, bs: seq<int>, t: seq<Write>)
    requires l.Fits(|d|) && |v| == |d| && HomeAddresses(l, |d|, bs) && 0 < |bs| && v[l.start] == d[l.start]
    ensures var h, cs := d[l.start], Pick(v, bs);
            var lw, hw := LogWrites(l, cs), HomeWrites(bs, cs);
            var w1, w2 := Write(l.start, SetHead(h, bs)), Write(l.start, SetHead(SetHead(h, bs), []));
            var ws := CommitWrites(l, h, bs, cs);
            var e := Put(Apply(Put(Apply(d, lw), w1), hw), w2);
            && t + lw + [w1] + hw + [w2] == t + ws
            && e == Apply(d, ws) && |e| == |d| && e[l.start][0] == 0
            && SameHome(l, Put(Apply(Put(Apply(v, lw), w1), hw), w2), v)
  {
    var h, cs := d[l.start], Pick(v, bs);
    RegroupTwice(t, LogWrites(l, cs), Write(l.start, SetHead(h, bs)), HomeWrites(bs, cs),
                 Write(l.start, SetHead(SetHead(h, bs), [])));
    ApplyCommit(l, d, h, bs, cs);
    ApplyCommit(l, v, h, bs, cs);
    CommitOnViews(l, v, bs);
    CommitComplete(l, d, bs, cs);
  }

  lemma NoWrites(l: Layout, d: Disk, v: Disk, bs: seq<int>, t: seq<Write>)
    requires bs == [] && l.Fits(|d|)
    ensures CommitWrites(l, d[l.start], bs, Pick(v, bs)) == []
    ensures t + [] == t && Apply(d, []) == d && SameHome(l, v, v)
  {
  }

  lemma RecoverPlan(l: Layout, d: Disk)
    requires l.Fits(|d|) && HeadOk(l, |d|, d[l.start])
    ensures var h := d[l.start];
            var hw := HomeWrites(HeadBlocks(h), LogContents(l, d, h[0]));
            && |Apply(d, hw)| == |d| && Apply(d, hw)[l.start] == h
            && Put(Apply(d, hw), Write(l.start, SetHead(h, []))) == Recover(l, d)
            && RecoverWrites(l, d) == hw + [Write(l.start, SetHead(h, []))]
            && Recover(l, d)[l.start][0] == 0
  {
    var h := d[l.start];
    var bs, cs := HeadBlocks(h), LogContents(l, d, h[0]);
    var hw := HomeWrites(bs, cs);
    HomePrefix(l, d, bs, cs, |bs|);
    assert hw[..|bs|] == hw;
    assert l.InLog(l.start) && l.start !in bs[..|bs|];
    assert RecoverWrites(l, d)[..|hw|] == hw;
  }

  /** What log_write panics of, in a log area of `size` blocks: n blocks fill it, or no operation is outstanding. */
  predicate Refuses(n: nat, size: nat, outstanding: nat) {
    n >= LOGSIZE || n >= size - 1 || outstanding < 1
  }

  class Log {
    const l: Layout
    var disk: Disk
    var cache: map<int, Block>
    var pins: multiset<int>
    const block: array<int>
    var n: nat
    var outstanding: nat
    var committing: bool
    ghost var trace: seq<Write>

    ghost function Views(): (v: Disk)
      reads this`disk, this`cache
    {
      Through(disk, cache)
    }

    ghost function Logged(): seq<int>
      reads this`n, block
      requires n <= block.Length
    {
      block[..n]
    }

    ghost predicate Valid()
      reads this, block
    {
      && l.Fits(|disk|)
      && block.Length == LOGSIZE
      && n <= LOGSIZE
      && HomeAddresses(l, |disk|, Logged())
      && Coherent(disk, cache, pins)
    }

    /** Between transactions: exactly the logged blocks are pinned, once each; the disk log is empty. */
    ghost predicate Open()
      reads this, block
    {
      block.Length == LOGSIZE && n <= LOGSIZE && Quiet(l, disk, cache, pins, Logged(), multiset{})
    }

    // ------------------------------------------------------------------ buffer cache

    method Bread(b: nat) returns (data: Block)
      requires Coherent(disk, cache, pins) && b < |disk|
      modifies this`cache
      ensures Coherent(disk, cache, pins) && b in cache
      ensures data == old(Views())[b] && Views() == old(Views())
    {
      if b !in cache {
        if {
          case true =>                       // an unused buffer is available
          case exists v :: v in cache.Keys && v !in pins =>
            var v :| v in cache.Keys && v !in pins;
            cache := cache - {v};            // recycle a buffer nobody references
        }
        cache := cache[b := disk[b]];
      }
      data := cache[b];
    }

    /** The holder of buffer b sets its data and writes it through to the disk. */
    method Bwrite(b: nat, data: Block)
      requires Coherent(disk, cache, pins) && b < |disk|
      modifies this`cache, this`disk, this`trace
      ensures Coherent(disk, cache, pins) && b in cache && cache[b] == disk[b]
      ensures Views() == old(Views())[b := data]
      ensures disk == old(disk)[b := data] && trace == old(trace) + [Write(b, data)]
    {
      cache := cache[b := data];
      disk := disk[b := data];
      trace := trace + [Write(b, data)];
    }

    /**
     bread both blocks, copy one over the other, write it out. The ghost parameters say where
     this write stands in a planned list of writes.
     */
    method CopyBlock(from: nat, to: nat, ghost d: Disk, ghost v: Disk, ghost past: seq<Write>,
                     ghost ws: seq<Write>, ghost t: nat)
      requires Coherent(disk, cache, pins) && from < |disk| && to < |disk|
      requires t < |ws| && ws[t] == Write(to, Views()[from])
      requires Issued(disk, Views(), trace, d, v, past, ws, t)
      modifies this`cache, this`disk, this`trace
      ensures Coherent(disk, cache, pins) && to in cache && to < |disk| && cache[to] == disk[to]
      ensures Issued(disk, Views(), trace, d, v, past, ws, t + 1)
    {
      hide Coherent, Issued;
      IssuedNext(disk, Views(), trace, d, v, past, ws, t);
      var src := Bread(from);
      var dst := Bread(to);
      Bwrite(to, src);
    }

    method Bunpin(b: int)
      requires Coherent(disk, cache, pins) && b in cache && b in pins && cache[b] == disk[b]
      modifies this`pins
      ensures Coherent(disk, cache, pins) && pins == old(pins) - multiset{b}
    {
      pins := pins - multiset{b};
    }

    // ---------------------------------------------------------------------- commit

    method WriteLog()
      requires Valid()
      modifies this`cache, this`disk, this`trace
      ensures Valid()
      ensures var ws := LogWrites(l, Pick(old(Views()), Logged()));
              && trace == old(trace) + ws
              && disk == Apply(old(disk), ws)
              && Views() == Apply(old(Views()), ws)
    {
      hide Apply, LogWrites, Pick, Coherent, HomeAddresses, Through;
      ghost var v0, d0, bs := Views(), disk, Logged();
      ghost var ws := LogWrites(l, Pick(v0, bs));
      IssuedNone(d0, v0, trace, ws);
      var tail := 0;
      while tail < n
        invariant 0 <= tail <= n
        invariant Coherent(disk, cache, pins)
        invariant Issued(disk, Views(), trace, d0, v0, old(trace), ws, tail)
      {
        assert block[tail] == bs[tail];
        WriteLogStep(l, v0, bs, tail, Views());
        CopyBlock(block[tail], l.start + tail + 1, d0, v0, old(trace), ws, tail);
        tail := tail + 1;
      }
      IssuedAll(disk, Views(), trace, d0, v0, old(trace), ws);
    }

    method WriteHead()
      requires Valid()
      modifies this`cache, this`disk, this`trace
      ensures Valid()
      ensures var w := Write(l.start, SetHead(old(Views())[l.start], Logged()));
              && trace == old(trace) + [w]
              && disk == Put(old(disk), w)
              && Views() == Put(old(Views()), w)
    {
      hide Coherent, HomeAddresses, Through;
      var hb := Bread(l.start);
      ghost var h, bs := hb, block[..n];
      hb := hb[0 := n];
      var i := 0;
      assert hb == [n as int] + bs[..i] + h[1 + i..];
      while i < n
        invariant 0 <= i <= n
        invariant |hb| == WORDS && hb == [n as int] + bs[..i] + h[1 + i..]
        modifies {}
      {
        HeadStep(h, bs, i);
        hb := hb[1 + i := block[i]];
        i := i + 1;
      }
      assert bs[..i] == bs;
      Bwrite(l.start, hb);
    }

    method InstallTrans(recovering: bool)
      requires Valid()
      requires !recovering ==> pins == multiset(Logged())
      modifies this`cache, this`disk, this`trace, this`pins
      ensures Valid()
      ensures var ws := HomeWrites(Logged(), LogContents(l, old(Views()), n));
              && trace == old(trace) + ws
              && disk == Apply(old(disk), ws)
              && Views() == Apply(old(Views()), ws)
      ensures pins == if recovering then old(pins) else multiset{}
    {
      hide Apply, HomeWrites, LogContents, Coherent, HomeAddresses, Through;
      ghost var v0, d0, bs := Views(), disk, Logged();
      HomeFacts(l, |d0|, bs);
      ghost var ws := HomeWrites(bs, LogContents(l, v0, n));
      IssuedNone(d0, v0, trace, ws);
      assert bs[0..] == bs;
      var tail := 0;
      while tail < n
        invariant 0 <= tail <= n
        invariant Coherent(disk, cache, pins)
        invariant Issued(disk, Views(), trace, d0, v0, old(trace), ws, tail)
        invariant pins == if recovering then old(pins) else multiset(bs[tail..])
      {
        assert block[tail] == bs[tail];
        InstallStep(l, v0, bs, tail, Views());
        CopyBlock(l.start + tail + 1, block[tail], d0, v0, old(trace), ws, tail);
        MultisetTail(bs, tail);
        if !recovering {
          Bunpin(block[tail]);
        }
        tail := tail + 1;
      }
      IssuedAll(disk, Views(), trace, d0, v0, old(trace), ws);
    }

    /** log.lh.n = 0; write_head(): empty the log in memory, then on disk. */
    method EraseLog()
      requires Valid()
      modifies this`cache, this`disk, this`trace, this`n
      ensures Valid() && n == 0
      ensures var w := Write(l.start, SetHead(old(Views())[l.start], []));
              && trace == old(trace) + [w]
              && disk == Put(old(disk), w)
              && Views() == Put(old(Views()), w)
    {
      n := 0;
      assert block[..n] == [];
      WriteHead();
    }

    /** Commit the logged blocks: the disk goes through exactly CommitWrites, in order. */
    method Commit()
      requires Open()
      modifies this`cache, this`disk, this`trace, this`pins, this`n
      ensures Open() && n == 0
      ensures var bs := old(Logged());
              var ws := CommitWrites(l, old(disk)[l.start], bs, Pick(old(Views()), bs));
              trace == old(trace) + ws && disk == Apply(old(disk), ws)
      ensures SameHome(l, Views(), old(Views()))
    {
      hide Coherent, HomeAddresses, Apply, CommitWrites, LogWrites, HomeWrites, LogContents, SetHead, Quiet;
      ghost var d0, v0, bs := disk, Views(), Logged();
      QuietCoherent(l, disk, cache, pins, bs);
      QuietHeader(l, disk, cache, pins, bs);
      HomeFacts(l, |disk|, bs);
      if n > 0 {
        CommitPlan(l, v0, bs, Pick(v0, bs));
        CommitEffect(l, d0, v0, bs, trace);
        WriteLog();
        WriteHead();
        InstallTrans(false);
        EraseLog();
        assert Logged() == [];
        QuietCoherent(l, disk, cache, pins, []);
      } else {
        NoWrites(l, d0, v0, bs, trace);
      }
    }

    method ReadHead()
      requires l.Fits(|disk|) && block.Length == LOGSIZE && Coherent(disk, cache, pins)
      requires cache == map[] && HeadOk(l, |disk|, disk[l.start])
      modifies this`cache, this`n, block
      ensures Valid() && Views() == old(Views())
      ensures Logged() == HeadBlocks(disk[l.start])
    {
      var lh := Bread(l.start);
      n := lh[0];
      var i := 0;
      while i < n
        invariant 0 <= i <= n == lh[0] <= LOGSIZE
        invariant block[..i] == lh[1..1 + i]
        modifies block
      {
        block[i] := lh[1 + i];
        i := i + 1;
      }
    }

    /** Boot: redo a committed transaction, if there is one, and empty the log. */
    method RecoverFromLog()
      requires l.Fits(|disk|) && block.Length == LOGSIZE
      requires cache == map[] && pins == multiset{} && HeadOk(l, |disk|, disk[l.start])
      modifies this`cache, this`disk, this`trace, this`pins, this`n, block
      ensures Open() && n == 0
      ensures trace == old(trace) + RecoverWrites(l, old(disk))
      ensures disk == Recover(l, old(disk)) == Views()
    {
      ghost var d0 := disk;
      assert Views() == d0;
      ghost var hw := HomeWrites(HeadBlocks(d0[l.start]), LogContents(l, d0, d0[l.start][0]));
      ghost var w := Write(l.start, SetHead(d0[l.start], []));
      RecoverPlan(l, d0);
      ReadHead();
      InstallTrans(true);
      EraseLog();
      Regroup(old(trace), hw, w);
    }

    // ---------------------------------------------------------------- transactions

    /** One pass of begin_op's loop; false where it would go to sleep. */
    method TryBeginOp() returns (admitted: bool)
      modifies this`outstanding
      ensures admitted <==> !committing && n + (old(outstanding) + 1) * MAXOPBLOCKS <= LOGSIZE
      ensures outstanding == if admitted then old(outstanding) + 1 else old(outstanding)
    {
      if committing {
        admitted := false;
      } else if n + (outstanding + 1) * MAXOPBLOCKS > LOGSIZE {
        admitted := false;
      } else {
        outstanding := outstanding + 1;
        admitted := true;
      }
    }

    /** Ends an operation; the last one out commits every operation that ended since the last commit. */
    method EndOp()
      requires Open() && outstanding > 0 && !committing
      modifies this`cache, this`disk, this`trace, this`pins, this`n, this`outstanding, this`committing
      ensures Open() && !committing && outstanding == old(outstanding) - 1
      ensures SameHome(l, Views(), old(Views()))
      ensures old(outstanding) > 1 ==> disk == old(disk) && trace == old(trace) && Logged() == old(Logged())
      ensures old(outstanding) == 1 ==>
                var bs := old(Logged());
                var ws := CommitWrites(l, old(disk)[l.start], bs, Pick(old(Views()), bs));
                n == 0 && trace == old(trace) + ws && disk == Apply(old(disk), ws)
    {
      var doCommit := false;
      outstanding := outstanding - 1;
      if outstanding == 0 {
        doCommit := true;
        committing := true;
      }
      if doCommit {
        Commit();
        committing := false;
      }
    }

    /** As Open, while some caller holds buffer b, whose data it may have changed. */
    ghost predicate OpenHolding(b: nat)
      reads this, block
    {
      && block.Length == LOGSIZE && n <= LOGSIZE && b < |disk| && b in cache
      && Quiet(l, disk, cache, pins, Logged(), multiset{b as int})
    }

    /** The log slot that already holds block b, or the first free one. */
    method FindLogged(b: nat) returns (i: nat)
      requires n <= block.Length
      ensures i <= n
      ensures i < n ==> block[i] == b
      ensures i == n ==> b !in Logged()
    {
      i := 0;
      while i < n && block[i] != b
        invariant i <= n
        invariant forall j :: 0 <= j < i ==> block[j] != b
      {
        i := i + 1;
      }
    }

    /** The header's list of blocks gets b, unless it is there. */
    method Record(b: nat) returns (added: bool)
      requires block.Length == LOGSIZE && n < LOGSIZE
      modifies this`n, block
      ensures n <= LOGSIZE && (added <==> b !in old(Logged()))
      ensures Logged() == if added then old(Logged()) + [b] else old(Logged())
    {
      ghost var was := block[..];
      var i := FindLogged(b);
      added := i == n;
      block[i] := b;
      if added {
        PutAtEnd(was, n, b);
        assert block[..] == was[n := b];
        n := n + 1;
      } else {
        assert block[..] == was;
        assert was[..n][i] == b;
      }
    }

    /**
     The holder of buffer b is done with it. False where the source panics. A block already in
     the log is absorbed; a new one is appended and pinned.
     */
    method LogWrite(b: nat) returns (ok: bool)
      requires OpenHolding(b) && !l.InLog(b)
      modifies this`pins, this`n, block
      ensures ok <==> !Refuses(old(n), l.size, outstanding)
      ensures ok ==> Open()
      ensures ok ==> Logged() == if b in old(Logged()) then old(Logged()) else old(Logged()) + [b]
    {
      hide Quiet;
      ghost var bs := Logged();
      if n >= LOGSIZE || n >= l.size - 1 {
        return false;
      }
      if outstanding < 1 {
        return false;
      }
      var added := Record(b);
      if added {
        QuietAppends(l, disk, cache, pins, bs, b);
        pins := pins + multiset{b as int};
      } else {
        QuietAbsorbs(l, disk, cache, pins, bs, b);
      }
      ok := true;
    }

    /** The idiom log_write documents: bread, change the data, log_write. */
    method UpdateBlock(b: nat, data: Block) returns (ok: bool)
      requires Open() && b < |disk| && !l.InLog(b)
      modifies this`cache, this`pins, this`n, block
      ensures ok <==> !Refuses(old(n), l.size, outstanding)
      ensures ok ==> Open() && Views() == old(Views())[b := data]
      ensures ok ==> Logged() == if b in old(Logged()) then old(Logged()) else old(Logged()) + [b]
    {
      hide Quiet, Through, Refuses;
      QuietCoherent(l, disk, cache, pins, Logged());
      var was := Bread(b);
      ThroughUpdate(disk, cache, b, data);
      QuietModified(l, disk, cache, pins, Logged(), b, data);
      cache := cache[b := data];
      ok := LogWrite(b);
    }
  }
}
