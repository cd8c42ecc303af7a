/**
 The block device and the on-disk format of the redo log (kernel/log.c).

 A disk is a sequence of blocks, a block is BSIZE / 4 machine words, and a single block write
 is atomic. The log occupies `size` blocks from `start`: a header block holding the number of
 logged blocks and their home addresses, then the logged copies.

 What a run of `commit` or of `recover_from_log` does to the disk is the list of block writes
 it issues; a crash leaves some prefix of that list on the disk.
 */
module LogDisk {

  const MAXOPBLOCKS: nat := 10
  const LOGSIZE: nat := MAXOPBLOCKS * 3
  const WORDS: nat := 256

  type Block = b: seq<int> | |b| == WORDS witness seq(WORDS, _ => 0)
  type Disk = seq<Block>

  datatype Write = Write(block: nat, data: Block)

  datatype Layout = Layout(start: nat, size: nat) {
    predicate InLog(b: int) {
      start <= b < start + size
    }

    /** The log fits on a disk of `len` blocks and has a header block. */
    predicate Fits(len: nat) {
      1 <= size && start + size <= len
    }
  }

  function Put(d: Disk, w: Write): Disk {
    if w.block < |d| then d[w.block := w.data] else d
  }

  function Apply(d: Disk, ws: seq<Write>): Disk
  {
    if ws == [] then d else Put(Apply(d, ws[..|ws| - 1]), ws[|ws| - 1])
  }

  /** Block addresses a log header may carry: distinct, on the disk, outside the log. */
  predicate HomeAddresses(l: Layout, len: nat, bs: seq<int>) {
    && |bs| <= LOGSIZE
    && |bs| <= l.size - 1
    && (forall i :: 0 <= i < |bs| ==> 0 <= bs[i] < len && !l.InLog(bs[i]))
    && (forall i, j :: 0 <= i < j < |bs| ==> bs[i] != bs[j])
  }

  predicate HeadOk(l: Layout, len: nat, h: Block) {
    0 <= h[0] <= LOGSIZE && HomeAddresses(l, len, h[1..1 + h[0]])
  }

  function HeadBlocks(h: Block): seq<int>
    requires 0 <= h[0] <= LOGSIZE
  {
    h[1..1 + h[0]]
  }

  /** The header block after write_head: only the count and the first |bs| entries change. */
  function SetHead(h: Block, bs: seq<int>): Block
    requires |bs| <= LOGSIZE
  {
    [|bs|] + bs + h[1 + |bs|..]
  }

  function LogWrites(l: Layout, cs: seq<Block>): (ws: seq<Write>)
    ensures |ws| == |cs|
  {
    seq(|cs|, i requires 0 <= i < |cs| => Write(l.start + 1 + i, cs[i]))
  }

  function HomeWrites(bs: seq<int>, cs: seq<Block>): (ws: seq<Write>)
    requires |bs| == |cs|
    requires forall i :: 0 <= i < |bs| ==> 0 <= bs[i]
    ensures |ws| == |bs|
  {
    seq(|cs|, i requires 0 <= i < |cs| => Write(bs[i], cs[i]))
  }

  /** Every block write `commit` issues for logged blocks `bs` with cached contents `cs`. */
  function CommitWrites(l: Layout, h: Block, bs: seq<int>, cs: seq<Block>): (ws: seq<Write>)
    requires |bs| == |cs| <= LOGSIZE
    requires forall i :: 0 <= i < |bs| ==> 0 <= bs[i]
    ensures |ws| == if |bs| == 0 then 0 else 2 * |bs| + 2
  {
    if |bs| == 0 then [] else
    LogWrites(l, cs)
    + [Write(l.start, SetHead(h, bs))]
    + HomeWrites(bs, cs)
    + [Write(l.start, SetHead(SetHead(h, bs), []))]
  }

  function LogContents(l: Layout, d: Disk, n: nat): (cs: seq<Block>)
    requires l.Fits(|d|) && n <= l.size - 1
    ensures |cs| == n
  {
    seq(n, i requires 0 <= i < n => d[l.start + 1 + i])
  }

  /** Every block write `recover_from_log` issues on disk `d`. */
  function RecoverWrites(l: Layout, d: Disk): (ws: seq<Write>)
    requires l.Fits(|d|) && HeadOk(l, |d|, d[l.start])
    ensures |ws| == d[l.start][0] + 1
  {
    var h := d[l.start];
    HomeWrites(HeadBlocks(h), LogContents(l, d, h[0])) + [Write(l.start, SetHead(h, []))]
  }

  function Recover(l: Layout, d: Disk): (r: Disk)
    requires l.Fits(|d|) && HeadOk(l, |d|, d[l.start])
    ensures |r| == |d|
  {
    ApplyLength(d, RecoverWrites(l, d));
    Apply(d, RecoverWrites(l, d))
  }

  /** Two disks agree on every block outside the log. */
  ghost predicate SameHome(l: Layout, d: Disk, e: Disk) {
    |d| == |e| && forall b :: 0 <= b < |d| && !l.InLog(b) ==> d[b] == e[b]
  }

  /** `e` is `d` with contents `cs` installed at addresses `bs`, on the blocks outside the log. */
  ghost predicate Installed(l: Layout, d: Disk, bs: seq<int>, cs: seq<Block>, e: Disk)
    requires |bs| == |cs|
  {
    && |d| == |e|
    && (forall i :: 0 <= i < |bs| && 0 <= bs[i] < |e| ==> e[bs[i]] == cs[i])
    && (forall b :: 0 <= b < |d| && !l.InLog(b) && b !in bs ==> e[b] == d[b])
  }

  // ---------------------------------------------------------------- lemmas about Apply

  lemma {:induction false} ApplyLength(d: Disk, ws: seq<Write>)
    ensures |Apply(d, ws)| == |d|
  {
    if ws != [] { ApplyLength(d, ws[..|ws| - 1]); }
  }

  lemma {:induction false} ApplyConcat(d: Disk, a: seq<Write>, b: seq<Write>)
    ensures Apply(d, a + b) == Apply(Apply(d, a), b)
  {
    if b == [] {
      assert a + b == a;
    } else {
      var n := |a + b| - 1;
      assert (a + b)[..n] == a + b[..|b| - 1];
      ApplyConcat(d, a, b[..|b| - 1]);
    }
  }

  lemma {:induction false} ApplyUntouched(d: Disk, ws: seq<Write>, b: nat)
    requires b < |d| && forall i :: 0 <= i < |ws| ==> ws[i].block != b
    ensures |Apply(d, ws)| == |d| && Apply(d, ws)[b] == d[b]
  {
    ApplyLength(d, ws);
    if ws != [] {
      ApplyLength(d, ws[..|ws| - 1]);
      ApplyUntouched(d, ws[..|ws| - 1], b);
    }
  }

  /** Writes to distinct blocks each keep their effect to the end. */
  lemma {:induction false} ApplyDistinct(d: Disk, ws: seq<Write>, i: nat)
    requires forall j, k :: 0 <= j < k < |ws| ==> ws[j].block != ws[k].block
    requires i < |ws| && ws[i].block < |d|
    ensures |Apply(d, ws)| == |d| && Apply(d, ws)[ws[i].block] == ws[i].data
  {
    var p, q := ws[..i + 1], ws[i + 1..];
    assert ws == p + q && p[..i] == ws[..i];
    ApplyConcat(d, p, q);
    ApplyLength(d, p[..i]);
    ApplyLength(d, p);
    ApplyUntouched(Apply(d, p), q, ws[i].block);
  }

  // ------------------------------------------------------------- one commit or recovery

  /** After the first j home writes, exactly the first j addresses carry their new contents. */
  lemma HomePrefix(l: Layout, d: Disk, bs: seq<int>, cs: seq<Block>, j: nat)
    requires HomeAddresses(l, |d|, bs) && |bs| == |cs| && j <= |bs|
    ensures var e := Apply(d, HomeWrites(bs, cs)[..j]);
            && |e| == |d|
            && (forall i :: 0 <= i < j ==> e[bs[i]] == cs[i])
            && (forall b :: 0 <= b < |d| && b !in bs[..j] ==> e[b] == d[b])
  {
    var ws := HomeWrites(bs, cs)[..j];
    ApplyLength(d, ws);
    forall i | 0 <= i < j ensures Apply(d, ws)[bs[i]] == cs[i] {
      ApplyDistinct(d, ws, i);
    }
    forall b | 0 <= b < |d| && b !in bs[..j] ensures Apply(d, ws)[b] == d[b] {
      forall i | 0 <= i < |ws| ensures ws[i].block != b {
        assert bs[..j][i] == bs[i];
      }
      ApplyUntouched(d, ws, b);
    }
  }

  lemma LogPrefix(l: Layout, d: Disk, cs: seq<Block>, j: nat)
    requires l.Fits(|d|) && |cs| <= l.size - 1 && j <= |cs|
    ensures var e := Apply(d, LogWrites(l, cs)[..j]);
            && |e| == |d|
            && (forall i :: 0 <= i < j ==> e[l.start + 1 + i] == cs[i])
            && (forall b :: 0 <= b < |d| && !(l.start < b <= l.start + j) ==> e[b] == d[b])
  {
    var ws := LogWrites(l, cs)[..j];
    ApplyLength(d, ws);
    forall i | 0 <= i < j ensures Apply(d, ws)[l.start + 1 + i] == cs[i] {
      ApplyDistinct(d, ws, i);
    }
    forall b | 0 <= b < |d| && !(l.start < b <= l.start + j) ensures Apply(d, ws)[b] == d[b] {
      ApplyUntouched(d, ws, b);
    }
  }

  lemma SetHeadBlocks(h: Block, bs: seq<int>)
    requires |bs| <= LOGSIZE
    ensures SetHead(h, bs)[0] == |bs| && HeadBlocks(SetHead(h, bs)) == bs
  {
  }

  /** Recovery installs exactly what the header lists and leaves an empty log. */
  lemma RecoverInstalls(l: Layout, d: Disk)
    requires l.Fits(|d|) && HeadOk(l, |d|, d[l.start])
    ensures var r, h := Recover(l, d), d[l.start];
            && Installed(l, d, HeadBlocks(h), LogContents(l, d, h[0]), r)
            && r[l.start][0] == 0
  {
    var h := d[l.start];
    var bs, cs := HeadBlocks(h), LogContents(l, d, h[0]);
    HomePrefix(l, d, bs, cs, |bs|);
    var ws := HomeWrites(bs, cs);
    assert ws[..|bs|] == ws && bs[..|bs|] == bs;
    assert RecoverWrites(l, d)[..|ws|] == ws;
    assert Recover(l, d) == Put(Apply(d, ws), Write(l.start, SetHead(h, [])));
  }

  lemma RecoverIsApply(l: Layout, d: Disk)
    requires l.Fits(|d|) && HeadOk(l, |d|, d[l.start])
    ensures Recover(l, d) == Apply(d, RecoverWrites(l, d))
  {
  }

  lemma RecoverCutMidway(l: Layout, d: Disk, k: nat)
    requires l.Fits(|d|) && HeadOk(l, |d|, d[l.start])
    requires k <= |HeadBlocks(d[l.start])|
    ensures var e := Apply(d, RecoverWrites(l, d)[..k]);
            && |e| == |d| && e[l.start] == d[l.start]
            && LogContents(l, e, e[l.start][0]) == LogContents(l, d, d[l.start][0])
            && (forall b :: 0 <= b < |d| && b !in HeadBlocks(d[l.start]) ==> e[b] == d[b])
  {
    var h := d[l.start];
    var bs, cs := HeadBlocks(h), LogContents(l, d, h[0]);
    var e := Apply(d, RecoverWrites(l, d)[..k]);
    assert RecoverWrites(l, d)[..k] == HomeWrites(bs, cs)[..k];
    HomePrefix(l, d, bs, cs, k);
    forall b | 0 <= b < |d| && (b !in bs || l.InLog(b)) ensures e[b] == d[b] {
      assert b !in bs[..k];
    }
  }

  /**
   A crash inside recovery is harmless: recovering again gives the same home blocks,
   whichever prefix of the recovery's own writes had reached the disk.
   */
  lemma RecoverAfterCrash(l: Layout, d: Disk, k: nat)
    requires l.Fits(|d|) && HeadOk(l, |d|, d[l.start])
    requires k <= |RecoverWrites(l, d)|
    ensures var e := Apply(d, RecoverWrites(l, d)[..k]);
            && |e| == |d| && HeadOk(l, |e|, e[l.start])
            && SameHome(l, Recover(l, e), Recover(l, d))
  {
    hide Apply, RecoverWrites, Recover, LogContents;
    var e := Apply(d, RecoverWrites(l, d)[..k]);
    RecoverInstalls(l, d);
    if k < |RecoverWrites(l, d)| {
      RecoverCutMidway(l, d, k);
      RecoverInstalls(l, e);
      InstalledTwice(l, d, e, HeadBlocks(d[l.start]), LogContents(l, d, d[l.start][0]), Recover(l, d), Recover(l, e));
    } else {
      assert RecoverWrites(l, d)[..k] == RecoverWrites(l, d);
      RecoverIsApply(l, d);
      RecoverEmpty(l, e);
    }
  }

  /** Installing the same blocks over two disks that agree elsewhere gives the same home blocks. */
  lemma InstalledTwice(l: Layout, d: Disk, e: Disk, bs: seq<int>, cs: seq<Block>, d': Disk, e': Disk)
    requires |bs| == |cs| && |d| == |e|
    requires Installed(l, d, bs, cs, d') && Installed(l, e, bs, cs, e')
    requires forall b :: 0 <= b < |d| && !l.InLog(b) && b !in bs ==> e[b] == d[b]
    ensures SameHome(l, e', d')
  {
    forall b | 0 <= b < |d| && !l.InLog(b) ensures e'[b] == d'[b] {
      if b in bs {
        var i :| 0 <= i < |bs| && bs[i] == b;
      }
    }
  }

  /** Recovery attempted |ks| times, the i-th attempt cut short after ks[i] block writes. */
  ghost function CrashingRecovery(l: Layout, d: Disk, ks: seq<nat>): (e: Disk)
    requires l.Fits(|d|) && HeadOk(l, |d|, d[l.start])
    ensures |e| == |d| && HeadOk(l, |e|, e[l.start])
    decreases |ks|
  {
    if ks == [] then d else
      var rw := RecoverWrites(l, d);
      var k := if ks[0] <= |rw| then ks[0] else |rw|;
      RecoverAfterCrash(l, d, k);
      CrashingRecovery(l, Apply(d, rw[..k]), ks[1..])
  }

  /** Any number of crashes during recovery never changes what a completed recovery leaves. */
  lemma {:induction false} RecoveryIsIdempotent(l: Layout, d: Disk, ks: seq<nat>)
    requires l.Fits(|d|) && HeadOk(l, |d|, d[l.start])
    ensures SameHome(l, Recover(l, CrashingRecovery(l, d, ks)), Recover(l, d))
    decreases |ks|
  {
    RecoverInstalls(l, d);
    if ks != [] {
      var rw := RecoverWrites(l, d);
      var k := if ks[0] <= |rw| then ks[0] else |rw|;
      RecoverAfterCrash(l, d, k);
      RecoveryIsIdempotent(l, Apply(d, rw[..k]), ks[1..]);
    }
  }

  /**
   What is on the disk when `commit` is cut after k of its block writes: the header write,
   at position |bs|, is the commit point.
   */
  lemma CommitPrefix(l: Layout, d: Disk, bs: seq<int>, cs: seq<Block>, k: nat)
    requires l.Fits(|d|) && d[l.start][0] == 0
    requires HomeAddresses(l, |d|, bs) && |bs| == |cs|
    requires k <= |CommitWrites(l, d[l.start], bs, cs)|
    ensures var e := Apply(d, CommitWrites(l, d[l.start], bs, cs)[..k]);
            && |e| == |d| && HeadOk(l, |e|, e[l.start])
            && (k <= |bs| ==> SameHome(l, e, d) && SameHome(l, Recover(l, e), d))
            && (k > |bs| ==> Installed(l, d, bs, cs, Recover(l, e)))
            && (|bs| < k <= 2 * |bs| + 1 ==>
                  && e[l.start] == SetHead(d[l.start], bs)
                  && (forall b :: 0 <= b < |d| && !l.InLog(b) && b !in bs[..k - |bs| - 1] ==> e[b] == d[b])
                  && (forall i :: 0 <= i < k - |bs| - 1 ==> e[bs[i]] == cs[i]))
            && (k == 2 * |bs| + 2 ==> Installed(l, d, bs, cs, e) && e[l.start][0] == 0)
  {
    var m, h := |bs|, d[l.start];
    if m == 0 {
      assert CommitWrites(l, h, bs, cs)[..k] == [];
      RecoverInstalls(l, d);
    } else if k <= m {
      CommitBeforeHeader(l, d, bs, cs, k);
    } else if k <= 2 * m + 1 {
      CommitAfterHeader(l, d, bs, cs, k);
    } else {
      assert CommitWrites(l, h, bs, cs)[..k] == CommitWrites(l, h, bs, cs);
      CommitComplete(l, d, bs, cs);
      var e := Apply(d, CommitWrites(l, h, bs, cs));
      RecoverEmpty(l, e);
      InstalledSame(l, d, bs, cs, e, Recover(l, e));
    }
  }

  lemma CommitBeforeHeader(l: Layout, d: Disk, bs: seq<int>, cs: seq<Block>, k: nat)
    requires l.Fits(|d|) && d[l.start][0] == 0
    requires HomeAddresses(l, |d|, bs) && 0 < |bs| == |cs| && k <= |bs|
    ensures var e := Apply(d, CommitWrites(l, d[l.start], bs, cs)[..k]);
            && |e| == |d| && HeadOk(l, |e|, e[l.start])
            && SameHome(l, e, d) && SameHome(l, Recover(l, e), d)
  {
    var ws := CommitWrites(l, d[l.start], bs, cs);
    assert ws[..k] == LogWrites(l, cs)[..k];
    LogPrefix(l, d, cs, k);
    RecoverInstalls(l, Apply(d, ws[..k]));
  }

  /** A commit's writes, grouped: all log copies, then the header, then home writes. */
  lemma CommitPhases(l: Layout, d: Disk, bs: seq<int>, cs: seq<Block>, j: nat)
    requires l.Fits(|d|)
    requires HomeAddresses(l, |d|, bs) && 0 < |bs| == |cs| && j <= |bs|
    ensures var logged := Put(Apply(d, LogWrites(l, cs)), Write(l.start, SetHead(d[l.start], bs)));
            Apply(d, CommitWrites(l, d[l.start], bs, cs)[..|bs| + 1 + j]) ==
            Apply(logged, HomeWrites(bs, cs)[..j])
  {
    var h := d[l.start];
    var lw, hw := LogWrites(l, cs), HomeWrites(bs, cs);
    var head := [Write(l.start, SetHead(h, bs))];
    assert CommitWrites(l, h, bs, cs)[..|bs| + 1 + j] == (lw + head) + hw[..j];
    ApplyConcat(d, lw + head, hw[..j]);
    assert (lw + head)[..|lw + head| - 1] == lw;
  }

  lemma InstallOverLog(l: Layout, d: Disk, logged: Disk, bs: seq<int>, cs: seq<Block>, j: nat)
    requires l.Fits(|d|) && |logged| == |d|
    requires HomeAddresses(l, |d|, bs) && |bs| == |cs| && j <= |bs|
    requires LogContents(l, logged, |bs|) == cs
    requires SameHome(l, logged, d)
    ensures var e := Apply(logged, HomeWrites(bs, cs)[..j]);
            && |e| == |d| && e[l.start] == logged[l.start]
            && LogContents(l, e, |bs|) == cs
            && (forall b :: 0 <= b < |d| && !l.InLog(b) && b !in bs[..j] ==> e[b] == d[b])
            && (forall i :: 0 <= i < j ==> e[bs[i]] == cs[i])
  {
    HomePrefix(l, logged, bs, cs, j);
    var e := Apply(logged, HomeWrites(bs, cs)[..j]);
    forall b | 0 <= b < |d| && l.InLog(b) ensures e[b] == logged[b] {
      assert b !in bs[..j];
    }
    forall i | 0 <= i < |bs| ensures e[l.start + 1 + i] == cs[i] {
      assert l.InLog(l.start + 1 + i) && LogContents(l, logged, |bs|)[i] == logged[l.start + 1 + i];
    }
    assert LogContents(l, e, |bs|) == cs;
  }

  /** The disk once the header and the first j home writes of a commit have reached it. */
  lemma CommitInstalling(l: Layout, d: Disk, bs: seq<int>, cs: seq<Block>, j: nat)
    requires l.Fits(|d|)
    requires HomeAddresses(l, |d|, bs) && 0 < |bs| == |cs| && j <= |bs|
    ensures var e := Apply(d, CommitWrites(l, d[l.start], bs, cs)[..|bs| + 1 + j]);
            && |e| == |d| && e[l.start] == SetHead(d[l.start], bs)
            && LogContents(l, e, |bs|) == cs
            && (forall b :: 0 <= b < |d| && !l.InLog(b) && b !in bs[..j] ==> e[b] == d[b])
            && (forall i :: 0 <= i < j ==> e[bs[i]] == cs[i])
  {
    CommitPhases(l, d, bs, cs, j);
    var copied := Apply(d, LogWrites(l, cs));
    var logged := Put(copied, Write(l.start, SetHead(d[l.start], bs)));
    assert LogContents(l, logged, |bs|) == cs && SameHome(l, logged, d) by {
      LogPrefix(l, d, cs, |cs|);
      assert LogWrites(l, cs)[..|cs|] == LogWrites(l, cs);
    }
    InstallOverLog(l, d, logged, bs, cs, j);
  }

  lemma CommitAfterHeader(l: Layout, d: Disk, bs: seq<int>, cs: seq<Block>, k: nat)
    requires l.Fits(|d|)
    requires HomeAddresses(l, |d|, bs) && 0 < |bs| == |cs| && |bs| < k <= 2 * |bs| + 1
    ensures var e := Apply(d, CommitWrites(l, d[l.start], bs, cs)[..k]);
            && |e| == |d| && HeadOk(l, |e|, e[l.start])
            && Installed(l, d, bs, cs, Recover(l, e))
            && e[l.start] == SetHead(d[l.start], bs)
            && (forall b :: 0 <= b < |d| && !l.InLog(b) && b !in bs[..k - |bs| - 1] ==> e[b] == d[b])
            && (forall i :: 0 <= i < k - |bs| - 1 ==> e[bs[i]] == cs[i])
  {
    hide Apply, CommitWrites, SetHead;
    var e := Apply(d, CommitWrites(l, d[l.start], bs, cs)[..k]);
    var j := k - |bs| - 1;
    CommitInstalling(l, d, bs, cs, j);
    SetHeadBlocks(d[l.start], bs);
    RecoverInstalls(l, e);
    forall b | 0 <= b < |d| && !l.InLog(b) && b !in bs ensures Recover(l, e)[b] == d[b] {
      assert b !in bs[..j];
    }
  }

  lemma CommitComplete(l: Layout, d: Disk, bs: seq<int>, cs: seq<Block>)
    requires l.Fits(|d|)
    requires HomeAddresses(l, |d|, bs) && 0 < |bs| == |cs|
    ensures var e := Apply(d, CommitWrites(l, d[l.start], bs, cs));
            && |e| == |d| && Installed(l, d, bs, cs, e) && e[l.start][0] == 0
  {
    var m, h := |bs|, d[l.start];
    var ws := CommitWrites(l, h, bs, cs);
    CommitInstalling(l, d, bs, cs, m);
    assert ws[..|ws| - 1] == ws[..m + 1 + m];
    assert bs[..m] == bs;
    SetHeadBlocks(SetHead(h, bs), []);
  }

  /** Recovery on an empty log leaves the home blocks alone. */
  lemma RecoverEmpty(l: Layout, d: Disk)
    requires l.Fits(|d|) && d[l.start][0] == 0
    ensures HeadOk(l, |d|, d[l.start]) && SameHome(l, Recover(l, d), d)
  {
    RecoverInstalls(l, d);
    assert HeadBlocks(d[l.start]) == [];
  }

  lemma InstalledSame(l: Layout, d: Disk, bs: seq<int>, cs: seq<Block>, e: Disk, f: Disk)
    requires HomeAddresses(l, |d|, bs) && |bs| == |cs|
    requires Installed(l, d, bs, cs, e) && SameHome(l, f, e)
    ensures Installed(l, d, bs, cs, f)
  {
  }

  /** The disk when `commit` is cut after k of its block writes. */
  ghost function CutCommit(l: Layout, d: Disk, bs: seq<int>, cs: seq<Block>, k: nat): (e: Disk)
    requires l.Fits(|d|) && d[l.start][0] == 0
    requires HomeAddresses(l, |d|, bs) && |bs| == |cs|
    requires k <= |CommitWrites(l, d[l.start], bs, cs)|
    ensures |e| == |d| && HeadOk(l, |e|, e[l.start])
  {
    CommitPrefix(l, d, bs, cs, k);
    Apply(d, CommitWrites(l, d[l.start], bs, cs)[..k])
  }

  /**
   Crash atomicity. Cut `commit` after any k of its block writes, then cut recovery any number
   of times: a recovery that completes leaves every home block old (the header write had not
   reached the disk) or every home block new (it had), and an empty log.
   */
  lemma CrashAtomicity(l: Layout, d: Disk, bs: seq<int>, cs: seq<Block>, k: nat, ks: seq<nat>)
    requires l.Fits(|d|) && d[l.start][0] == 0
    requires HomeAddresses(l, |d|, bs) && |bs| == |cs|
    requires k <= |CommitWrites(l, d[l.start], bs, cs)|
    ensures var r := Recover(l, CrashingRecovery(l, CutCommit(l, d, bs, cs, k), ks));
            && r[l.start][0] == 0
            && (k <= |bs| ==> SameHome(l, r, d))
            && (k > |bs| ==> Installed(l, d, bs, cs, r))
  {
    CommitPrefix(l, d, bs, cs, k);
    var e := CutCommit(l, d, bs, cs, k);
    RecoveryIsIdempotent(l, e, ks);
    RecoverInstalls(l, CrashingRecovery(l, e, ks));
    if k > |bs| {
      InstalledSame(l, d, bs, cs, Recover(l, e), Recover(l, CrashingRecovery(l, e, ks)));
    }
  }
}
