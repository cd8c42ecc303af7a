/**
 mkfs (mkfs/mkfs.c): the image it builds is a file system in the sense of FsModel, with the
 files it was given as contents.

 Blocks are handed out in order; `freeblock` is the next one. What the program dies of — an
 image that is too small, a file that is too long — ends the methods with ok false.
 */
module Mkfs {
  import opened Common
  import L = LogDisk
  import opened Bytes
  import opened FsModel
  import opened FileContents
  import opened FileSystem

  const FSSIZE: nat := 2000
  const NINODES: nat := 200
  const NBITMAP: nat := FSSIZE / BPB + 1
  const NINODEBLOCKS: nat := NINODES / IPB + 1
  const NMETA: nat := 2 + L.LOGSIZE + NINODEBLOCKS + NBITMAP
  const SB: Super := Super(FSSIZE, 2 + L.LOGSIZE + NINODEBLOCKS, 2 + L.LOGSIZE, NMETA)

  /** The image under construction, and who holds each block handed out. */
  datatype Img = Img(fs: Fs, owner: map<nat, Slot>, free: nat)

  /** The blocks handed out are exactly those held, each once, and the rest are still zero. */
  ghost predicate Layout(m: Img) {
    && Shaped(SB, m.fs) && |m.fs.inodes| == NINODES && Links(SB, m.fs, m.owner) && NMETA <= m.free <= FSSIZE
    && (forall b: nat :: b in m.owner <==> NMETA <= b < m.free)
    && (forall b: nat :: m.free <= b < FSSIZE ==> m.fs.disk[b] == Zero())
  }

  /** No block of the file lies at or behind `end`, and there is no indirect block unless it is needed. */
  ghost predicate NoMore(fs: Fs, i: nat, end: nat)
    requires Shaped(SB, fs) && i < |fs.inodes|
  {
    && (forall bn: nat :: bn < MAXFILE && Addr(SB, fs, DataSlot(i, bn)) != 0 ==> bn * BSIZE < end)
    && (fs.inodes[i].addrs[NDIRECT] != 0 ==> NDIRECT * BSIZE < end)
  }

  /** An inode has a block for all of its size, no other, and nothing but zeroes behind its size. */
  ghost predicate Clean(fs: Fs, i: nat)
    requires Shaped(SB, fs) && i < |fs.inodes|
  {
    && fs.inodes[i].size <= MAXBYTES && HoleFree(SB, fs, i) && NoMore(fs, i, fs.inodes[i].size)
    && forall off: nat :: fs.inodes[i].size <= off < MAXBYTES ==> FlatByte(SB, fs, i, off) == 0
  }

  ghost predicate Building(m: Img) {
    Layout(m) && forall i: nat :: i < NINODES ==> Clean(m.fs, i)
  }

  // -------------------------------------------------------------------------- block by block

  /** Nothing but file block bn of inode inum, and its indirect block, has been handed out. */
  ghost predicate OnlyBlock(f: Fs, g: Fs, inum: nat, bn: nat)
    requires Shaped(SB, f) && Shaped(SB, g)
  {
    && |f.inodes| == |g.inodes|
    && forall x: Slot :: IsSlot(f, x) && x != DataSlot(inum, bn) && (bn < NDIRECT || x != Slot(inum, NDIRECT)) ==>
         Addr(SB, g, x) == Addr(SB, f, x)
  }

  /** A block may have been handed out for file block bn of inode inum; no file has changed. */
  ghost predicate Fetched(m: Img, n: Img, inum: nat, bn: nat) {
    && Layout(m) && Layout(n) && inum < NINODES && OnlyBlock(m.fs, n.fs, inum, bn)
    && Grows(SB, m.fs, n.fs) && SameFiles(SB, m.fs, n.fs) && OthersKept(m.fs.inodes, n.fs.inodes, inum)
  }

  lemma FetchedNothing(m: Img, inum: nat, bn: nat)
    requires Layout(m) && inum < NINODES
    ensures Fetched(m, m, inum, bn)
  {
  }

  lemma FetchedTwice(m: Img, k: Img, n: Img, inum: nat, bn: nat)
    requires Fetched(m, k, inum, bn) && Fetched(k, n, inum, bn)
    ensures Fetched(m, n, inum, bn)
  {
    hide Layout;
    LayoutShaped(m);
    LayoutShaped(k);
    LayoutShaped(n);
    GrowsTwice(SB, m.fs, k.fs, n.fs);
    SameFilesTwice(SB, m.fs, k.fs, n.fs);
  }

  lemma LayoutShaped(m: Img)
    requires Layout(m)
    ensures Shaped(SB, m.fs) && |m.fs.inodes| == NINODES && NMETA <= m.free <= FSSIZE == |m.fs.disk|
  {
  }

  /** The next block in a slot of the inode itself. */
  function SlotTaken(m: Img, inum: nat, k: nat): Img
    requires inum < |m.fs.inodes| && k < |m.fs.inodes[inum].addrs|
  {
    var ip := m.fs.inodes[inum];
    Img(m.fs.(inodes := m.fs.inodes[inum := ip.(addrs := ip.addrs[k := m.free])]), m.owner[m.free := Slot(inum, k)],
        m.free + 1)
  }

  lemma SlotTakenKeeps(m: Img, inum: nat, k: nat, bn: nat)
    requires k == (if bn < NDIRECT then bn else NDIRECT) && bn < MAXFILE
    requires Layout(m) && m.free < FSSIZE && inum < NINODES && k <= NDIRECT && m.fs.inodes[inum].addrs[k] == 0
    ensures Fetched(m, SlotTaken(m, inum, k), inum, bn)
    ensures Addr(SB, SlotTaken(m, inum, k).fs, Slot(inum, k)) == m.free
    ensures SameSlotsBut(SB, m.fs, SlotTaken(m, inum, k).fs, Slot(inum, k))
  {
    var n, x := SlotTaken(m, inum, k), Slot(inum, k);
    LinkInode(SB, m.fs, m.owner, inum, k, m.free);
    assert IsSlot(m.fs, x) && Addr(SB, m.fs, x) == 0;
    hide Addr, FileBlock, Links, InodeAddr;
    TakenLayout(m, n, x);
    GrowsByOne(SB, m.fs, m.fs, n.fs, x);
  }

  lemma TakenLayout(m: Img, n: Img, x: Slot)
    requires Layout(m) && m.free < FSSIZE && n.owner == m.owner[m.free := x] && n.free == m.free + 1
    requires Shaped(SB, n.fs) && |n.fs.inodes| == NINODES && Links(SB, n.fs, n.owner)
    requires forall b: nat :: m.free <= b < FSSIZE ==> n.fs.disk[b] == m.fs.disk[b]
    ensures Layout(n)
  {
    hide Links;
  }

  /** The next block in an entry of the inode's indirect block. */
  function EntryTaken(m: Img, x: nat, j: nat, inum: nat): Img
    requires x < |m.fs.disk| && j < NINDIRECT && m.free < UINT
  {
    Img(m.fs.(disk := m.fs.disk[x := PutWord(m.fs.disk[x], j, m.free)]),
        m.owner[m.free := Slot(inum, NDIRECT + 1 + j)], m.free + 1)
  }

  lemma EntryTakenKeeps(m: Img, inum: nat, j: nat)
    requires Layout(m) && m.free < FSSIZE && inum < NINODES && j < NINDIRECT
    requires m.fs.inodes[inum].addrs[NDIRECT] != 0 && Addr(SB, m.fs, Slot(inum, NDIRECT + 1 + j)) == 0
    ensures Fetched(m, EntryTaken(m, m.fs.inodes[inum].addrs[NDIRECT], j, inum), inum, NDIRECT + j)
    ensures Addr(SB, EntryTaken(m, m.fs.inodes[inum].addrs[NDIRECT], j, inum).fs, Slot(inum, NDIRECT + 1 + j)) == m.free
  {
    var x, y := m.fs.inodes[inum].addrs[NDIRECT], Slot(inum, NDIRECT + 1 + j);
    var n := EntryTaken(m, x, j, inum);
    LinkEntry(SB, m.fs, m.owner, inum, j, m.free);
    IndirectThere(m, inum);
    assert IsSlot(m.fs, y);
    hide Addr, FileBlock, Links, InodeAddr, PutWord;
    TakenLayout(m, n, y);
    GrowsByOne(SB, m.fs, m.fs, n.fs, y);
  }

  lemma IndirectThere(m: Img, inum: nat)
    requires Layout(m) && inum < NINODES && m.fs.inodes[inum].addrs[NDIRECT] != 0
    ensures NMETA <= m.fs.inodes[inum].addrs[NDIRECT] < m.free
  {
    assert IsSlot(m.fs, Slot(inum, NDIRECT)) && Addr(SB, m.fs, Slot(inum, NDIRECT)) in m.owner;
  }

  /** Data stored in a block that a file holds: that file block changes and nothing else. */
  lemma StoreLayout(m: Img, inum: nat, bn: nat, data: Block)
    requires Layout(m) && inum < NINODES && bn < MAXFILE && Addr(SB, m.fs, DataSlot(inum, bn)) != 0
    ensures var a := Addr(SB, m.fs, DataSlot(inum, bn));
            && a < FSSIZE
            && (var n := m.(fs := m.fs.(disk := m.fs.disk[a := data]));
                && Layout(n) && SameSlots(SB, m.fs, n.fs) && Grows(SB, m.fs, n.fs)
                && FileBlock(SB, n.fs, inum, bn) == data
                && (forall i: nat, c: nat :: i < NINODES && c < MAXFILE && !(i == inum && c == bn) ==>
                      FileBlock(SB, n.fs, i, c) == FileBlock(SB, m.fs, i, c)))
  {
    var a := Addr(SB, m.fs, DataSlot(inum, bn));
    assert IsSlot(m.fs, DataSlot(inum, bn));
    assert a in m.owner;
    DiskChange(SB, m.fs, m.owner, a, data);
    DataChange(SB, m.fs, m.owner, a, data);
  }

  /** Bytes copied into block a from offset o. */
  function Patched(m: Img, a: nat, o: nat, bytes: seq<Byte>): Img {
    if a < |m.fs.disk| && o + |bytes| <= BSIZE then m.(fs := m.fs.(disk := m.fs.disk[a := Spliced(m.fs.disk[a], o,
        bytes)])) else m
  }

  /** iappend under way: the first tot bytes of data are behind the old contents. */
  ghost predicate Appending(s: Img, m: Img, inum: nat, data: seq<Byte>, tot: nat) {
    && Building(s) && Layout(m) && inum < NINODES && Writing(SB, s.fs, m.fs, inum, s.fs.inodes[inum].size, data, tot)
    && NoMore(m.fs, inum, s.fs.inodes[inum].size + tot) && OtherSlots(s.fs, m.fs, inum)
  }

  ghost predicate OtherSlots(f: Fs, g: Fs, inum: nat)
    requires Shaped(SB, f) && Shaped(SB, g)
  {
    |f.inodes| == |g.inodes| && forall x: Slot :: IsSlot(f, x) && x.inum != inum ==> Addr(SB, g, x) == Addr(SB, f, x)
  }

  lemma AppendingBounds(s: Img, m: Img, inum: nat, data: seq<Byte>, tot: nat)
    requires Appending(s, m, inum, data, tot)
    ensures Layout(m) && Shaped(SB, s.fs) && Shaped(SB, m.fs) && inum < NINODES == |m.fs.inodes| == |s.fs.inodes|
    ensures tot <= |data| && s.fs.inodes[inum].size + |data| <= MAXBYTES
    ensures m.fs.inodes[inum].size == s.fs.inodes[inum].size
  {
  }

  lemma AppendingStarts(s: Img, inum: nat, data: seq<Byte>)
    requires Building(s) && inum < NINODES && s.fs.inodes[inum].size + |data| <= MAXBYTES
    ensures Appending(s, s, inum, data, 0)
  {
    assert Clean(s.fs, inum);
    hide Addr, Writing, Links, Flat, HoleFree, FlatByte;
    WritingStarts(SB, s.fs, inum, s.fs.inodes[inum].size, data);
  }

  lemma OtherSlotsTwice(f: Fs, h: Fs, g: Fs, inum: nat)
    requires Shaped(SB, f) && Shaped(SB, h) && Shaped(SB, g) && OtherSlots(f, h, inum) && OtherSlots(h, g, inum)
    ensures OtherSlots(f, g, inum)
  {
    forall x: Slot | IsSlot(f, x) && x.inum != inum ensures Addr(SB, g, x) == Addr(SB, f, x) {
      assert IsSlot(h, x);
    }
  }

  lemma OnlyBlockOthers(f: Fs, g: Fs, inum: nat, bn: nat)
    requires Shaped(SB, f) && Shaped(SB, g) && OnlyBlock(f, g, inum, bn)
    ensures OtherSlots(f, g, inum)
    ensures forall c: nat :: inum < |f.inodes| && c < MAXFILE && c != bn ==>
            Addr(SB, g, DataSlot(inum, c)) == Addr(SB, f, DataSlot(inum, c))
  {
    forall c: nat | inum < |f.inodes| && c < MAXFILE
        && c != bn ensures Addr(SB, g, DataSlot(inum, c)) == Addr(SB, f, DataSlot(inum, c)) {
      assert IsSlot(f, DataSlot(inum, c));
    }
  }

  /** A write whose next chunk has its block: no further block is taken. */
  ghost predicate Fetching(s: Img, m: Img, inum: nat, data: seq<Byte>, tot: nat) {
    && Building(s) && Layout(m) && inum < NINODES && Writing(SB, s.fs, m.fs, inum, s.fs.inodes[inum].size, data, tot)
    && NoMore(m.fs, inum, s.fs.inodes[inum].size + tot + 1) && OtherSlots(s.fs, m.fs, inum)
  }

  lemma AppendingFetched(s: Img, m: Img, n: Img, inum: nat, data: seq<Byte>, tot: nat)
    requires Appending(s, m, inum, data, tot) && Fetched(m, n, inum, (s.fs.inodes[inum].size + tot) / BSIZE)
    ensures Fetching(s, n, inum, data, tot)
  {
    hide Layout, Writing, Building, Addr, OtherSlots, Grows, SameFiles, OthersKept, OnlyBlock;
    AppendingBounds(s, m, inum, data, tot);
    LayoutShaped(n);
    var off := s.fs.inodes[inum].size;
    WritingMapped(SB, s.fs, m.fs, n.fs, inum, off, data, tot);
    OnlyBlockOthers(m.fs, n.fs, inum, (off + tot) / BSIZE);
    OtherSlotsTwice(s.fs, m.fs, n.fs, inum);
    forall bn: nat | bn < MAXFILE && Addr(SB, n.fs, DataSlot(inum, bn)) != 0 ensures bn * BSIZE < off + tot + 1 {
    }
    IndirectSame(m.fs, n.fs, inum, (off + tot) / BSIZE);
  }

  lemma IndirectSame(f: Fs, g: Fs, inum: nat, bn: nat)
    requires Shaped(SB, f) && Shaped(SB, g) && OnlyBlock(f, g, inum, bn) && inum < |f.inodes|
    ensures bn < NDIRECT ==> g.inodes[inum].addrs[NDIRECT] == f.inodes[inum].addrs[NDIRECT]
  {
    assert IsSlot(f, Slot(inum, NDIRECT));
  }

  lemma AppendingStored(s: Img, m: Img, inum: nat, data: seq<Byte>, tot: nat, k: nat)
    requires Fetching(s, m, inum, data, tot) && 0 < k && tot + k <= |data|
    requires var off := s.fs.inodes[inum].size; off + tot < MAXBYTES && (off + tot) % BSIZE + k <= BSIZE
                                                && Addr(SB, m.fs, DataSlot(inum, (off + tot) / BSIZE)) != 0
    ensures var off := s.fs.inodes[inum].size;
            var a := Addr(SB, m.fs, DataSlot(inum, (off + tot) / BSIZE));
            a < FSSIZE && Appending(s, Patched(m, a, (off + tot) % BSIZE, data[tot..tot + k]), inum, data, tot + k)
  {
    hide Building, Layout, Addr, Flat, Spliced, Covered, OthersSame, OtherSlots;
    LayoutShaped(m);
    BuildingLayout(s);
    LayoutShaped(s);
    var off := s.fs.inodes[inum].size;
    var bn, o := (off + tot) / BSIZE, (off + tot) % BSIZE;
    var a := Addr(SB, m.fs, DataSlot(inum, bn));
    BlockThere(m, inum, bn);
    var patched: Block := Spliced(m.fs.disk[a], o, data[tot..tot + k]);
    StoreLayout(m, inum, bn, patched);
    var n := m.(fs := m.fs.(disk := m.fs.disk[a := patched]));
    LayoutShaped(n);
    GrowsTwice(SB, s.fs, m.fs, n.fs);
    OthersStored(m, n, inum, bn);
    OthersSameTwice(SB, s.fs, m.fs, n.fs, inum);
    CoveredGrows(SB, m.fs, n.fs, inum, off, tot, k);
    StoredFlat(SB, s.fs, m.fs, n.fs, inum, off, data, tot, k);
    SameMeansOthers(m.fs, n.fs, inum);
    OtherSlotsTwice(s.fs, m.fs, n.fs, inum);
    NoMoreSame(m.fs, n.fs, inum, off + tot + 1);
  }

  lemma SameMeansOthers(f: Fs, g: Fs, inum: nat)
    requires Shaped(SB, f) && Shaped(SB, g) && SameSlots(SB, f, g)
    ensures OtherSlots(f, g, inum)
  {
  }

  lemma NoMoreSame(f: Fs, g: Fs, i: nat, end: nat)
    requires Shaped(SB, f) && Shaped(SB, g) && SameSlots(SB, f, g) && i < |f.inodes| && NoMore(f, i, end)
    ensures NoMore(g, i, end)
  {
    assert IsSlot(f, Slot(i, NDIRECT));
    forall bn: nat | bn < MAXFILE && Addr(SB, g, DataSlot(i, bn)) != 0 ensures bn * BSIZE < end {
      assert IsSlot(f, DataSlot(i, bn));
    }
  }

  lemma BuildingLayout(s: Img)
    requires Building(s)
    ensures Layout(s)
  {
  }

  lemma BlockThere(m: Img, inum: nat, bn: nat)
    requires Layout(m) && inum < NINODES && bn < MAXFILE && Addr(SB, m.fs, DataSlot(inum, bn)) != 0
    ensures var a := Addr(SB, m.fs, DataSlot(inum, bn));
            a < FSSIZE == |m.fs.disk| && FileBlock(SB, m.fs, inum, bn) == m.fs.disk[a]
  {
    assert IsSlot(m.fs, DataSlot(inum, bn));
  }

  lemma OthersStored(m: Img, n: Img, inum: nat, bn: nat)
    requires Shaped(SB, m.fs) && Shaped(SB, n.fs) && n.fs.inodes == m.fs.inodes && |m.fs.inodes| == NINODES
    requires forall i: nat, c: nat :: i < NINODES && c < MAXFILE && !(i == inum && c == bn) ==>
               FileBlock(SB, n.fs, i, c) == FileBlock(SB, m.fs, i, c)
    ensures OthersSame(SB, m.fs, n.fs, inum)
  {
  }

  // ------------------------------------------------------------------------- how many blocks

  /** How many blocks a file of so many bytes takes, with its indirect block. */
  function BlocksFor(size: nat): nat {
    var n := (size + BSIZE - 1) / BSIZE;
    if n > NDIRECT then n + 1 else n
  }

  lemma MoreBlocks(a: nat, b: nat)
    requires a <= b
    ensures BlocksFor(a) <= BlocksFor(b)
  {
  }

  /** How many blocks are handed out for file block bn. */
  ghost function NewBlocks(fs: Fs, inum: nat, bn: nat): nat
    requires Shaped(SB, fs) && inum < |fs.inodes| && bn < MAXFILE
  {
    (if Addr(SB, fs, DataSlot(inum, bn)) == 0 then 1 else 0)
    + (if bn >= NDIRECT && fs.inodes[inum].addrs[NDIRECT] == 0 then 1 else 0)
  }

  /** iappend has a block for every byte it has stored. */
  lemma AllThere(s: Img, m: Img, inum: nat, data: seq<Byte>, tot: nat, bn: nat)
    requires Appending(s, m, inum, data, tot) && bn < MAXFILE && bn * BSIZE < s.fs.inodes[inum].size + tot
    ensures Shaped(SB, m.fs) && inum < |m.fs.inodes| && Addr(SB, m.fs, DataSlot(inum, bn)) != 0
  {
    hide Addr, Links, Flat, FlatByte, FileBlock, NoMore, OtherSlots;
    var off := s.fs.inodes[inum].size;
    assert Clean(s.fs, inum);
    assert IsSlot(s.fs, DataSlot(inum, bn));
    if bn * BSIZE >= off {
      assert off / BSIZE <= bn;
    }
  }

  lemma ChunkBlocks(s: Img, m: Img, inum: nat, data: seq<Byte>, tot: nat, k: nat)
    requires Appending(s, m, inum, data, tot) && 0 < k && tot + k <= |data|
    requires (s.fs.inodes[inum].size + tot) % BSIZE + k <= BSIZE
    ensures var p := s.fs.inodes[inum].size + tot;
            && p / BSIZE < MAXFILE && Shaped(SB, m.fs) && inum < |m.fs.inodes|
            && BlocksFor(p) + NewBlocks(m.fs, inum, p / BSIZE) == BlocksFor(p + k)
  {
    hide Appending, Addr;
    AppendingBounds(s, m, inum, data, tot);
    var p := s.fs.inodes[inum].size + tot;
    var bn := p / BSIZE;
    BlocksAround(p, k);
    EndOfFile(s, m, inum, data, tot);
    if p % BSIZE != 0 {
      AllThere(s, m, inum, data, tot, bn);
    }
    if p > NDIRECT * BSIZE {
      AllThere(s, m, inum, data, tot, NDIRECT);
      EntryNeedsIndirect(m.fs, inum);
    }
  }

  lemma EntryNeedsIndirect(fs: Fs, inum: nat)
    requires Shaped(SB, fs) && inum < |fs.inodes| && Addr(SB, fs, DataSlot(inum, NDIRECT)) != 0
    ensures fs.inodes[inum].addrs[NDIRECT] != 0
  {
  }

  lemma EndOfFile(s: Img, m: Img, inum: nat, data: seq<Byte>, tot: nat)
    requires Appending(s, m, inum, data, tot)
    ensures Shaped(SB, m.fs) && inum < |m.fs.inodes| && NoMore(m.fs, inum, s.fs.inodes[inum].size + tot)
  {
  }

  /** The block counts before and after a chunk inside one block. */
  lemma BlocksAround(p: nat, k: nat)
    requires 0 < k && p % BSIZE + k <= BSIZE
    ensures var bn, d := p / BSIZE, if p % BSIZE == 0 then p / BSIZE else p / BSIZE + 1;
            && BlocksFor(p) == (if d > NDIRECT then d + 1 else d)
            && BlocksFor(p + k) == (if bn + 1 > NDIRECT then bn + 2 else bn + 1)
            && p == bn * BSIZE + p % BSIZE
  {
    var bn, r := p / BSIZE, p % BSIZE;
    Common.Euclid(p, BSIZE);
    if r == 0 {
      Common.DivUnique(p + BSIZE - 1, BSIZE, bn, BSIZE - 1);
    } else {
      Common.DivUnique(p + BSIZE - 1, BSIZE, bn + 1, r - 1);
    }
    Common.DivUnique(p + k + BSIZE - 1, BSIZE, bn + 1, r + k - 1);
  }

  /** The size of an inode set, at the end of iappend and for the root. */
  function Resized(m: Img, inum: nat, size: nat): Img {
    if inum < |m.fs.inodes| then m.(fs := m.fs.(inodes := m.fs.inodes[inum := m.fs.inodes[inum].(size := size)])) else m
  }

  lemma ResizedKeeps(m: Img, inum: nat, size: nat)
    requires Layout(m) && inum < NINODES
    ensures var n := Resized(m, inum, size);
            && Layout(n) && SameSlots(SB, m.fs, n.fs) && SameFiles(SB, m.fs, n.fs) && OthersSame(SB, m.fs, n.fs, inum)
            && n.fs.inodes[inum].size == size
  {
    var n := Resized(m, inum, size);
    forall x: Slot | IsSlot(m.fs, x) ensures Addr(SB, n.fs, x) == Addr(SB, m.fs, x) { }
    assert Links(SB, n.fs, m.owner);
  }

  /** The contents of a file of the image. */
  ghost function File(fs: Fs, i: nat): seq<Byte> {
    if Shaped(SB, fs) && i < |fs.inodes| && fs.inodes[i].size <= MAXBYTES then Content(SB, fs, i) else []
  }

  /** iappend done: the file is its old contents and then data, and every other file is as it was. */
  ghost predicate Appended(s: Img, t: Img, inum: nat, data: seq<Byte>) {
    && Building(s) && Building(t) && inum < NINODES
    && File(t.fs, inum) == File(s.fs, inum) + data
    && forall i: nat :: i < NINODES && i != inum ==> File(t.fs, i) == File(s.fs, i)
  }

  /** A file that neither grew nor changed is still clean. */
  lemma CleanKept(f: Fs, g: Fs, i: nat)
    requires Shaped(SB, f) && Shaped(SB, g) && i < |f.inodes| == |g.inodes| && Clean(f, i)
    requires g.inodes[i].size == f.inodes[i].size
    requires forall bn: nat :: bn < MAXFILE ==> FileBlock(SB, g, i, bn) == FileBlock(SB, f, i, bn)
    requires forall bn: nat :: bn < MAXFILE ==> Addr(SB, g, DataSlot(i, bn)) == Addr(SB, f, DataSlot(i, bn))
    requires g.inodes[i].addrs[NDIRECT] == f.inodes[i].addrs[NDIRECT]
    ensures Clean(g, i) && File(g, i) == File(f, i)
  {
    hide Addr, FileBlock;
    forall off: nat | g.inodes[i].size <= off < MAXBYTES ensures FlatByte(SB, g, i, off) == 0 {
      assert FlatByte(SB, f, i, off) == 0;
    }
    BlocksAlike(f, g, i, MAXFILE);
  }

  lemma {:induction false} BlocksAlike(f: Fs, g: Fs, i: nat, n: nat)
    requires Shaped(SB, f) && Shaped(SB, g) && i < |f.inodes| == |g.inodes| && n <= MAXFILE
    requires forall bn: nat :: bn < MAXFILE ==> FileBlock(SB, g, i, bn) == FileBlock(SB, f, i, bn)
    ensures Blocks(SB, g, i, n) == Blocks(SB, f, i, n)
  {
    if n > 0 {
      BlocksAlike(f, g, i, n - 1);
    }
  }

  /** The bytes behind a file that has grown by data are still zero, and its contents are what they should be. */
  lemma GrownTail(f: Fs, g: Fs, inum: nat, data: seq<Byte>)
    requires Shaped(SB, f) && Shaped(SB, g) && inum < |f.inodes| == |g.inodes|
    requires Clean(f, inum) && f.inodes[inum].size + |data| == g.inodes[inum].size <= MAXBYTES
    requires Flat(SB, g, inum) == Spliced(Flat(SB, f, inum), f.inodes[inum].size, data)
    ensures forall off: nat :: g.inodes[inum].size <= off < MAXBYTES ==> FlatByte(SB, g, inum, off) == 0
    ensures File(g, inum) == File(f, inum) + data
  {
    hide Flat;
    forall off: nat | g.inodes[inum].size <= off < MAXBYTES ensures FlatByte(SB, g, inum, off) == 0 {
      FlatAt(SB, g, inum, off);
      FlatAt(SB, f, inum, off);
      assert FlatByte(SB, f, inum, off) == 0;
    }
  }

  lemma AppendEnds(s: Img, m: Img, inum: nat, data: seq<Byte>)
    requires Appending(s, m, inum, data, |data|)
    ensures Appended(s, Resized(m, inum, s.fs.inodes[inum].size + |data|), inum, data)
  {
    hide Layout, HoleFree, FlatByte, Flat, FileBlock, Addr, File, Spliced, NoMore, OtherSlots;
    var off := s.fs.inodes[inum].size;
    var t := Resized(m, inum, off + |data|);
    BuildingLayout(s);
    LayoutShaped(s);
    LayoutShaped(m);
    ResizedKeeps(m, inum, off + |data|);
    LayoutShaped(t);
    SameMeansOthers(m.fs, t.fs, inum);
    OtherSlotsTwice(s.fs, m.fs, t.fs, inum);
    NoMoreSame(m.fs, t.fs, inum, off + |data|);
    OthersSameTwice(SB, s.fs, m.fs, t.fs, inum);
    assert data[..|data|] == data;
    FlatSame(SB, m.fs, t.fs, inum);
    GrownTail(s.fs, t.fs, inum, data);
    EndHoleFree(SB, s.fs, m.fs, t.fs, inum, off, data, |data|);
    forall i: nat | i < NINODES && i != inum ensures Clean(t.fs, i) && File(t.fs, i) == File(s.fs, i) {
      OtherBlocks(s.fs, t.fs, inum, i);
      CleanKept(s.fs, t.fs, i);
    }
  }

  lemma OtherBlocks(f: Fs, g: Fs, inum: nat, i: nat)
    requires Shaped(SB, f) && Shaped(SB, g) && OtherSlots(f, g, inum) && i != inum && i < |f.inodes|
    ensures forall bn: nat :: bn < MAXFILE ==> Addr(SB, g, DataSlot(i, bn)) == Addr(SB, f, DataSlot(i, bn))
    ensures g.inodes[i].addrs[NDIRECT] == f.inodes[i].addrs[NDIRECT]
  {
    assert IsSlot(f, Slot(i, NDIRECT));
    forall bn: nat | bn < MAXFILE ensures Addr(SB, g, DataSlot(i, bn)) == Addr(SB, f, DataSlot(i, bn)) {
      assert IsSlot(f, DataSlot(i, bn));
    }
  }

  // -------------------------------------------------------------------------------- the bitmap

  lemma {:induction false} NthOfZero(k: nat)
    ensures !Nth(0, k)
  {
    if k > 0 {
      NthOfZero(k - 1);
    }
  }

  /** Marking the first blocks in use, once every block handed out is held, gives a file system. */
  lemma MarkedIsInv(m: Img, bitmap: Block)
    requires Layout(m) && forall i: nat :: i < NINODES ==> m.fs.inodes[i].size <= MAXBYTES
    requires forall j: nat :: j < BPB ==> (BitOf(bitmap, j) <==> j < m.free)
    ensures var fs := m.fs.(disk := m.fs.disk[SB.bmapstart := bitmap]);
            Inv(SB, fs, m.owner) && SameSlots(SB, m.fs, fs) && SameFiles(SB, m.fs, fs)
  {
    hide BitOf, Addr, BitAt, Links, FileBlock;
    LayoutOwner(m);
    DiskChange(SB, m.fs, m.owner, SB.bmapstart, bitmap);
    DataChange(SB, m.fs, m.owner, SB.bmapstart, bitmap);
    BitsMarked(m, bitmap);
  }

  lemma LayoutOwner(m: Img)
    requires Layout(m)
    ensures Shaped(SB, m.fs) && |m.fs.inodes| == NINODES && Links(SB, m.fs, m.owner) && SB.bmapstart !in m.owner
  {
  }

  lemma BitsMarked(m: Img, bitmap: Block)
    requires Layout(m) && forall j: nat :: j < BPB ==> (BitOf(bitmap, j) <==> j < m.free)
    ensures Bits(SB, m.fs.disk[SB.bmapstart := bitmap], m.owner.Keys)
  {
    hide BitOf, Links, Shaped;
    LayoutShaped(m);
    var disk := m.fs.disk[SB.bmapstart := bitmap];
    forall b: nat | b < FSSIZE ensures BitAt(SB, disk, b) <==> b < NMETA || b in m.owner.Keys {
      assert b / BPB == 0 && b % BPB == b;
    }
  }

  // ------------------------------------------------------------------------------ the root directory

  const DIRENT: nat := 16

  function Zeroes(n: nat): (r: seq<Byte>)
    ensures |r| == n && forall i :: 0 <= i < n ==> r[i] == 0
  {
    seq(n, _ => 0)
  }

  /** A struct dirent: the inode number, little end first, and the name padded with NULs. */
  function Dirent(inum: nat, name: seq<Byte>): (r: seq<Byte>)
    requires inum < 65536 && |name| <= DIRSIZ
    ensures |r| == DIRENT
  {
    [inum % 256, inum / 256] + name + Zeroes(DIRSIZ - |name|)
  }

  datatype Source = Source(name: seq<Byte>, data: seq<Byte>)

  predicate SourcesOk(files: seq<Source>) {
    forall i :: 0 <= i < |files| ==> |files[i].name| <= DIRSIZ
  }

  /** The entries for . and .. and the first n files, which are inodes 2, 3 and so on. */
  function Entries(files: seq<Source>, n: nat): (r: seq<Byte>)
    requires n <= |files| < NINODES && SourcesOk(files)
    ensures |r| == DIRENT * (n + 2)
  {
    if n == 0 then Dirent(ROOTINO, [46]) + Dirent(ROOTINO, [46, 46])
    else Entries(files, n - 1) + Dirent(n + 1, files[n - 1].name)
  }

  /** The inode number the kernel reads in a directory entry. */
  function InumIn(de: seq<Byte>): nat
    requires |de| == DIRENT
  {
    var low: nat, high: nat := de[0], de[1];
    low + 256 * high
  }

  /** The name it reads there: up to a NUL, or to the end of the field. */
  function NameIn(field: seq<Byte>): seq<Byte> {
    if field == [] || field[0] == 0 then [] else [field[0]] + NameIn(field[1..])
  }

  lemma {:induction false} NamePadded(name: seq<Byte>, n: nat)
    requires 0 !in name
    ensures NameIn(name + Zeroes(n)) == name
  {
    if name != [] {
      assert (name + Zeroes(n))[1..] == name[1..] + Zeroes(n);
      NamePadded(name[1..], n);
    }
  }

  /** The kernel reads back what was put into a directory entry. */
  lemma DirentReads(inum: nat, name: seq<Byte>)
    requires inum < 65536 && |name| <= DIRSIZ && 0 !in name
    ensures InumIn(Dirent(inum, name)) == inum && NameIn(Dirent(inum, name)[2..]) == name
  {
    Euclid(inum, 256);
    assert Dirent(inum, name)[2..] == name + Zeroes(DIRSIZ - |name|);
    NamePadded(name, DIRSIZ - |name|);
  }

  /** What the kernel reads at entry j of the root: . and .. lead back to it, the others to the files in order. */
  lemma {:induction false} RootListing(files: seq<Source>, n: nat, j: nat)
    requires n <= |files| < NINODES && SourcesOk(files) && j < n + 2
    requires forall i :: 0 <= i < |files| ==> 0 !in files[i].name
    ensures var de := Entries(files, n)[DIRENT * j..DIRENT * j + DIRENT];
            && InumIn(de) == (if j < 2 then ROOTINO else j)
            && NameIn(de[2..]) == if j == 0 then [46] else if j == 1 then [46, 46] else files[j - 2].name
  {
    hide Dirent, InumIn, NameIn;
    var es := Entries(files, n);
    if n == 0 {
      DirentReads(ROOTINO, [46]);
      DirentReads(ROOTINO, [46, 46]);
      assert j == 0 ==> es[DIRENT * j..DIRENT * j + DIRENT] == Dirent(ROOTINO, [46]);
      assert j == 1 ==> es[DIRENT * j..DIRENT * j + DIRENT] == Dirent(ROOTINO, [46, 46]);
    } else if j == n + 1 {
      DirentReads(j, files[n - 1].name);
      assert es[DIRENT * j..DIRENT * j + DIRENT] == Dirent(j, files[n - 1].name);
    } else {
      RootListing(files, n - 1, j);
      assert es[DIRENT * j..DIRENT * j + DIRENT] == Entries(files, n - 1)[DIRENT * j..DIRENT * j + DIRENT];
    }
  }

  function Rounded(size: nat): nat {
    (size / BSIZE + 1) * BSIZE
  }

  /** Rounding up the size of a clean file leaves a hole exactly when it filled its last block. */
  lemma RoundedHoles(m: Img, inum: nat)
    requires Building(m) && inum < NINODES && Rounded(m.fs.inodes[inum].size) <= MAXBYTES
    ensures var size := m.fs.inodes[inum].size; var n := Resized(m, inum, Rounded(size));
            && Layout(n) && (HoleFree(SB, n.fs, inum) <==> size % BSIZE != 0)
            && File(n.fs, inum) == File(m.fs, inum) + Zeroes(Rounded(size) - size)
            && forall i: nat :: i < NINODES && i != inum ==> Clean(n.fs, i) && File(n.fs, i) == File(m.fs, i)
  {
    hide Layout, FileBlock, Addr;
    BuildingLayout(m);
    LayoutShaped(m);
    var size := m.fs.inodes[inum].size;
    var n := Resized(m, inum, Rounded(size));
    ResizedKeeps(m, inum, Rounded(size));
    assert Clean(m.fs, inum);
    SameBlocks(m.fs, n.fs, inum);
    HolesOf(m.fs, n.fs, inum);
    FlatSame(SB, m.fs, n.fs, inum);
    ZeroPadding(m.fs, n.fs, inum);
    forall i: nat | i < NINODES && i != inum ensures Clean(n.fs, i) && File(n.fs, i) == File(m.fs, i) {
      SameBlocks(m.fs, n.fs, i);
      CleanKept(m.fs, n.fs, i);
    }
  }

  lemma SameBlocks(f: Fs, g: Fs, i: nat)
    requires Shaped(SB, f) && Shaped(SB, g) && SameSlots(SB, f, g) && i < |f.inodes|
    ensures forall bn: nat :: bn < MAXFILE ==> Addr(SB, g, DataSlot(i, bn)) == Addr(SB, f, DataSlot(i, bn))
    ensures g.inodes[i].addrs[NDIRECT] == f.inodes[i].addrs[NDIRECT]
  {
    assert IsSlot(f, Slot(i, NDIRECT));
    forall bn: nat | bn < MAXFILE ensures Addr(SB, g, DataSlot(i, bn)) == Addr(SB, f, DataSlot(i, bn)) {
      assert IsSlot(f, DataSlot(i, bn));
    }
  }

  lemma HolesOf(f: Fs, g: Fs, i: nat)
    requires Shaped(SB, f) && Shaped(SB, g) && i < |f.inodes| == |g.inodes| && HoleFree(SB, f, i)
    requires NoMore(f, i, f.inodes[i].size)
    requires forall bn: nat :: bn < MAXFILE ==> Addr(SB, g, DataSlot(i, bn)) == Addr(SB, f, DataSlot(i, bn))
    requires g.inodes[i].size == Rounded(f.inodes[i].size) <= MAXBYTES
    ensures HoleFree(SB, g, i) <==> f.inodes[i].size % BSIZE != 0
  {
    hide Addr;
    var size := f.inodes[i].size;
    var bn := size / BSIZE;
    assert bn * BSIZE < Rounded(size) <= MAXFILE * BSIZE;
    assert Addr(SB, g, DataSlot(i, bn)) == Addr(SB, f, DataSlot(i, bn));
    if size % BSIZE == 0 {
      assert !HoleFree(SB, g, i);
    } else {
      forall c: nat | c < MAXFILE && c * BSIZE < g.inodes[i].size ensures Addr(SB, g, DataSlot(i, c)) != 0 {
        assert c * BSIZE < size;
      }
    }
  }

  lemma ZeroPadding(f: Fs, g: Fs, i: nat)
    requires Shaped(SB, f) && Shaped(SB, g) && i < |f.inodes| == |g.inodes| && Clean(f, i)
    requires Flat(SB, g, i) == Flat(SB, f, i) && g.inodes[i].size == Rounded(f.inodes[i].size) <= MAXBYTES
    ensures File(g, i) == File(f, i) + Zeroes(Rounded(f.inodes[i].size) - f.inodes[i].size)
  {
    hide Flat, HoleFree, NoMore, FlatByte;
    var size := f.inodes[i].size;
    forall off: nat | size <= off < Rounded(size) ensures Flat(SB, f, i)[off] == 0 {
      FlatAt(SB, f, i, off);
      assert FlatByte(SB, f, i, off) == 0;
    }
  }

  // ---------------------------------------------------------------------------------- the program

  function Blank(): Inode {
    Inode(0, [0, 0, 0, 0, 0, 0, 0, 0, 0, 0, 0, 0, 0])
  }

  lemma BlankIsBuilding(m: Img)
    requires |m.fs.disk| == FSSIZE && |m.fs.inodes| == NINODES && m.owner == map[] && m.free == NMETA
    requires forall b: nat :: b < FSSIZE ==> m.fs.disk[b] == Zero()
    requires forall i :: 0 <= i < NINODES ==> m.fs.inodes[i] == Blank()
    ensures Building(m) && forall i: nat :: i < NINODES ==> File(m.fs, i) == []
  {
    forall x: Slot | IsSlot(m.fs, x) ensures Addr(SB, m.fs, x) == 0 {
    }
    forall i: nat | i < NINODES ensures Clean(m.fs, i) && File(m.fs, i) == [] {
      forall bn: nat | bn < MAXFILE ensures Addr(SB, m.fs, DataSlot(i, bn)) == 0 {
        assert IsSlot(m.fs, DataSlot(i, bn));
      }
    }
  }

  /** How much of n bytes goes into the block at position p. */
  function ChunkLength(p: nat, n: nat): (k: nat)
    ensures k <= n && p % BSIZE + k <= BSIZE && (n > 0 ==> k > 0)
  {
    if n < BSIZE - p % BSIZE then n else BSIZE - p % BSIZE
  }

  class Image {
    var disk: seq<Block>
    var inodes: seq<Inode>
    var freeblock: nat
    var freeinode: nat
    ghost var owner: map<nat, Slot>

    ghost function View(): Img
      reads this
    {
      Img(Fs(disk, inodes), owner, freeblock)
    }

    /** Inodes not yet handed out are blank. */
    ghost predicate Valid()
      reads this
    {
      Building(View()) && 1 <= freeinode <= NINODES && forall i :: freeinode <= i < NINODES ==> inodes[i] == Blank()
    }

    /** An empty image. */
    constructor ()
      ensures Valid() && freeinode == 1 && freeblock == NMETA
      ensures forall i: nat :: i < NINODES ==> File(View().fs, i) == []
    {
      var zero: Block := seq(BSIZE, _ => 0);
      disk := seq(FSSIZE, _ => zero);
      inodes := seq(NINODES, _ => Blank());
      freeblock, freeinode, owner := NMETA, 1, map[];
      ZeroIsUnique(zero);
      new;
      BlankIsBuilding(View());
    }

    /** The address of file block bn of an inode, handing out blocks as needed; 0 when there are none left. */
    method BlockOf(inum: nat, bn: nat) returns (x: nat)
      requires Layout(View()) && inum < NINODES && bn < MAXFILE
      modifies this`disk, this`inodes, this`freeblock, this`owner
      ensures Fetched(old(View()), View(), inum, bn) && Shaped(SB, View().fs)
      ensures x == Addr(SB, View().fs, DataSlot(inum, bn))
      ensures Shaped(SB, old(View()).fs) && inum < |old(inodes)|
      ensures var n := old(freeblock) + NewBlocks(old(View()).fs, inum, bn);
              (x == 0 <==> n > FSSIZE) && (x != 0 ==> freeblock == n)
    {
      hide Layout, Fetched, SameSlotsBut;
      ghost var s := View();
      LayoutShaped(s);
      FetchedNothing(s, inum, bn);
      if bn < NDIRECT {
        if inodes[inum].addrs[bn] == 0 {
          if freeblock == FSSIZE {
            return 0;
          }
          TakeSlot(inum, bn, bn);
        }
        FetchedLayout(s, View(), inum, bn);
        LayoutShaped(View());
        x := inodes[inum].addrs[bn];
      } else {
        x := EntryOf(inum, bn);
      }
    }

    /** The next block for a slot of the inode. */
    method TakeSlot(inum: nat, k: nat, ghost bn: nat)
      requires Layout(View()) && inum < NINODES && k <= NDIRECT && freeblock < FSSIZE && inodes[inum].addrs[k] == 0
      requires k == (if bn < NDIRECT then bn else NDIRECT) && bn < MAXFILE
      modifies this`inodes, this`freeblock, this`owner
      ensures Fetched(old(View()), View(), inum, bn) && View() == SlotTaken(old(View()), inum, k)
      ensures Shaped(SB, View().fs) && SameSlotsBut(SB, old(View()).fs, View().fs, Slot(inum, k))
    {
      hide Fetched, Layout, SameSlotsBut;
      LayoutShaped(View());
      SlotTakenKeeps(View(), inum, k, bn);
      inodes := inodes[inum := inodes[inum].(addrs := inodes[inum].addrs[k := freeblock])];
      owner := owner[freeblock := Slot(inum, k)];
      freeblock := freeblock + 1;
    }

    method EntryOf(inum: nat, bn: nat) returns (x: nat)
      requires Layout(View()) && inum < NINODES && NDIRECT <= bn < MAXFILE
      modifies this`disk, this`inodes, this`freeblock, this`owner
      ensures Fetched(old(View()), View(), inum, bn) && Shaped(SB, View().fs)
      ensures x == Addr(SB, View().fs, DataSlot(inum, bn))
      ensures Shaped(SB, old(View()).fs) && inum < |old(inodes)|
      ensures var n := old(freeblock) + NewBlocks(old(View()).fs, inum, bn);
              (x == 0 <==> n > FSSIZE) && (x != 0 ==> freeblock == n)
    {
      hide Layout, Fetched, PutWord, Word;
      ghost var s := View();
      LayoutShaped(s);
      FetchedNothing(s, inum, bn);
      if inodes[inum].addrs[NDIRECT] == 0 {
        if freeblock == FSSIZE {
          return 0;
        }
        TakeSlot(inum, NDIRECT, bn);
        assert IsSlot(s.fs, DataSlot(inum, bn));
      }
      FetchedLayout(s, View(), inum, bn);
      LayoutShaped(View());
      var at, j := inodes[inum].addrs[NDIRECT], bn - NDIRECT;
      IndirectThere(View(), inum);
      x := Word(disk[at], j);
      if x == 0 {
        if freeblock == FSSIZE {
          return 0;
        }
        ghost var u := View();
        EntryTakenKeeps(u, inum, j);
        FetchedTwice(s, u, EntryTaken(u, at, j, inum), inum, bn);
        FetchedLayout(s, EntryTaken(u, at, j, inum), inum, bn);
        LayoutShaped(EntryTaken(u, at, j, inum));
        x := freeblock;
        disk := disk[at := PutWord(disk[at], j, freeblock)];
        owner := owner[freeblock := Slot(inum, NDIRECT + 1 + j)];
        freeblock := freeblock + 1;
      }
    }

    /** iappend: data behind the contents of a file, unless the image or the file is full. */
    method Iappend(inum: nat, data: seq<Byte>) returns (ok: bool)
      requires Valid() && inum < freeinode
      modifies this`disk, this`inodes, this`freeblock, this`owner
      ensures ok ==> Valid() && Appended(old(View()), View(), inum, data)
      ensures |old(inodes)| == NINODES && inum < NINODES
      ensures var size := old(inodes)[inum].size;
              var n := old(freeblock) + BlocksFor(size + |data|) - BlocksFor(size);
              (ok <==> size + |data| <= MAXBYTES && n <= FSSIZE) && (ok ==> freeblock == n)
    {
      hide Appending, Building, Layout, Appended, BlocksFor;
      ghost var s := View();
      BuildingLayout(s);
      LayoutShaped(s);
      var off := inodes[inum].size;
      if off + |data| > MAXBYTES {
        return false;
      }
      AppendingStarts(s, inum, data);
      var tot := 0;
      while tot < |data|
        invariant tot <= |data| && Appending(s, View(), inum, data, tot) && OthersKept(s.fs.inodes, inodes, inum)
        invariant freeblock == s.free + BlocksFor(off + tot) - BlocksFor(off)
      {
        MoreBlocks(off + tot + ChunkLength(off + tot, |data| - tot), off + |data|);
        var k := AppendChunk(inum, data, off, tot, s);
        if k == 0 {
          return false;
        }
        tot := tot + k;
      }
      AppendEnds(s, View(), inum, data);
      AppendingBounds(s, View(), inum, data, tot);
      LayoutShaped(View());
      AppendedBuilding(s, Resized(View(), inum, off + tot), inum, data);
      inodes := inodes[inum := inodes[inum].(size := off + tot)];
      ok := true;
    }

    /** One pass of iappend's loop: how many bytes it stored, 0 if the image is full. */
    method AppendChunk(inum: nat, data: seq<Byte>, off: nat, tot: nat, ghost s: Img) returns (k: nat)
      requires Appending(s, View(), inum, data, tot) && tot < |data| && off == s.fs.inodes[inum].size
      modifies this`disk, this`inodes, this`freeblock, this`owner
      ensures tot + k <= |data| && OthersKept(old(inodes), inodes, inum)
      ensures var p, m := off + tot, ChunkLength(off + tot, |data| - tot);
              var n := old(freeblock) + BlocksFor(p + m) - BlocksFor(p);
              if n > FSSIZE then k == 0
              else k == m > 0 && freeblock == n && Appending(s, View(), inum, data, tot + k)
    {
      hide Appending, Building, Layout, Fetched, Fetching, Addr, BlocksFor, NewBlocks;
      ghost var u := View();
      AppendingBounds(s, u, inum, data, tot);
      var bn, o := (off + tot) / BSIZE, (off + tot) % BSIZE;
      k := ChunkLength(off + tot, |data| - tot);
      ChunkBlocks(s, u, inum, data, tot, k);
      var x := BlockOf(inum, bn);
      FetchedLayout(u, View(), inum, bn);
      if x == 0 {
        return 0;
      }
      AppendingFetched(s, u, View(), inum, data, tot);
      AppendingStored(s, View(), inum, data, tot, k);
      LayoutShaped(View());
      disk := disk[x := Spliced(disk[x], o, data[tot..tot + k])];
    }

    /** ialloc: the next inode, with nothing in it. */
    method Ialloc() returns (inum: nat)
      requires Valid() && freeinode < NINODES
      modifies this`inodes, this`freeinode
      ensures Valid() && inum == old(freeinode) && freeinode == inum + 1 && View() == old(View())
      ensures File(View().fs, inum) == []
    {
      inum := freeinode;
      freeinode := freeinode + 1;
      inodes := inodes[inum := Blank()];
      assert inodes == old(inodes);
    }

    /** One of the files on the command line: its entry in the root, then its contents a block at a time. */
    method AddFile(f: Source) returns (ok: bool)
      requires Valid() && 1 < freeinode < NINODES && |f.name| <= DIRSIZ
      modifies this
      ensures |old(inodes)| == NINODES
      ensures var root := old(inodes)[ROOTINO].size;
              var n := old(freeblock) + BlocksFor(root + DIRENT) - BlocksFor(root) + BlocksFor(|f.data|);
              && (ok <==> root + DIRENT <= MAXBYTES && |f.data| <= MAXBYTES && n <= FSSIZE)
              && (ok ==> freeblock == n)
      ensures ok ==>
                && Valid() && freeinode == old(freeinode) + 1 && File(View().fs, old(freeinode)) == f.data
                && File(View().fs, ROOTINO) == old(File(View().fs, ROOTINO)) + Dirent(old(freeinode), f.name)
                && forall i: nat :: i < NINODES && i != ROOTINO && i != old(freeinode) ==>
                    File(View().fs, i) == old(File(View().fs, i))
    {
      hide Building, File, BlocksFor;
      var inum := Ialloc();
      ghost var s := View();
      NoBlocks();
      MoreBlocks(0, |f.data|);
      ok := Iappend(ROOTINO, Dirent(inum, f.name));
      if !ok {
        return;
      }
      ghost var u := View();
      var p := 0;
      while p < |f.data|
        invariant p <= |f.data| && Valid() && freeinode == inum + 1
        invariant File(View().fs, inum) == f.data[..p] && freeblock == u.free + BlocksFor(p)
        invariant forall i: nat :: i < NINODES && i != inum ==> File(View().fs, i) == File(u.fs, i)
      {
        var cc := if |f.data| - p < BSIZE then |f.data| - p else BSIZE;
        FileSize(View(), inum);
        MoreBlocks(p + cc, |f.data|);
        ok := Iappend(inum, f.data[p..p + cc]);
        if !ok {
          return;
        }
        assert f.data[..p] + f.data[p..p + cc] == f.data[..p + cc];
        p := p + cc;
      }
      FileSize(View(), inum);
      FileFits(View(), inum);
      ok := true;
    }

    /** balloc: the bits of the blocks handed out. */
    method MarkUsed()
      requires Layout(View()) && forall i: nat :: i < NINODES ==> inodes[i].size <= MAXBYTES
      modifies this`disk
      ensures Inv(SB, View().fs, owner) && SameSlots(SB, old(View()).fs, View().fs)
      ensures SameFiles(SB, old(View()).fs, View().fs)
    {
      hide Layout, BitOf, Inv, SameSlots, SameFiles;
      LayoutShaped(View());
      var buf: Block := seq(BSIZE, _ => 0);
      ZeroBits(buf);
      for i := 0 to freeblock
        invariant View() == old(View())
        invariant forall j: nat :: j < BPB ==> (BitOf(buf, j) <==> j < i)
      {
        SetBitBits(buf, i, true);
        buf := SetBit(buf, i, true);
      }
      MarkedIsInv(View(), buf);
      disk := disk[SB.bmapstart := buf];
    }
  }

  lemma NoBlocks()
    ensures BlocksFor(0) == 0
  {
  }

  lemma FileFits(m: Img, i: nat)
    requires Building(m) && i < NINODES
    ensures NMETA <= m.free <= FSSIZE && |File(m.fs, i)| <= MAXBYTES
  {
    assert Clean(m.fs, i);
  }

  lemma ZeroBits(b: Block)
    requires IsZero(b)
    ensures forall j: nat :: j < BPB ==> !BitOf(b, j)
  {
    forall j: nat | j < BPB ensures !BitOf(b, j) {
      NthOfZero(j % 8);
    }
  }

  /** The file on the command line at position j is inode j + 2. */
  ghost predicate HasFile(fs: Fs, files: seq<Source>, j: nat) {
    j < |files| && File(fs, j + 2) == files[j].data
  }

  ghost predicate Whole(fs: Fs, i: nat) {
    Shaped(SB, fs) && i < |fs.inodes| && HoleFree(SB, fs, i)
  }

  /** What mkfs promises: a file system that holds the files, and a root that names them. */
  ghost predicate Made(m: Img, files: seq<Source>)
    requires |files| + 2 <= NINODES && SourcesOk(files)
  {
    && Inv(SB, m.fs, m.owner) && |m.fs.inodes| == NINODES
    && (forall b: nat :: b in m.owner <==> NMETA <= b < m.free)
    && (forall j: nat :: j < |files| ==> HasFile(m.fs, files, j))
    && (forall i: nat :: i < NINODES && i != ROOTINO ==> Whole(m.fs, i))
    && (var size := DIRENT * (|files| + 2);
        File(m.fs, ROOTINO) == Entries(files, |files|) + Zeroes(Rounded(size) - size))
    && (Whole(m.fs, ROOTINO) <==> (|files| + 2) % 64 != 0)
  }

  /** The blocks of the first n files. */
  function FileBlocks(files: seq<Source>, n: nat): nat {
    if n == 0 || n > |files| then 0 else FileBlocks(files, n - 1) + BlocksFor(|files[n - 1].data|)
  }

  /** The blocks mkfs hands out: those of the root and of the files. */
  function Needed(files: seq<Source>): nat {
    BlocksFor(DIRENT * (|files| + 2)) + FileBlocks(files, |files|)
  }

  /** No file is too long, and all of them fit the image. */
  predicate Fits(files: seq<Source>) {
    (forall j :: 0 <= j < |files| ==> |files[j].data| <= MAXBYTES) && NMETA + Needed(files) <= FSSIZE
  }

  lemma {:induction false} FewerBlocks(files: seq<Source>, n: nat)
    requires n <= |files|
    ensures FileBlocks(files, n) <= FileBlocks(files, |files|)
    decreases |files| - n
  {
    if n < |files| {
      FewerBlocks(files, n + 1);
    }
  }

  /** What has been handed out after n files is not more than will be needed. */
  lemma SoFar(files: seq<Source>, n: nat)
    requires n <= |files|
    ensures BlocksFor(DIRENT * (n + 2)) + FileBlocks(files, n) <= Needed(files)
  {
    FewerBlocks(files, n);
    MoreBlocks(DIRENT * (n + 2), DIRENT * (|files| + 2));
  }

  /** main. It dies exactly of a file that is too long or files that do not fit the image. */
  method Make(files: seq<Source>) returns (ok: bool, img: Image)
    requires |files| + 2 <= NINODES && SourcesOk(files)
    ensures ok ==> Made(img.View(), files)
    ensures ok <==> Fits(files)
    ensures ok ==> img.freeblock == NMETA + Needed(files)
  {
    hide Building, File, Made, BlocksFor, Needed, FileBlocks;
    NoBlocks();
    FirstEntries(files);
    SoFar(files, 0);
    img := new Image();
    var root := img.Ialloc();
    FileSize(img.View(), root);
    assert [] + Dirent(ROOTINO, [46]) == Dirent(ROOTINO, [46]);
    ok := img.Iappend(root, Dirent(ROOTINO, [46]));
    if !ok {
      return;
    }
    FileSize(img.View(), root);
    ok := img.Iappend(root, Dirent(ROOTINO, [46, 46]));
    if !ok {
      return;
    }
    for i := 0 to |files|
      invariant img.Valid() && img.freeinode == i + 2 && fresh(img)
      invariant File(img.View().fs, ROOTINO) == Entries(files, i)
      invariant img.freeblock == NMETA + BlocksFor(DIRENT * (i + 2)) + FileBlocks(files, i)
      invariant forall j: nat :: j < i ==> |files[j].data| <= MAXBYTES
      invariant forall j: nat :: j < i ==> HasFile(img.View().fs, files, j)
    {
      FileSize(img.View(), root);
      ghost var before := img.View().fs;
      SoFar(files, i + 1);
      OneMore(files, i);
      ok := img.AddFile(files[i]);
      if !ok {
        return;
      }
      forall j: nat | j < i + 1 ensures HasFile(img.View().fs, files, j) {
        assert j < i ==> HasFile(before, files, j);
      }
    }
    NeededIs(files);
    FileFits(img.View(), ROOTINO);
    Finish(img, files);
  }

  lemma FirstEntries(files: seq<Source>)
    ensures BlocksFor(DIRENT) == 1 == BlocksFor(DIRENT * 2) && FileBlocks(files, 0) == 0
  {
  }

  lemma OneMore(files: seq<Source>, i: nat)
    requires i < |files|
    ensures FileBlocks(files, i + 1) == FileBlocks(files, i) + BlocksFor(|files[i].data|)
  {
  }

  lemma NeededIs(files: seq<Source>)
    ensures Needed(files) == BlocksFor(DIRENT * (|files| + 2)) + FileBlocks(files, |files|)
  {
  }

  /** The end of main: the size of the root rounded up, and the bitmap. */
  method Finish(img: Image, ghost files: seq<Source>)
    requires |files| + 2 <= NINODES && SourcesOk(files) && Building(img.View())
    requires File(img.View().fs, ROOTINO) == Entries(files, |files|)
    requires forall j: nat :: j < |files| ==> HasFile(img.View().fs, files, j)
    modifies img
    ensures Made(img.View(), files) && img.freeblock == old(img.freeblock)
  {
    hide Building, File, Made, Layout, Inv, SameSlots, SameFiles, Rounded, HoleFree, Clean, Entries;
    ghost var m := img.View();
    RootSize(m, files);
    var size := img.inodes[ROOTINO].size;
    img.inodes := img.inodes[ROOTINO := img.inodes[ROOTINO].(size := Rounded(size))];
    RoundedHoles(m, ROOTINO);
    ghost var n := img.View();
    SizesFit(m, n, ROOTINO);
    LayoutShaped(n);
    img.MarkUsed();
    MadeAtLast(m, n, img.View(), files);
  }

  lemma FileSize(m: Img, i: nat)
    requires Building(m) && i < NINODES
    ensures |m.fs.inodes| == NINODES && m.fs.inodes[i].size == |File(m.fs, i)|
  {
    assert Clean(m.fs, i);
  }

  /** The root holds DIRENT bytes for each entry. */
  lemma RootSize(m: Img, files: seq<Source>)
    requires Building(m) && |files| + 2 <= NINODES && SourcesOk(files) && File(m.fs, ROOTINO) == Entries(files, |files|)
    ensures |m.fs.inodes| == NINODES && m.fs.inodes[ROOTINO].size == DIRENT * (|files| + 2)
    ensures Rounded(m.fs.inodes[ROOTINO].size) <= MAXBYTES
  {
    assert Clean(m.fs, ROOTINO);
  }

  lemma SizesFit(m: Img, n: Img, root: nat)
    requires Building(m) && root < NINODES && Rounded(m.fs.inodes[root].size) <= MAXBYTES
    requires n == Resized(m, root, Rounded(m.fs.inodes[root].size))
    ensures |n.fs.inodes| == NINODES && forall i: nat :: i < NINODES ==> n.fs.inodes[i].size <= MAXBYTES
  {
    forall i: nat | i < NINODES ensures n.fs.inodes[i].size <= MAXBYTES {
      assert Clean(m.fs, i);
    }
  }

  lemma MadeAtLast(m: Img, n: Img, t: Img, files: seq<Source>)
    requires Building(m) && |files| + 2 <= NINODES && SourcesOk(files) && File(m.fs, ROOTINO) == Entries(files, |files|)
    requires m.fs.inodes[ROOTINO].size == DIRENT * (|files| + 2) && Rounded(m.fs.inodes[ROOTINO].size) <= MAXBYTES
    requires forall j: nat :: j < |files| ==> HasFile(m.fs, files, j)
    requires n == Resized(m, ROOTINO, Rounded(m.fs.inodes[ROOTINO].size)) && t.owner == n.owner && t.free == n.free
    requires Shaped(SB, n.fs) && Inv(SB, t.fs, t.owner) && t.fs.inodes == n.fs.inodes
    requires SameSlots(SB, n.fs, t.fs) && SameFiles(SB, n.fs, t.fs)
    ensures Made(t, files)
  {
    hide Building, Layout, Inv, Addr, FileBlock, File, HoleFree, SameSlots, SameFiles, Entries, Rounded, Clean;
    SixtyFour(|files| + 2);
    RoundedHoles(m, ROOTINO);
    BuildingLayout(m);
    LayoutBlocks(m);
    InvShaped(SB, t.fs, t.owner);
    FileStays(n.fs, t.fs, ROOTINO);
    forall i: nat | i < NINODES && i != ROOTINO ensures Whole(t.fs, i) {
      CleanIsWhole(n.fs, i);
      FileStays(n.fs, t.fs, i);
    }
    forall j: nat | j < |files| ensures HasFile(t.fs, files, j) {
      assert HasFile(m.fs, files, j);
      FileStays(n.fs, t.fs, j + 2);
    }
  }

  lemma SixtyFour(n: nat)
    ensures DIRENT * n % BSIZE != 0 <==> n % 64 != 0
  {
  }

  lemma CleanIsWhole(fs: Fs, i: nat)
    requires Shaped(SB, fs) && i < |fs.inodes| && Clean(fs, i)
    ensures HoleFree(SB, fs, i)
  {
  }

  lemma LayoutBlocks(m: Img)
    requires Layout(m)
    ensures |m.fs.inodes| == NINODES && forall b: nat :: b in m.owner <==> NMETA <= b < m.free
  {
  }

  lemma FileStays(f: Fs, g: Fs, i: nat)
    requires Shaped(SB, f) && Shaped(SB, g) && SameSlots(SB, f, g) && SameFiles(SB, f, g) && g.inodes == f.inodes
    requires i < |f.inodes|
    ensures File(g, i) == File(f, i) && (HoleFree(SB, g, i) <==> HoleFree(SB, f, i))
  {
    hide Addr, FileBlock;
    FlatSame(SB, f, g, i);
    SameBlocks(f, g, i);
  }

  lemma FetchedLayout(m: Img, n: Img, inum: nat, bn: nat)
    requires Fetched(m, n, inum, bn)
    ensures Layout(n) && OthersKept(m.fs.inodes, n.fs.inodes, inum)
  {
  }

  lemma AppendedBuilding(s: Img, t: Img, inum: nat, data: seq<Byte>)
    requires Appended(s, t, inum, data)
    ensures Building(t)
  {
  }
}
