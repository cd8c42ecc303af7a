/**
 Blocks and inode contents (kernel/fs.c): the bitmap allocator, the direct and indirect block
 map, truncation, and byte-level reading and writing.

 The disk seen here is the one the log provides: bread returns the latest contents and
 log_write records a block in the current transaction (`logged`).
 */
module FileSystem {
  import Common
  import opened Bytes
  import opened FsModel
  import opened FileContents

  // -------------------------------------------------------------- specification helpers

  /** The bitmap block of block b with b's bit set to v. */
  function WithBit(sb: Super, disk: seq<Block>, b: nat, v: bool): (d: seq<Block>)
    requires sb.Ok() && |disk| == sb.size && b < sb.size
    ensures |d| == |disk|
  {
    disk[sb.bmapstart + b / BPB := SetBit(disk[sb.bmapstart + b / BPB], b % BPB, v)]
  }

  lemma WithBitBits(sb: Super, disk: seq<Block>, b: nat, v: bool)
    requires sb.Ok() && |disk| == sb.size && b < sb.size
    ensures forall c: nat :: c < sb.size ==>
              BitAt(sb, WithBit(sb, disk, b, v), c) == if c == b then v else BitAt(sb, disk, c)
  {
    hide Nth, SetNth;
    SetBitBits(disk[sb.bmapstart + b / BPB], b % BPB, v);
    forall c: nat | c < sb.size
      ensures BitAt(sb, WithBit(sb, disk, b, v), c) == if c == b then v else BitAt(sb, disk, c)
    {
      if c / BPB == b / BPB && c != b {
        assert c % BPB != b % BPB;
      }
    }
  }

  /** Writing a block outside the bitmap leaves every bit alone. */
  lemma OtherBlockBits(sb: Super, disk: seq<Block>, b: nat, data: Block)
    requires sb.Ok() && |disk| == sb.size && sb.nmeta <= b < sb.size
    ensures forall c: nat :: c < sb.size ==> BitAt(sb, disk[b := data], c) == BitAt(sb, disk, c)
  {
    forall c: nat | c < sb.size ensures BitAt(sb, disk[b := data], c) == BitAt(sb, disk, c) {
      assert c / BPB <= sb.size / BPB;
    }
  }

  ghost predicate SameSlots(sb: Super, f: Fs, g: Fs)
    requires Shaped(sb, f) && Shaped(sb, g)
  {
    |f.inodes| == |g.inodes| && forall s: Slot :: IsSlot(f, s) ==> Addr(sb, g, s) == Addr(sb, f, s)
  }

  /** Marking a metadata bit changes no slot and no file. */
  lemma BitmapChange(sb: Super, f: Fs, owner: map<nat, Slot>, b: nat, v: bool)
    requires Shaped(sb, f) && Links(sb, f, owner) && b < sb.size
    ensures var g := f.(disk := WithBit(sb, f.disk, b, v));
            Shaped(sb, g) && Links(sb, g, owner) && SameSlots(sb, f, g) && SameFiles(sb, f, g)
  {
    var x := sb.bmapstart + b / BPB;
    assert b / BPB <= sb.size / BPB && x !in owner;
    var data := SetBit(f.disk[x], b % BPB, v);
    DiskChange(sb, f, owner, x, data);
    DataChange(sb, f, owner, x, data);
  }

  /** The disk after balloc has chosen block b: its bit set and its contents zeroed. */
  ghost function Allocated(sb: Super, disk: seq<Block>, b: nat): (d: seq<Block>)
    requires sb.Ok() && |disk| == sb.size && b < sb.size
    ensures |d| == |disk|
  {
    WithBit(sb, disk, b, true)[b := Zero()]
  }

  lemma AllocatedKeeps(sb: Super, f: Fs, owner: map<nat, Slot>, b: nat)
    requires Shaped(sb, f) && Links(sb, f, owner) && sb.nmeta <= b < sb.size && b !in owner
    ensures var g := f.(disk := Allocated(sb, f.disk, b));
            Shaped(sb, g) && Links(sb, g, owner) && SameSlots(sb, f, g) && SameFiles(sb, f, g)
  {
    BitmapChange(sb, f, owner, b, true);
    var h := f.(disk := WithBit(sb, f.disk, b, true));
    DiskChange(sb, h, owner, b, Zero());
    DataChange(sb, h, owner, b, Zero());
  }

  lemma AllocatedAt(sb: Super, disk: seq<Block>, b: nat, c: nat)
    requires sb.Ok() && |disk| == sb.size && sb.nmeta <= b < sb.size && c < sb.size
    ensures BitAt(sb, Allocated(sb, disk, b), c) <==> c == b || BitAt(sb, disk, c)
  {
    var marked := WithBit(sb, disk, b, true);
    WithBitBits(sb, disk, b, true);
    assert BitAt(sb, marked, c) <==> c == b || BitAt(sb, disk, c);
    OtherBlockBits(sb, marked, b, Zero());
    assert BitAt(sb, marked[b := Zero()], c) == BitAt(sb, marked, c);
  }

  lemma AllocatedBits(sb: Super, disk: seq<Block>, held: set<nat>, b: nat)
    requires sb.Ok() && |disk| == sb.size && Bits(sb, disk, held) && sb.nmeta <= b < sb.size
    ensures Bits(sb, Allocated(sb, disk, b), held + {b})
  {
    forall c: nat | c < sb.size
      ensures BitAt(sb, Allocated(sb, disk, b), c) <==> c < sb.nmeta || c in held + {b}
    {
      AllocatedAt(sb, disk, b, c);
    }
  }

  lemma BitsElsewhere(sb: Super, disk: seq<Block>, held: set<nat>, b: nat, data: Block)
    requires sb.Ok() && |disk| == sb.size && Bits(sb, disk, held) && sb.nmeta <= b < sb.size
    ensures Bits(sb, disk[b := data], held)
  {
    OtherBlockBits(sb, disk, b, data);
    var d := disk[b := data];
    assert forall c :: c in held ==> sb.nmeta <= c < sb.size;
    assert forall c: nat :: c < sb.size ==> (BitAt(sb, d, c) <==> BitAt(sb, disk, c));
    assert forall c: nat :: c < sb.size ==> (BitAt(sb, d, c) <==> c < sb.nmeta || c in held);
    assert Bits(sb, d, held);
  }

  lemma BitmapIndex(base: nat, bi: nat)
    requires base % BPB == 0 && bi < BPB
    ensures (base + bi) / BPB == base / BPB && (base + bi) % BPB == bi
  {
  }

  /** Every slot in use stays as it is. */
  ghost predicate Grows(sb: Super, f: Fs, g: Fs)
    requires Shaped(sb, f) && Shaped(sb, g)
  {
    && |f.inodes| == |g.inodes|
    && (forall i :: 0 <= i < |f.inodes| ==> g.inodes[i].size == f.inodes[i].size)
    && (forall s: Slot :: IsSlot(f, s) && Addr(sb, f, s) != 0 ==> Addr(sb, g, s) == Addr(sb, f, s))
  }

  ghost predicate Extends(a: map<nat, Slot>, b: map<nat, Slot>) {
    forall x :: x in a ==> x in b && b[x] == a[x]
  }

  /** The file block a data slot stands for. */
  function FileBlockOf(k: nat): int {
    if k < NDIRECT then k else k - 1
  }

  /** What writing file blocks lo..hi of inode inum may log: bitmap, inode, indirect and data blocks. */
  ghost predicate MayLog(sb: Super, owner: map<nat, Slot>, inum: nat, lo: nat, hi: nat, b: nat) {
    || (exists c: nat :: c < sb.size && b == sb.bmapstart + c / BPB)
    || b == sb.inodestart + inum / IPB
    || (b in owner && owner[b].inum == inum && (owner[b].k == NDIRECT || lo <= FileBlockOf(owner[b].k) < hi))
  }

  ghost predicate LogsOnly(sb: Super, was: set<nat>, now: set<nat>, owner: map<nat, Slot>, inum: nat, lo: nat,
          hi: nat) {
    forall b :: b in now && b !in was ==> MayLog(sb, owner, inum, lo, hi, b)
  }

  lemma LogsOnlyTwice(sb: Super, a: set<nat>, b: set<nat>, c: set<nat>, o: map<nat, Slot>, p: map<nat, Slot>,
                      inum: nat, lo: nat, mid: nat, hi: nat)
    requires LogsOnly(sb, a, b, o, inum, lo, mid) && LogsOnly(sb, b, c, p, inum, lo, hi)
    requires Extends(o, p) && mid <= hi
    ensures LogsOnly(sb, a, c, p, inum, lo, hi)
  {
    forall x | x in c && x !in a ensures MayLog(sb, p, inum, lo, hi, x) {
      if x in b {
        assert MayLog(sb, o, inum, lo, mid, x);
      }
    }
  }

  lemma EntryLogs(sb: Super, was: set<nat>, owner: map<nat, Slot>, inum: nat, bn: nat, b: nat, x: nat)
    requires b in owner && owner[b] == DataSlot(inum, bn) && x in owner && owner[x] == Slot(inum, NDIRECT)
    requires b < sb.size
    ensures LogsOnly(sb, was, was + {sb.bmapstart + b / BPB, b} + {x}, owner, inum, bn, bn + 1)
  {
  }

  ghost predicate OthersKept(a: seq<Inode>, b: seq<Inode>, inum: nat) {
    |a| == |b| && forall i :: 0 <= i < |a| && i != inum ==> b[i] == a[i]
  }

  /** Every data block is in use. */
  ghost predicate Full(sb: Super, owner: map<nat, Slot>) {
    forall b: nat :: sb.nmeta <= b < sb.size ==> b in owner
  }

  lemma GrowsByOne(sb: Super, f: Fs, h: Fs, g: Fs, x: Slot)
    requires Shaped(sb, f) && Shaped(sb, g) && Shaped(sb, h)
    requires SameSlots(sb, f, h) && SameSlotsBut(sb, h, g, x) && IsSlot(f, x) && Addr(sb, f, x) == 0
    requires forall i :: 0 <= i < |f.inodes| ==> g.inodes[i].size == f.inodes[i].size
    ensures SameSlotsBut(sb, f, g, x) && Grows(sb, f, g)
  {
  }

  lemma SameFilesTwice(sb: Super, f: Fs, h: Fs, g: Fs)
    requires Shaped(sb, f) && Shaped(sb, g) && Shaped(sb, h)
    requires SameFiles(sb, f, h) && SameFiles(sb, h, g)
    ensures SameFiles(sb, f, g)
  {
  }

  lemma SameSlotsTwice(sb: Super, f: Fs, h: Fs, g: Fs)
    requires Shaped(sb, f) && Shaped(sb, g) && Shaped(sb, h)
    requires SameSlots(sb, f, h) && SameSlots(sb, h, g)
    ensures SameSlots(sb, f, g)
  {
  }

  /** balloc into an empty inode slot keeps the invariant and every file. */
  lemma AllocSlotKeeps(sb: Super, f: Fs, owner: map<nat, Slot>, inum: nat, k: nat, b: nat)
    requires Inv(sb, f, owner) && inum < |f.inodes| && k <= NDIRECT && f.inodes[inum].addrs[k] == 0
    requires sb.nmeta <= b < sb.size && b !in owner
    ensures var ip := f.inodes[inum];
            var g := Fs(Allocated(sb, f.disk, b), f.inodes[inum := ip.(addrs := ip.addrs[k := b])]);
            && Inv(sb, g, owner[b := Slot(inum, k)])
            && Grows(sb, f, g) && SameFiles(sb, f, g)
            && SameSlotsBut(sb, f, g, Slot(inum, k)) && Addr(sb, g, Slot(inum, k)) == b
  {
    var ip := f.inodes[inum];
    var h := f.(disk := Allocated(sb, f.disk, b));
    var g := h.(inodes := f.inodes[inum := ip.(addrs := ip.addrs[k := b])]);
    assert g == Fs(Allocated(sb, f.disk, b), f.inodes[inum := ip.(addrs := ip.addrs[k := b])]);
    AllocatedKeeps(sb, f, owner, b);
    LinkInode(sb, h, owner, inum, k, b);
    GrowsByOne(sb, f, h, g, Slot(inum, k));
    SameFilesTwice(sb, f, h, g);
    AllocatedBits(sb, f.disk, owner.Keys, b);
    assert owner[b := Slot(inum, k)].Keys == owner.Keys + {b};
  }

  /** balloc into an empty entry of an indirect block keeps the invariant and every file. */
  lemma AllocEntryKeeps(sb: Super, f: Fs, owner: map<nat, Slot>, inum: nat, j: nat, b: nat)
    requires Inv(sb, f, owner) && inum < |f.inodes| && j < NINDIRECT && f.inodes[inum].addrs[NDIRECT] != 0
    requires Addr(sb, f, Slot(inum, NDIRECT + 1 + j)) == 0
    requires sb.nmeta <= b < sb.size && b !in owner
    ensures var x, t := f.inodes[inum].addrs[NDIRECT], Slot(inum, NDIRECT + 1 + j);
            var d := Allocated(sb, f.disk, b);
            var g := Fs(d[x := PutWord(d[x], j, b)], f.inodes);
            && Inv(sb, g, owner[b := t])
            && Grows(sb, f, g) && SameFiles(sb, f, g)
            && SameSlotsBut(sb, f, g, t) && Addr(sb, g, t) == b
  {
    var x, t := f.inodes[inum].addrs[NDIRECT], Slot(inum, NDIRECT + 1 + j);
    var d := Allocated(sb, f.disk, b);
    var h := f.(disk := d);
    var g := Fs(d[x := PutWord(d[x], j, b)], f.inodes);
    assert IsSlot(f, Slot(inum, NDIRECT)) && Addr(sb, f, Slot(inum, NDIRECT)) == x;
    AllocatedKeeps(sb, f, owner, b);
    LinkEntry(sb, h, owner, inum, j, b);
    assert g == h.(disk := d[x := PutWord(d[x], j, b)]);
    GrowsByOne(sb, f, h, g, t);
    SameFilesTwice(sb, f, h, g);
    assert Bits(sb, g.disk, owner[b := t].Keys) by {
      AllocatedBits(sb, f.disk, owner.Keys, b);
      BitsElsewhere(sb, d, owner.Keys + {b}, x, PutWord(d[x], j, b));
      assert owner[b := t].Keys == owner.Keys + {b};
    }
  }

  // -------------------------------------------------------------------- the block map

  /** The file system together with its ghost bookkeeping. */
  datatype Snap = Snap(fs: Fs, owner: map<nat, Slot>, logged: set<nat>)

  ghost predicate OnlyAdds(a: map<nat, Slot>, b: map<nat, Slot>, inum: nat, bn: nat) {
    forall x :: x in b && x !in a ==> b[x] == DataSlot(inum, bn) || b[x] == Slot(inum, NDIRECT)
  }

  /**
   What bmap of file block bn may do: allocate that block and the indirect block, changing no
   slot in use, no file's contents and no other inode.
   */
  ghost predicate Mapped(sb: Super, s: Snap, t: Snap, inum: nat, bn: nat) {
    && Inv(sb, s.fs, s.owner) && Inv(sb, t.fs, t.owner)
    && Grows(sb, s.fs, t.fs) && SameFiles(sb, s.fs, t.fs) && OthersKept(s.fs.inodes, t.fs.inodes, inum)
    && Extends(s.owner, t.owner) && OnlyAdds(s.owner, t.owner, inum, bn)
    && LogsOnly(sb, s.logged, t.logged, t.owner, inum, bn, bn + 1)
  }

  /** No block has been given up and nothing taken from the transaction. */
  ghost predicate Later(s: Snap, t: Snap) {
    Extends(s.owner, t.owner) && s.logged <= t.logged
  }

  /** A block has been allocated, and its bitmap block logged. */
  ghost predicate Claims(sb: Super, s: Snap, t: Snap, b: nat) {
    b < sb.size && b in t.owner && b !in s.owner && sb.bmapstart + b / BPB in t.logged
  }

  ghost predicate Claimed(sb: Super, s: Snap, t: Snap) {
    exists b: nat :: Claims(sb, s, t, b)
  }

  lemma ClaimedLater(sb: Super, s: Snap, u: Snap, t: Snap)
    requires Later(u, t)
    ensures Claimed(sb, s, u) ==> Claimed(sb, s, t)
  {
    if Claimed(sb, s, u) {
      var b: nat :| Claims(sb, s, u, b);
      assert Claims(sb, s, t, b);
    }
  }

  /** What bmap of a block with address `was` does: nothing, unless there is none and the disk has room. */
  ghost predicate Allocates(sb: Super, s: Snap, t: Snap, was: nat) {
    Later(s, t) && if was != 0 || Full(sb, s.owner) then t == s else Claimed(sb, s, t)
  }

  lemma SlotClaimed(sb: Super, s: Snap, inum: nat, k: nat, b: nat)
    requires Shaped(sb, s.fs) && inum < |s.fs.inodes| && k <= NDIRECT && sb.nmeta <= b < sb.size && b !in s.owner
    ensures Later(s, SlotAllocated(sb, s, inum, k, b)) && Claimed(sb, s, SlotAllocated(sb, s, inum, k, b))
    ensures !Full(sb, s.owner)
  {
    assert Claims(sb, s, SlotAllocated(sb, s, inum, k, b), b);
  }

  lemma EntryClaimed(sb: Super, s: Snap, inum: nat, x: nat, j: nat, b: nat)
    requires Shaped(sb, s.fs) && x < sb.size && j < NINDIRECT && sb.nmeta <= b < sb.size && b !in s.owner
    ensures Later(s, EntryAllocated(sb, s, inum, x, j, b)) && Claimed(sb, s, EntryAllocated(sb, s, inum, x, j, b))
    ensures !Full(sb, s.owner)
  {
    assert Claims(sb, s, EntryAllocated(sb, s, inum, x, j, b), b);
  }

  lemma MappedNothing(sb: Super, s: Snap, inum: nat, bn: nat)
    requires Inv(sb, s.fs, s.owner)
    ensures Mapped(sb, s, s, inum, bn)
  {
  }

  lemma MappedTwice(sb: Super, s: Snap, u: Snap, t: Snap, inum: nat, bn: nat)
    requires Mapped(sb, s, u, inum, bn) && Mapped(sb, u, t, inum, bn)
    ensures Mapped(sb, s, t, inum, bn)
  {
    GrowsTwice(sb, s.fs, u.fs, t.fs);
    SameFilesTwice(sb, s.fs, u.fs, t.fs);
    LogsOnlyTwice(sb, s.logged, u.logged, t.logged, u.owner, t.owner, inum, bn, bn + 1, bn + 1);
  }

  ghost function SlotAllocated(sb: Super, s: Snap, inum: nat, k: nat, b: nat): Snap
    requires Shaped(sb, s.fs) && inum < |s.fs.inodes| && k <= NDIRECT && b < sb.size
  {
    var ip := s.fs.inodes[inum];
    Snap(Fs(Allocated(sb, s.fs.disk, b), s.fs.inodes[inum := ip.(addrs := ip.addrs[k := b])]),
         s.owner[b := Slot(inum, k)],
         s.logged + {sb.bmapstart + b / BPB, b})
  }

  ghost function EntryAllocated(sb: Super, s: Snap, inum: nat, x: nat, j: nat, b: nat): Snap
    requires Shaped(sb, s.fs) && x < sb.size && j < NINDIRECT && b < sb.size
  {
    var d := Allocated(sb, s.fs.disk, b);
    Snap(Fs(d[x := PutWord(d[x], j, b)], s.fs.inodes),
         s.owner[b := Slot(inum, NDIRECT + 1 + j)],
         s.logged + {sb.bmapstart + b / BPB, b} + {x})
  }

  lemma SlotAllocatedMapped(sb: Super, s: Snap, inum: nat, k: nat, bn: nat, b: nat)
    requires Inv(sb, s.fs, s.owner) && inum < |s.fs.inodes| && k <= NDIRECT && s.fs.inodes[inum].addrs[k] == 0
    requires k == NDIRECT || k == bn
    requires sb.nmeta <= b < sb.size && b !in s.owner
    ensures var t := SlotAllocated(sb, s, inum, k, b);
            Mapped(sb, s, t, inum, bn) && Addr(sb, t.fs, Slot(inum, k)) == b
  {
    hide Bits, FileBlock, Word, Grows, SameFiles, BitAt;
    AllocSlotKeeps(sb, s.fs, s.owner, inum, k, b);
  }

  lemma EntryAllocatedMapped(sb: Super, s: Snap, inum: nat, bn: nat, b: nat)
    requires Inv(sb, s.fs, s.owner) && inum < |s.fs.inodes| && NDIRECT <= bn < MAXFILE
    requires s.fs.inodes[inum].addrs[NDIRECT] != 0 && Addr(sb, s.fs, DataSlot(inum, bn)) == 0
    requires sb.nmeta <= b < sb.size && b !in s.owner
    ensures var t := EntryAllocated(sb, s, inum, s.fs.inodes[inum].addrs[NDIRECT], bn - NDIRECT, b);
            Mapped(sb, s, t, inum, bn) && Addr(sb, t.fs, DataSlot(inum, bn)) == b
  {
    hide Bits, FileBlock, Word, Grows, SameFiles, BitAt;
    var x := s.fs.inodes[inum].addrs[NDIRECT];
    var t := EntryAllocated(sb, s, inum, x, bn - NDIRECT, b);
    assert IsSlot(s.fs, Slot(inum, NDIRECT)) && Addr(sb, s.fs, Slot(inum, NDIRECT)) == x;
    AllocEntryKeeps(sb, s.fs, s.owner, inum, bn - NDIRECT, b);
    EntryLogs(sb, s.logged, t.owner, inum, bn, b, x);
  }

  lemma EntryIsWord(sb: Super, s: Snap, u: Snap, inum: nat, bn: nat)
    requires Mapped(sb, s, u, inum, bn) && inum < |u.fs.inodes| && NDIRECT <= bn < MAXFILE
    ensures Inv(sb, u.fs, u.owner) && Shaped(sb, u.fs) && u.fs.inodes[inum].addrs[NDIRECT] < |u.fs.disk| == sb.size
    ensures u.fs.inodes[inum].addrs[NDIRECT] != 0 ==>
              Addr(sb, u.fs, DataSlot(inum, bn)) == Word(u.fs.disk[u.fs.inodes[inum].addrs[NDIRECT]], bn - NDIRECT)
  {
  }

  lemma EntryMapped(sb: Super, s: Snap, u: Snap, inum: nat, bn: nat, b: nat)
    requires Mapped(sb, s, u, inum, bn) && inum < |u.fs.inodes| && NDIRECT <= bn < MAXFILE
    requires u.fs.inodes[inum].addrs[NDIRECT] != 0 && Addr(sb, u.fs, DataSlot(inum, bn)) == 0
    requires sb.nmeta <= b < sb.size && b !in u.owner
    ensures var t := EntryAllocated(sb, u, inum, u.fs.inodes[inum].addrs[NDIRECT], bn - NDIRECT, b);
            Mapped(sb, s, t, inum, bn) && Addr(sb, t.fs, DataSlot(inum, bn)) == b
  {
    EntryAllocatedMapped(sb, u, inum, bn, b);
    MappedTwice(sb, s, u, EntryAllocated(sb, u, inum, u.fs.inodes[inum].addrs[NDIRECT], bn - NDIRECT, b), inum, bn);
  }

  // -------------------------------------------------------------------- reading and writing

  /** Storing data in a held data block changes that file block alone. */
  lemma StoreKeeps(sb: Super, f: Fs, owner: map<nat, Slot>, inum: nat, bn: nat, data: Block)
    requires Inv(sb, f, owner) && inum < |f.inodes| && bn < MAXFILE && Addr(sb, f, DataSlot(inum, bn)) != 0
    ensures var a := Addr(sb, f, DataSlot(inum, bn));
            && sb.nmeta <= a < sb.size && a in owner && owner[a] == DataSlot(inum, bn)
            && var g := f.(disk := f.disk[a := data]);
            && Inv(sb, g, owner) && SameSlots(sb, f, g) && Grows(sb, f, g)
            && FileBlock(sb, g, inum, bn) == data
            && (forall i: nat, c: nat :: i < |f.inodes| && c < MAXFILE && !(i == inum && c == bn) ==>
                  FileBlock(sb, g, i, c) == FileBlock(sb, f, i, c))
  {
    var a := Addr(sb, f, DataSlot(inum, bn));
    assert IsSlot(f, DataSlot(inum, bn));
    DiskChange(sb, f, owner, a, data);
    DataChange(sb, f, owner, a, data);
    BitsElsewhere(sb, f.disk, owner.Keys, a, data);
  }

  lemma GrowsTwice(sb: Super, f: Fs, h: Fs, g: Fs)
    requires Shaped(sb, f) && Shaped(sb, g) && Shaped(sb, h)
    requires Grows(sb, f, h) && Grows(sb, h, g)
    ensures Grows(sb, f, g)
  {
  }

  /** Reading inode inum changes no file, and nothing at all if the file has no holes. */
  ghost predicate Reading(sb: Super, s: Snap, t: Snap, inum: nat) {
    && Inv(sb, s.fs, s.owner) && Inv(sb, t.fs, t.owner) && inum < |s.fs.inodes|
    && Grows(sb, s.fs, t.fs) && SameFiles(sb, s.fs, t.fs)
    && (HoleFree(sb, s.fs, inum) ==> t == s)
  }

  /** The file blocks that hold want bytes from off on: one past the last. */
  function EndOfRead(off: nat, want: nat): nat {
    if want == 0 then off / BSIZE else (off + want - 1) / BSIZE + 1
  }

  ghost predicate HoleAt(sb: Super, f: Fs, inum: nat, bn: nat) {
    Shaped(sb, f) && inum < |f.inodes| && bn < MAXFILE && Addr(sb, f, DataSlot(inum, bn)) == 0
  }

  /** One of the file blocks lo..hi has no block. */
  ghost predicate HoleIn(sb: Super, f: Fs, inum: nat, lo: nat, hi: nat) {
    exists bn: nat :: lo <= bn < hi && HoleAt(sb, f, inum, bn)
  }

  /** Reading want bytes from off has to allocate: there is a hole among them, and a block to fill it with. */
  ghost predicate MustAllocate(sb: Super, s: Snap, inum: nat, off: nat, want: nat) {
    HoleIn(sb, s.fs, inum, off / BSIZE, EndOfRead(off, want)) && !Full(sb, s.owner)
  }

  /** ... and it does so then and only then. */
  ghost predicate FillsHoles(sb: Super, s: Snap, t: Snap, inum: nat, off: nat, want: nat) {
    if MustAllocate(sb, s, inum, off, want) then Claimed(sb, s, t) else t == s
  }

  lemma FillsNothing(sb: Super, s: Snap, inum: nat, off: nat)
    ensures FillsHoles(sb, s, s, inum, off, 0)
  {
  }

  /** One more block, of which k bytes are read. */
  lemma FillsMore(sb: Super, s: Snap, u: Snap, t: Snap, inum: nat, off: nat, got: nat, k: nat)
    requires Shaped(sb, s.fs) && Shaped(sb, u.fs) && inum < |s.fs.inodes| && inum < |u.fs.inodes|
    requires FillsHoles(sb, s, u, inum, off, got) && (off + got) / BSIZE < MAXFILE
    requires Allocates(sb, u, t, Addr(sb, u.fs, DataSlot(inum, (off + got) / BSIZE)))
    requires 0 < k <= BSIZE - (off + got) % BSIZE && (got > 0 ==> (off + got) % BSIZE == 0)
    ensures FillsHoles(sb, s, t, inum, off, got + k)
  {
    hide Claimed, Full, Addr;
    var bn := (off + got) / BSIZE;
    EndsOf(off, got, k);
    ClaimedLater(sb, s, u, t);
    var lo := off / BSIZE;
    assert HoleIn(sb, s.fs, inum, lo, bn) ==> HoleIn(sb, s.fs, inum, lo, bn + 1);
    if HoleIn(sb, s.fs, inum, lo, bn + 1) && !HoleIn(sb, s.fs, inum, lo, bn) {
      assert HoleAt(sb, s.fs, inum, bn);
    }
    assert HoleAt(sb, s.fs, inum, bn) ==> HoleIn(sb, s.fs, inum, lo, bn + 1);
  }

  lemma EndsOf(off: nat, got: nat, k: nat)
    requires 0 < k <= BSIZE - (off + got) % BSIZE && (got > 0 ==> (off + got) % BSIZE == 0)
    ensures EndOfRead(off, got) == (off + got) / BSIZE && EndOfRead(off, got + k) == (off + got) / BSIZE + 1
    ensures off / BSIZE <= (off + got) / BSIZE
  {
    var p := off + got;
    Common.Euclid(p, BSIZE);
    Common.DivUnique(p + k - 1, BSIZE, p / BSIZE, p % BSIZE + k - 1);
    if got > 0 {
      Common.DivUnique(p - 1, BSIZE, p / BSIZE - 1, BSIZE - 1);
    }
  }

  /** A read that ends early has met a hole when the disk was full. */
  lemma FillsRest(sb: Super, s: Snap, t: Snap, inum: nat, off: nat, got: nat, want: nat)
    requires FillsHoles(sb, s, t, inum, off, got) && got <= want && Full(sb, t.owner)
    ensures FillsHoles(sb, s, t, inum, off, want)
  {
    hide Claimed, Full;
    var lo := off / BSIZE;
    assert EndOfRead(off, got) <= EndOfRead(off, want);
    assert HoleIn(sb, s.fs, inum, lo, EndOfRead(off, got)) ==> HoleIn(sb, s.fs, inum, lo, EndOfRead(off, want));
  }

  lemma SliceOfSlice<T>(s: seq<T>, a: nat, b: nat, c: nat, d: nat)
    requires a <= b <= |s| && c <= d <= b - a
    ensures s[a..b][c..d] == s[a + c..a + d]
  {
    var x, y := s[a..b][c..d], s[a + c..a + d];
    forall k | 0 <= k < |x| ensures x[k] == y[k] {
      assert s[a..b][c + k] == s[a + c + k];
    }
  }

  lemma Adjacent<T>(s: seq<T>, a: nat, b: nat, c: nat)
    requires a <= b <= c <= |s|
    ensures s[a..b] + s[b..c] == s[a..c]
  {
  }

  /** `out` is what `flat` holds from offset off on. */
  ghost predicate Reads(flat: seq<Byte>, off: nat, out: seq<Byte>) {
    off + |out| <= |flat| && out == flat[off..off + |out|]
  }

  /** What bmap guarantees is enough to go on reading. */
  lemma StillReading(sb: Super, s: Snap, u: Snap, t: Snap, inum: nat, bn: nat)
    requires Reading(sb, s, u, inum) && Mapped(sb, u, t, inum, bn)
    requires bn < MAXFILE && bn * BSIZE < u.fs.inodes[inum].size
    requires Addr(sb, u.fs, DataSlot(inum, bn)) != 0 ==> t == u
    ensures Reading(sb, s, t, inum)
  {
    GrowsTwice(sb, s.fs, u.fs, t.fs);
    SameFilesTwice(sb, s.fs, u.fs, t.fs);
  }

  lemma ReadingShaped(sb: Super, s: Snap, t: Snap, inum: nat)
    requires Reading(sb, s, t, inum)
    ensures Shaped(sb, s.fs) && Shaped(sb, t.fs) && inum < |s.fs.inodes| == |t.fs.inodes|
  {
  }

  lemma ReadingStarts(sb: Super, s: Snap, inum: nat)
    requires Inv(sb, s.fs, s.owner) && inum < |s.fs.inodes|
    ensures Reading(sb, s, s, inum) && s.fs.inodes[inum].size <= MAXBYTES
  {
  }

  lemma ReadsNothing(flat: seq<Byte>, off: nat)
    requires off <= |flat|
    ensures Reads(flat, off, [])
  {
  }

  lemma BlockReads(sb: Super, s: Snap, t: Snap, inum: nat, bn: nat)
    requires Reading(sb, s, t, inum) && bn < MAXFILE && Addr(sb, t.fs, DataSlot(inum, bn)) != 0
    ensures Addr(sb, t.fs, DataSlot(inum, bn)) < sb.size
    ensures Reads(Flat(sb, s.fs, inum), bn * BSIZE, t.fs.disk[Addr(sb, t.fs, DataSlot(inum, bn))])
  {
    assert IsSlot(t.fs, DataSlot(inum, bn));
    FlatSame(sb, s.fs, t.fs, inum);
    FlatBlock(sb, t.fs, inum, bn);
  }

  /** How many bytes readi asks for: none beyond the end of the file or when off + n overflows. */
  function ReadLength(size: nat, off: nat, n: nat): nat {
    if off > size || off + n >= UINT then 0 else if off + n > size then size - off else n
  }

  /** off + n < off, in 32-bit arithmetic. */
  predicate Overflows(off: nat, n: nat)
    ensures off < UINT && n < UINT ==> (Overflows(off, n) <==> off + n >= UINT)
  {
    (off + n) % UINT < off
  }

  lemma ContentReads(sb: Super, f: Fs, inum: nat, off: nat, out: seq<Byte>)
    requires Shaped(sb, f) && inum < |f.inodes| && off + |out| <= f.inodes[inum].size <= MAXBYTES
    requires Reads(Flat(sb, f, inum), off, out)
    ensures Reads(Content(sb, f, inum), off, out)
  {
  }

  lemma ReadExtends(flat: seq<Byte>, off: nat, got: seq<Byte>, m: nat, block: Block)
    requires Reads(flat, off, got) && Reads(flat, (off + |got|) / BSIZE * BSIZE, block)
    requires (off + |got|) % BSIZE + m <= BSIZE
    ensures var o := (off + |got|) % BSIZE; Reads(flat, off, got + block[o..o + m])
  {
    var pos := off + |got|;
    var base, o := pos / BSIZE * BSIZE, pos % BSIZE;
    assert base + o == pos;
    SliceOfSlice(flat, base, base + BSIZE, o, o + m);
    Adjacent(flat, off, pos, pos + m);
  }

  /** Between off and off + n every file block is allocated. */
  ghost predicate Covered(sb: Super, fs: Fs, inum: nat, off: nat, n: nat)
    requires Shaped(sb, fs) && inum < |fs.inodes|
  {
    n > 0 ==> forall bn: nat :: bn < MAXFILE && off / BSIZE <= bn && bn * BSIZE < off + n ==>
                Addr(sb, fs, DataSlot(inum, bn)) != 0
  }

  lemma CoveredGrows(sb: Super, f: Fs, g: Fs, inum: nat, off: nat, n: nat, m: nat)
    requires Shaped(sb, f) && Shaped(sb, g) && Grows(sb, f, g) && inum < |f.inodes|
    requires Covered(sb, f, inum, off, n) && (off + n) % BSIZE + m <= BSIZE && off + n + m <= MAXBYTES
    requires m > 0 ==> Addr(sb, g, DataSlot(inum, (off + n) / BSIZE)) != 0
    ensures Covered(sb, g, inum, off, n + m)
  {
    forall bn: nat | n + m > 0 && bn < MAXFILE && off / BSIZE <= bn && bn * BSIZE < off + n + m
      ensures Addr(sb, g, DataSlot(inum, bn)) != 0
    {
      if n > 0 && bn * BSIZE < off + n {
        assert IsSlot(f, DataSlot(inum, bn));
      } else {
        assert bn == (off + n) / BSIZE;
      }
    }
  }

  /** A write at an offset within the file fills no more than the gap it covers. */
  lemma HoleFreeAfterWrite(sb: Super, f: Fs, g: Fs, inum: nat, off: nat, n: nat)
    requires Shaped(sb, f) && Shaped(sb, g) && |f.inodes| == |g.inodes| && inum < |f.inodes|
    requires forall s: Slot :: IsSlot(f, s) && Addr(sb, f, s) != 0 ==> Addr(sb, g, s) == Addr(sb, f, s)
    requires HoleFree(sb, f, inum) && off <= f.inodes[inum].size && Covered(sb, g, inum, off, n)
    requires g.inodes[inum].size == (if off + n > f.inodes[inum].size then off + n else f.inodes[inum].size)
    ensures HoleFree(sb, g, inum)
  {
    forall bn: nat | bn < MAXFILE && bn * BSIZE < g.inodes[inum].size ensures Addr(sb, g, DataSlot(inum, bn)) != 0 {
      if bn * BSIZE < f.inodes[inum].size {
        assert IsSlot(f, DataSlot(inum, bn));
      } else {
        assert off / BSIZE <= bn;
      }
    }
  }

  /** A write in progress: the first tot bytes of data are in place from offset off, and nothing else changed. */
  ghost predicate Writing(sb: Super, f: Fs, g: Fs, inum: nat, off: nat, data: seq<Byte>, tot: nat) {
    && Shaped(sb, f) && Shaped(sb, g) && inum < |f.inodes|
    && tot <= |data| && off + |data| <= MAXBYTES
    && Grows(sb, f, g) && OthersSame(sb, f, g, inum)
    && Covered(sb, g, inum, off, tot)
    && Flat(sb, g, inum) == Spliced(Flat(sb, f, inum), off, data[..tot])
  }

  lemma WritingStarts(sb: Super, f: Fs, inum: nat, off: nat, data: seq<Byte>)
    requires Shaped(sb, f) && inum < |f.inodes| && off + |data| <= MAXBYTES
    ensures Writing(sb, f, f, inum, off, data, 0)
  {
  }

  /** bmap on the way to the next chunk. */
  lemma WritingMapped(sb: Super, f: Fs, h: Fs, g: Fs, inum: nat, off: nat, data: seq<Byte>, tot: nat)
    requires Writing(sb, f, h, inum, off, data, tot) && Shaped(sb, g)
    requires Grows(sb, h, g) && SameFiles(sb, h, g) && OthersKept(h.inodes, g.inodes, inum)
    ensures Writing(sb, f, g, inum, off, data, tot)
  {
    GrowsTwice(sb, f, h, g);
    FlatSame(sb, h, g, inum);
    OthersSameTwice(sb, f, h, g, inum);
    forall bn: nat | tot > 0 && bn < MAXFILE && off / BSIZE <= bn && bn * BSIZE < off + tot
      ensures Addr(sb, g, DataSlot(inum, bn)) != 0
    {
      assert IsSlot(h, DataSlot(inum, bn));
    }
  }

  /** The next chunk stored in its block: the bytes of the file. */
  lemma StoredFlat(sb: Super, f: Fs, h: Fs, g: Fs, inum: nat, off: nat, data: seq<Byte>, tot: nat, m: nat)
    requires Shaped(sb, f) && Shaped(sb, h) && Shaped(sb, g) && inum < |f.inodes|
    requires |h.inodes| == |g.inodes| == |f.inodes|
    requires tot + m <= |data| && off + |data| <= MAXBYTES && 0 < m && (off + tot) % BSIZE + m <= BSIZE
    requires Flat(sb, h, inum) == Spliced(Flat(sb, f, inum), off, data[..tot])
    requires var bn := (off + tot) / BSIZE;
             && FileBlock(sb, g, inum, bn) == Spliced(FileBlock(sb, h, inum, bn), (off + tot) % BSIZE,
                 data[tot..tot + m])
             && (forall c: nat :: c < MAXFILE && c != bn ==> FileBlock(sb, g, inum, c) == FileBlock(sb, h, inum, c))
    ensures Flat(sb, g, inum) == Spliced(Flat(sb, f, inum), off, data[..tot + m])
  {
    var chunk := data[tot..tot + m];
    FlatPatched(sb, h, g, inum, off + tot, chunk);
    SplicedTwice(Flat(sb, f, inum), off, data[..tot], chunk);
    assert data[..tot] + chunk == data[..tot + m];
  }

  /** The next chunk stored in its block. */
  lemma WritingStored(sb: Super, f: Fs, h: Fs, owner: map<nat, Slot>, inum: nat, off: nat, data: seq<Byte>, tot: nat,
          m: nat)
    requires Writing(sb, f, h, inum, off, data, tot) && Inv(sb, h, owner)
    requires tot + m <= |data| && 0 < m && (off + tot) % BSIZE + m <= BSIZE
    requires Addr(sb, h, DataSlot(inum, (off + tot) / BSIZE)) != 0
    ensures var bn, o := (off + tot) / BSIZE, (off + tot) % BSIZE;
            var a := Addr(sb, h, DataSlot(inum, bn));
            && a < |h.disk| && a in owner && owner[a] == DataSlot(inum, bn)
            && var g := h.(disk := h.disk[a := Spliced(h.disk[a], o, data[tot..tot + m])]);
            Inv(sb, g, owner) && Writing(sb, f, g, inum, off, data, tot + m)
  {
    var bn, o := (off + tot) / BSIZE, (off + tot) % BSIZE;
    var a := Addr(sb, h, DataSlot(inum, bn));
    assert IsSlot(h, DataSlot(inum, bn));
    var patched: Block := Spliced(h.disk[a], o, data[tot..tot + m]);
    var g := h.(disk := h.disk[a := patched]);
    StoreKeeps(sb, h, owner, inum, bn, patched);
    assert Grows(sb, f, g) by { GrowsTwice(sb, f, h, g); }
    assert OthersSame(sb, f, g, inum) by { OthersSameTwice(sb, f, h, g, inum); }
    assert Covered(sb, g, inum, off, tot + m) by { CoveredGrows(sb, h, g, inum, off, tot, m); }
    StoredFlat(sb, f, h, g, inum, off, data, tot, m);
  }

  /** One past the last file block that n bytes at offset off touch. */
  function EndBlock(off: nat, n: nat): nat {
    if n == 0 then off / BSIZE else (off + n - 1) / BSIZE + 1
  }

  /** A write of data at off in progress, with its bookkeeping. */
  ghost predicate WritingSnap(sb: Super, s: Snap, t: Snap, inum: nat, off: nat, data: seq<Byte>, tot: nat) {
    && Inv(sb, s.fs, s.owner) && Inv(sb, t.fs, t.owner)
    && Writing(sb, s.fs, t.fs, inum, off, data, tot)
    && Extends(s.owner, t.owner)
    && LogsOnly(sb, s.logged, t.logged, t.owner, inum, off / BSIZE, EndBlock(off, |data|))
  }

  /**
   A finished write: tot bytes of data in place from offset off, the size covering them, holes
   neither read nor made, every other file as it was, and only blocks of this write logged.
   */
  ghost predicate Written(sb: Super, s: Snap, t: Snap, inum: nat, off: nat, data: seq<Byte>, tot: nat) {
    && Inv(sb, s.fs, s.owner) && Inv(sb, t.fs, t.owner) && inum < |s.fs.inodes| == |t.fs.inodes|
    && tot <= |data| && off + tot <= MAXBYTES
    && t.fs.inodes[inum].size == (if off + tot > s.fs.inodes[inum].size then off + tot else s.fs.inodes[inum].size)
    && Flat(sb, t.fs, inum) == Spliced(Flat(sb, s.fs, inum), off, data[..tot])
    && OthersSame(sb, s.fs, t.fs, inum)
    && (HoleFree(sb, s.fs, inum) ==> HoleFree(sb, t.fs, inum))
    && Extends(s.owner, t.owner)
    && LogsOnly(sb, s.logged, t.logged, t.owner, inum, off / BSIZE, EndBlock(off, |data|))
  }

  /** The contents are the old ones up to off, the bytes written, and the old ones behind them. */
  lemma WrittenContent(sb: Super, s: Snap, t: Snap, inum: nat, off: nat, data: seq<Byte>, tot: nat)
    requires Written(sb, s, t, inum, off, data, tot) && off <= s.fs.inodes[inum].size
    ensures Shaped(sb, s.fs) && s.fs.inodes[inum].size <= MAXBYTES
    ensures Shaped(sb, t.fs) && t.fs.inodes[inum].size <= MAXBYTES
    ensures var was := Content(sb, s.fs, inum);
            && |was| == s.fs.inodes[inum].size
            && Content(sb, t.fs, inum) ==
               was[..off] + data[..tot] + (if off + tot < |was| then was[off + tot..] else [])
  {
    hide Inv, Flat, OthersSame, HoleFree, LogsOnly, Extends;
    InvShaped(sb, s.fs, s.owner);
    InvShaped(sb, t.fs, t.owner);
  }

  lemma WritingBegins(sb: Super, s: Snap, inum: nat, off: nat, data: seq<Byte>)
    requires Inv(sb, s.fs, s.owner) && inum < |s.fs.inodes| && off + |data| <= MAXBYTES
    ensures WritingSnap(sb, s, s, inum, off, data, 0)
  {
    WritingStarts(sb, s.fs, inum, off, data);
  }

  lemma WritingSizes(sb: Super, s: Snap, t: Snap, inum: nat, off: nat, data: seq<Byte>, tot: nat)
    requires WritingSnap(sb, s, t, inum, off, data, tot)
    ensures Inv(sb, t.fs, t.owner) && inum < |s.fs.inodes| == |t.fs.inodes|
    ensures t.fs.inodes[inum].size == s.fs.inodes[inum].size && off + |data| <= MAXBYTES && tot <= |data|
  {
  }

  lemma LogsMore(sb: Super, a: set<nat>, b: set<nat>, o: map<nat, Slot>, inum: nat, lo: nat, hi: nat, bn: nat)
    requires LogsOnly(sb, a, b, o, inum, bn, bn + 1) && lo <= bn < hi
    ensures LogsOnly(sb, a, b, o, inum, lo, hi)
  {
    forall x | x in b && x !in a ensures MayLog(sb, o, inum, lo, hi, x) {
      assert MayLog(sb, o, inum, bn, bn + 1, x);
    }
  }

  lemma InvShaped(sb: Super, fs: Fs, owner: map<nat, Slot>)
    requires Inv(sb, fs, owner)
    ensures Shaped(sb, fs) && forall i :: 0 <= i < |fs.inodes| ==> fs.inodes[i].size <= MAXBYTES
  {
  }

  /** bmap of the block at position off + tot, with tot bytes written. */
  lemma WritingMappedSnap(sb: Super, s: Snap, u: Snap, t: Snap, inum: nat, off: nat, data: seq<Byte>, tot: nat)
    requires WritingSnap(sb, s, u, inum, off, data, tot) && tot < |data|
    requires Mapped(sb, u, t, inum, (off + tot) / BSIZE)
    ensures WritingSnap(sb, s, t, inum, off, data, tot)
  {
    hide Inv, Writing, Grows, SameFiles, OthersKept, LogsOnly;
    var lo, hi, bn := off / BSIZE, EndBlock(off, |data|), (off + tot) / BSIZE;
    assert lo <= bn < hi;
    InvShaped(sb, t.fs, t.owner);
    WritingMapped(sb, s.fs, u.fs, t.fs, inum, off, data, tot);
    LogsMore(sb, u.logged, t.logged, t.owner, inum, lo, hi, bn);
    LogsOnlyTwice(sb, s.logged, u.logged, t.logged, u.owner, t.owner, inum, lo, hi, hi);
  }

  /** The next m bytes stored in block a. */
  ghost function Stored(t: Snap, a: nat, o: nat, chunk: seq<Byte>): Snap
    requires a < |t.fs.disk| && o + |chunk| <= BSIZE
  {
    Snap(t.fs.(disk := t.fs.disk[a := Spliced(t.fs.disk[a], o, chunk)]), t.owner, t.logged + {a})
  }

  lemma LogsAdd(sb: Super, was: set<nat>, now: set<nat>, owner: map<nat, Slot>, inum: nat, lo: nat, hi: nat, b: nat)
    requires LogsOnly(sb, was, now, owner, inum, lo, hi)
    requires b == sb.inodestart + inum / IPB ||
             (b in owner && exists bn: nat :: lo <= bn < hi && owner[b] == DataSlot(inum, bn))
    ensures LogsOnly(sb, was, now + {b}, owner, inum, lo, hi)
  {
    assert MayLog(sb, owner, inum, lo, hi, b);
  }

  lemma WritingStoredSnap(sb: Super, s: Snap, t: Snap, inum: nat, off: nat, data: seq<Byte>, tot: nat, m: nat)
    requires WritingSnap(sb, s, t, inum, off, data, tot)
    requires 0 < m && tot + m <= |data| && (off + tot) % BSIZE + m <= BSIZE
    requires Addr(sb, t.fs, DataSlot(inum, (off + tot) / BSIZE)) != 0
    ensures var a := Addr(sb, t.fs, DataSlot(inum, (off + tot) / BSIZE));
            && a < |t.fs.disk|
            && WritingSnap(sb, s, Stored(t, a, (off + tot) % BSIZE, data[tot..tot + m]), inum, off, data, tot + m)
  {
    hide Inv, Writing, LogsOnly, Addr, Spliced, Extends;
    InvShaped(sb, t.fs, t.owner);
    WritingSizes(sb, s, t, inum, off, data, tot);
    var lo, hi, bn := off / BSIZE, EndBlock(off, |data|), (off + tot) / BSIZE;
    assert lo <= bn < hi;
    WritingStored(sb, s.fs, t.fs, t.owner, inum, off, data, tot, m);
    LogsAdd(sb, s.logged, t.logged, t.owner, inum, lo, hi, Addr(sb, t.fs, DataSlot(inum, bn)));
  }

  /** writei's last step: the size, and the inode's block. */
  ghost function Finished(sb: Super, t: Snap, inum: nat, end: nat): Snap
    requires inum < |t.fs.inodes|
  {
    var ip := t.fs.inodes[inum];
    Snap(Fs(t.fs.disk, if end > ip.size then t.fs.inodes[inum := ip.(size := end)] else t.fs.inodes),
         t.owner, t.logged + {sb.inodestart + inum / IPB})
  }

  lemma EndHoleFree(sb: Super, f: Fs, t: Fs, w: Fs, inum: nat, off: nat, data: seq<Byte>, tot: nat)
    requires Writing(sb, f, t, inum, off, data, tot) && Shaped(sb, w) && SameSlots(sb, t, w)
    requires HoleFree(sb, f, inum) && off <= f.inodes[inum].size
    requires w.inodes[inum].size == (if off + tot > f.inodes[inum].size then off + tot else f.inodes[inum].size)
    ensures HoleFree(sb, w, inum)
  {
    hide Word, Flat, Spliced, OthersSame;
    forall x: Slot | IsSlot(f, x) && Addr(sb, f, x) != 0 ensures Addr(sb, w, x) == Addr(sb, f, x) {
      assert IsSlot(t, x);
    }
    forall bn: nat | bn < MAXFILE && off / BSIZE <= bn && tot > 0 && bn * BSIZE < off + tot
      ensures Addr(sb, w, DataSlot(inum, bn)) != 0
    {
      assert IsSlot(t, DataSlot(inum, bn));
    }
    HoleFreeAfterWrite(sb, f, w, inum, off, tot);
  }

  /** The last step when the file has grown, or not. */
  lemma FinishedKeeps(sb: Super, t: Snap, inum: nat, end: nat)
    requires Inv(sb, t.fs, t.owner) && inum < |t.fs.inodes| && end <= MAXBYTES
    ensures var w := Finished(sb, t, inum, end);
            && Inv(sb, w.fs, w.owner) && Shaped(sb, t.fs) && Shaped(sb, w.fs)
            && OthersSame(sb, t.fs, w.fs, inum) && SameSlots(sb, t.fs, w.fs) && SameFiles(sb, t.fs, w.fs)
  {
    SizeChange(sb, t.fs, t.owner, inum, end);
    hide Links, Bits;
    assert t.fs == Fs(t.fs.disk, t.fs.inodes);
  }

  lemma WritingEnds(sb: Super, s: Snap, t: Snap, inum: nat, off: nat, data: seq<Byte>, tot: nat)
    requires WritingSnap(sb, s, t, inum, off, data, tot) && off <= s.fs.inodes[inum].size
    ensures Written(sb, s, Finished(sb, t, inum, off + tot), inum, off, data, tot)
  {
    hide Inv, Covered, LogsOnly, Spliced, OthersSame, SameSlots, SameFiles, HoleFree;
    var w := Finished(sb, t, inum, off + tot);
    FinishedKeeps(sb, t, inum, off + tot);
    OthersSameTwice(sb, s.fs, t.fs, w.fs, inum);
    FlatSame(sb, t.fs, w.fs, inum);
    if HoleFree(sb, s.fs, inum) {
      EndHoleFree(sb, s.fs, t.fs, w.fs, inum, off, data, tot);
    }
    LogsAdd(sb, s.logged, t.logged, t.owner, inum, off / BSIZE, EndBlock(off, |data|), sb.inodestart + inum / IPB);
  }

  // ------------------------------------------------------------------------ truncation

  /** `owner` without the blocks in slots lo..hi of inode inum. */
  ghost function Minus(owner: map<nat, Slot>, inum: nat, lo: nat, hi: nat): map<nat, Slot> {
    map b | b in owner && !(owner[b].inum == inum && lo <= owner[b].k < hi) :: owner[b]
  }

  /** Every other inode, and every block of every other file, is as it was. */
  ghost predicate OthersSame(sb: Super, f: Fs, g: Fs, inum: nat)
    requires Shaped(sb, f) && Shaped(sb, g)
  {
    && |g.inodes| == |f.inodes|
    && (forall i :: 0 <= i < |f.inodes| && i != inum ==> g.inodes[i] == f.inodes[i])
    && (forall i: nat, bn: nat :: i < |f.inodes| && i != inum && bn < MAXFILE ==>
          FileBlock(sb, g, i, bn) == FileBlock(sb, f, i, bn))
  }

  lemma OthersSameTwice(sb: Super, f: Fs, h: Fs, g: Fs, inum: nat)
    requires Shaped(sb, f) && Shaped(sb, h) && Shaped(sb, g)
    requires OthersSame(sb, f, h, inum) && OthersSame(sb, h, g, inum)
    ensures OthersSame(sb, f, g, inum)
  {
  }

  lemma MinusStep(sb: Super, f: Fs, owner: map<nat, Slot>, inum: nat, lo: nat, k: nat)
    requires Shaped(sb, f) && Links(sb, f, owner) && inum < |f.inodes| && lo <= k < SLOTS
    ensures var a, m := Addr(sb, f, Slot(inum, k)), Minus(owner, inum, lo, k);
            && (a == 0 ==> Minus(owner, inum, lo, k + 1) == m)
            && (a != 0 ==> Minus(owner, inum, lo, k + 1) == m - {a} && a in m && sb.nmeta <= a < sb.size)
  {
    assert IsSlot(f, Slot(inum, k));
  }

  lemma NothingMinus(owner: map<nat, Slot>, inum: nat, lo: nat)
    ensures Minus(owner, inum, lo, lo) == owner
  {
  }

  lemma SameAsItself(sb: Super, f: Fs, inum: nat)
    requires Shaped(sb, f)
    ensures OthersSame(sb, f, f, inum)
  {
  }

  lemma MinusMinus(owner: map<nat, Slot>, inum: nat, lo: nat, mid: nat, hi: nat)
    requires lo <= mid <= hi
    ensures Minus(Minus(owner, inum, lo, mid), inum, mid, hi) == Minus(owner, inum, lo, hi)
  {
  }

  /** Clearing a direct slot whose block has been freed. */
  lemma UnlinkDirect(sb: Super, f: Fs, owner: map<nat, Slot>, inum: nat, k: nat)
    requires Shaped(sb, f) && Links(sb, f, owner) && inum < |f.inodes| && k < NDIRECT
    ensures var ip := f.inodes[inum];
            var g := f.(inodes := f.inodes[inum := ip.(addrs := ip.addrs[k := 0])]);
            && Shaped(sb, g) && Links(sb, g, Minus(owner, inum, k, k + 1)) && OthersSame(sb, f, g, inum)
  {
    hide Word;
    var ip := f.inodes[inum];
    var g := f.(inodes := f.inodes[inum := ip.(addrs := ip.addrs[k := 0])]);
    forall s: Slot | IsSlot(f, s) && s != Slot(inum, k) ensures Addr(sb, g, s) == Addr(sb, f, s) { }
    LinksAfterUnlink(sb, f, g, owner, inum, k, k + 1);
  }

  /** Clearing the indirect slot drops the indirect block and all its entries. */
  lemma UnlinkIndirect(sb: Super, f: Fs, owner: map<nat, Slot>, inum: nat)
    requires Shaped(sb, f) && Links(sb, f, owner) && inum < |f.inodes|
    ensures var ip := f.inodes[inum];
            var g := f.(inodes := f.inodes[inum := ip.(addrs := ip.addrs[NDIRECT := 0])]);
            && Shaped(sb, g) && Links(sb, g, Minus(owner, inum, NDIRECT, SLOTS)) && OthersSame(sb, f, g, inum)
  {
    var ip := f.inodes[inum];
    var g := f.(inodes := f.inodes[inum := ip.(addrs := ip.addrs[NDIRECT := 0])]);
    LinksAfterUnlink(sb, f, g, owner, inum, NDIRECT, SLOTS);
  }

  lemma LinksAfterUnlink(sb: Super, f: Fs, g: Fs, owner: map<nat, Slot>, inum: nat, lo: nat, hi: nat)
    requires Shaped(sb, f) && Shaped(sb, g) && Links(sb, f, owner) && |f.inodes| == |g.inodes|
    requires forall s: Slot :: IsSlot(f, s) ==>
               Addr(sb, g, s) == if s.inum == inum && lo <= s.k < hi then 0 else Addr(sb, f, s)
    ensures Links(sb, g, Minus(owner, inum, lo, hi))
  {
  }

  /** An inode's size can change without any slot, file block or bit changing. */
  lemma SizeChange(sb: Super, f: Fs, owner: map<nat, Slot>, inum: nat, size: nat)
    requires Inv(sb, f, owner) && inum < |f.inodes| && size <= MAXFILE * BSIZE
    ensures var g := f.(inodes := f.inodes[inum := f.inodes[inum].(size := size)]);
            && Inv(sb, g, owner) && OthersSame(sb, f, g, inum)
            && SameSlots(sb, f, g) && SameFiles(sb, f, g)
  {
    var g := f.(inodes := f.inodes[inum := f.inodes[inum].(size := size)]);
    forall s: Slot | IsSlot(f, s) ensures Addr(sb, g, s) == Addr(sb, f, s) { }
    assert Links(sb, g, owner);
  }

  /** The blocks in the first j entries of inum's indirect block have been freed, and nothing else has changed. */
  ghost predicate Drained(sb: Super, f: Fs, g: Fs, owner: map<nat, Slot>, inum: nat, j: nat)
    requires Shaped(sb, f)
  {
    && Shaped(sb, g) && Links(sb, g, owner) && g.inodes == f.inodes
    && SameSlots(sb, f, g) && SameFiles(sb, f, g)
    && Bits(sb, g.disk, Minus(owner, inum, NDIRECT + 1, NDIRECT + 1 + j).Keys)
  }

  /** Freeing an inode's indirect block after all its entries. */
  lemma DropIndirect(sb: Super, f: Fs, h: Fs, owner: map<nat, Slot>, inum: nat)
    requires Inv(sb, f, owner) && inum < |f.inodes| && f.inodes[inum].addrs[NDIRECT] != 0
    requires Shaped(sb, h) && Links(sb, h, owner) && h.inodes == f.inodes && SameFiles(sb, f, h)
    requires Bits(sb, h.disk, Minus(owner, inum, NDIRECT + 1, SLOTS).Keys - {f.inodes[inum].addrs[NDIRECT]})
    ensures var ip := f.inodes[inum];
            var g := h.(inodes := h.inodes[inum := ip.(addrs := ip.addrs[NDIRECT := 0])]);
            Inv(sb, g, Minus(owner, inum, NDIRECT, SLOTS)) && OthersSame(sb, f, g, inum)
  {
    var ip := f.inodes[inum];
    var x := ip.addrs[NDIRECT];
    var g := h.(inodes := h.inodes[inum := ip.(addrs := ip.addrs[NDIRECT := 0])]);
    UnlinkIndirect(sb, h, owner, inum);
    OthersSameTwice(sb, f, h, g, inum);
    assert IsSlot(f, Slot(inum, NDIRECT)) && Addr(sb, f, Slot(inum, NDIRECT)) == x;
    assert Minus(owner, inum, NDIRECT + 1, SLOTS).Keys - {x} == Minus(owner, inum, NDIRECT, SLOTS).Keys;
  }

  class FileSystem {
    const sb: Super
    var disk: seq<Block>
    var inodes: seq<Inode>
    ghost var owner: map<nat, Slot>
    ghost var logged: set<nat>

    ghost function State(): Fs
      reads this`disk, this`inodes
    {
      Fs(disk, inodes)
    }

    ghost function Snapshot(): Snap
      reads this`disk, this`inodes, this`owner, this`logged
    {
      Snap(Fs(disk, inodes), owner, logged)
    }

    ghost predicate Valid()
      reads this
    {
      Inv(sb, State(), owner)
    }

    /** A file system as it is on a disk. */
    constructor (sb: Super, disk: seq<Block>, inodes: seq<Inode>, ghost owner: map<nat, Slot>)
      ensures this.sb == sb && Snapshot() == Snap(Fs(disk, inodes), owner, {})
    {
      this.sb, this.disk, this.inodes, this.owner := sb, disk, inodes, owner;
      logged := {};
    }

    // ------------------------------------------------------------------ block allocator

    /** The lowest free block, marked in use and zeroed; 0 if there is none. */
    method Balloc(ghost held: set<nat>) returns (b: nat)
      requires sb.Ok() && |disk| == sb.size && Bits(sb, disk, held)
      modifies this`disk, this`logged
      ensures b == 0 ==> disk == old(disk) && logged == old(logged)
      ensures b == 0 ==> forall c: nat :: sb.nmeta <= c < sb.size ==> c in held
      ensures b != 0 ==> sb.nmeta <= b < sb.size && b !in held && disk == Allocated(sb, old(disk), b)
      ensures b != 0 ==> forall c: nat :: sb.nmeta <= c < b ==> c in held
      ensures b != 0 ==> Bits(sb, disk, held + {b})
      ensures b != 0 ==> logged == old(logged) + {sb.bmapstart + b / BPB, b}
    {
      hide Bits, Allocated;
      var base := 0;
      while base < sb.size
        invariant base % BPB == 0
        invariant forall c: nat :: sb.nmeta <= c < base && c < sb.size ==> c in held
        invariant disk == old(disk) && logged == old(logged)
        decreases sb.size - base
      {
        var bi := FirstClear(base, held);
        if bi < BPB && base + bi < sb.size {
          b := base + bi;
          MarkAndZero(b, held);
          return;
        }
        base := base + BPB;
      }
      b := 0;
    }

    /** balloc's inner loop: the first clear bit of one bitmap block, or the end of the block or disk. */
    method FirstClear(base: nat, ghost held: set<nat>) returns (bi: nat)
      requires sb.Ok() && |disk| == sb.size && Bits(sb, disk, held) && base % BPB == 0 && base < sb.size
      ensures bi <= BPB && base + bi <= sb.size
      ensures bi < BPB && base + bi < sb.size ==> sb.nmeta <= base + bi && base + bi !in held
      ensures forall c: nat :: sb.nmeta <= c && base <= c < base + bi ==> c in held
    {
      bi := 0;
      while bi < BPB && base + bi < sb.size
        invariant 0 <= bi <= BPB && base + bi <= sb.size
        invariant forall c: nat :: sb.nmeta <= c && base <= c < base + bi ==> c in held
      {
        BitmapIndex(base, bi);
        assert BitAt(sb, disk, base + bi) == BitOf(disk[sb.bmapstart + base / BPB], bi);
        if !BitOf(disk[sb.bmapstart + base / BPB], bi) {
          return;
        }
        bi := bi + 1;
      }
    }

    /** balloc's update of the bitmap block, then bzero. */
    method MarkAndZero(b: nat, ghost held: set<nat>)
      requires sb.Ok() && |disk| == sb.size && Bits(sb, disk, held) && sb.nmeta <= b < sb.size
      modifies this`disk, this`logged
      ensures disk == Allocated(sb, old(disk), b) && Bits(sb, disk, held + {b})
      ensures logged == old(logged) + {sb.bmapstart + b / BPB, b}
    {
      AllocatedBits(sb, disk, held, b);
      var bp := disk[sb.bmapstart + b / BPB];
      disk := disk[sb.bmapstart + b / BPB := SetBit(bp, b % BPB, true)];
      logged := logged + {sb.bmapstart + b / BPB};
      Bzero(b);
    }

    method Bzero(b: nat)
      requires b < |disk|
      modifies this`disk, this`logged
      ensures disk == old(disk)[b := Zero()] && logged == old(logged) + {b}
    {
      var bp := disk[b];
      var i := 0;
      while i < BSIZE
        invariant 0 <= i <= BSIZE
        invariant |bp| == BSIZE && forall j :: 0 <= j < i ==> bp[j] == 0
      {
        bp := bp[i := 0];
        i := i + 1;
      }
      ZeroIsUnique(bp);
      disk := disk[b := bp];
      logged := logged + {b};
    }

    /** False where the source panics: freeing a free block. */
    method Bfree(b: nat, ghost held: set<nat>) returns (ok: bool)
      requires sb.Ok() && |disk| == sb.size && Bits(sb, disk, held) && b < sb.size
      modifies this`disk, this`logged
      ensures ok <==> b < sb.nmeta || b in held
      ensures ok ==> disk == WithBit(sb, old(disk), b, false)
      ensures ok && b in held ==> Bits(sb, disk, held - {b})
      ensures ok ==> logged == old(logged) + {sb.bmapstart + b / BPB}
    {
      var bp := disk[sb.bmapstart + b / BPB];
      var bi := b % BPB;
      if !BitOf(bp, bi) {
        assert !BitAt(sb, disk, b);
        return false;
      }
      assert BitAt(sb, disk, b);
      WithBitBits(sb, disk, b, false);
      disk := disk[sb.bmapstart + b / BPB := SetBit(bp, bi, false)];
      logged := logged + {sb.bmapstart + b / BPB};
      ok := true;
    }

    // ---------------------------------------------------------------------- block map

    /** Give empty inode slot k (direct, or the indirect block's) a fresh block. */
    method AllocSlot(inum: nat, k: nat) returns (addr: nat)
      requires Valid() && inum < |inodes| && k <= NDIRECT
      modifies this`disk, this`inodes, this`owner, this`logged
      ensures addr == 0 ==> Snapshot() == old(Snapshot()) && Full(sb, owner)
      ensures addr != 0 ==> sb.nmeta <= addr < sb.size && addr !in old(owner)
      ensures addr != 0 ==> Snapshot() == SlotAllocated(sb, old(Snapshot()), inum, k, addr)
    {
      addr := Balloc(owner.Keys);
      if addr != 0 {
        var ip := inodes[inum];
        inodes := inodes[inum := ip.(addrs := ip.addrs[k := addr])];
        owner := owner[addr := Slot(inum, k)];
      }
    }

    /** Give empty entry j of the indirect block x a fresh block. */
    method AllocEntry(inum: nat, x: nat, j: nat) returns (addr: nat)
      requires Valid() && x < sb.size && j < NINDIRECT
      modifies this`disk, this`owner, this`logged
      ensures addr == 0 ==> Snapshot() == old(Snapshot()) && Full(sb, owner)
      ensures addr != 0 ==> sb.nmeta <= addr < sb.size && addr !in old(owner)
      ensures addr != 0 ==> Snapshot() == EntryAllocated(sb, old(Snapshot()), inum, x, j, addr)
    {
      addr := Balloc(owner.Keys);
      if addr != 0 {
        disk := disk[x := PutWord(disk[x], j, addr)];
        logged := logged + {x};
        owner := owner[addr := Slot(inum, NDIRECT + 1 + j)];
      }
    }

    /**
     The disk block of file block bn, allocated (zeroed) if there was none; 0 if the disk is
     full. No file's contents change, and no slot in use changes.
     */
    method Bmap(inum: nat, bn: nat) returns (addr: nat)
      requires Valid() && inum < |inodes| && bn < MAXFILE
      modifies this`disk, this`inodes, this`owner, this`logged
      ensures Mapped(sb, old(Snapshot()), Snapshot(), inum, bn)
      ensures addr == 0 ==> Full(sb, owner)
      ensures addr != 0 ==> addr == Addr(sb, State(), DataSlot(inum, bn))
      ensures Addr(sb, old(State()), DataSlot(inum, bn)) != 0 ==> addr != 0 && Snapshot() == old(Snapshot())
      ensures Allocates(sb, old(Snapshot()), Snapshot(), Addr(sb, old(State()), DataSlot(inum, bn)))
    {
      hide Claimed, Full;
      MappedNothing(sb, Snapshot(), inum, bn);
      if bn < NDIRECT {
        addr := inodes[inum].addrs[bn];
        if addr == 0 {
          addr := AllocSlot(inum, bn);
          if addr != 0 {
            SlotClaimed(sb, old(Snapshot()), inum, bn, addr);
            SlotAllocatedMapped(sb, old(Snapshot()), inum, bn, bn, addr);
          }
        }
        return;
      }
      addr := inodes[inum].addrs[NDIRECT];
      if addr == 0 {
        assert Addr(sb, State(), DataSlot(inum, bn)) == 0;
        addr := AllocSlot(inum, NDIRECT);
        if addr == 0 {
          return;
        }
        SlotClaimed(sb, old(Snapshot()), inum, NDIRECT, addr);
        SlotAllocatedMapped(sb, old(Snapshot()), inum, NDIRECT, bn, addr);
      }
      ghost var u := Snapshot();
      addr := BmapEntry(inum, bn, addr, old(Snapshot()));
      ClaimedLater(sb, old(Snapshot()), u, Snapshot());
    }

    /** The last step of bmap: the entry of a loaded indirect block x. */
    method BmapEntry(inum: nat, bn: nat, x: nat, ghost was: Snap) returns (addr: nat)
      requires Mapped(sb, was, Snapshot(), inum, bn)
      requires inum < |inodes| && NDIRECT <= bn < MAXFILE && 0 != x == inodes[inum].addrs[NDIRECT]
      modifies this`disk, this`inodes, this`owner, this`logged
      ensures Mapped(sb, was, Snapshot(), inum, bn)
      ensures addr == 0 ==> Full(sb, owner)
      ensures addr != 0 ==> addr == Addr(sb, State(), DataSlot(inum, bn))
      ensures Addr(sb, old(State()), DataSlot(inum, bn)) != 0 ==> addr != 0 && Snapshot() == old(Snapshot())
      ensures Allocates(sb, old(Snapshot()), Snapshot(), Addr(sb, old(State()), DataSlot(inum, bn)))
    {
      hide Mapped, Inv, Addr, Word, EntryAllocated, Full, Claimed;
      EntryIsWord(sb, was, Snapshot(), inum, bn);
      addr := Word(disk[x], bn - NDIRECT);
      if addr == 0 {
        addr := AllocEntry(inum, x, bn - NDIRECT);
        if addr != 0 {
          EntryClaimed(sb, old(Snapshot()), inum, x, bn - NDIRECT, addr);
          EntryMapped(sb, was, old(Snapshot()), inum, bn, addr);
        }
      }
    }

    // --------------------------------------------------------------------- truncation

    /** bfree, for a block the bitmap is known to mark: its panic is unreachable. */
    method BfreeHeld(b: nat, ghost held: set<nat>)
      requires sb.Ok() && |disk| == sb.size && Bits(sb, disk, held) && b in held
      requires Shaped(sb, State()) && Links(sb, State(), owner)
      modifies this`disk, this`logged
      ensures |disk| == sb.size && Bits(sb, disk, held - {b})
      ensures Shaped(sb, State()) && Links(sb, State(), owner)
      ensures SameSlots(sb, old(State()), State()) && SameFiles(sb, old(State()), State())
      ensures forall c: nat :: sb.nmeta <= c < sb.size ==> disk[c] == old(disk)[c]
      ensures logged == old(logged) + {sb.bmapstart + b / BPB}
    {
      BitmapChange(sb, State(), owner, b, false);
      var ok := Bfree(b, held);
      assert ok;
      assert b / BPB <= sb.size / BPB;
    }

    method FreeDirect(inum: nat)
      requires Valid() && inum < |inodes|
      modifies this`disk, this`inodes, this`owner, this`logged
      ensures Valid() && OthersSame(sb, old(State()), State(), inum)
      ensures inodes[inum].size == old(inodes)[inum].size
      ensures forall k :: 0 <= k < NDIRECT ==> inodes[inum].addrs[k] == 0
      ensures inodes[inum].addrs[NDIRECT] == old(inodes)[inum].addrs[NDIRECT]
      ensures owner == Minus(old(owner), inum, 0, NDIRECT)
    {
      hide Links, Bits, Minus, FileBlock;
      NothingMinus(owner, inum, 0);
      SameAsItself(sb, State(), inum);
      var i := 0;
      while i < NDIRECT
        invariant 0 <= i <= NDIRECT
        invariant Valid() && OthersSame(sb, old(State()), State(), inum)
        invariant inodes[inum].size == old(inodes)[inum].size
        invariant forall k :: 0 <= k < i ==> inodes[inum].addrs[k] == 0
        invariant inodes[inum].addrs[NDIRECT] == old(inodes)[inum].addrs[NDIRECT]
        invariant owner == Minus(old(owner), inum, 0, i)
      {
        ghost var h := State();
        FreeDirectSlot(inum, i);
        OthersSameTwice(sb, old(State()), h, State(), inum);
        MinusMinus(old(owner), inum, 0, i, i + 1);
        i := i + 1;
      }
    }

    method FreeDirectSlot(inum: nat, i: nat)
      requires Valid() && inum < |inodes| && i < NDIRECT
      modifies this`disk, this`inodes, this`owner, this`logged
      ensures Valid() && OthersSame(sb, old(State()), State(), inum)
      ensures inodes[inum] == old(inodes)[inum].(addrs := old(inodes)[inum].addrs[i := 0])
      ensures owner == Minus(old(owner), inum, i, i + 1)
    {
      hide Bits, FileBlock, Word;
      ghost var f := State();
      MinusStep(sb, f, owner, inum, i, i);
      assert Minus(owner, inum, i, i) == owner;
      var b := inodes[inum].addrs[i];
      assert Addr(sb, f, Slot(inum, i)) == b;
      if b != 0 {
        BfreeHeld(b, owner.Keys);
        ghost var h := State();
        var ip := inodes[inum];
        UnlinkDirect(sb, h, owner, inum, i);
        inodes := inodes[inum := ip.(addrs := ip.addrs[i := 0])];
        OthersSameTwice(sb, f, h, State(), inum);
        owner := Minus(owner, inum, i, i + 1);
      }
    }

    method FreeIndirect(inum: nat)
      requires Valid() && inum < |inodes|
      modifies this`disk, this`inodes, this`owner, this`logged
      ensures Valid() && OthersSame(sb, old(State()), State(), inum)
      ensures inodes[inum] == old(inodes)[inum].(addrs := old(inodes)[inum].addrs[NDIRECT := 0])
      ensures owner == Minus(old(owner), inum, NDIRECT, SLOTS)
    {
      hide Bits, FileBlock, Word;
      ghost var f := State();
      var x := inodes[inum].addrs[NDIRECT];
      assert IsSlot(f, Slot(inum, NDIRECT)) && Addr(sb, f, Slot(inum, NDIRECT)) == x;
      if x != 0 {
        FreeEntries(inum);
        BfreeHeld(x, Minus(owner, inum, NDIRECT + 1, SLOTS).Keys);
        DropIndirect(sb, f, State(), owner, inum);
        var ip := inodes[inum];
        inodes := inodes[inum := ip.(addrs := ip.addrs[NDIRECT := 0])];
        owner := Minus(owner, inum, NDIRECT, SLOTS);
      } else {
        assert Minus(owner, inum, NDIRECT, SLOTS) == owner;
      }
    }

    /** Free every block the indirect block lists; the entries themselves are not cleared. */
    method FreeEntries(inum: nat)
      requires Valid() && inum < |inodes| && inodes[inum].addrs[NDIRECT] != 0
      modifies this`disk, this`logged
      ensures Drained(sb, old(State()), State(), owner, inum, NINDIRECT)
    {
      ghost var f := State();
      var x := inodes[inum].addrs[NDIRECT];
      assert IsSlot(f, Slot(inum, NDIRECT)) && Addr(sb, f, Slot(inum, NDIRECT)) == x;
      var a := disk[x];
      assert Minus(owner, inum, NDIRECT + 1, NDIRECT + 1) == owner;
      var j := 0;
      while j < NINDIRECT
        invariant 0 <= j <= NINDIRECT
        invariant Drained(sb, f, State(), owner, inum, j) && disk[x] == a
      {
        FreeEntry(inum, j, a, f);
        j := j + 1;
      }
    }

    method FreeEntry(inum: nat, j: nat, a: Block, ghost f: Fs)
      requires Shaped(sb, f) && Drained(sb, f, State(), owner, inum, j)
      requires inum < |inodes| && j < NINDIRECT && sb.nmeta <= inodes[inum].addrs[NDIRECT]
      requires a == disk[inodes[inum].addrs[NDIRECT]]
      modifies this`disk, this`logged
      ensures Drained(sb, f, State(), owner, inum, j + 1)
      ensures disk[inodes[inum].addrs[NDIRECT]] == a
    {
      ghost var k, h := NDIRECT + 1 + j, State();
      MinusStep(sb, State(), owner, inum, NDIRECT + 1, k);
      assert Addr(sb, State(), Slot(inum, k)) == Word(a, j);
      if Word(a, j) != 0 {
        ghost var m := Minus(owner, inum, NDIRECT + 1, k);
        assert (m - {Word(a, j)}).Keys == m.Keys - {Word(a, j)};
        BfreeHeld(Word(a, j), m.Keys);
        SameFilesTwice(sb, f, h, State());
        SameSlotsTwice(sb, f, h, State());
      }
    }

    /**
     Discard the contents of an inode: exactly its blocks are freed, none twice, and no other
     file changes.
     */
    method Itrunc(inum: nat)
      requires Valid() && inum < |inodes|
      modifies this`disk, this`inodes, this`owner, this`logged
      ensures Valid() && OthersSame(sb, old(State()), State(), inum)
      ensures inodes[inum].size == 0 && forall k :: 0 <= k <= NDIRECT ==> inodes[inum].addrs[k] == 0
      ensures owner == Minus(old(owner), inum, 0, SLOTS)
    {
      ghost var f := State();
      FreeDirect(inum);
      ghost var h := State();
      FreeIndirect(inum);
      ghost var g := State();
      OthersSameTwice(sb, f, h, g, inum);
      MinusMinus(old(owner), inum, 0, NDIRECT, SLOTS);
      SizeChange(sb, g, owner, inum, 0);
      inodes := inodes[inum := inodes[inum].(size := 0)];
      OthersSameTwice(sb, f, g, State(), inum);
      Iupdate(inum);
    }

    /** The inode's copy in its inode block joins the transaction. */
    method Iupdate(inum: nat)
      modifies this`logged
      ensures logged == old(logged) + {sb.inodestart + inum / IPB}
    {
      logged := logged + {sb.inodestart + inum / IPB};
    }

    // ------------------------------------------------------------- reading and writing

    /**
     Up to n bytes from offset off: the slice of the contents clipped to the file, all of it
     unless the disk is full. A file without holes is read without allocating anything.
     */
    method Readi(inum: nat, off: nat, n: nat) returns (out: seq<Byte>)
      requires Valid() && inum < |inodes| && off < UINT && n < UINT
      modifies this`disk, this`inodes, this`owner, this`logged
      ensures Reading(sb, old(Snapshot()), Snapshot(), inum)
      ensures var want := ReadLength(old(inodes)[inum].size, off, n);
              && |out| <= want
              && (want > 0 ==> Reads(Content(sb, old(State()), inum), off, out))
              && (|out| < want ==> Full(sb, owner) && !HoleFree(sb, old(State()), inum))
      ensures FillsHoles(sb, old(Snapshot()), Snapshot(), inum, off, ReadLength(old(inodes)[inum].size, off, n))
    {
      hide FillsHoles, Reading, Reads, Full, HoleFree, Content;
      ReadingStarts(sb, Snapshot(), inum);
      out := [];
      var size := inodes[inum].size;
      if off > size || Overflows(off, n) {
        FillsNothing(sb, Snapshot(), inum, off);
        return;
      }
      var want := n;
      if off + n > size {
        want := size - off;
      }
      out := ReadRange(inum, off, want);
    }

    /** readi's loop, on a range inside the file. */
    method ReadRange(inum: nat, off: nat, want: nat) returns (out: seq<Byte>)
      requires Valid() && inum < |inodes| && off + want <= inodes[inum].size
      modifies this`disk, this`inodes, this`owner, this`logged
      ensures Reading(sb, old(Snapshot()), Snapshot(), inum)
      ensures |out| <= want && Reads(Content(sb, old(State()), inum), off, out)
      ensures |out| < want ==> Full(sb, owner) && !HoleFree(sb, old(State()), inum)
      ensures FillsHoles(sb, old(Snapshot()), Snapshot(), inum, off, want)
    {
      hide FillsHoles, Full, HoleFree, Reading, Reads, Flat, Inv, Content;
      ghost var s := Snapshot();
      ReadingStarts(sb, s, inum);
      ReadingShaped(sb, s, s, inum);
      ghost var flat := Flat(sb, State(), inum);
      ReadsNothing(flat, off);
      FillsNothing(sb, s, inum, off);
      out := [];
      var more := true;
      while |out| < want && more
        invariant |out| <= want && FillsHoles(sb, s, Snapshot(), inum, off, if more then |out| else want)
        invariant more && 0 < |out| < want ==> (off + |out|) % BSIZE == 0
        invariant Reading(sb, s, Snapshot(), inum) && Reads(flat, off, out)
        invariant !more ==> Full(sb, owner) && !HoleFree(sb, s.fs, inum)
        decreases want - |out|, more
      {
        out, more := ReadChunk(inum, off, want, out, s, flat);
      }
      ContentReads(sb, s.fs, inum, off, out);
    }

    /** One pass of readi's loop; `more` is false where it breaks off because the disk is full. */
    method ReadChunk(inum: nat, off: nat, want: nat, got: seq<Byte>, ghost s: Snap, ghost flat: seq<Byte>)
      returns (out: seq<Byte>, more: bool)
      requires Reading(sb, s, Snapshot(), inum) && flat == Flat(sb, s.fs, inum)
      requires |got| < want && off + want <= s.fs.inodes[inum].size && Reads(flat, off, got)
      requires FillsHoles(sb, s, Snapshot(), inum, off, |got|) && (|got| > 0 ==> (off + |got|) % BSIZE == 0)
      modifies this`disk, this`inodes, this`owner, this`logged
      ensures Reading(sb, s, Snapshot(), inum)
      ensures |got| <= |out| <= want && Reads(flat, off, out)
      ensures more ==> |out| > |got| && (|out| < want ==> (off + |out|) % BSIZE == 0)
      ensures !more ==> out == got && Full(sb, owner) && !HoleFree(sb, s.fs, inum)
      ensures FillsHoles(sb, s, Snapshot(), inum, off, if more then |out| else want)
    {
      hide Reading, Flat, Reads, FillsHoles, Allocates, Full, HoleFree;
      var pos := off + |got|;
      var o := pos % BSIZE;
      var m := if want - |got| < BSIZE - o then want - |got| else BSIZE - o;
      ghost var u := Snapshot();
      var ok, block := BlockToRead(inum, pos / BSIZE, s);
      ReadingShaped(sb, s, u, inum);
      FillsMore(sb, s, u, Snapshot(), inum, off, |got|, m);
      if !ok {
        FillsRest(sb, s, Snapshot(), inum, off, |got| + m, want);
        return got, false;
      }
      ReadExtends(flat, off, got, m, block);
      out, more := got + block[o..o + m], true;
    }

    /** bmap and bread, as readi uses them on a block below the size of the file. */
    method BlockToRead(inum: nat, bn: nat, ghost s: Snap) returns (ok: bool, block: Block)
      requires Reading(sb, s, Snapshot(), inum) && bn * BSIZE < s.fs.inodes[inum].size
      modifies this`disk, this`inodes, this`owner, this`logged
      ensures Reading(sb, s, Snapshot(), inum)
      ensures !ok ==> Full(sb, owner) && !HoleFree(sb, s.fs, inum)
      ensures ok ==> Reads(Flat(sb, s.fs, inum), bn * BSIZE, block)
      ensures bn < MAXFILE && inum < |old(inodes)|
      ensures Allocates(sb, old(Snapshot()), Snapshot(), Addr(sb, old(State()), DataSlot(inum, bn)))
    {
      hide Allocates;
      ghost var u := Snapshot();
      var addr := Bmap(inum, bn);
      StillReading(sb, s, u, Snapshot(), inum, bn);
      if addr == 0 {
        return false, disk[0];
      }
      BlockReads(sb, s, Snapshot(), inum, bn);
      ok, block := true, disk[addr];
    }

    /**
     Write data at offset off. Rejected (-1) beyond the end of the file, on overflow, or past
     the largest file; otherwise the first tot bytes replace what was there, the file grows to
     cover them, and tot falls short only if the disk is full.
     */
    method Writei(inum: nat, data: seq<Byte>, off: nat) returns (tot: int)
      requires Valid() && inum < |inodes| && off < UINT && |data| < UINT
      modifies this`disk, this`inodes, this`owner, this`logged
      ensures tot == -1 <==> off > old(inodes)[inum].size || off + |data| > MAXBYTES
      ensures tot == -1 ==> Snapshot() == old(Snapshot())
      ensures tot != -1 ==>
                && 0 <= tot <= |data|
                && Written(sb, old(Snapshot()), Snapshot(), inum, off, data, tot)
                && (tot < |data| ==> Full(sb, owner))
      ensures tot != -1 ==>
                && Shaped(sb, State()) && inodes[inum].size <= MAXBYTES && off <= |old(Content(sb, State(), inum))|
                && Content(sb, State(), inum) ==
                   old(Content(sb, State(), inum))[..off] + data[..tot]
                   + (if off + tot < |old(Content(sb, State(), inum))| then old(Content(sb, State(), inum))[off + tot..]
                      else [])
    {
      hide Written, Inv, Full, Content;
      if off > inodes[inum].size || Overflows(off, |data|) {
        return -1;
      }
      if off + |data| > MAXBYTES {
        return -1;
      }
      ghost var s := Snapshot();
      tot := WriteRange(inum, data, off);
      WrittenContent(sb, s, Snapshot(), inum, off, data, tot);
    }

    /** writei's loop and its update of the inode. */
    method WriteRange(inum: nat, data: seq<Byte>, off: nat) returns (tot: nat)
      requires Valid() && inum < |inodes| && off <= inodes[inum].size && off + |data| <= MAXBYTES
      modifies this`disk, this`inodes, this`owner, this`logged
      ensures tot <= |data| && Written(sb, old(Snapshot()), Snapshot(), inum, off, data, tot)
      ensures tot < |data| ==> Full(sb, owner)
    {
      hide WritingSnap, Written, Inv, Full;
      ghost var s := Snapshot();
      WritingBegins(sb, s, inum, off, data);
      tot := WriteLoop(inum, data, off, s);
      WritingSizes(sb, s, Snapshot(), inum, off, data, tot);
      WritingEnds(sb, s, Snapshot(), inum, off, data, tot);
      if off + tot > inodes[inum].size {
        inodes := inodes[inum := inodes[inum].(size := off + tot)];
      }
      Iupdate(inum);
    }

    method WriteLoop(inum: nat, data: seq<Byte>, off: nat, ghost s: Snap) returns (tot: nat)
      requires s == Snapshot() && WritingSnap(sb, s, s, inum, off, data, 0)
      modifies this`disk, this`inodes, this`owner, this`logged
      ensures tot <= |data| && WritingSnap(sb, s, Snapshot(), inum, off, data, tot)
      ensures tot < |data| ==> Full(sb, owner)
    {
      hide WritingSnap, Full;
      tot := 0;
      while tot < |data|
        invariant tot <= |data| && WritingSnap(sb, s, Snapshot(), inum, off, data, tot)
      {
        var m := WriteChunk(inum, data, off, tot, s);
        if m == 0 {
          break;
        }
        tot := tot + m;
      }
    }

    /** One pass of writei's loop: how many bytes it stored, 0 if the disk is full. */
    method WriteChunk(inum: nat, data: seq<Byte>, off: nat, tot: nat, ghost s: Snap) returns (m: nat)
      requires WritingSnap(sb, s, Snapshot(), inum, off, data, tot) && tot < |data|
      modifies this`disk, this`inodes, this`owner, this`logged
      ensures tot + m <= |data| && WritingSnap(sb, s, Snapshot(), inum, off, data, tot + m)
      ensures m == 0 ==> Full(sb, owner)
    {
      hide WritingSnap, Mapped, Full, Inv, Addr;
      ghost var u := Snapshot();
      WritingSizes(sb, s, u, inum, off, data, tot);
      var o := (off + tot) % BSIZE;
      var addr := Bmap(inum, (off + tot) / BSIZE);
      WritingMappedSnap(sb, s, u, Snapshot(), inum, off, data, tot);
      if addr == 0 {
        return 0;
      }
      m := if |data| - tot < BSIZE - o then |data| - tot else BSIZE - o;
      WritingStoredSnap(sb, s, Snapshot(), inum, off, data, tot, m);
      disk := disk[addr := Spliced(disk[addr], o, data[tot..tot + m])];
      logged := logged + {addr};
    }
  }
}
