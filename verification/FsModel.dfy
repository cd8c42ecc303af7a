/**
 The state of the file system below directories (kernel/fs.c): disk blocks and inodes, with
 the two relations that every operation keeps. `Bits` says which blocks the free bitmap marks
 in use; `Links` says which block each slot of each inode holds and that no block is held twice.
 */
module FsModel {
  import opened Bytes

  const NDIRECT: nat := 12
  const MAXFILE: nat := NDIRECT + NINDIRECT
  const BPB: nat := BSIZE * 8
  const SLOTS: nat := NDIRECT + 1 + NINDIRECT
  const IPB: nat := 16

  /** `nmeta` is the number of boot, super, log, inode and bitmap blocks at the front. */
  datatype Super = Super(size: nat, bmapstart: nat, inodestart: nat, nmeta: nat) {
    predicate Ok() {
      && 0 < nmeta <= size < UINT
      && bmapstart + size / BPB < nmeta
    }
  }

  /** addrs holds NDIRECT direct addresses, then the address of the indirect block; 0 is none. */
  datatype Inode = Inode(size: nat, addrs: seq<nat>)

  datatype Fs = Fs(disk: seq<Block>, inodes: seq<Inode>)

  /** A place that can hold a block: inode, and slot 0..11 direct, 12 indirect block, 13.. its entries. */
  datatype Slot = Slot(inum: nat, k: nat)

  predicate Shaped(sb: Super, fs: Fs) {
    && sb.Ok()
    && |fs.disk| == sb.size
    && (forall i :: 0 <= i < |fs.inodes| ==>
          |fs.inodes[i].addrs| == NDIRECT + 1 && fs.inodes[i].addrs[NDIRECT] < sb.size)
  }

  /** The address in slot k of an inode. */
  function InodeAddr(disk: seq<Block>, ip: Inode, k: nat): nat
    requires |ip.addrs| == NDIRECT + 1 && k < SLOTS && ip.addrs[NDIRECT] < |disk|
  {
    if k <= NDIRECT then ip.addrs[k]
    else if ip.addrs[NDIRECT] == 0 then 0
    else Word(disk[ip.addrs[NDIRECT]], k - NDIRECT - 1)
  }

  ghost function Addr(sb: Super, fs: Fs, s: Slot): nat
    requires Shaped(sb, fs) && s.inum < |fs.inodes| && s.k < SLOTS
  {
    InodeAddr(fs.disk, fs.inodes[s.inum], s.k)
  }

  predicate IsSlot(fs: Fs, s: Slot) {
    s.inum < |fs.inodes| && s.k < SLOTS
  }

  /** The slot of file block bn. */
  function DataSlot(inum: nat, bn: nat): Slot {
    Slot(inum, if bn < NDIRECT then bn else bn + 1)
  }

  predicate BitAt(sb: Super, disk: seq<Block>, b: nat)
    requires sb.Ok() && |disk| == sb.size && b < sb.size
  {
    BitOf(disk[sb.bmapstart + b / BPB], b % BPB)
  }

  /** The bitmap marks exactly the metadata blocks and the blocks of `held`. */
  ghost predicate Bits(sb: Super, disk: seq<Block>, held: set<nat>)
    requires sb.Ok() && |disk| == sb.size
  {
    && (forall b :: b in held ==> sb.nmeta <= b < sb.size)
    && (forall b: nat :: b < sb.size ==> (BitAt(sb, disk, b) <==> b < sb.nmeta || b in held))
  }

  /** `owner` names the one slot that holds each held block. */
  ghost predicate Links(sb: Super, fs: Fs, owner: map<nat, Slot>)
    requires Shaped(sb, fs)
  {
    && (forall b :: b in owner ==>
          sb.nmeta <= b < sb.size && IsSlot(fs, owner[b]) && Addr(sb, fs, owner[b]) == b)
    && (forall s: Slot :: IsSlot(fs, s) && Addr(sb, fs, s) != 0 ==>
          Addr(sb, fs, s) in owner && owner[Addr(sb, fs, s)] == s)
  }

  ghost predicate Inv(sb: Super, fs: Fs, owner: map<nat, Slot>) {
    && Shaped(sb, fs)
    && Links(sb, fs, owner)
    && Bits(sb, fs.disk, owner.Keys)
    && (forall i :: 0 <= i < |fs.inodes| ==> fs.inodes[i].size <= MAXFILE * BSIZE)
  }

  ghost function BlockOrZero(disk: seq<Block>, a: nat): Block {
    if 0 < a < |disk| then disk[a] else Zero()
  }

  /** File block bn; a block never allocated reads as zeroes. */
  ghost function FileBlock(sb: Super, fs: Fs, inum: nat, bn: nat): Block
    requires Shaped(sb, fs) && inum < |fs.inodes| && bn < MAXFILE
  {
    BlockOrZero(fs.disk, Addr(sb, fs, DataSlot(inum, bn)))
  }

  ghost predicate HoleFree(sb: Super, fs: Fs, inum: nat)
    requires Shaped(sb, fs) && inum < |fs.inodes|
  {
    forall bn: nat :: bn < MAXFILE && bn * BSIZE < fs.inodes[inum].size ==> Addr(sb, fs, DataSlot(inum, bn)) != 0
  }

  /** Two states with the same slots and the same file blocks, except those of `x`. */
  ghost predicate SameSlotsBut(sb: Super, f: Fs, g: Fs, x: Slot)
    requires Shaped(sb, f) && Shaped(sb, g)
  {
    |f.inodes| == |g.inodes| && forall s: Slot :: IsSlot(f, s) && s != x ==> Addr(sb, g, s) == Addr(sb, f, s)
  }

  ghost predicate SameFiles(sb: Super, f: Fs, g: Fs)
    requires Shaped(sb, f) && Shaped(sb, g)
  {
    && |f.inodes| == |g.inodes|
    && forall i: nat, bn: nat :: i < |f.inodes| && bn < MAXFILE ==> FileBlock(sb, g, i, bn) == FileBlock(sb, f, i, bn)
  }

  // ---------------------------------------------------- what ownership means, without `owner`

  /**
   In a state satisfying the invariant, a block is marked in use exactly when it is metadata
   or held by some slot, and two different slots never hold the same block.
   */
  lemma OwnershipMeaning(sb: Super, fs: Fs, owner: map<nat, Slot>)
    requires Inv(sb, fs, owner)
    ensures forall b: nat :: b < sb.size ==>
              (BitAt(sb, fs.disk, b) <==>
               b < sb.nmeta || exists s: Slot :: IsSlot(fs, s) && Addr(sb, fs, s) == b && b != 0)
    ensures forall s: Slot, t: Slot ::
              IsSlot(fs, s) && IsSlot(fs, t) && Addr(sb, fs, s) != 0 && Addr(sb, fs, s) == Addr(sb, fs, t) ==> s == t
    ensures forall s: Slot :: IsSlot(fs, s) && Addr(sb, fs, s) != 0 ==> sb.nmeta <= Addr(sb, fs, s) < sb.size
  {
    forall b: nat | b < sb.size
      ensures BitAt(sb, fs.disk, b) <==>
              b < sb.nmeta || exists s: Slot :: IsSlot(fs, s) && Addr(sb, fs, s) == b && b != 0
    {
      if b in owner {
        assert IsSlot(fs, owner[b]) && Addr(sb, fs, owner[b]) == b;
      }
    }
  }

  // ------------------------------------------------------------- effect of each disk change

  /** A block that holds no indirect block's entries can change without any slot changing. */
  lemma DiskChange(sb: Super, f: Fs, owner: map<nat, Slot>, b: nat, data: Block)
    requires Shaped(sb, f) && Links(sb, f, owner) && b < sb.size
    requires b in owner ==> owner[b].k != NDIRECT
    ensures var g := f.(disk := f.disk[b := data]);
            && Shaped(sb, g) && Links(sb, g, owner)
            && (forall s: Slot :: IsSlot(f, s) ==> Addr(sb, g, s) == Addr(sb, f, s))
  {
    var g := f.(disk := f.disk[b := data]);
    forall s: Slot | IsSlot(f, s) ensures Addr(sb, g, s) == Addr(sb, f, s) {
      var x := f.inodes[s.inum].addrs[NDIRECT];
      if s.k > NDIRECT && x != 0 {
        assert Addr(sb, f, Slot(s.inum, NDIRECT)) == x;
        assert x != b;
      }
    }
  }

  /** ... and then only the file block whose data it is changes. */
  lemma DataChange(sb: Super, f: Fs, owner: map<nat, Slot>, b: nat, data: Block)
    requires Shaped(sb, f) && Links(sb, f, owner) && b < sb.size
    requires b in owner ==> owner[b].k != NDIRECT
    ensures var g := f.(disk := f.disk[b := data]);
            && Shaped(sb, g)
            && (forall i: nat, bn: nat :: i < |f.inodes| && bn < MAXFILE && !(b in owner && owner[b] == DataSlot(i, bn))
                  ==> FileBlock(sb, g, i, bn) == FileBlock(sb, f, i, bn))
  {
    DiskChange(sb, f, owner, b, data);
    var g := f.(disk := f.disk[b := data]);
    forall i: nat, bn: nat | i < |f.inodes| && bn < MAXFILE && !(b in owner && owner[b] == DataSlot(i, bn))
      ensures FileBlock(sb, g, i, bn) == FileBlock(sb, f, i, bn)
    {
      assert IsSlot(f, DataSlot(i, bn));
    }
  }

  /** Giving an empty inode slot a fresh zeroed block changes that slot alone, and no file. */
  lemma LinkInode(sb: Super, f: Fs, owner: map<nat, Slot>, inum: nat, k: nat, b: nat)
    requires Shaped(sb, f) && Links(sb, f, owner)
    requires inum < |f.inodes| && k <= NDIRECT && f.inodes[inum].addrs[k] == 0
    requires sb.nmeta <= b < sb.size && b !in owner && f.disk[b] == Zero()
    ensures var ip := f.inodes[inum];
            var g := f.(inodes := f.inodes[inum := ip.(addrs := ip.addrs[k := b])]);
            && Shaped(sb, g) && Links(sb, g, owner[b := Slot(inum, k)])
            && SameSlotsBut(sb, f, g, Slot(inum, k)) && Addr(sb, g, Slot(inum, k)) == b
            && SameFiles(sb, f, g)
  {
    var ip := f.inodes[inum];
    var g := f.(inodes := f.inodes[inum := ip.(addrs := ip.addrs[k := b])]);
    forall s: Slot | IsSlot(f, s) && s != Slot(inum, k) ensures Addr(sb, g, s) == Addr(sb, f, s) {
      if s.inum == inum && k == NDIRECT && s.k > NDIRECT {
        ZeroWords(s.k - NDIRECT - 1);
      }
    }
    forall i: nat, bn: nat | i < |f.inodes| && bn < MAXFILE
      ensures FileBlock(sb, g, i, bn) == FileBlock(sb, f, i, bn)
    {
      assert IsSlot(f, DataSlot(i, bn));
      assert IsSlot(f, Slot(inum, k)) && Addr(sb, f, Slot(inum, k)) == 0;
    }
    LinksAfterLink(sb, f, g, owner, Slot(inum, k), b);
  }

  lemma LinksAfterLink(sb: Super, f: Fs, g: Fs, owner: map<nat, Slot>, x: Slot, b: nat)
    requires Shaped(sb, f) && Shaped(sb, g) && Links(sb, f, owner)
    requires IsSlot(f, x) && SameSlotsBut(sb, f, g, x)
    requires Addr(sb, f, x) == 0 && Addr(sb, g, x) == b && b !in owner && sb.nmeta <= b < sb.size
    ensures Links(sb, g, owner[b := x])
  {
    var o := owner[b := x];
    forall c | c in o ensures sb.nmeta <= c < sb.size && IsSlot(g, o[c]) && Addr(sb, g, o[c]) == c {
      if c != b {
        assert owner[c] != x;
      }
    }
  }

  /** Storing a fresh zeroed block's address in an empty entry of the indirect block. */
  lemma LinkEntry(sb: Super, f: Fs, owner: map<nat, Slot>, inum: nat, j: nat, b: nat)
    requires Shaped(sb, f) && Links(sb, f, owner)
    requires inum < |f.inodes| && j < NINDIRECT
    requires f.inodes[inum].addrs[NDIRECT] != 0 && Addr(sb, f, Slot(inum, NDIRECT + 1 + j)) == 0
    requires sb.nmeta <= b < sb.size && b !in owner && f.disk[b] == Zero()
    ensures var x := f.inodes[inum].addrs[NDIRECT];
            var g := f.(disk := f.disk[x := PutWord(f.disk[x], j, b)]);
            && Shaped(sb, g) && Links(sb, g, owner[b := Slot(inum, NDIRECT + 1 + j)])
            && SameSlotsBut(sb, f, g, Slot(inum, NDIRECT + 1 + j)) && Addr(sb, g, Slot(inum, NDIRECT + 1 + j)) == b
            && SameFiles(sb, f, g)
  {
    var x := f.inodes[inum].addrs[NDIRECT];
    var t := Slot(inum, NDIRECT + 1 + j);
    var g := f.(disk := f.disk[x := PutWord(f.disk[x], j, b)]);
    PutWordWords(f.disk[x], j, b);
    assert IsSlot(f, Slot(inum, NDIRECT)) && Addr(sb, f, Slot(inum, NDIRECT)) == x;
    forall s: Slot | IsSlot(f, s) && s != t ensures Addr(sb, g, s) == Addr(sb, f, s) {
      var y := f.inodes[s.inum].addrs[NDIRECT];
      if s.k > NDIRECT && y != 0 {
        assert Addr(sb, f, Slot(s.inum, NDIRECT)) == y;
      }
    }
    forall i: nat, bn: nat | i < |f.inodes| && bn < MAXFILE
      ensures FileBlock(sb, g, i, bn) == FileBlock(sb, f, i, bn)
    {
      assert IsSlot(f, DataSlot(i, bn)) && IsSlot(f, t);
      assert Addr(sb, f, DataSlot(i, bn)) != x;
    }
    LinksAfterLink(sb, f, g, owner, t, b);
  }
}
