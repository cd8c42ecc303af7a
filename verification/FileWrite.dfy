/**
 The read and write system calls on an inode (kernel/file.c, fileread and filewrite): a read
 outside any transaction, and a long write split into chunks, each a transaction of its own,
 small enough for the log's reservation.
 */
module FileWrite {
  import Common
  import opened Bytes
  import opened FsModel
  import opened FileContents
  import opened FileSystem
  import Log
  import LogDisk

  /** The inode block, the indirect block and the bitmap blocks aside, half of the reservation is data. */
  const CHUNK: nat := (LogDisk.MAXOPBLOCKS - 1 - 1 - 2) / 2 * BSIZE

  // ------------------------------------------------------------- what one chunk can log

  /** The data blocks of file blocks lo..hi. */
  ghost function DataBlocks(sb: Super, fs: Fs, inum: nat, lo: nat, hi: nat): set<nat>
    requires Shaped(sb, fs) && inum < |fs.inodes| && lo <= hi <= MAXFILE
    decreases hi - lo
  {
    if lo == hi then {} else {Addr(sb, fs, DataSlot(inum, lo))} + DataBlocks(sb, fs, inum, lo + 1, hi)
  }

  lemma {:induction false} DataBlocksSize(sb: Super, fs: Fs, inum: nat, lo: nat, hi: nat)
    requires Shaped(sb, fs) && inum < |fs.inodes| && lo <= hi <= MAXFILE
    ensures |DataBlocks(sb, fs, inum, lo, hi)| <= hi - lo
    decreases hi - lo
  {
    if lo < hi { DataBlocksSize(sb, fs, inum, lo + 1, hi); }
  }

  lemma {:induction false} DataBlocksHas(sb: Super, fs: Fs, inum: nat, lo: nat, hi: nat, bn: nat)
    requires Shaped(sb, fs) && inum < |fs.inodes| && lo <= bn < hi <= MAXFILE
    ensures Addr(sb, fs, DataSlot(inum, bn)) in DataBlocks(sb, fs, inum, lo, hi)
    decreases hi - lo
  {
    if lo < bn { DataBlocksHas(sb, fs, inum, lo + 1, hi, bn); }
  }

  ghost function LogRoom(sb: Super, fs: Fs, inum: nat, lo: nat, hi: nat): set<nat>
    requires Shaped(sb, fs) && inum < |fs.inodes| && lo <= hi <= MAXFILE
  {
    {sb.bmapstart, sb.inodestart + inum / IPB, fs.inodes[inum].addrs[NDIRECT]} + DataBlocks(sb, fs, inum, lo, hi)
  }

  lemma LogRoomSize(sb: Super, fs: Fs, inum: nat, lo: nat, hi: nat)
    requires Shaped(sb, fs) && inum < |fs.inodes| && lo <= hi <= MAXFILE
    ensures |LogRoom(sb, fs, inum, lo, hi)| <= 3 + (hi - lo)
  {
    DataBlocksSize(sb, fs, inum, lo, hi);
    var few := {sb.bmapstart, sb.inodestart + inum / IPB, fs.inodes[inum].addrs[NDIRECT]};
    assert |few| <= 3;
  }

  lemma MayLogRoom(sb: Super, fs: Fs, owner: map<nat, Slot>, inum: nat, lo: nat, hi: nat, b: nat)
    requires Inv(sb, fs, owner) && sb.size <= BPB && inum < |fs.inodes| && lo <= hi <= MAXFILE
    requires MayLog(sb, owner, inum, lo, hi, b)
    ensures b in LogRoom(sb, fs, inum, lo, hi)
  {
    hide Bits, FileBlock, Word;
    if b in owner && owner[b].inum == inum {
      var k := owner[b].k;
      assert Addr(sb, fs, owner[b]) == b;
      if k != NDIRECT && lo <= FileBlockOf(k) < hi {
        assert owner[b] == DataSlot(inum, FileBlockOf(k));
        DataBlocksHas(sb, fs, inum, lo, hi, FileBlockOf(k));
      }
    }
  }

  /** With one bitmap block, a write logs its bitmap, inode and indirect blocks and its data blocks. */
  lemma WriteLogsFew(sb: Super, s: Snap, t: Snap, inum: nat, off: nat, data: seq<Byte>, tot: nat)
    requires Written(sb, s, t, inum, off, data, tot) && off + |data| <= MAXBYTES
    requires sb.size <= BPB && s.logged == {}
    ensures |t.logged| <= 3 + (EndBlock(off, |data|) - off / BSIZE)
  {
    var lo, hi := off / BSIZE, EndBlock(off, |data|);
    forall b | b in t.logged ensures b in LogRoom(sb, t.fs, inum, lo, hi) {
      MayLogRoom(sb, t.fs, t.owner, inum, lo, hi, b);
    }
    Common.SubsetSize(t.logged, LogRoom(sb, t.fs, inum, lo, hi));
    LogRoomSize(sb, t.fs, inum, lo, hi);
  }

  /** At any offset, a chunk touches at most four file blocks, so it logs at most seven blocks. */
  lemma ChunkFitsReservation(sb: Super, s: Snap, t: Snap, inum: nat, off: nat, data: seq<Byte>, tot: nat)
    requires Written(sb, s, t, inum, off, data, tot) && off + |data| <= MAXBYTES
    requires sb.size <= BPB && s.logged == {} && |data| <= CHUNK
    ensures |t.logged| <= 7 <= LogDisk.MAXOPBLOCKS
  {
    WriteLogsFew(sb, s, t, inum, off, data, tot);
  }

  // -------------------------------------------------------------------- the whole write

  /** Several writes one after another: the first k bytes of data in place from offset off. */
  ghost predicate AllWritten(sb: Super, s: Snap, t: Snap, inum: nat, off: nat, data: seq<Byte>, k: nat) {
    && Inv(sb, s.fs, s.owner) && Inv(sb, t.fs, t.owner) && inum < |s.fs.inodes| == |t.fs.inodes|
    && k <= |data| && off + k <= MAXBYTES
    && t.fs.inodes[inum].size == (if off + k > s.fs.inodes[inum].size then off + k else s.fs.inodes[inum].size)
    && Flat(sb, t.fs, inum) == Spliced(Flat(sb, s.fs, inum), off, data[..k])
    && OthersSame(sb, s.fs, t.fs, inum)
    && (HoleFree(sb, s.fs, inum) ==> HoleFree(sb, t.fs, inum))
    && Extends(s.owner, t.owner)
  }

  lemma NothingWritten(sb: Super, s: Snap, inum: nat, off: nat, data: seq<Byte>)
    requires Inv(sb, s.fs, s.owner) && inum < |s.fs.inodes| && off <= s.fs.inodes[inum].size
    ensures AllWritten(sb, s, s, inum, off, data, 0)
  {
  }

  lemma WrittenMore(sb: Super, s: Snap, u: Snap, t: Snap, inum: nat, off: nat, data: seq<Byte>, k: nat,
          chunk: seq<Byte>, r: nat)
    requires AllWritten(sb, s, u, inum, off, data, k) && Written(sb, u.(logged := {}), t, inum, off + k, chunk, r)
    requires k + |chunk| <= |data| && chunk == data[k..k + |chunk|]
    ensures AllWritten(sb, s, t, inum, off, data, k + r)
  {
    hide Inv, OthersSame, HoleFree, LogsOnly, Flat;
    InvShaped(sb, s.fs, s.owner);
    InvShaped(sb, u.fs, u.owner);
    InvShaped(sb, t.fs, t.owner);
    OthersSameTwice(sb, s.fs, u.fs, t.fs, inum);
    SplicedTwice(Flat(sb, s.fs, inum), off, data[..k], chunk[..r]);
    assert data[..k] + chunk[..r] == data[..k + r];
  }

  /** One chunk of the loop, written or rejected. */
  lemma ChunkStep(sb: Super, s: Snap, u: Snap, t: Snap, inum: nat, off: nat, data: seq<Byte>, k: nat, n: nat, r: int)
    requires AllWritten(sb, s, u, inum, off, data, k) && k + n <= |data| && -1 <= r
    requires r == -1 ==> t.fs == u.fs && t.owner == u.owner
    requires r != -1 ==> Written(sb, u.(logged := {}), t, inum, off + k, data[k..k + n], r)
    ensures AllWritten(sb, s, t, inum, off, data, if r == -1 then k else k + r)
  {
    hide Inv, OthersSame, HoleFree, Flat, Written;
    if r != -1 {
      WrittenMore(sb, s, u, t, inum, off, data, k, data[k..k + n], r);
    }
  }

  lemma AllWrittenFacts(sb: Super, s: Snap, t: Snap, inum: nat, off: nat, data: seq<Byte>, k: nat)
    requires AllWritten(sb, s, t, inum, off, data, k)
    ensures Inv(sb, t.fs, t.owner) && inum < |t.fs.inodes| && off + k <= t.fs.inodes[inum].size && off + k <= MAXBYTES
  {
  }

  /** A read calls log_write exactly when it has to allocate. */
  lemma LogsWhenFilling(sb: Super, s: Snap, t: Snap, inum: nat, off: nat, want: nat)
    requires FillsHoles(sb, s, t, inum, off, want) && s.logged == {}
    ensures t.logged != {} <==> MustAllocate(sb, s, inum, off, want)
  {
    hide MustAllocate;
    if MustAllocate(sb, s, inum, off, want) {
      var b: nat :| Claims(sb, s, t, b);
      assert sb.bmapstart + b / BPB in t.logged;
    }
  }

  lemma SameNeed(sb: Super, s: Snap, t: Snap, inum: nat, off: nat, want: nat)
    requires t == s.(logged := {})
    ensures MustAllocate(sb, s, inum, off, want) <==> MustAllocate(sb, t, inum, off, want)
  {
  }

  class File {
    const fs: FileSystem
    const inum: nat
    const readable: bool
    const writable: bool
    var off: nat
    /** The blocks each finished transaction logged. */
    ghost var transactions: seq<set<nat>>

    constructor (fs: FileSystem, inum: nat, readable: bool, writable: bool)
      ensures this.fs == fs && this.inum == inum && this.readable == readable && this.writable == writable
      ensures off == 0 && transactions == []
    {
      this.fs, this.inum, this.readable, this.writable, off := fs, inum, readable, writable, 0;
      transactions := [];
    }

    /**
     fileread: n bytes at the file offset. There is no begin_op, so the log may have no operation
     outstanding when a hole is met. The log holds inLog blocks in an area of logSize; log_write
     panics exactly if the read has to allocate and the log refuses.
     */
    method Read(n: int, ghost inLog: nat, ghost logSize: nat, ghost outstanding: nat)
      returns (r: int, out: seq<Byte>, ghost panics: bool)
      requires fs.Valid() && inum < |fs.inodes| && off < UINT && -0x8000_0000 <= n < 0x8000_0000
      modifies this`off, fs`disk, fs`inodes, fs`owner, fs`logged
      ensures !readable ==> r == -1 && !panics && off == old(off) && fs.Snapshot() == old(fs.Snapshot())
      ensures readable ==>
                && Reading(fs.sb, old(fs.Snapshot()).(logged := {}), fs.Snapshot(), inum)
                && r == |out| && off == old(off) + r
                && (var want := ReadLength(old(fs.inodes)[inum].size, old(off), n % UINT);
                    && |out| <= want
                    && (want > 0 ==> Reads(Content(fs.sb, old(fs.State()), inum), old(off), out))
                    && (|out| < want ==> Full(fs.sb, fs.owner))
                    && (panics <==>
                        && MustAllocate(fs.sb, old(fs.Snapshot()), inum, old(off), want)
                        && Log.Refuses(inLog, logSize, outstanding)))
    {
      hide Reading, Full, HoleFree, Reads, Content, Inv, MustAllocate;
      out, panics := [], false;
      if !readable {
        return -1, [], false;
      }
      fs.logged := {};
      ghost var s := fs.Snapshot();
      out := fs.Readi(inum, off, n % UINT);
      r := |out|;
      panics := fs.logged != {} && Log.Refuses(inLog, logSize, outstanding);
      LogsWhenFilling(fs.sb, s, fs.Snapshot(), inum, off, ReadLength(s.fs.inodes[inum].size, off, n % UINT));
      SameNeed(fs.sb, old(fs.Snapshot()), s, inum, off, ReadLength(s.fs.inodes[inum].size, off, n % UINT));
      off := off + r;
    }

    /** One chunk: begin_op, writei at the file offset, advance the offset, end_op. */
    method WriteChunk(chunk: seq<Byte>) returns (r: int)
      requires fs.Valid() && inum < |fs.inodes| && off < UINT && |chunk| <= CHUNK
      modifies this`off, this`transactions, fs`disk, fs`inodes, fs`owner, fs`logged
      ensures r == -1 <==> old(off) > old(fs.inodes)[inum].size || old(off) + |chunk| > MAXBYTES
      ensures r == -1 ==> off == old(off) && fs.State() == old(fs.State()) && fs.owner == old(fs.owner)
      ensures r != -1 ==>
                && 0 <= r <= |chunk| && off == old(off) + r
                && Written(fs.sb, old(fs.Snapshot()).(logged := {}), fs.Snapshot(), inum, old(off), chunk, r)
                && (r < |chunk| ==> Full(fs.sb, fs.owner))
      ensures transactions == old(transactions) + [fs.logged]
      ensures fs.sb.size <= BPB ==> |fs.logged| <= 7
    {
      hide Written, Inv, Full;
      fs.logged := {};
      r := fs.Writei(inum, chunk, off);
      if r != -1 && fs.sb.size <= BPB {
        ChunkFitsReservation(fs.sb, old(fs.Snapshot()).(logged := {}), fs.Snapshot(), inum, off, chunk, r);
      }
      if r > 0 {
        off := off + r;
      }
      transactions := transactions + [fs.logged];
    }

    /**
     Write data at the file offset. However far it gets, the bytes the offset has moved over are
     the first bytes of data; all of them and the result n, or else -1 because the file may not be
     written, n is negative, the offset was past the end, the file would be too large or the disk is
     full.
     */
    method Write(data: seq<Byte>, n: int) returns (ret: int)
      requires fs.Valid() && inum < |fs.inodes| && off < UINT && |data| < UINT && |data| == if n < 0 then 0 else n
      modifies this`off, this`transactions, fs`disk, fs`inodes, fs`owner, fs`logged
      ensures fs.Valid() && old(off) <= off <= old(off) + |data|
      ensures old(off) <= old(fs.inodes)[inum].size ==>
                AllWritten(fs.sb, old(fs.Snapshot()), fs.Snapshot(), inum, old(off), data, off - old(off))
      ensures old(off) > old(fs.inodes)[inum].size ==> off == old(off) && fs.State() == old(fs.State())
      ensures ret == n || ret == -1
      ensures ret != -1 ==> off == old(off) + |data|
      ensures n < 0 ==> ret == -1 && off == old(off) && fs.State() == old(fs.State())
      ensures ret == -1 ==>
                !writable || n < 0 || old(off) > old(fs.inodes)[inum].size || old(off) + |data| > MAXBYTES
                    || Full(fs.sb, fs.owner)
      ensures !writable ==> ret == -1 && off == old(off) && fs.State() == old(fs.State())
      ensures |data| > 0 && (old(off) > old(fs.inodes)[inum].size || old(off) + |data| > MAXBYTES) ==> ret == -1
      ensures old(transactions) <= transactions
      ensures fs.sb.size <= BPB ==> forall i :: |old(transactions)| <= i < |transactions| ==> |transactions[i]| <= 7
    {
      hide Written, AllWritten, Full, Inv;
      ghost var s, start := fs.Snapshot(), off;
      if off <= fs.inodes[inum].size {
        NothingWritten(fs.sb, s, inum, off, data);
      }
      if !writable {
        return -1;
      }
      var i := 0;
      while i < |data|
        invariant 0 <= i <= |data| && off == start + i && off < UINT
        invariant fs.Valid() && inum < |fs.inodes|
        invariant data == [] ==> fs.State() == s.fs
        invariant if start <= s.fs.inodes[inum].size then AllWritten(fs.sb, s, fs.Snapshot(), inum, start, data, i)
                  else i == 0 && fs.State() == s.fs
        invariant old(transactions) <= transactions
        invariant fs.sb.size <= BPB ==> forall j :: |old(transactions)| <= j < |transactions| ==> |transactions[j]| <= 7
      {
        var n1 := if |data| - i > CHUNK then CHUNK else |data| - i;
        ghost var u := fs.Snapshot();
        if start <= s.fs.inodes[inum].size {
          AllWrittenFacts(fs.sb, s, u, inum, start, data, i);
        }
        var r := WriteChunk(data[i..i + n1]);
        if start <= s.fs.inodes[inum].size {
          ChunkStep(fs.sb, s, u, fs.Snapshot(), inum, start, data, i, n1, r);
          AllWrittenFacts(fs.sb, s, fs.Snapshot(), inum, start, data, off - start);
        }
        if r != n1 {
          break;
        }
        i := i + r;
      }
      if start <= s.fs.inodes[inum].size {
        AllWrittenFacts(fs.sb, s, fs.Snapshot(), inum, start, data, off - start);
      }
      ret := if i == n then n else -1;
    }
  }
}
