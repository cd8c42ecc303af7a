/**
 What becomes of the hole mkfs can leave in the root directory (mkfs/mkfs.c, kernel/file.c): a
 read of the directory allocates a block, outside any transaction.
 */
module RootHole {
  import opened Common
  import L = LogDisk
  import Log
  import opened Bytes
  import opened FsModel
  import opened FileContents
  import opened FileSystem
  import FileWrite
  import opened Mkfs

  /** The root has a hole, and the image a block left to fill it with. */
  predicate LeavesHole(files: seq<Source>) {
    (|files| + 2) % 64 == 0 && NMETA + Needed(files) < FSSIZE
  }

  /** Reading all of the root has to allocate exactly then. */
  lemma RootNeeds(m: Img, files: seq<Source>, want: nat)
    requires |files| + 2 <= NINODES && SourcesOk(files) && Made(m, files) && m.free == NMETA + Needed(files) <= FSSIZE
    requires want == Rounded(DIRENT * (|files| + 2))
    ensures MustAllocate(SB, Snap(m.fs, m.owner, {}), ROOTINO, 0, want) <==> LeavesHole(files)
  {
    hide Needed, Addr, Inv, FileBlock;
    MadeRoot(m, files);
    var fs := m.fs;
    assert Full(SB, m.owner) <==> m.free == FSSIZE by {
      assert m.free < FSSIZE ==> m.free !in m.owner;
    }
    assert EndOfRead(0, want) == want / BSIZE && want == (want / BSIZE) * BSIZE;
    if Whole(fs, ROOTINO) {
      forall bn: nat | bn < want / BSIZE ensures !HoleAt(SB, fs, ROOTINO, bn) {
        assert bn * BSIZE < want;
      }
    } else {
      var bn: nat :| bn < MAXFILE && bn * BSIZE < want && Addr(SB, fs, DataSlot(ROOTINO, bn)) == 0;
      assert HoleAt(SB, fs, ROOTINO, bn) && bn < want / BSIZE;
    }
  }

  lemma MadeRoot(m: Img, files: seq<Source>)
    requires |files| + 2 <= NINODES && SourcesOk(files) && Made(m, files)
    ensures Shaped(SB, m.fs) && |m.fs.inodes| == NINODES && Inv(SB, m.fs, m.owner)
    ensures m.fs.inodes[ROOTINO].size == Rounded(DIRENT * (|files| + 2)) <= 4096 <= MAXBYTES
    ensures Whole(m.fs, ROOTINO) <==> (|files| + 2) % 64 != 0
    ensures forall b: nat :: b in m.owner <==> NMETA <= b < m.free
  {
    hide Addr, FileBlock, Links, Bits, HoleFree;
    var size := DIRENT * (|files| + 2);
    assert |Mkfs.File(m.fs, ROOTINO)| == Rounded(size);
  }

  /**
   mkfs, and then a read of the whole root by a process. The read runs into log_write's panic
   exactly when mkfs left a hole, a block is free and the log refuses; on an idle system it does.
   */
  method ReadRoot(files: seq<Source>, ghost inLog: nat, ghost outstanding: nat)
    returns (made: bool, r: int, ghost panics: bool)
    requires |files| + 2 <= NINODES && SourcesOk(files)
    ensures made <==> Fits(files)
    ensures made ==> r <= 4096 && (panics <==> LeavesHole(files) && Log.Refuses(inLog, L.LOGSIZE, outstanding))
  {
    hide Made, Needed, MustAllocate, Reading, FillsHoles, Reads, Content, Full, Inv;
    r, panics := 0, false;
    var img;
    made, img := Make(files);
    if !made {
      return;
    }
    MadeRoot(img.View(), files);
    var fs := new FileSystem(SB, img.disk, img.inodes, img.owner);
    var f := new FileWrite.File(fs, ROOTINO, true, false);
    RootNeeds(img.View(), files, fs.inodes[ROOTINO].size);
    var out;
    r, out, panics := f.Read(4096, inLog, L.LOGSIZE, outstanding);
  }

  predicate Empty(files: seq<Source>) {
    forall j :: 0 <= j < |files| ==> files[j].data == []
  }

  lemma {:induction false} EmptyBlocks(files: seq<Source>, n: nat)
    requires Empty(files) && n <= |files|
    ensures FileBlocks(files, n) == 0
  {
    if n > 0 {
      EmptyBlocks(files, n - 1);
    }
  }

  /** Sixty-two empty files are such an input: reading the root panics when no operation is outstanding. */
  method SixtyTwoFiles(files: seq<Source>) returns (made: bool, r: int, ghost panics: bool)
    requires |files| == 62 && SourcesOk(files) && Empty(files)
    ensures made && panics
  {
    EmptyBlocks(files, |files|);
    assert BlocksFor(DIRENT * 64) == 1 && Needed(files) == 1;
    made, r, panics := ReadRoot(files, 0, 0);
  }
}
