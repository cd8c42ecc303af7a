/**
 A file as a flat sequence of bytes (kernel/fs.c, readi and writei): byte `off` of a file is
 byte off % BSIZE of its block off / BSIZE, and a block never allocated reads as zeroes.
 */
module FileContents {
  import opened Bytes
  import opened FsModel

  const MAXBYTES: nat := MAXFILE * BSIZE

  ghost function FlatByte(sb: Super, fs: Fs, inum: nat, off: nat): Byte
    requires Shaped(sb, fs) && inum < |fs.inodes| && off < MAXBYTES
  {
    FileBlock(sb, fs, inum, off / BSIZE)[off % BSIZE]
  }

  /** The first n blocks of a file, one after another. */
  ghost function Blocks(sb: Super, fs: Fs, inum: nat, n: nat): (r: seq<Byte>)
    requires Shaped(sb, fs) && inum < |fs.inodes| && n <= MAXFILE
    ensures |r| == n * BSIZE
  {
    if n == 0 then [] else Blocks(sb, fs, inum, n - 1) + FileBlock(sb, fs, inum, n - 1)
  }

  /** Every byte an inode can address, written or not: its direct blocks, then its indirect ones. */
  ghost function Flat(sb: Super, fs: Fs, inum: nat): (r: seq<Byte>)
    requires Shaped(sb, fs) && inum < |fs.inodes|
    ensures |r| == MAXBYTES
  {
    Blocks(sb, fs, inum, |fs.inodes[inum].addrs| - 1 + NINDIRECT)
  }

  lemma {:induction false} BlocksAt(sb: Super, fs: Fs, inum: nat, n: nat, off: nat)
    requires Shaped(sb, fs) && inum < |fs.inodes| && n <= MAXFILE && off < n * BSIZE
    ensures Blocks(sb, fs, inum, n)[off] == FlatByte(sb, fs, inum, off)
  {
    if off < (n - 1) * BSIZE {
      BlocksAt(sb, fs, inum, n - 1, off);
    } else {
      assert off / BSIZE == n - 1 && off % BSIZE == off - (n - 1) * BSIZE;
    }
  }

  lemma FlatAt(sb: Super, fs: Fs, inum: nat, off: nat)
    requires Shaped(sb, fs) && inum < |fs.inodes| && off < MAXBYTES
    ensures Flat(sb, fs, inum)[off] == FlatByte(sb, fs, inum, off)
  {
    BlocksAt(sb, fs, inum, MAXFILE, off);
  }

  lemma {:induction false} BlocksBlock(sb: Super, fs: Fs, inum: nat, n: nat, bn: nat)
    requires Shaped(sb, fs) && inum < |fs.inodes| && bn < n <= MAXFILE
    ensures Blocks(sb, fs, inum, n)[bn * BSIZE..bn * BSIZE + BSIZE] == FileBlock(sb, fs, inum, bn)
  {
    var before, last := Blocks(sb, fs, inum, n - 1), FileBlock(sb, fs, inum, n - 1);
    if bn < n - 1 {
      BlocksBlock(sb, fs, inum, n - 1, bn);
      SliceOfFirst(before, last, bn * BSIZE, bn * BSIZE + BSIZE);
    } else {
      SliceOfSecond(before, last);
    }
  }

  lemma SliceOfFirst<T>(a: seq<T>, b: seq<T>, lo: nat, hi: nat)
    requires lo <= hi <= |a|
    ensures (a + b)[lo..hi] == a[lo..hi]
  {
  }

  lemma SliceOfSecond<T>(a: seq<T>, b: seq<T>)
    ensures (a + b)[|a|..|a| + |b|] == b
  {
  }

  /** A whole block of the flat file. */
  lemma FlatBlock(sb: Super, fs: Fs, inum: nat, bn: nat)
    requires Shaped(sb, fs) && inum < |fs.inodes| && bn < MAXFILE
    ensures Flat(sb, fs, inum)[bn * BSIZE..bn * BSIZE + BSIZE] == FileBlock(sb, fs, inum, bn)
  {
    BlocksBlock(sb, fs, inum, MAXFILE, bn);
  }

  /** The contents of a file. */
  ghost function Content(sb: Super, fs: Fs, inum: nat): seq<Byte>
    requires Shaped(sb, fs) && inum < |fs.inodes| && fs.inodes[inum].size <= MAXBYTES
  {
    Flat(sb, fs, inum)[..fs.inodes[inum].size]
  }

  /** s with `data` written over it from position off. */
  function Spliced(s: seq<Byte>, off: nat, data: seq<Byte>): (r: seq<Byte>)
    requires off + |data| <= |s|
    ensures |r| == |s| && r[off..off + |data|] == data && r[..off] == s[..off]
  {
    s[..off] + data + s[off + |data|..]
  }

  lemma SplicedTwice(s: seq<Byte>, off: nat, a: seq<Byte>, b: seq<Byte>)
    requires off + |a| + |b| <= |s|
    ensures Spliced(Spliced(s, off, a), off + |a|, b) == Spliced(s, off, a + b)
  {
  }

  lemma FlatSame(sb: Super, f: Fs, g: Fs, inum: nat)
    requires Shaped(sb, f) && Shaped(sb, g) && SameFiles(sb, f, g) && inum < |f.inodes|
    ensures Flat(sb, g, inum) == Flat(sb, f, inum)
  {
    BlocksSame(sb, f, g, inum, MAXFILE);
  }

  lemma {:induction false} BlocksSame(sb: Super, f: Fs, g: Fs, inum: nat, n: nat)
    requires Shaped(sb, f) && Shaped(sb, g) && SameFiles(sb, f, g) && inum < |f.inodes| && n <= MAXFILE
    ensures Blocks(sb, g, inum, n) == Blocks(sb, f, inum, n)
  {
    if n > 0 { BlocksSame(sb, f, g, inum, n - 1); }
  }

  /** Overwriting part of one block overwrites the same bytes of the flat file. */
  lemma FlatPatched(sb: Super, f: Fs, g: Fs, inum: nat, off: nat, data: seq<Byte>)
    requires Shaped(sb, f) && Shaped(sb, g) && |f.inodes| == |g.inodes| && inum < |f.inodes|
    requires off + |data| <= MAXBYTES && off < MAXBYTES && off % BSIZE + |data| <= BSIZE
    requires FileBlock(sb, g, inum, off / BSIZE) == Spliced(FileBlock(sb, f, inum, off / BSIZE), off % BSIZE, data)
    requires forall bn: nat :: bn < MAXFILE && bn != off / BSIZE ==>
               FileBlock(sb, g, inum, bn) == FileBlock(sb, f, inum, bn)
    ensures Flat(sb, g, inum) == Spliced(Flat(sb, f, inum), off, data)
  {
    var x, y := Flat(sb, g, inum), Spliced(Flat(sb, f, inum), off, data);
    forall k: nat | k < MAXBYTES ensures x[k] == y[k] {
      PatchedByte(sb, f, g, inum, off, data, k);
      FlatAt(sb, f, inum, k);
      FlatAt(sb, g, inum, k);
    }
  }

  lemma PatchedByte(sb: Super, f: Fs, g: Fs, inum: nat, off: nat, data: seq<Byte>, k: nat)
    requires Shaped(sb, f) && Shaped(sb, g) && |f.inodes| == |g.inodes| && inum < |f.inodes|
    requires off + |data| <= MAXBYTES && off < MAXBYTES && off % BSIZE + |data| <= BSIZE && k < MAXBYTES
    requires FileBlock(sb, g, inum, off / BSIZE) == Spliced(FileBlock(sb, f, inum, off / BSIZE), off % BSIZE, data)
    requires forall bn: nat :: bn < MAXFILE && bn != off / BSIZE ==>
               FileBlock(sb, g, inum, bn) == FileBlock(sb, f, inum, bn)
    ensures FlatByte(sb, g, inum, k) == if off <= k < off + |data| then data[k - off] else FlatByte(sb, f, inum, k)
  {
    if k / BSIZE == off / BSIZE {
      assert k - off == k % BSIZE - off % BSIZE;
    } else {
      assert !(off <= k < off + |data|);
    }
  }
}
