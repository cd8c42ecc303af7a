/**
 Directories and link counts (kernel/fs.c, dirlookup and dirlink; kernel/sysfile.c): the tree of
 names, and what every change to it keeps.

 A directory is its row of entries; an entry with inode number 0 is unused. The first two are
 "." and "..". A directory whose link count is 0 has been removed and only waits to be closed.
 */
module Directory {
  import opened Common
  import opened Names


  datatype Kind = Free | Dir | File | Device

  datatype Entry = Entry(inum: nat, name: string)

  datatype Inode = Inode(kind: Kind, nlink: int, entries: seq<Entry>)

  /** `open` holds the inodes that open files and working directories refer to. */
  datatype Fs = Fs(inodes: seq<Inode>, open: set<nat>)

  const Unused: Entry := Entry(0, "")
  const NoInode: Inode := Inode(Free, 0, [])

  /** A directory that is part of the tree. */
  predicate Linked(x: Inode) {
    x.kind.Dir? && x.nlink > 0
  }

  // -------------------------------------------------------------------------------- counting

  /** How many entries from position `from` on name i. */
  function Count(es: seq<Entry>, i: nat, from: nat): nat {
    if |es| <= from then 0
    else Count(es[..|es| - 1], i, from) + (if es[|es| - 1].inum == i then 1 else 0)
  }

  /** What an inode adds to the count. */
  function Part(x: Inode, i: nat, from: nat): nat {
    if Linked(x) then Count(x.entries, i, from) else 0
  }

  /** How many entries of linked directories, from position `from` of each on, name i. */
  function Sum(xs: seq<Inode>, i: nat, from: nat): nat {
    if xs == [] then 0 else Sum(xs[..|xs| - 1], i, from) + Part(xs[|xs| - 1], i, from)
  }

  function One(b: bool): nat {
    if b then 1 else 0
  }

  lemma {:induction false} CountPut(es: seq<Entry>, k: nat, e: Entry, i: nat, from: nat)
    requires k < |es|
    ensures Count(es[k := e], i, from) == Count(es, i, from) - One(from <= k && es[k].inum == i)
            + One(from <= k && e.inum == i)
  {
    var n := |es| - 1;
    if n < from {
    } else if k < n {
      CountPut(es[..n], k, e, i, from);
      assert es[k := e][..n] == es[..n][k := e];
    } else {
      assert es[k := e][..n] == es[..n];
    }
  }

  lemma CountSnoc(es: seq<Entry>, e: Entry, i: nat, from: nat)
    requires from <= |es|
    ensures Count(es + [e], i, from) == Count(es, i, from) + One(e.inum == i)
  {
    assert (es + [e])[..|es|] == es;
  }

  lemma {:induction false} CountPositive(es: seq<Entry>, i: nat, from: nat)
    ensures Count(es, i, from) > 0 <==> exists k :: from <= k < |es| && es[k].inum == i
  {
    if |es| > from {
      var n := |es| - 1;
      CountPositive(es[..n], i, from);
      if Count(es[..n], i, from) > 0 {
        var k :| from <= k < n && es[..n][k].inum == i;
        assert es[k].inum == i;
      }
      forall k | from <= k < |es| && es[k].inum == i ensures Count(es, i, from) > 0 {
        if k < n {
          assert es[..n][k].inum == i;
        }
      }
    }
  }

  /** Position 1 aside, counting from 1 and from 2 are the same. */
  lemma {:induction false} CountFromTwo(es: seq<Entry>, i: nat)
    requires |es| >= 2
    ensures Count(es, i, 1) == Count(es, i, 2) + One(es[1].inum == i)
  {
    if |es| == 2 {
      assert Count(es[..1], i, 1) == 0;
    } else {
      CountFromTwo(es[..|es| - 1], i);
    }
  }

  lemma {:induction false} SumPut(xs: seq<Inode>, d: nat, x: Inode, i: nat, from: nat)
    requires d < |xs|
    ensures Sum(xs[d := x], i, from) == Sum(xs, i, from) - Part(xs[d], i, from) + Part(x, i, from)
    ensures Sum(xs, i, from) >= Part(xs[d], i, from)
  {
    var n := |xs| - 1;
    if d < n {
      SumPut(xs[..n], d, x, i, from);
      assert xs[d := x][..n] == xs[..n][d := x];
    } else {
      assert xs[d := x][..n] == xs[..n];
    }
  }

  /** Two directories add up. */
  lemma SumTwo(xs: seq<Inode>, a: nat, b: nat, i: nat, from: nat)
    requires a < |xs| && b < |xs| && a != b
    ensures Sum(xs, i, from) >= Part(xs[a], i, from) + Part(xs[b], i, from)
  {
    SumPut(xs, a, NoInode, i, from);
    SumPut(xs[a := NoInode], b, NoInode, i, from);
  }

  lemma SumHas(xs: seq<Inode>, d: nat, k: nat, i: nat, from: nat)
    requires d < |xs| && Linked(xs[d]) && from <= k < |xs[d].entries| && xs[d].entries[k].inum == i
    ensures Sum(xs, i, from) > 0
  {
    CountPositive(xs[d].entries, i, from);
    SumPut(xs, d, NoInode, i, from);
  }

  lemma {:induction false} SumFromTwo(xs: seq<Inode>, i: nat)
    requires forall d :: 0 <= d < |xs| && Linked(xs[d]) ==> |xs[d].entries| >= 2 && xs[d].entries[1].inum != i
    ensures Sum(xs, i, 1) == Sum(xs, i, 2)
  {
    if xs != [] {
      var n := |xs| - 1;
      SumFromTwo(xs[..n], i);
      if Linked(xs[n]) {
        CountFromTwo(xs[n].entries, i);
      }
    }
  }

  lemma {:induction false} SumZero(xs: seq<Inode>, i: nat, from: nat)
    requires forall d :: 0 <= d < |xs| ==> Part(xs[d], i, from) == 0
    ensures Sum(xs, i, from) == 0
  {
    if xs != [] {
      SumZero(xs[..|xs| - 1], i, from);
    }
  }

  // ------------------------------------------------------------------------------- invariants

  predicate UniqueNames(es: seq<Entry>) {
    forall j, k :: 0 <= j < k < |es| && es[j].inum != 0 && es[k].inum != 0 ==> es[j].name != es[k].name
  }

  /** Nothing but . and .. */
  predicate Bare(es: seq<Entry>) {
    forall k :: 2 <= k < |es| ==> es[k].inum == 0
  }

  predicate DirOk(fs: Fs, i: nat)
    requires i < |fs.inodes|
  {
    var es := fs.inodes[i].entries;
    && |es| >= 2 && es[0] == Entry(i, ".") && es[1].name == ".." && 0 < es[1].inum < |fs.inodes|
    && UniqueNames(es) && (forall k :: 2 <= k < |es| ==> es[k].name != "." || es[k].inum == 0)
  }

  /** The link count is the number of entries that name the inode, "." left out. */
  predicate InodeOk(fs: Fs, i: nat)
    requires i < |fs.inodes|
  {
    var x := fs.inodes[i];
    && x.nlink == Sum(fs.inodes, i, 1)
    && (x.kind.Free? ==> x == NoInode && i !in fs.open)
    && (!x.kind.Dir? ==> x.entries == [])
    && (x.kind.Dir? ==> DirOk(fs, i))
    && (x.nlink == 0 && !x.kind.Free? ==> i in fs.open && Bare(x.entries))
  }

  /** A subdirectory's .. leads back to the directory it is in. */
  predicate EntryOk(fs: Fs, d: nat, k: nat)
    requires d < |fs.inodes| && k < |fs.inodes[d].entries|
  {
    var c := fs.inodes[d].entries[k].inum;
    c != 0 ==>
        && c < |fs.inodes|
        && c != ROOTINO
        && c != d
        && (fs.inodes[c].kind.Dir? ==> |fs.inodes[c].entries| >= 2 && fs.inodes[c].entries[1].inum == d)
  }

  /** A directory other than the root is in one directory, its parent, once. */
  predicate ParentOk(fs: Fs, c: nat)
    requires c < |fs.inodes|
  {
    && |fs.inodes[c].entries| >= 2 && fs.inodes[c].entries[1].inum < |fs.inodes|
    && var p := fs.inodes[c].entries[1].inum;
    if c == ROOTINO then p == ROOTINO && Sum(fs.inodes, ROOTINO, 2) == 0
    else Linked(fs.inodes[p]) && Count(fs.inodes[p].entries, c, 2) == 1 && Sum(fs.inodes, c, 2) == 1
  }

  ghost predicate Inv(fs: Fs) {
    && |fs.inodes| > ROOTINO && fs.inodes[0] == NoInode && Linked(fs.inodes[ROOTINO])
    && (forall i :: i in fs.open ==> 0 < i < |fs.inodes|)
    && (forall i: nat :: 0 < i < |fs.inodes| ==> InodeOk(fs, i))
    && (forall d: nat, k: nat :: d < |fs.inodes| && Linked(fs.inodes[d]) && 2 <= k < |fs.inodes[d].entries| ==>
        EntryOk(fs, d, k))
    && (forall c: nat :: c < |fs.inodes| && Linked(fs.inodes[c]) ==> ParentOk(fs, c))
  }

  // --------------------------------------------------------------------------- adding a name

  /** Position k of a directory can take a new entry: it is unused, or behind the last one. */
  predicate Open(es: seq<Entry>, k: nat) {
    2 <= k <= |es| && (k < |es| ==> es[k].inum == 0)
  }

  function Put(es: seq<Entry>, k: nat, e: Entry): (r: seq<Entry>) {
    if k < |es| then es[k := e] else es + [e]
  }

  predicate NotIn(es: seq<Entry>, name: string) {
    forall k :: 0 <= k < |es| && es[k].inum != 0 ==> es[k].name != name
  }

  lemma PutCount(es: seq<Entry>, k: nat, e: Entry, i: nat, from: nat)
    requires Open(es, k) && from <= 2 && i != 0
    ensures Count(Put(es, k, e), i, from) == Count(es, i, from) + One(e.inum == i)
  {
    if k < |es| {
      CountPut(es, k, e, i, from);
    } else {
      CountSnoc(es, e, i, from);
    }
  }

  lemma PutUnique(es: seq<Entry>, k: nat, e: Entry)
    requires Open(es, k) && UniqueNames(es) && NotIn(es, e.name)
    ensures UniqueNames(Put(es, k, e))
  {
  }

  /** An inode x, whatever it was, becomes y, and directory d gets an entry for it. */
  function Named(fs: Fs, d: nat, k: nat, name: string, x: nat, y: Inode, more: int): Fs
    requires d < |fs.inodes| && x < |fs.inodes|
  {
    var dir := fs.inodes[d];
    fs.(inodes := fs.inodes[x := y][d := Inode(Dir, dir.nlink + more, Put(dir.entries, k, Entry(x, name)))])
  }

  predicate CanName(fs: Fs, d: nat, k: nat, name: string, x: nat) {
    && d < |fs.inodes| && 0 < x < |fs.inodes| && x != d && Linked(fs.inodes[d])
    && Open(fs.inodes[d].entries, k) && NotIn(fs.inodes[d].entries, name)
  }

  lemma NamedSum(fs: Fs, d: nat, k: nat, name: string, x: nat, y: Inode, more: nat, i: nat, from: nat)
    requires CanName(fs, d, k, name, x) && 0 < i && from <= 2
    ensures Sum(Named(fs, d, k, name, x, y, more).inodes, i, from)
         == Sum(fs.inodes, i, from) - Part(fs.inodes[x], i, from) + Part(y, i, from) + One(i == x)
  {
    var dir := fs.inodes[d];
    var dir' := Inode(Dir, dir.nlink + more, Put(dir.entries, k, Entry(x, name)));
    SumPut(fs.inodes, x, y, i, from);
    SumPut(fs.inodes[x := y], d, dir', i, from);
    PutCount(dir.entries, k, Entry(x, name), i, from);
  }

  lemma FreeIsUnnamed(fs: Fs, x: nat, d: nat, k: nat)
    requires Inv(fs) && 0 < x < |fs.inodes| && fs.inodes[x].nlink == 0
    requires d < |fs.inodes| && Linked(fs.inodes[d]) && 1 <= k < |fs.inodes[d].entries|
    ensures fs.inodes[d].entries[k].inum != x
  {
    assert InodeOk(fs, x);
    if fs.inodes[d].entries[k].inum == x {
      SumHas(fs.inodes, d, k, x, 1);
    }
  }

  /** A file gets one more name, or its first. */
  ghost predicate FileGains(fs: Fs, x: nat, y: Inode)
    requires x < |fs.inodes|
  {
    && !fs.inodes[x].kind.Dir? && !y.kind.Dir? && !y.kind.Free? && y.entries == []
    && y.nlink == fs.inodes[x].nlink + 1 && (x in fs.open ==> !fs.inodes[x].kind.Free?)
  }

  lemma FileNamedInode(fs: Fs, d: nat, k: nat, name: string, x: nat, y: Inode, i: nat)
    requires Inv(fs) && CanName(fs, d, k, name, x) && FileGains(fs, x, y) && 0 < i < |fs.inodes|
    ensures InodeOk(Named(fs, d, k, name, x, y, 0), i)
  {
    hide Sum, Count;
    assert InodeOk(fs, i) && InodeOk(fs, d);
    NamedSum(fs, d, k, name, x, y, 0, i, 1);
    PutUnique(fs.inodes[d].entries, k, Entry(x, name));
  }

  lemma FileNamedEntry(fs: Fs, d: nat, k: nat, name: string, x: nat, y: Inode, e: nat, j: nat)
    requires Inv(fs) && CanName(fs, d, k, name, x) && FileGains(fs, x, y)
    requires var t := Named(fs, d, k, name, x, y, 0);
            e < |t.inodes| && Linked(t.inodes[e]) && 2 <= j < |t.inodes[e].entries|
    ensures EntryOk(Named(fs, d, k, name, x, y, 0), e, j)
  {
    hide Sum, Count;
    assert InodeOk(fs, d) && InodeOk(fs, ROOTINO);
    if !(e == d && j == k) {
      assert EntryOk(fs, e, j);
    }
  }

  lemma FileNamedParent(fs: Fs, d: nat, k: nat, name: string, x: nat, y: Inode, c: nat)
    requires Inv(fs) && CanName(fs, d, k, name, x) && FileGains(fs, x, y)
    requires var t := Named(fs, d, k, name, x, y, 0); c < |t.inodes| && Linked(t.inodes[c])
    ensures ParentOk(Named(fs, d, k, name, x, y, 0), c)
  {
    hide Sum, Count;
    assert ParentOk(fs, c) && InodeOk(fs, c);
    NamedSum(fs, d, k, name, x, y, 0, c, 2);
    PutCount(fs.inodes[d].entries, k, Entry(x, name), c, 2);
  }

  lemma FileNamed(fs: Fs, d: nat, k: nat, name: string, x: nat, y: Inode)
    requires Inv(fs) && CanName(fs, d, k, name, x) && FileGains(fs, x, y)
    ensures Inv(Named(fs, d, k, name, x, y, 0))
  {
    hide InodeOk, EntryOk, ParentOk;
    var t := Named(fs, d, k, name, x, y, 0);
    forall i: nat | 0 < i < |t.inodes| ensures InodeOk(t, i) {
      FileNamedInode(fs, d, k, name, x, y, i);
    }
    forall e: nat, j: nat | e < |t.inodes| && Linked(t.inodes[e])
        && 2 <= j < |t.inodes[e].entries| ensures EntryOk(t, e, j) {
      FileNamedEntry(fs, d, k, name, x, y, e, j);
    }
    forall c: nat | c < |t.inodes| && Linked(t.inodes[c]) ensures ParentOk(t, c) {
      FileNamedParent(fs, d, k, name, x, y, c);
    }
  }

  // --------------------------------------------------------------------- adding a directory

  /** A new directory x in d. */
  function NewDir(x: nat, d: nat): Inode {
    Inode(Dir, 1, [Entry(x, "."), Entry(d, "..")])
  }

  lemma NewDirPart(x: nat, d: nat, i: nat)
    ensures Part(NewDir(x, d), i, 1) == One(i == d) && Part(NewDir(x, d), i, 2) == 0
  {
    var es := NewDir(x, d).entries;
    assert Count(es[..1], i, 1) == 0;
  }

  lemma DirNamedSum(fs: Fs, d: nat, k: nat, name: string, x: nat, i: nat)
    requires CanName(fs, d, k, name, x) && fs.inodes[x] == NoInode && 0 < i
    ensures var t := Named(fs, d, k, name, x, NewDir(x, d), 1);
            && Sum(t.inodes, i, 1) == Sum(fs.inodes, i, 1) + One(i == d) + One(i == x)
            && Sum(t.inodes, i, 2) == Sum(fs.inodes, i, 2) + One(i == x)
  {
    hide Sum, Count;
    NamedSum(fs, d, k, name, x, NewDir(x, d), 1, i, 1);
    NamedSum(fs, d, k, name, x, NewDir(x, d), 1, i, 2);
    NewDirPart(x, d, i);
  }

  lemma DirNamedInode(fs: Fs, d: nat, k: nat, name: string, x: nat, i: nat)
    requires Inv(fs) && CanName(fs, d, k, name, x) && fs.inodes[x] == NoInode && 0 < i < |fs.inodes|
    ensures InodeOk(Named(fs, d, k, name, x, NewDir(x, d), 1), i)
  {
    hide Sum, Count, DirOk;
    assert InodeOk(fs, i) && InodeOk(fs, d);
    DirNamedSum(fs, d, k, name, x, i);
    DirNamedShape(fs, d, k, name, x, i);
  }

  lemma DirNamedShape(fs: Fs, d: nat, k: nat, name: string, x: nat, i: nat)
    requires CanName(fs, d, k, name, x) && 0 < d && 0 < i < |fs.inodes| && DirOk(fs, d)
    requires (fs.inodes[i].kind.Dir? ==> DirOk(fs, i))
    ensures var t := Named(fs, d, k, name, x, NewDir(x, d), 1); t.inodes[i].kind.Dir? ==> DirOk(t, i)
  {
    if i == d {
      PutUnique(fs.inodes[d].entries, k, Entry(x, name));
    }
  }

  lemma DirNamedEntry(fs: Fs, d: nat, k: nat, name: string, x: nat, e: nat, j: nat)
    requires Inv(fs) && CanName(fs, d, k, name, x) && fs.inodes[x] == NoInode
    requires var t := Named(fs, d, k, name, x, NewDir(x, d), 1);
            e < |t.inodes| && Linked(t.inodes[e]) && 2 <= j < |t.inodes[e].entries|
    ensures EntryOk(Named(fs, d, k, name, x, NewDir(x, d), 1), e, j)
  {
    hide Sum, Count;
    assert InodeOk(fs, d) && InodeOk(fs, ROOTINO);
    if !(e == d && j == k) {
      assert EntryOk(fs, e, j);
      FreeIsUnnamed(fs, x, e, j);
      var c := fs.inodes[e].entries[j].inum;
      if c == d {
        assert InodeOk(fs, d);
      }
    }
  }

  lemma DirNamedParent(fs: Fs, d: nat, k: nat, name: string, x: nat, c: nat)
    requires Inv(fs) && CanName(fs, d, k, name, x) && fs.inodes[x] == NoInode
    requires var t := Named(fs, d, k, name, x, NewDir(x, d), 1); c < |t.inodes| && Linked(t.inodes[c])
    ensures ParentOk(Named(fs, d, k, name, x, NewDir(x, d), 1), c)
  {
    hide Sum, Count;
    DirNamedSum(fs, d, k, name, x, c);
    PutCount(fs.inodes[d].entries, k, Entry(x, name), c, 2);
    assert InodeOk(fs, x) && InodeOk(fs, d);
    if c == x {
      NeverNamed(fs, d, x);
    } else {
      assert ParentOk(fs, c) && InodeOk(fs, c);
    }
  }

  lemma NeverNamed(fs: Fs, d: nat, x: nat)
    requires Inv(fs) && d < |fs.inodes| && Linked(fs.inodes[d]) && 0 < x < |fs.inodes| && fs.inodes[x].nlink == 0
    ensures Count(fs.inodes[d].entries, x, 2) == 0 && Sum(fs.inodes, x, 2) == 0
  {
    hide Sum;
    assert InodeOk(fs, x);
    forall e: nat | e < |fs.inodes| ensures Part(fs.inodes[e], x, 2) == 0 {
      CountPositive(fs.inodes[e].entries, x, 2);
      if Part(fs.inodes[e], x, 2) > 0 {
        var k :| 2 <= k < |fs.inodes[e].entries| && fs.inodes[e].entries[k].inum == x;
        FreeIsUnnamed(fs, x, e, k);
      }
    }
    SumZero(fs.inodes, x, 2);
    assert Part(fs.inodes[d], x, 2) == 0;
  }

  lemma DirNamed(fs: Fs, d: nat, k: nat, name: string, x: nat)
    requires Inv(fs) && CanName(fs, d, k, name, x) && fs.inodes[x] == NoInode
    ensures Inv(Named(fs, d, k, name, x, NewDir(x, d), 1))
  {
    hide InodeOk, EntryOk, ParentOk;
    var t := Named(fs, d, k, name, x, NewDir(x, d), 1);
    forall i: nat | 0 < i < |t.inodes| ensures InodeOk(t, i) {
      DirNamedInode(fs, d, k, name, x, i);
    }
    forall e: nat, j: nat | e < |t.inodes| && Linked(t.inodes[e])
        && 2 <= j < |t.inodes[e].entries| ensures EntryOk(t, e, j) {
      DirNamedEntry(fs, d, k, name, x, e, j);
    }
    forall c: nat | c < |t.inodes| && Linked(t.inodes[c]) ensures ParentOk(t, c) {
      DirNamedParent(fs, d, k, name, x, c);
    }
  }

  // ------------------------------------------------------------------------- removing a name

  /** Position k of directory d cleared, its inode and the directory losing `less` links. */
  function Unnamed(fs: Fs, d: nat, k: nat, less: int): Fs
    requires d < |fs.inodes| && k < |fs.inodes[d].entries| && fs.inodes[d].entries[k].inum < |fs.inodes|
  {
    var dir, c := fs.inodes[d], fs.inodes[d].entries[k].inum;
    var xs := fs.inodes[d := Inode(Dir, dir.nlink - less, dir.entries[k := Unused])];
    fs.(inodes := xs[c := xs[c].(nlink := xs[c].nlink - 1)])
  }

  /** A name other than . and .. in a linked directory. */
  predicate CanUnname(fs: Fs, d: nat, k: nat) {
    && d < |fs.inodes| && Linked(fs.inodes[d]) && 2 <= k < |fs.inodes[d].entries|
    && 0 < fs.inodes[d].entries[k].inum < |fs.inodes| && fs.inodes[d].entries[k].inum != d
  }

  lemma UnnamedSum(fs: Fs, d: nat, k: nat, less: nat, i: nat, from: nat)
    requires CanUnname(fs, d, k) && 0 < i && from <= 2 && fs.inodes[d].nlink > less
    ensures var t, c := Unnamed(fs, d, k, less), fs.inodes[d].entries[k].inum;
            Sum(t.inodes, i, from) == Sum(fs.inodes, i, from) - One(i == c) - Part(fs.inodes[c], i, from)
                + Part(t.inodes[c], i, from)
  {
    var dir, c := fs.inodes[d], fs.inodes[d].entries[k].inum;
    var dir' := Inode(Dir, dir.nlink - less, dir.entries[k := Unused]);
    var xs := fs.inodes[d := dir'];
    SumPut(fs.inodes, d, dir', i, from);
    SumPut(xs, c, xs[c].(nlink := xs[c].nlink - 1), i, from);
    CountPut(dir.entries, k, Unused, i, from);
  }

  /** The name of a file goes; the file may have no names left, if it is open. */
  ghost predicate FileLoses(fs: Fs, d: nat, k: nat)
    requires CanUnname(fs, d, k)
  {
    var c := fs.inodes[d].entries[k].inum;
    !fs.inodes[c].kind.Dir? && (fs.inodes[c].nlink == 1 ==> c in fs.open)
  }

  lemma FileUnnamedInode(fs: Fs, d: nat, k: nat, i: nat)
    requires Inv(fs) && CanUnname(fs, d, k) && FileLoses(fs, d, k) && 0 < i < |fs.inodes|
    ensures InodeOk(Unnamed(fs, d, k, 0), i)
  {
    hide Sum, Count;
    var c := fs.inodes[d].entries[k].inum;
    assert InodeOk(fs, i) && InodeOk(fs, d) && InodeOk(fs, c);
    UnnamedSum(fs, d, k, 0, i, 1);
    SumHas(fs.inodes, d, k, c, 1);
  }

  lemma FileUnnamedRest(fs: Fs, d: nat, k: nat, e: nat)
    requires Inv(fs) && CanUnname(fs, d, k) && FileLoses(fs, d, k)
    requires var t := Unnamed(fs, d, k, 0); e < |t.inodes| && Linked(t.inodes[e])
    ensures var t := Unnamed(fs, d, k, 0);
            && ParentOk(t, e) && forall j: nat :: 2 <= j < |t.inodes[e].entries| ==> EntryOk(t, e, j)
  {
    hide Sum, Count;
    var t := Unnamed(fs, d, k, 0);
    assert InodeOk(fs, d) && InodeOk(fs, e) && ParentOk(fs, e);
    UnnamedSum(fs, d, k, 0, e, 2);
    CountPut(fs.inodes[d].entries, k, Unused, e, 2);
    forall j: nat | 2 <= j < |t.inodes[e].entries| ensures EntryOk(t, e, j) {
      assert EntryOk(fs, e, j);
    }
  }

  lemma FileUnnamed(fs: Fs, d: nat, k: nat)
    requires Inv(fs) && CanUnname(fs, d, k) && FileLoses(fs, d, k)
    ensures Inv(Unnamed(fs, d, k, 0))
  {
    hide InodeOk, EntryOk, ParentOk;
    var t := Unnamed(fs, d, k, 0);
    forall i: nat | 0 < i < |t.inodes| ensures InodeOk(t, i) {
      FileUnnamedInode(fs, d, k, i);
    }
    forall e: nat | e < |t.inodes| && Linked(t.inodes[e])
      ensures ParentOk(t, e) && forall j: nat :: 2 <= j < |t.inodes[e].entries| ==> EntryOk(t, e, j)
    {
      FileUnnamedRest(fs, d, k, e);
    }
  }

  /** No directory has an empty one for its parent. */
  lemma NoChildren(fs: Fs, c: nat, e: nat)
    requires Inv(fs) && 0 < c < |fs.inodes| && c != ROOTINO && Bare(fs.inodes[c].entries) && e < |fs.inodes|
    requires Linked(fs.inodes[e])
    ensures |fs.inodes[e].entries| >= 2 && fs.inodes[e].entries[1].inum != c
  {
    hide Sum;
    assert ParentOk(fs, e);
    CountPositive(fs.inodes[c].entries, e, 2);
  }

  /** An empty directory has one link, from its parent; and its parent has a link besides the one from it. */
  lemma EmptyDirLinks(fs: Fs, d: nat, k: nat)
    requires Inv(fs) && CanUnname(fs, d, k)
    requires var c := fs.inodes[d].entries[k].inum; fs.inodes[c].kind.Dir? && Bare(fs.inodes[c].entries)
    ensures var c := fs.inodes[d].entries[k].inum;
            fs.inodes[c].nlink == 1 && c != ROOTINO && fs.inodes[c].entries[1].inum == d && fs.inodes[d].nlink > 1
  {
    var c := fs.inodes[d].entries[k].inum;
    assert EntryOk(fs, d, k) && InodeOk(fs, c) && InodeOk(fs, d);
    SumHas(fs.inodes, d, k, c, 1);
    assert Linked(fs.inodes[c]) && ParentOk(fs, c) && ParentOk(fs, d);
    forall e: nat | e < |fs.inodes| && Linked(fs.inodes[e]) ensures |fs.inodes[e].entries| >= 2
        && fs.inodes[e].entries[1].inum != c {
      NoChildren(fs, c, e);
    }
    SumFromTwo(fs.inodes, c);
    ParentHasTwo(fs, d, c);
  }

  lemma ParentHasTwo(fs: Fs, d: nat, c: nat)
    requires Inv(fs) && d < |fs.inodes| && Linked(fs.inodes[d]) && c < |fs.inodes| && c != ROOTINO && c != d
    requires Linked(fs.inodes[c]) && Bare(fs.inodes[c].entries) && |fs.inodes[c].entries| >= 2
    requires fs.inodes[c].entries[1].inum == d
    ensures Sum(fs.inodes, d, 1) > 1
  {
    hide Sum;
    var p := fs.inodes[d].entries[1].inum;
    assert ParentOk(fs, d);
    CountPositive(fs.inodes[c].entries, d, 1);
    CountPositive(fs.inodes[c].entries, d, 2);
    assert ParentOk(fs, p);
    CountFromTwo(fs.inodes[p].entries, d);
    SumTwo(fs.inodes, p, c, d, 1);
  }

  /** An empty directory leaves the tree, and its .. no longer counts. */
  ghost predicate DirLoses(fs: Fs, d: nat, k: nat)
    requires CanUnname(fs, d, k)
  {
    var c := fs.inodes[d].entries[k].inum;
    fs.inodes[c].kind.Dir? && Bare(fs.inodes[c].entries) && c in fs.open
  }

  lemma DirUnnamedSum(fs: Fs, d: nat, k: nat, i: nat)
    requires Inv(fs) && CanUnname(fs, d, k) && DirLoses(fs, d, k) && 0 < i
    ensures var t, c := Unnamed(fs, d, k, 1), fs.inodes[d].entries[k].inum;
            && Sum(t.inodes, i, 1) == Sum(fs.inodes, i, 1) - One(i == c) - One(i == d)
            && Sum(t.inodes, i, 2) == Sum(fs.inodes, i, 2) - One(i == c)
  {
    hide Sum;
    var c := fs.inodes[d].entries[k].inum;
    EmptyDirLinks(fs, d, k);
    UnnamedSum(fs, d, k, 1, i, 1);
    UnnamedSum(fs, d, k, 1, i, 2);
    assert ParentOk(fs, c);
    CountPositive(fs.inodes[c].entries, i, 2);
    CountFromTwo(fs.inodes[c].entries, i);
  }

  lemma DirUnnamedInode(fs: Fs, d: nat, k: nat, i: nat)
    requires Inv(fs) && CanUnname(fs, d, k) && DirLoses(fs, d, k) && 0 < i < |fs.inodes|
    ensures InodeOk(Unnamed(fs, d, k, 1), i)
  {
    hide Sum, Count;
    assert InodeOk(fs, i) && InodeOk(fs, d);
    EmptyDirLinks(fs, d, k);
    DirUnnamedSum(fs, d, k, i);
  }

  lemma DirUnnamedRest(fs: Fs, d: nat, k: nat, e: nat)
    requires Inv(fs) && CanUnname(fs, d, k) && DirLoses(fs, d, k)
    requires var t := Unnamed(fs, d, k, 1); e < |t.inodes| && Linked(t.inodes[e])
    ensures var t := Unnamed(fs, d, k, 1);
            && ParentOk(t, e) && forall j: nat :: 2 <= j < |t.inodes[e].entries| ==> EntryOk(t, e, j)
  {
    hide Sum, Count, Bare;
    var t := Unnamed(fs, d, k, 1);
    EmptyDirLinks(fs, d, k);
    DirUnnamedParent(fs, d, k, e);
    assert InodeOk(fs, d);
    forall j: nat | 2 <= j < |t.inodes[e].entries| ensures EntryOk(t, e, j) {
      assert EntryOk(fs, e, j);
    }
  }

  lemma DirUnnamedParent(fs: Fs, d: nat, k: nat, e: nat)
    requires Inv(fs) && CanUnname(fs, d, k) && DirLoses(fs, d, k)
    requires e < |fs.inodes| && Linked(Unnamed(fs, d, k, 1).inodes[e])
    ensures ParentOk(Unnamed(fs, d, k, 1), e) && Linked(fs.inodes[e])
  {
    hide Sum, Count, Inv, Bare;
    var t, c := Unnamed(fs, d, k, 1), fs.inodes[d].entries[k].inum;
    EmptyDirLinks(fs, d, k);
    ParentOf(fs, e);
    NoChildren(fs, c, e);
    DirUnnamedSum(fs, d, k, e);
    CountPut(fs.inodes[d].entries, k, Unused, e, 2);
    assert t.inodes[e].entries[1] == fs.inodes[e].entries[1];
  }

  lemma ParentOf(fs: Fs, e: nat)
    requires Inv(fs) && e < |fs.inodes| && Linked(fs.inodes[e])
    ensures ParentOk(fs, e) && 0 < e
  {
    hide EntryOk, InodeOk, ParentOk, Sum, Count;
  }

  lemma DirUnnamed(fs: Fs, d: nat, k: nat)
    requires Inv(fs) && CanUnname(fs, d, k) && DirLoses(fs, d, k)
    ensures Inv(Unnamed(fs, d, k, 1))
  {
    hide InodeOk, EntryOk, ParentOk;
    EmptyDirLinks(fs, d, k);
    var t := Unnamed(fs, d, k, 1);
    forall i: nat | 0 < i < |t.inodes| ensures InodeOk(t, i) {
      DirUnnamedInode(fs, d, k, i);
    }
    forall e: nat | e < |t.inodes| && Linked(t.inodes[e])
      ensures ParentOk(t, e) && forall j: nat :: 2 <= j < |t.inodes[e].entries| ==> EntryOk(t, e, j)
    {
      DirUnnamedRest(fs, d, k, e);
    }
  }

  // --------------------------------------------------------------------- references to inodes

  /** iget: an inode in use is referred to. */
  function Held(fs: Fs, i: nat): Fs {
    fs.(open := fs.open + {i})
  }

  /** iput by the last one to refer to it: an inode without links is freed. */
  function Released(fs: Fs, i: nat): Fs {
    if i < |fs.inodes| && fs.inodes[i].nlink == 0 then Fs(fs.inodes[i := NoInode], fs.open - {i})
    else fs.(open := fs.open - {i})
  }

  lemma HeldInv(fs: Fs, i: nat)
    requires Inv(fs) && 0 < i < |fs.inodes| && !fs.inodes[i].kind.Free?
    ensures Inv(Held(fs, i))
  {
    hide Sum, Count;
    var t := Held(fs, i);
    forall j: nat | 0 < j < |t.inodes| ensures InodeOk(t, j) {
      assert InodeOk(fs, j);
    }
    forall d: nat, k: nat | d < |t.inodes| && Linked(t.inodes[d])
        && 2 <= k < |t.inodes[d].entries| ensures EntryOk(t, d, k) {
      assert EntryOk(fs, d, k);
    }
    forall c: nat | c < |t.inodes| && Linked(t.inodes[c]) ensures ParentOk(t, c) {
      assert ParentOk(fs, c);
    }
  }

  lemma ReleasedInv(fs: Fs, i: nat)
    requires Inv(fs) && 0 < i < |fs.inodes|
    ensures Inv(Released(fs, i))
  {
    hide Sum, Count;
    var t := Released(fs, i);
    assert InodeOk(fs, i);
    forall j: nat | 0 < j < |t.inodes| ensures InodeOk(t, j) {
      assert InodeOk(fs, j);
      SumPut(fs.inodes, i, NoInode, j, 1);
    }
    forall c: nat | c < |t.inodes| && Linked(t.inodes[c])
      ensures ParentOk(t, c) && forall k: nat :: 2 <= k < |t.inodes[c].entries| ==> EntryOk(t, c, k)
    {
      ReleasedRest(fs, i, c);
    }
  }

  lemma ReleasedRest(fs: Fs, i: nat, c: nat)
    requires Inv(fs) && 0 < i < |fs.inodes|
    requires c < |fs.inodes| && Linked(Released(fs, i).inodes[c])
    ensures var t := Released(fs, i);
            && ParentOk(t, c) && forall k: nat :: 2 <= k < |t.inodes[c].entries| ==> EntryOk(t, c, k)
  {
    hide Sum, Count;
    var t := Released(fs, i);
    assert ParentOk(fs, c) && InodeOk(fs, i);
    SumPut(fs.inodes, i, NoInode, c, 2);
    forall k: nat | 2 <= k < |t.inodes[c].entries| ensures EntryOk(t, c, k) {
      assert EntryOk(fs, c, k);
      if fs.inodes[i].nlink == 0 {
        FreeIsUnnamed(fs, i, c, k);
      }
    }
  }

  // ---------------------------------------------------------------- what the counts come to

  /** The entries of a directory that name i, other than ".". */
  function NamesOf(es: seq<Entry>, i: nat): nat {
    if es == [] then 0
    else NamesOf(es[..|es| - 1], i) + One(es[|es| - 1].inum == i && es[|es| - 1].name != ".")
  }

  /** Over all linked directories. */
  function References(xs: seq<Inode>, i: nat): nat {
    if xs == [] then 0
    else References(xs[..|xs| - 1], i) + (if Linked(xs[|xs| - 1]) then NamesOf(xs[|xs| - 1].entries, i) else 0)
  }

  /** Every link count is the number of entries other than "." that name the inode in linked directories. */
  ghost predicate LinkCounts(fs: Fs) {
    forall i: nat :: 0 < i < |fs.inodes| ==> fs.inodes[i].nlink == References(fs.inodes, i)
  }

  /** "." is the first entry of a directory and of no other name. */
  predicate DotFirst(es: seq<Entry>) {
    |es| >= 2 && es[0].name == "." && forall k :: 1 <= k < |es| ==> es[k].name != "." || es[k].inum == 0
  }

  lemma {:induction false} NamesAreCount(es: seq<Entry>, i: nat)
    requires 0 < i && |es| >= 1 && es[0].name == "."
    requires forall k :: 1 <= k < |es| ==> es[k].name != "." || es[k].inum == 0
    ensures NamesOf(es, i) == Count(es, i, 1)
  {
    if |es| == 1 {
      assert NamesOf(es[..0], i) == 0;
    } else {
      NamesAreCount(es[..|es| - 1], i);
    }
  }

  lemma {:induction false} ReferencesAreSum(xs: seq<Inode>, i: nat)
    requires 0 < i && forall d :: 0 <= d < |xs| && Linked(xs[d]) ==> DotFirst(xs[d].entries)
    ensures References(xs, i) == Sum(xs, i, 1)
  {
    if xs != [] {
      ReferencesAreSum(xs[..|xs| - 1], i);
      if Linked(xs[|xs| - 1]) {
        NamesAreCount(xs[|xs| - 1].entries, i);
      }
    }
  }

  lemma InvDots(fs: Fs)
    requires Inv(fs)
    ensures forall d :: 0 <= d < |fs.inodes| && fs.inodes[d].kind.Dir? ==> DotFirst(fs.inodes[d].entries)
  {
    forall d: nat | d < |fs.inodes| && fs.inodes[d].kind.Dir? ensures DotFirst(fs.inodes[d].entries) {
      assert InodeOk(fs, d);
    }
  }

  lemma InvCounts(fs: Fs)
    requires Inv(fs)
    ensures LinkCounts(fs)
  {
    InvDots(fs);
    forall i: nat | 0 < i < |fs.inodes| ensures fs.inodes[i].nlink == References(fs.inodes, i) {
      ReferencesAreSum(fs.inodes, i);
      assert InodeOk(fs, i);
    }
  }

  /** Names within a directory are unique, and every name in the tree leads to an inode in use. */
  lemma InvNames(fs: Fs, d: nat, k: nat)
    requires Inv(fs) && d < |fs.inodes| && Linked(fs.inodes[d]) && k < |fs.inodes[d].entries|
    requires fs.inodes[d].entries[k].inum != 0
    ensures UniqueNames(fs.inodes[d].entries)
    ensures fs.inodes[d].entries[k].inum < |fs.inodes| && !fs.inodes[fs.inodes[d].entries[k].inum].kind.Free?
  {
    hide Sum, Count;
    assert InodeOk(fs, d);
    var c := fs.inodes[d].entries[k].inum;
    if k >= 1 {
      if k >= 2 {
        assert EntryOk(fs, d, k);
      }
      SumHas(fs.inodes, d, k, c, 1);
      assert InodeOk(fs, c);
    }
  }
}
