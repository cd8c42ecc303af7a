/**
 The changes that create, link, unlink and the closing of files make to the directory tree
 (kernel/sysfile.c), and every run of them from the image mkfs builds.
 */
module DirectoryRuns {
  import opened Common
  import opened Names
  import opened Directory

  /** `k` is a position in directory d; `Forget` is the last reference to an inode going away. */
  datatype Change =
    | Nothing
    | NewFile(d: nat, k: nat, name: string, x: nat, kind: Kind)
    | MakeDir(d: nat, k: nat, name: string, x: nat)
    | AddLink(d: nat, k: nat, name: string, x: nat)
    | Remove(d: nat, k: nat)
    | Refer(i: nat)
    | Forget(i: nat)

  predicate Adds(c: Change) {
    c.NewFile? || c.MakeDir? || c.AddLink?
  }

  predicate IsDir(fs: Fs, d: nat) {
    0 < d < |fs.inodes| && fs.inodes[d].kind.Dir?
  }

  /** The entry at k of directory d names an inode. */
  predicate IsEntry(fs: Fs, d: nat, k: nat) {
    IsDir(fs, d) && 2 <= k < |fs.inodes[d].entries| && 0 < fs.inodes[d].entries[k].inum < |fs.inodes|
  }

  /** What the system calls have checked before they make the change. */
  predicate Allowed(fs: Fs, c: Change) {
    match c
    case Nothing => true
    case NewFile(d, k, name, x, kind) =>
      CanAdd(fs, d, k, name, x) && fs.inodes[x] == NoInode && (kind.File? || kind.Device?)
    case MakeDir(d, k, name, x) => CanAdd(fs, d, k, name, x) && fs.inodes[x] == NoInode
    case AddLink(d, k, name, x) =>
      CanAdd(fs, d, k, name, x) && (fs.inodes[x].kind.File? || fs.inodes[x].kind.Device?)
    case Remove(d, k) =>
      && IsEntry(fs, d, k) && fs.inodes[d].entries[k].inum != d
      && (var i := fs.inodes[d].entries[k].inum; fs.inodes[i].kind.Dir? ==> Bare(fs.inodes[i].entries))
    case Refer(i) => 0 < i < |fs.inodes| && !fs.inodes[i].kind.Free?
    case Forget(i) => 0 < i < |fs.inodes| && i in fs.open
  }

  predicate CanAdd(fs: Fs, d: nat, k: nat, name: string, x: nat) {
    && IsDir(fs, d) && 0 < x < |fs.inodes| && x != d
    && Open(fs.inodes[d].entries, k) && NotIn(fs.inodes[d].entries, name)
  }

  function MoreLinks(x: Inode): Inode {
    x.(nlink := x.nlink + 1)
  }

  function Apply(fs: Fs, c: Change): Fs
    requires Allowed(fs, c)
  {
    match c
    case Nothing => fs
    case NewFile(d, k, name, x, kind) => Named(fs, d, k, name, x, Inode(kind, 1, []), 0)
    case MakeDir(d, k, name, x) => Named(fs, d, k, name, x, NewDir(x, d), 1)
    case AddLink(d, k, name, x) => Named(fs, d, k, name, x, MoreLinks(fs.inodes[x]), 0)
    case Remove(d, k) =>
      var i := fs.inodes[d].entries[k].inum;
      var t := Unnamed(Held(fs, i), d, k, if fs.inodes[i].kind.Dir? then 1 else 0);
      if i in fs.open then t else Released(t, i)
    case Refer(i) => Held(fs, i)
    case Forget(i) => Released(fs, i)
  }

  /** The parent of a new name is still part of the tree. */
  predicate ParentLinked(fs: Fs, c: Change) {
    Adds(c) ==> c.d < |fs.inodes| && Linked(fs.inodes[c.d])
  }

  // ---------------------------------------------------------------- changes keep the counts

  /** A directory that has left the tree holds no names to remove. */
  lemma RemovedFromLinked(fs: Fs, d: nat, k: nat)
    requires Inv(fs) && IsEntry(fs, d, k)
    ensures Linked(fs.inodes[d])
  {
    hide Sum;
    assert InodeOk(fs, d);
  }

  lemma RemoveKeeps(fs: Fs, d: nat, k: nat)
    requires Inv(fs) && Allowed(fs, Remove(d, k))
    ensures Inv(Apply(fs, Remove(d, k)))
  {
    hide Inv, Bare;
    RemovedFromLinked(fs, d, k);
    var i := fs.inodes[d].entries[k].inum;
    NamedInUse(fs, d, k);
    HeldInv(fs, i);
    var h := Held(fs, i);
    if fs.inodes[i].kind.Dir? {
      DirUnnamed(h, d, k);
      ReleasedInv(Unnamed(h, d, k, 1), i);
    } else {
      FileUnnamed(h, d, k);
      ReleasedInv(Unnamed(h, d, k, 0), i);
    }
  }

  lemma NamedInUse(fs: Fs, d: nat, k: nat)
    requires Inv(fs) && IsEntry(fs, d, k)
    ensures !fs.inodes[fs.inodes[d].entries[k].inum].kind.Free?
  {
    hide Sum;
    RemovedFromLinked(fs, d, k);
    InvNames(fs, d, k);
  }

  lemma ChangeKeeps(fs: Fs, c: Change)
    requires Inv(fs) && Allowed(fs, c) && ParentLinked(fs, c)
    ensures Inv(Apply(fs, c))
  {
    match c
    case Nothing =>
    case NewFile(d, k, name, x, kind) =>
      assert InodeOk(fs, x);
      FileNamed(fs, d, k, name, x, Inode(kind, 1, []));
    case MakeDir(d, k, name, x) => DirNamed(fs, d, k, name, x);
    case AddLink(d, k, name, x) =>
      assert InodeOk(fs, x);
      FileNamed(fs, d, k, name, x, MoreLinks(fs.inodes[x]));
    case Remove(d, k) => RemoveKeeps(fs, d, k);
    case Refer(i) => HeldInv(fs, i);
    case Forget(i) => ReleasedInv(fs, i);
  }

  // ------------------------------------------------------------- names in a removed directory

  /** A file named only in a directory that has left the tree has a link nobody counts. */
  lemma FileNamedBreaks(fs: Fs, d: nat, k: nat, name: string, x: nat, y: Inode)
    requires Inv(fs) && CanAdd(fs, d, k, name, x) && !Linked(fs.inodes[d]) && FileGains(fs, x, y)
    ensures !LinkCounts(Named(fs, d, k, name, x, y, 0))
  {
    hide Sum, Count;
    var t := Named(fs, d, k, name, x, y, 0);
    assert InodeOk(fs, x) && InodeOk(fs, d);
    var dir := t.inodes[d];
    SumPut(fs.inodes, x, y, x, 1);
    SumPut(fs.inodes[x := y], d, dir, x, 1);
    InvDots(fs);
    ReferencesAreSum(t.inodes, x);
  }

  /** A directory made in one that has left the tree brings that one's own .. back into the count. */
  lemma DirNamedBreaks(fs: Fs, d: nat, k: nat, name: string, x: nat)
    requires Inv(fs) && CanAdd(fs, d, k, name, x) && !Linked(fs.inodes[d]) && fs.inodes[x] == NoInode
    ensures !LinkCounts(Named(fs, d, k, name, x, NewDir(x, d), 1))
  {
    hide Sum;
    var t := Named(fs, d, k, name, x, NewDir(x, d), 1);
    assert InodeOk(fs, d) && InodeOk(fs, x);
    var p, es := fs.inodes[d].entries[1].inum, fs.inodes[d].entries;
    assert InodeOk(fs, p);
    var dir := t.inodes[d];
    SumPut(fs.inodes, x, NewDir(x, d), p, 1);
    SumPut(fs.inodes[x := NewDir(x, d)], d, dir, p, 1);
    NewDirPart(x, d, p);
    PutCount(es, k, Entry(x, name), p, 1);
    CountFromTwo(es, p);
    CountPositive(es, p, 2);
    InvDots(fs);
    DotsStay(fs, d, k, name, x);
    ReferencesAreSum(t.inodes, p);
    RemovedIsNotRoot(fs, d);
  }

  lemma DotsStay(fs: Fs, d: nat, k: nat, name: string, x: nat)
    requires Inv(fs) && CanAdd(fs, d, k, name, x) && fs.inodes[x] == NoInode
    ensures var t := Named(fs, d, k, name, x, NewDir(x, d), 1);
            forall e :: 0 <= e < |t.inodes| && Linked(t.inodes[e]) ==> DotFirst(t.inodes[e].entries)
  {
    hide Sum;
    InvDots(fs);
    assert InodeOk(fs, d);
  }

  /** A removed directory is not its own parent. */
  lemma RemovedIsNotRoot(fs: Fs, d: nat)
    requires Inv(fs) && IsDir(fs, d) && !Linked(fs.inodes[d])
    ensures d != ROOTINO
  {
  }

  /**
   The link counts stay right exactly when no name is added in a directory that has been removed
   while something still refers to it.
   */
  lemma CountsStayRight(fs: Fs, c: Change)
    requires Inv(fs) && Allowed(fs, c)
    ensures LinkCounts(Apply(fs, c)) <==> ParentLinked(fs, c)
  {
    hide LinkCounts, Inv;
    if ParentLinked(fs, c) {
      ChangeKeeps(fs, c);
      InvCounts(Apply(fs, c));
    } else {
      AddedInUse(fs, c);
      match c {
        case NewFile(d, k, name, x, kind) => FileNamedBreaks(fs, d, k, name, x, Inode(kind, 1, []));
        case MakeDir(d, k, name, x) => DirNamedBreaks(fs, d, k, name, x);
        case AddLink(d, k, name, x) => FileNamedBreaks(fs, d, k, name, x, MoreLinks(fs.inodes[x]));
      }
    }
  }

  lemma AddedInUse(fs: Fs, c: Change)
    requires Inv(fs) && Allowed(fs, c) && Adds(c)
    ensures c.NewFile? ==> FileGains(fs, c.x, Inode(c.kind, 1, []))
    ensures c.AddLink? ==> FileGains(fs, c.x, MoreLinks(fs.inodes[c.x]))
  {
    assert InodeOk(fs, c.x);
  }

  // --------------------------------------------------------------------------------- every run

  /** The root alone, as mkfs first makes it: its one link is its own "..". */
  function RootOnly(n: nat): Fs
    requires n > ROOTINO
  {
    Fs(seq(n, i => NoInode)[ROOTINO := NewDir(ROOTINO, ROOTINO)], {})
  }

  lemma {:induction false} NoDirSum(xs: seq<Inode>, i: nat, from: nat)
    requires forall d :: 0 <= d < |xs| ==> xs[d] == NoInode
    ensures Sum(xs, i, from) == 0
  {
    SumZero(xs, i, from);
  }

  lemma RootOnlyInv(n: nat)
    requires n > ROOTINO
    ensures Inv(RootOnly(n))
  {
    hide Sum, Count;
    var fs, blank := RootOnly(n), seq(n, i => NoInode);
    forall i: nat | 0 < i < n ensures Sum(fs.inodes, i, 1) == One(i == ROOTINO) && Sum(fs.inodes, i, 2) == 0 {
      NoDirSum(blank, i, 1);
      NoDirSum(blank, i, 2);
      SumPut(blank, ROOTINO, NewDir(ROOTINO, ROOTINO), i, 1);
      SumPut(blank, ROOTINO, NewDir(ROOTINO, ROOTINO), i, 2);
      NewDirPart(ROOTINO, ROOTINO, i);
    }
    assert forall i: nat :: 0 < i < n ==> InodeOk(fs, i);
    assert ParentOk(fs, ROOTINO);
  }

  /** A run of changes, none of them a name added in a removed directory. */
  ghost predicate IsRun(ss: seq<Fs>, cs: seq<Change>) {
    && |ss| == |cs| + 1 && |ss[0].inodes| > ROOTINO && ss[0] == RootOnly(|ss[0].inodes|)
    && forall i: nat :: i < |cs| ==> Happens(ss[i], cs[i], ss[i + 1])
  }

  ghost predicate Happens(s: Fs, c: Change, t: Fs) {
    Allowed(s, c) && ParentLinked(s, c) && t == Apply(s, c)
  }

  lemma {:induction false} RunsKeep(ss: seq<Fs>, cs: seq<Change>, i: nat)
    requires IsRun(ss, cs) && i < |ss|
    ensures Inv(ss[i])
  {
    hide Inv, Allowed, Apply;
    if i == 0 {
      RootOnlyInv(|ss[0].inodes|);
    } else {
      RunsKeep(ss, cs, i - 1);
      assert Happens(ss[i - 1], cs[i - 1], ss[i - 1 + 1]);
      ChangeKeeps(ss[i - 1], cs[i - 1]);
    }
  }

  /**
   In every state of every run each link count is the number of entries that name the inode,
   names in a directory are unique, and every name in the tree leads to an inode in use.
   */
  lemma RunsCountLinks(ss: seq<Fs>, cs: seq<Change>, i: nat)
    requires IsRun(ss, cs) && i < |ss|
    ensures LinkCounts(ss[i])
    ensures forall d: nat :: d < |ss[i].inodes| && Linked(ss[i].inodes[d]) ==> UniqueNames(ss[i].inodes[d].entries)
    ensures forall d: nat, k: nat :: d < |ss[i].inodes| && Linked(ss[i].inodes[d]) && k < |ss[i].inodes[d].entries| ==>
            Leads(ss[i], d, k)
  {
    hide LinkCounts;
    RunsKeep(ss, cs, i);
    InvCounts(ss[i]);
    forall d: nat | d < |ss[i].inodes| && Linked(ss[i].inodes[d]) ensures UniqueNames(ss[i].inodes[d].entries) {
      assert InodeOk(ss[i], d);
    }
    forall d: nat, k: nat | d < |ss[i].inodes| && Linked(ss[i].inodes[d])
        && k < |ss[i].inodes[d].entries| ensures Leads(ss[i], d, k) {
      if ss[i].inodes[d].entries[k].inum != 0 {
        InvNames(ss[i], d, k);
      }
    }
  }

  predicate Leads(fs: Fs, d: nat, k: nat)
    requires d < |fs.inodes| && k < |fs.inodes[d].entries|
  {
    var i := fs.inodes[d].entries[k].inum;
    i != 0 ==> i < |fs.inodes| && !fs.inodes[i].kind.Free?
  }

  /** mkdir a, make it the working directory, remove it by its path, and create a file there. */
  lemma NameInRemovedDirectory() returns (ss: seq<Fs>, cs: seq<Change>, c: Change)
    ensures IsRun(ss, cs) && Allowed(ss[|cs|], c) && !ParentLinked(ss[|cs|], c) && !LinkCounts(Apply(ss[|cs|], c))
  {
    var dots, a := [Entry(1, "."), Entry(1, "..")], Inode(Dir, 1, [Entry(2, "."), Entry(1, "..")]);
    var s0 := RootOnly(4);
    var s1 := Fs([NoInode, Inode(Dir, 2, dots + [Entry(2, "a")]), a, NoInode], {});
    var s2 := s1.(open := {2});
    var s3 := Fs([NoInode, Inode(Dir, 1, dots + [Unused]), a.(nlink := 0), NoInode], {2});
    var c0, c1, c2 := MakeDir(1, 2, "a", 2), Refer(2), Remove(1, 2);
    assert s0.inodes == [NoInode, Inode(Dir, 1, dots), NoInode, NoInode];
    assert Happens(s0, c0, s1) by { assert Apply(s0, c0).inodes == s1.inodes; }
    assert Happens(s1, c1, s2);
    assert Happens(s2, c2, s3) by { RemoveExample(s2, s3); }
    ss, cs, c := [s0, s1, s2, s3], [c0, c1, c2], NewFile(2, 2, "f", 3, File);
    assert Allowed(s3, c);
    hide Happens, Allowed, Apply, LinkCounts, ParentLinked;
    RunOfThree(s0, s1, s2, s3, c0, c1, c2);
    RunsKeep(ss, cs, 3);
    CountsStayRight(s3, c);
    assert !ParentLinked(s3, c) by { NotLinkedExample(s3, c); }
  }

  lemma RemoveExample(s: Fs, t: Fs)
    requires var dots, a := [Entry(1, "."), Entry(1, "..")], Inode(Dir, 1, [Entry(2, "."), Entry(1, "..")]);
             && s == Fs([NoInode, Inode(Dir, 2, dots + [Entry(2, "a")]), a, NoInode], {2})
             && t == Fs([NoInode, Inode(Dir, 1, dots + [Unused]), a.(nlink := 0), NoInode], {2})
    ensures Allowed(s, Remove(1, 2)) && t == Apply(s, Remove(1, 2))
  {
    assert s.open + {2} == s.open;
    var es := s.inodes[1].entries;
    assert es[2] == Entry(2, "a") && es[2 := Unused] == t.inodes[1].entries;
    assert Held(s, 2) == s;
    assert Apply(s, Remove(1, 2)) == Unnamed(s, 1, 2, 1);
    assert Unnamed(s, 1, 2, 1).inodes == t.inodes;
  }

  lemma NotLinkedExample(s: Fs, c: Change)
    requires Adds(c) && (c.d < |s.inodes| ==> s.inodes[c.d].nlink == 0)
    ensures !ParentLinked(s, c)
  {
  }

  lemma RunOfThree(s0: Fs, s1: Fs, s2: Fs, s3: Fs, c0: Change, c1: Change, c2: Change)
    requires |s0.inodes| > ROOTINO && s0 == RootOnly(|s0.inodes|)
    requires Happens(s0, c0, s1) && Happens(s1, c1, s2) && Happens(s2, c2, s3)
    ensures IsRun([s0, s1, s2, s3], [c0, c1, c2])
  {
    hide Happens;
  }
}
