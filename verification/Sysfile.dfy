/**
 create, link and unlink (kernel/sysfile.c) over dirlookup, dirlink, ialloc and namex
 (kernel/fs.c), one system call at a time.

 Whether the disk has a block left for a directory that must grow is up to the caller of each
 method: the `room` parameters.
 */
module Sysfile {
  import opened Common
  import opened Names
  import opened Directory
  import opened DirectoryRuns
  import opened Paths

  /** How a system call ends; a panic is what ilock does on an inode that is not in use. */
  datatype Outcome = Done(i: nat) | Failed | Panicked

  predicate Fits(name: string) {
    |name| <= DIRSIZ && NUL !in name
  }

  predicate Canonical(fs: Fs) {
    forall i, k :: 0 <= i < |fs.inodes| && 0 <= k < |fs.inodes[i].entries| ==> Fits(fs.inodes[i].entries[k].name)
  }

  /** A name of at most DIRSIZ characters in its buffer, which need not end with NUL. */
  lemma BufferHolds(name: string)
    requires Fits(name)
    ensures Readable(name + [NUL], DIRSIZ) && CString(name + [NUL], DIRSIZ) == name
  {
    var buf := name + [NUL];
    assert buf[|name|] == NUL && buf[..|name|] == name;
    CStringIs(buf, DIRSIZ, |name|);
  }

  // ------------------------------------------------------------------------------------ paths

  /** Where a path starts. */
  function Origin(cwd: nat, path: string): nat {
    if path != "" && path[0] == '/' then ROOTINO else cwd
  }

  /** In the tree no path is lost, and the directory found is part of the tree. */
  lemma {:induction false} WalkInTree(fs: Fs, at: nat, names: seq<string>, parent: bool)
    requires Inv(fs) && 0 < at < |fs.inodes| && (fs.inodes[at].kind.Dir? ==> Linked(fs.inodes[at]))
    requires !fs.inodes[at].kind.Free?
    ensures var r := Walk(fs, at, names, parent);
            && !r.Lost?
            && (r.Found? ==>
                0 < r.i < |fs.inodes| && !fs.inodes[r.i].kind.Free? && (fs.inodes[r.i].kind.Dir? ==>
                    Linked(fs.inodes[r.i])))
    decreases |names|
  {
    hide Sum;
    if names != [] && fs.inodes[at].kind.Dir? && !(parent && |names| == 1) {
      var es := fs.inodes[at].entries;
      var i := Target(es, names[0]);
      if i != 0 {
        var k :| 0 <= k < |es| && es[k] == Entry(i, names[0]);
        InvNames(fs, at, k);
        LinkedOrFile(fs, at, k);
        WalkInTree(fs, i, names[1..], parent);
      }
    }
  }

  /** What a linked directory names is in use, and linked if it is a directory. */
  lemma LinkedOrFile(fs: Fs, d: nat, k: nat)
    requires Inv(fs) && 0 < d < |fs.inodes| && Linked(fs.inodes[d]) && k < |fs.inodes[d].entries|
    requires fs.inodes[d].entries[k].inum != 0
    requires fs.inodes[d].entries[k].inum < |fs.inodes|
    ensures var i := fs.inodes[d].entries[k].inum; fs.inodes[i].kind.Dir? ==> Linked(fs.inodes[i])
  {
    hide Sum;
    var i := fs.inodes[d].entries[k].inum;
    assert InodeOk(fs, d) && InodeOk(fs, i);
    if k >= 1 {
      SumHas(fs.inodes, d, k, i, 1);
    }
  }

  // ------------------------------------------------------------ paths from a removed directory

  predicate Removed(x: Inode) {
    x.kind.Dir? && x.nlink == 0
  }

  /** The path starts with k steps up. */
  predicate Climbs(names: seq<string>, k: nat) {
    k == 0
    || (names != [] && names[0] == "." && Climbs(names[1..], k))
    || (names != [] && names[0] == ".." && Climbs(names[1..], k - 1))
  }

  /** k steps up from `at`, through directories that have been removed, there is an inode that is not in use. */
  predicate CutOff(fs: Fs, at: nat, k: nat)
    decreases k
  {
    && at < |fs.inodes|
    && if k == 0 then fs.inodes[at].kind.Free?
       else Removed(fs.inodes[at]) && |fs.inodes[at].entries| >= 2 && CutOff(fs, fs.inodes[at].entries[1].inum, k - 1)
  }

  /** The path climbs that far. */
  ghost predicate Strays(fs: Fs, at: nat, names: seq<string>) {
    exists k: nat :: Climbs(names, k) && CutOff(fs, at, k)
  }

  /** What the entries of a removed directory lead to. */
  lemma RemovedTargets(fs: Fs, at: nat, name: string)
    requires Inv(fs) && 0 < at < |fs.inodes| && Removed(fs.inodes[at])
    ensures |fs.inodes[at].entries| >= 2 && 0 < fs.inodes[at].entries[1].inum < |fs.inodes|
    ensures Target(fs.inodes[at].entries, name) ==
            if name == "." then at else if name == ".." then fs.inodes[at].entries[1].inum else 0
  {
    hide Sum;
    assert InodeOk(fs, at);
    var es := fs.inodes[at].entries;
    var i := Target(es, name);
    if i != 0 {
      var k :| 0 <= k < |es| && es[k] == Entry(i, name);
      assert k < 2;
    } else {
      assert es[0].name != name && es[1].name != name;
    }
  }

  /** The first name of a path from a removed directory decides where the rest goes on. */
  lemma StraysOn(fs: Fs, at: nat, names: seq<string>)
    requires 0 < at < |fs.inodes| && Removed(fs.inodes[at]) && |fs.inodes[at].entries| >= 2 && names != []
    ensures Strays(fs, at, names) <==>
            || (names[0] == "." && Strays(fs, at, names[1..]))
            || (names[0] == ".." && Strays(fs, fs.inodes[at].entries[1].inum, names[1..]))
  {
    var up := fs.inodes[at].entries[1].inum;
    if Strays(fs, at, names) {
      var k: nat :| Climbs(names, k) && CutOff(fs, at, k);
      assert k > 0 && (names[0] == ".." ==> CutOff(fs, up, k - 1));
    }
    if names[0] == "." && Strays(fs, at, names[1..]) {
      var k: nat :| Climbs(names[1..], k) && CutOff(fs, at, k);
      assert Climbs(names, k);
    }
    if names[0] == ".." && Strays(fs, up, names[1..]) {
      var k: nat :| Climbs(names[1..], k) && CutOff(fs, up, k);
      assert Climbs(names, k + 1) && CutOff(fs, at, k + 1);
    }
  }

  lemma NoStray(fs: Fs, at: nat, names: seq<string>)
    requires at < |fs.inodes| && !fs.inodes[at].kind.Free? && (names == [] || !Removed(fs.inodes[at]))
    ensures !Strays(fs, at, names)
  {
    forall k: nat | Climbs(names, k) ensures !CutOff(fs, at, k) {
    }
  }

  /** A path meets an inode that is not in use exactly when it climbs there before its last name. */
  lemma {:induction false} LostIff(fs: Fs, at: nat, names: seq<string>, parent: bool)
    requires Inv(fs) && 0 < at < |fs.inodes|
    ensures Walk(fs, at, names, parent).Lost? <==> names != [] && Strays(fs, at, names[..|names| - 1])
    decreases |names|
  {
    hide Inv, Strays, Target;
    if names != [] {
      var x, most := fs.inodes[at], names[..|names| - 1];
      if x.kind.Free? {
        StraysHere(fs, at, most);
      } else if !Removed(x) {
        NoStray(fs, at, most);
        if x.kind.Dir? {
          DirIsLinked(fs, at);
          WalkInTree(fs, at, names, parent);
        }
      } else if |names| == 1 {
        NoStray(fs, at, most);
      } else {
        RemovedTargets(fs, at, names[0]);
        StraysOn(fs, at, most);
        assert most[1..] == names[1..][..|names[1..]| - 1];
        LostIff(fs, at, names[1..], parent);
        LostIff(fs, x.entries[1].inum, names[1..], parent);
      }
    }
  }

  lemma StraysHere(fs: Fs, at: nat, names: seq<string>)
    requires at < |fs.inodes| && fs.inodes[at].kind.Free?
    ensures Strays(fs, at, names)
  {
    assert Climbs(names, 0) && CutOff(fs, at, 0);
  }

  lemma DirIsLinked(fs: Fs, at: nat)
    requires Inv(fs) && 0 < at < |fs.inodes| && fs.inodes[at].kind.Dir? && !Removed(fs.inodes[at])
    ensures Linked(fs.inodes[at])
  {
    hide Sum;
    assert InodeOk(fs, at);
  }

  /** The parent walk is lost, or its last name leads to an inode that is not in use. */
  ghost predicate MeetsFree(fs: Fs, at: nat, names: seq<string>) {
    var w := Walk(fs, at, names, true);
    || w.Lost?
    || (w.Found? && w.i < |fs.inodes| &&
        (var i := Target(fs.inodes[w.i].entries, Last(names)); i != 0 && (i >= |fs.inodes| || fs.inodes[i].kind.Free?)))
  }

  /** ... exactly when the path climbs to one. */
  lemma {:induction false} MeetsFreeIff(fs: Fs, at: nat, names: seq<string>)
    requires Inv(fs) && 0 < at < |fs.inodes| && (names == [] ==> !fs.inodes[at].kind.Free?)
    ensures MeetsFree(fs, at, names) <==> Strays(fs, at, names)
    decreases |names|
  {
    hide Inv, Strays, Target;
    var x := fs.inodes[at];
    if x.kind.Free? {
      StraysHere(fs, at, names);
    } else if names == [] {
      NoStray(fs, at, names);
    } else if !Removed(x) {
      NoStray(fs, at, names);
      if x.kind.Dir? {
        DirIsLinked(fs, at);
        WalkInTree(fs, at, names, true);
        var w := Walk(fs, at, names, true);
        if w.Found? {
          WalkEndsInDir(fs, at, names);
          TargetInUse(fs, w.i, Last(names));
        }
      }
    } else {
      RemovedTargets(fs, at, names[0]);
      StraysOn(fs, at, names);
      var up := x.entries[1].inum;
      if |names| == 1 {
        assert names[1..] == [];
        NoStray(fs, at, names[1..]);
        if fs.inodes[up].kind.Free? {
          StraysHere(fs, up, names[1..]);
        } else {
          NoStray(fs, up, names[1..]);
        }
      } else {
        assert Last(names) == Last(names[1..]);
        MeetsFreeIff(fs, at, names[1..]);
        MeetsFreeIff(fs, up, names[1..]);
      }
    }
  }

  lemma WalkEndsInDir(fs: Fs, at: nat, names: seq<string>)
    requires Inv(fs) && Walk(fs, at, names, true).Found?
    ensures IsDir(fs, Walk(fs, at, names, true).i)
  {
    hide Sum;
    ParentIsDir(fs, at, names);
  }

  lemma TargetInUse(fs: Fs, d: nat, name: string)
    requires Inv(fs) && 0 < d < |fs.inodes| && Linked(fs.inodes[d])
    ensures var i := Target(fs.inodes[d].entries, name); i != 0 ==> i < |fs.inodes| && !fs.inodes[i].kind.Free?
  {
    hide Sum;
    var i := Target(fs.inodes[d].entries, name);
    if i != 0 {
      var k :| 0 <= k < |fs.inodes[d].entries| && fs.inodes[d].entries[k] == Entry(i, name);
      InvNames(fs, d, k);
    }
  }

  /** The first unused position of a directory, or its end. */
  function Hole(es: seq<Entry>): (k: nat)
    ensures k <= |es| && (k < |es| ==> es[k].inum == 0) && forall j :: 0 <= j < k ==> es[j].inum != 0
  {
    if es == [] || es[0].inum == 0 then 0
    else
      var k := 1 + Hole(es[1..]);
      assert forall j :: 1 <= j < k ==> es[j] == es[1..][j - 1];
      k
  }

  /** An inode table with the entry for i put into directory d. */
  function WithEntry(xs: seq<Inode>, d: nat, name: string, i: nat): seq<Inode>
    requires d < |xs|
  {
    xs[d := xs[d].(entries := Put(xs[d].entries, Hole(xs[d].entries), Entry(i, name)))]
  }

  class Tree {
    var inodes: seq<Inode>
    var open: set<nat>

    ghost function State(): Fs
      reads this
    {
      Fs(inodes, open)
    }

    ghost predicate Valid()
      reads this
    {
      Inv(State()) && Canonical(State())
    }

    /** A tree with the root alone. */
    constructor (n: nat)
      requires n > ROOTINO
      ensures Valid() && State() == RootOnly(n)
    {
      inodes := seq(n, i => NoInode)[ROOTINO := NewDir(ROOTINO, ROOTINO)];
      open := {};
      new;
      RootOnlyInv(n);
    }

    /** dirlookup: the inode a name leads to and its position; 0 if there is none. */
    method Dirlookup(d: nat, name: string) returns (i: nat, k: nat)
      requires d < |inodes| && Fits(name)
      requires forall j :: 0 <= j < |inodes[d].entries| ==> Fits(inodes[d].entries[j].name)
      ensures i == Target(inodes[d].entries, name)
      ensures i != 0 ==> k < |inodes[d].entries| && inodes[d].entries[k] == Entry(i, name)
    {
      var es := inodes[d].entries;
      BufferHolds(name);
      k := 0;
      assert es[0..] == es;
      while k < |es|
        invariant 0 <= k <= |es| && Target(es[k..], name) == Target(es, name)
      {
        if es[k].inum != 0 {
          BufferHolds(es[k].name);
          var cmp := Strncmp(name + [NUL], es[k].name + [NUL], DIRSIZ);
          if cmp == 0 {
            return es[k].inum, k;
          }
        }
        assert es[k..][1..] == es[k + 1..];
        k := k + 1;
      }
      i := 0;
    }

    /** dirlink: an entry in the first unused position, unless the name is taken or there is no room. */
    method Dirlink(d: nat, name: string, i: nat, room: bool) returns (ok: bool)
      requires d < |inodes| && 0 < i && Fits(name)
      requires forall j :: 0 <= j < |inodes[d].entries| ==> Fits(inodes[d].entries[j].name)
      modifies this`inodes
      ensures ok <==>
              NotIn(old(inodes)[d].entries, name) && (Hole(old(inodes)[d].entries) < |old(inodes)[d].entries| || room)
      ensures inodes == if ok then WithEntry(old(inodes), d, name, i) else old(inodes)
    {
      var x, k := Dirlookup(d, name);
      if x != 0 {
        return false;
      }
      var es := inodes[d].entries;
      k := 0;
      while k < |es| && es[k].inum != 0
        invariant 0 <= k <= |es| && forall j :: 0 <= j < k ==> es[j].inum != 0
      {
        k := k + 1;
      }
      assert k == Hole(es);
      BufferHolds(name);
      var field := Strncpy(name + [NUL], DIRSIZ);
      assert CString(field, DIRSIZ) == name;
      if k == |es| && !room {
        return false;
      }
      inodes := inodes[d := inodes[d].(entries := Put(es, k, Entry(i, CString(field, DIRSIZ))))];
      ok := true;
    }

    /** isdirempty */
    method IsDirEmpty(d: nat) returns (empty: bool)
      requires d < |inodes|
      ensures empty <==> Bare(inodes[d].entries)
    {
      var k := 2;
      while k < |inodes[d].entries|
        invariant 2 <= k && forall j :: 2 <= j < k && j < |inodes[d].entries| ==> inodes[d].entries[j].inum == 0
      {
        if inodes[d].entries[k].inum != 0 {
          return false;
        }
        k := k + 1;
      }
      empty := true;
    }

    /** ialloc: the first inode that is not in use; 0 if there is none. */
    method Ialloc(kind: Kind) returns (x: nat)
      requires Valid()
      modifies this`inodes
      ensures x == 0 ==> inodes == old(inodes) && forall i :: 0 < i < |inodes| ==> !inodes[i].kind.Free?
      ensures x != 0 ==>
              x < |old(inodes)| && old(inodes)[x] == NoInode && inodes == old(inodes)[x := Inode(kind, 0, [])]
    {
      x := 1;
      while x < |inodes|
        invariant 1 <= x && inodes == old(inodes) && forall i :: 0 < i < x && i < |inodes| ==> !inodes[i].kind.Free?
      {
        if inodes[x].kind.Free? {
          assert InodeOk(State(), x);
          inodes := inodes[x := Inode(kind, 0, [])];
          return;
        }
        x := x + 1;
      }
      x := 0;
    }

    /** namex. The last name is returned beside the parent. */
    method Namex(cwd: nat, path: string, parent: bool) returns (look: Look, name: string)
      requires Canonical(State()) && NUL !in path
      ensures var start := if path != "" && path[0] == '/' then ROOTINO else cwd;
              && look == Walk(State(), start, Elements(path), parent)
              && (forall i :: look == Found(i) <==> Finds(State(), start, Elements(path), parent, i))
      ensures look.Found? && parent ==> name == Last(Elements(path)) && Fits(name)
    {
      hide Finds, Target;
      var at: nat, rest := if path != "" && path[0] == '/' then ROOTINO else cwd, path;
      ghost var start, names := at, Elements(path);
      WalkFinds(State(), start, names, parent);
      name := "";
      while true
        invariant NUL !in rest && Walk(State(), at, Elements(rest), parent) == Walk(State(), start, names, parent)
        invariant Elements(rest) != [] ==> Last(Elements(rest)) == Last(names)
        decreases |rest|
      {
        var found, next;
        found, name, next := Skipelem(rest);
        if !found {
          return if parent then Missing else Found(at), name;
        }
        ElementIsClean(rest, name, next);
        if at >= |inodes| || inodes[at].kind.Free? {
          return Lost, name;
        }
        if !inodes[at].kind.Dir? {
          return Missing, name;
        }
        if parent && next == "" {
          return Found(at), name;
        }
        var i, k := Dirlookup(at, name);
        if i == 0 {
          return Missing, name;
        }
        at, rest := i, next;
      }
    }

    /** A working directory is a directory, and referred to. */
    ghost predicate Stands(cwd: nat)
      reads this
    {
      cwd in open && IsDir(State(), cwd)
    }

    /** The entries of a new directory x in d. */
    method FillDir(x: nat, d: nat, dot: bool, dotdot: bool) returns (ok: bool)
      requires 0 < x < |inodes| && 0 < d && inodes[x].entries == []
      modifies this`inodes
      ensures |inodes| == |old(inodes)| && inodes == old(inodes)[x := inodes[x]]
      ensures ok <==> dot && dotdot
      ensures ok ==> inodes[x] == old(inodes)[x].(entries := [Entry(x, "."), Entry(d, "..")])
    {
      ok := Dirlink(x, ".", x, dot);
      if ok {
        assert inodes[x].entries == [Entry(x, ".")];
        ok := Dirlink(x, "..", d, dotdot);
      }
    }

    /**
     create: a new file or directory, or for a file the one that is there already. A failure on the
     way takes back everything done so far.
     */
    method Create(cwd: nat, path: string, kind: Kind, dot: bool, dotdot: bool, room: bool) returns (r: Outcome,
            ghost c: Change)
      requires Valid() && Stands(cwd) && NUL !in path && !kind.Free?
      modifies this`inodes
      ensures Allowed(old(State()), c) && State() == Apply(old(State()), c)
      ensures var start, names := if path != "" && path[0] == '/' then ROOTINO else cwd, Elements(path);
              && Creates(old(State()), Walk(old(State()), start, names, true), Last(names), kind, dot, dotdot, room, r,
                         c)
              && (r.Panicked? <==> Strays(old(State()), start, names))
              && (r.Done? ==> Walk(State(), start, names, false) == Found(r.i))
              && IsDir(old(State()), start) && (Linked(old(inodes)[start]) ==> Valid() && !r.Panicked?)
    {
      hide Inv, Allowed, Apply, Walk, Canonical, Hole, Target, Strays, CanMake;
      ghost var s := State();
      c := Nothing;
      NothingChanges(s);
      PathFacts(s, cwd, path);
      MeetsFreeIff(s, Origin(cwd, path), Elements(path));
      var look, name := Namex(cwd, path, true);
      if !look.Found? {
        return if look.Lost? then Panicked else Failed, c;
      }
      var d := look.i;
      CanonicalAt(s, d);
      var i, k := Dirlookup(d, name);
      if i != 0 {
        TargetFacts(s, cwd, path, name);
        if i >= |inodes| || inodes[i].kind.Free? {
          return Panicked, c;
        }
        LastStep(s, Origin(cwd, path), Elements(path));
        return if kind.File? && (inodes[i].kind.File? || inodes[i].kind.Device?) then Done(i) else Failed, c;
      }
      r := AddInode(d, name, kind, dot, dotdot, room);
      if r.Done? {
        c := Made(s, d, name, r.i, kind);
        AddedFacts(s, cwd, path, c);
        AddedIsFound(s, c, Origin(cwd, path), Elements(path));
      }
    }

    /** create once the name is known to be new. */
    method AddInode(d: nat, name: string, kind: Kind, dot: bool, dotdot: bool, room: bool) returns (r: Outcome)
      requires Valid() && IsDir(State(), d) && NotIn(inodes[d].entries, name) && Fits(name) && !kind.Free?
      modifies this`inodes
      ensures r.Done? ==> var c := Made(old(State()), d, name, r.i, kind);
              Allowed(old(State()), c) && State() == Apply(old(State()), c)
      ensures !r.Done? ==> r == Failed && inodes == old(inodes)
      ensures r.Done? <==> CanMake(old(State()), d, kind, dot, dotdot, room)
    {
      hide Inv, Allowed, Apply, Hole;
      ghost var s := State();
      CanonicalAt(s, d);
      var x := Ialloc(kind);
      if x == 0 {
        return Failed;
      }
      inodes := inodes[x := inodes[x].(nlink := 1)];
      var ok := true;
      if kind.Dir? {
        ok := FillDir(x, d, dot, dotdot);
      }
      if ok {
        ok := Dirlink(d, name, x, room);
      }
      if !ok {
        inodes := inodes[x := NoInode];
        assert inodes == s.inodes;
        return Failed;
      }
      if kind.Dir? {
        inodes := inodes[d := inodes[d].(nlink := inodes[d].nlink + 1)];
      }
      MadeIs(s, d, name, x, kind);
      r := Done(x);
    }

    /** iput by a system call that is done with an inode: it is freed if nothing names it or refers to it. */
    method Drop(i: nat)
      requires i < |inodes|
      modifies this`inodes
      ensures inodes == if old(inodes)[i].nlink == 0 && i !in open then old(inodes)[i := NoInode] else old(inodes)
    {
      if inodes[i].nlink == 0 && i !in open {
        inodes := inodes[i := NoInode];
      }
    }

    /** A file is closed or a working directory left, by the last process that had it. */
    method Close(i: nat)
      requires Valid() && i in open
      modifies this
      ensures Allowed(old(State()), Forget(i)) && State() == Apply(old(State()), Forget(i)) && Valid()
    {
      ghost var s := State();
      ForgetFacts(s, i);
      open := open - {i};
      Drop(i);
    }

    /** sys_unlink: a name goes, and with its last name a file nobody has open, or an empty directory. */
    method Unlink(cwd: nat, path: string) returns (r: Outcome, ghost c: Change)
      requires Valid() && Stands(cwd) && NUL !in path
      modifies this`inodes
      ensures Allowed(old(State()), c) && State() == Apply(old(State()), c) && Valid()
      ensures var start, names := if path != "" && path[0] == '/' then ROOTINO else cwd, Elements(path);
              && Unlinks(old(State()), Walk(old(State()), start, names, true), Last(names), r, c)
              && (r.Done? ==> Walk(old(State()), start, names, false) == Found(r.i))
              && (r.Done? ==> !Walk(State(), start, names, false).Found?)
    {
      hide Inv, Allowed, Apply, Walk, Canonical, Hole, Target, Bare;
      ghost var s := State();
      c := Nothing;
      NothingChanges(s);
      PathFacts(s, cwd, path);
      var look, name := Namex(cwd, path, true);
      if !look.Found? {
        return if look.Lost? then Panicked else Failed, c;
      }
      var d := look.i;
      if name == "." || name == ".." {
        return Failed, c;
      }
      CanonicalAt(s, d);
      var i, k := Dirlookup(d, name);
      if i == 0 {
        return Failed, c;
      }
      FoundFacts(s, d, k);
      if inodes[i].nlink < 1 {
        return Panicked, c;
      }
      if inodes[i].kind.Dir? {
        var empty := IsDirEmpty(i);
        if !empty {
          return Failed, c;
        }
      }
      c := Remove(d, k);
      LastStep(s, Origin(cwd, path), Elements(path));
      RemoveEntry(d, k, i);
      RemovedIsGone(s, d, k, Origin(cwd, path), Elements(path));
      r := Done(i);
    }

    /** unlink once the name may go. */
    method RemoveEntry(d: nat, k: nat, i: nat)
      requires Valid() && IsDir(State(), d) && 2 <= k < |inodes[d].entries| && inodes[d].entries[k].inum == i
      requires 0 < i < |inodes| && i != d && (inodes[i].kind.Dir? ==> Bare(inodes[i].entries))
      modifies this`inodes
      ensures Allowed(old(State()), Remove(d, k)) && State() == Apply(old(State()), Remove(d, k)) && Valid()
    {
      hide Inv, Allowed, Apply, Canonical, Bare;
      RemoveFacts(State(), d, k);
      inodes := inodes[d := inodes[d].(entries := inodes[d].entries[k := Unused])];
      if inodes[i].kind.Dir? {
        inodes := inodes[d := inodes[d].(nlink := inodes[d].nlink - 1)];
      }
      inodes := inodes[i := inodes[i].(nlink := inodes[i].nlink - 1)];
      Drop(i);
    }

    /** sys_link: one more name for a file; a failure takes the new link back. */
    method Link(cwd: nat, from: string, to: string, room: bool) returns (r: Outcome, ghost c: Change)
      requires Valid() && Stands(cwd) && NUL !in from && NUL !in to
      modifies this`inodes
      ensures Allowed(old(State()), c) && State() == Apply(old(State()), c)
      ensures var start, names := if from != "" && from[0] == '/' then ROOTINO else cwd, Elements(from);
              var goal, last := if to != "" && to[0] == '/' then ROOTINO else cwd, Elements(to);
              && Links(old(State()), Walk(old(State()), start, names, false), Walk(old(State()), goal, last, true),
                       Last(last), room, r, c)
              && (r.Done? ==> Walk(State(), start, names, false) == Walk(State(), goal, last, false) == Found(r.i))
              && IsDir(old(State()), goal) && (Linked(old(inodes)[goal]) ==> Valid())
    {
      hide Inv, Allowed, Apply, Walk, Canonical, Hole, Target, Finds, Elements, Last, NotIn, Linked;
      ghost var s := State();
      c := Nothing;
      NothingChanges(s);
      PathFacts(s, cwd, from);
      PathFacts(s, cwd, to);
      var look, last := Namex(cwd, from, false);
      if !look.Found? {
        return if look.Lost? then Panicked else Failed, c;
      }
      var i := look.i;
      if i >= |inodes| || inodes[i].kind.Free? {
        return Panicked, c;
      }
      if inodes[i].kind.Dir? {
        return Failed, c;
      }
      FileFacts(s, i);
      inodes := inodes[i := inodes[i].(nlink := inodes[i].nlink + 1)];
      WalkIgnoresLinks(s, i, inodes[i].nlink, Origin(cwd, to), Elements(to), true);
      CanonicalIgnoresLinks(s, i, inodes[i].nlink);
      var up, name := Namex(cwd, to, true);
      var ok := false;
      if up.Found? {
        CanonicalAt(s, up.i);
        ok := Dirlink(up.i, name, i, room);
      }
      if !ok {
        inodes := inodes[i := inodes[i].(nlink := inodes[i].nlink - 1)];
        assert inodes == s.inodes;
        Drop(i);
        return if up.Lost? then Panicked else Failed, c;
      }
      c := AddLink(up.i, Hole(s.inodes[up.i].entries), name, i);
      LinkIs(s, up.i, name, i);
      AddedFacts(s, cwd, to, c);
      AddKeepsPaths(s, c, Origin(cwd, from), Elements(from), i);
      AddedIsFound(s, c, Origin(cwd, to), Elements(to));
      r := Done(i);
    }
  }

  /** There is an inode, the new directory takes its two entries, and its parent the name. */
  predicate CanMake(s: Fs, d: nat, kind: Kind, dot: bool, dotdot: bool, room: bool) {
    && (exists x :: 0 < x < |s.inodes| && s.inodes[x].kind.Free?)
    && (kind.Dir? ==> dot && dotdot)
    && d < |s.inodes| && (Hole(s.inodes[d].entries) < |s.inodes[d].entries| || room)
  }

  /** What create reports, by what the path leads to. */
  ghost predicate Creates(s: Fs, look: Look, name: string, kind: Kind, dot: bool, dotdot: bool, room: bool, r: Outcome,
          c: Change) {
    if !look.Found? || look.i >= |s.inodes| then c == Nothing && r == (if look.Lost? then Panicked else Failed)
    else
      var i := Target(s.inodes[look.i].entries, name);
      if i != 0 then
        && c == Nothing
        && r == (if i >= |s.inodes| || s.inodes[i].kind.Free? then Panicked
                 else if kind.File? && (s.inodes[i].kind.File? || s.inodes[i].kind.Device?) then Done(i) else Failed)
      else if CanMake(s, look.i, kind, dot, dotdot, room) then r.Done? && c == Made(s, look.i, name, r.i, kind)
      else r == Failed && c == Nothing
  }

  /** What unlink reports: . and .. stay, and so do directories that are not empty. */
  ghost predicate Unlinks(s: Fs, look: Look, name: string, r: Outcome, c: Change) {
    if !look.Found? || look.i >= |s.inodes| then c == Nothing && r == (if look.Lost? then Panicked else Failed)
    else
      var es := s.inodes[look.i].entries;
      var i := Target(es, name);
      if name == "." || name == ".." || i == 0 || i >= |s.inodes|
          || (s.inodes[i].kind.Dir? && !Bare(s.inodes[i].entries)) then
        c == Nothing && r == Failed
      else
        r == Done(i) && c.Remove? && c.d == look.i && c.k < |es| && es[c.k] == Entry(i, name)
  }

  lemma ForgetFacts(s: Fs, i: nat)
    requires Inv(s) && Canonical(s) && i in s.open
    ensures Allowed(s, Forget(i)) && Inv(Apply(s, Forget(i))) && Canonical(Apply(s, Forget(i)))
    ensures Apply(s, Forget(i)) == Fs(if s.inodes[i].nlink == 0 then s.inodes[i := NoInode] else s.inodes, s.open - {i})
  {
    ChangeKeeps(s, Forget(i));
  }

  /** A name other than . and .. is in a linked directory, behind those two, and counted. */
  lemma FoundFacts(s: Fs, d: nat, k: nat)
    requires Inv(s) && IsDir(s, d) && k < |s.inodes[d].entries| && s.inodes[d].entries[k].inum != 0
    requires s.inodes[d].entries[k].name != "." && s.inodes[d].entries[k].name != ".."
    ensures 2 <= k && Linked(s.inodes[d])
    ensures var i := s.inodes[d].entries[k].inum;
            i < |s.inodes| && i != d && s.inodes[i].nlink >= 1 && !s.inodes[i].kind.Free?
  {
    hide Sum, Count;
    assert InodeOk(s, d);
    assert EntryOk(s, d, k);
    var i := s.inodes[d].entries[k].inum;
    assert InodeOk(s, i);
    SumHas(s.inodes, d, k, i, 1);
  }

  lemma RemoveFacts(s: Fs, d: nat, k: nat)
    requires Inv(s) && Canonical(s) && IsDir(s, d) && 2 <= k < |s.inodes[d].entries|
    requires var i := s.inodes[d].entries[k].inum;
            0 < i < |s.inodes| && i != d && (s.inodes[i].kind.Dir? ==> Bare(s.inodes[i].entries))
    ensures Allowed(s, Remove(d, k)) && Inv(Apply(s, Remove(d, k))) && Canonical(Apply(s, Remove(d, k)))
    ensures var dir, i := s.inodes[d], s.inodes[d].entries[k].inum;
            var t := s.inodes[d := Inode(Dir, dir.nlink - One(s.inodes[i].kind.Dir?), dir.entries[k := Unused])]
                             [i := s.inodes[i].(nlink := s.inodes[i].nlink - 1)];
            Apply(s, Remove(d, k)) == s.(inodes := if t[i].nlink == 0 && i !in s.open then t[i := NoInode] else t)
  {
    hide Inv;
    ChangeKeeps(s, Remove(d, k));
    var i := s.inodes[d].entries[k].inum;
    assert s.open + {i} - {i} == s.open || i in s.open;
    assert i in s.open ==> s.open + {i} == s.open;
    RemovedNamesFit(s, d, k);
  }

  lemma RemovedNamesFit(s: Fs, d: nat, k: nat)
    requires Canonical(s) && Allowed(s, Remove(d, k))
    ensures Canonical(Apply(s, Remove(d, k)))
  {
    hide Bare;
    var t := Apply(s, Remove(d, k));
    assert Fits("");
    forall j, m | 0 <= j < |t.inodes| && 0 <= m < |t.inodes[j].entries| ensures Fits(t.inodes[j].entries[m].name) {
    }
  }

  lemma CanonicalIgnoresLinks(s: Fs, i: nat, n: int)
    requires Canonical(s) && i < |s.inodes|
    ensures Canonical(s.(inodes := s.inodes[i := s.inodes[i].(nlink := n)]))
  {
  }

  /**
   What link reports: a file that the old path leads to gets the new path's last name, unless that
   name is taken or its directory cannot grow.
   */
  ghost predicate Links(s: Fs, look: Look, up: Look, name: string, room: bool, r: Outcome, c: Change) {
    if !look.Found? || look.i >= |s.inodes| || s.inodes[look.i].kind.Free? || s.inodes[look.i].kind.Dir?
        || !up.Found? || up.i >= |s.inodes| then
      c == Nothing && !r.Done?
    else
      var es := s.inodes[up.i].entries;
      if !NotIn(es, name) || (Hole(es) == |es| && !room) then c == Nothing && r == Failed
      else r == Done(look.i) && c == AddLink(up.i, Hole(es), name, look.i)
  }

  /** The change that adds a new inode x under a name in d. */
  function Made(s: Fs, d: nat, name: string, x: nat, kind: Kind): Change {
    if d >= |s.inodes| then Nothing
    else if kind.Dir? then MakeDir(d, Hole(s.inodes[d].entries), name, x)
    else NewFile(d, Hole(s.inodes[d].entries), name, x, kind)
  }

  lemma NothingChanges(s: Fs)
    ensures Allowed(s, Nothing) && Apply(s, Nothing) == s
  {
  }

  lemma CanonicalAt(s: Fs, d: nat)
    requires Canonical(s) && d < |s.inodes|
    ensures forall j :: 0 <= j < |s.inodes[d].entries| ==> Fits(s.inodes[d].entries[j].name)
  {
  }

  lemma FileFacts(s: Fs, i: nat)
    requires Inv(s) && i < |s.inodes| && !s.inodes[i].kind.Free? && !s.inodes[i].kind.Dir?
    ensures 0 < i && s.inodes[i].entries == [] && (s.inodes[i].nlink == 0 ==> i in s.open)
  {
    assert 0 < i ==> InodeOk(s, i);
  }

  /** A directory has . and .. in its first two positions. */
  lemma HoleFacts(s: Fs, d: nat)
    requires Inv(s) && IsDir(s, d)
    ensures Open(s.inodes[d].entries, Hole(s.inodes[d].entries))
  {
    assert InodeOk(s, d);
  }

  /** The parent a path leads to is a directory; a path from the tree is not lost and stays in it. */
  lemma PathFacts(s: Fs, cwd: nat, path: string)
    requires Inv(s) && IsDir(s, cwd)
    ensures IsDir(s, Origin(cwd, path))
    ensures var r := Walk(s, Origin(cwd, path), Elements(path), true);
            && (r.Found? ==> IsDir(s, r.i))
            && (Linked(s.inodes[Origin(cwd, path)]) ==> !r.Lost? && (r.Found? ==> Linked(s.inodes[r.i])))
  {
    hide Sum;
    ParentIsDir(s, Origin(cwd, path), Elements(path));
    if Linked(s.inodes[Origin(cwd, path)]) {
      WalkInTree(s, Origin(cwd, path), Elements(path), true);
    }
  }

  lemma {:induction false} ParentIsDir(s: Fs, at: nat, names: seq<string>)
    requires |s.inodes| > 0 && s.inodes[0].kind.Free?
    ensures var r := Walk(s, at, names, true); r.Found? ==> IsDir(s, r.i)
    decreases |names|
  {
    if names != [] && at < |s.inodes| && s.inodes[at].kind.Dir? && |names| > 1 {
      var i := Target(s.inodes[at].entries, names[0]);
      if i != 0 {
        ParentIsDir(s, i, names[1..]);
      }
    }
  }

  /** A name found in the tree leads to an inode in use. */
  lemma TargetFacts(s: Fs, cwd: nat, path: string, name: string)
    requires Inv(s) && IsDir(s, cwd) && IsDir(s, Origin(cwd, path))
    requires var r := Walk(s, Origin(cwd, path), Elements(path), true); r.Found? && IsDir(s, r.i)
    ensures var i := Target(s.inodes[Walk(s, Origin(cwd, path), Elements(path), true).i].entries, name);
            i != 0 && Linked(s.inodes[Origin(cwd, path)]) ==> i < |s.inodes| && !s.inodes[i].kind.Free?
  {
    PathFacts(s, cwd, path);
    var d := Walk(s, Origin(cwd, path), Elements(path), true).i;
    var i := Target(s.inodes[d].entries, name);
    if i != 0 && Linked(s.inodes[Origin(cwd, path)]) {
      var k :| 0 <= k < |s.inodes[d].entries| && s.inodes[d].entries[k] == Entry(i, name);
      InvNames(s, d, k);
    }
  }

  lemma MadeIs(s: Fs, d: nat, name: string, x: nat, kind: Kind)
    requires Inv(s) && IsDir(s, d) && 0 < x < |s.inodes| && s.inodes[x] == NoInode && NotIn(s.inodes[d].entries, name)
    requires !kind.Free?
    ensures var c, dir := Made(s, d, name, x, kind), s.inodes[d];
            && Allowed(s, c) && Apply(s, c).open == s.open
            && Apply(s, c).inodes == s.inodes[x := if kind.Dir? then NewDir(x, d) else Inode(kind, 1, [])]
                                             [d := Inode(Dir, dir.nlink + One(kind.Dir?),
                                                 Put(dir.entries, Hole(dir.entries), Entry(x, name)))]
  {
    hide Inv;
    HoleFacts(s, d);
  }

  lemma LinkIs(s: Fs, d: nat, name: string, x: nat)
    requires Inv(s) && IsDir(s, d) && 0 < x < |s.inodes| && (s.inodes[x].kind.File? || s.inodes[x].kind.Device?)
    requires NotIn(s.inodes[d].entries, name)
    ensures var c, dir := AddLink(d, Hole(s.inodes[d].entries), name, x), s.inodes[d];
            && Allowed(s, c) && Apply(s, c).open == s.open
            && Apply(s, c).inodes == s.inodes[x := MoreLinks(s.inodes[x])]
                                             [d := Inode(Dir, dir.nlink,
                                                 Put(dir.entries, Hole(dir.entries), Entry(x, name)))]
  {
    hide Inv;
    HoleFacts(s, d);
  }

  /** A name added in the tree keeps the counts, and names stay within DIRSIZ. */
  lemma AddedFacts(s: Fs, cwd: nat, path: string, c: Change)
    requires Inv(s) && Canonical(s) && IsDir(s, cwd) && Allowed(s, c) && Adds(c) && Fits(c.name)
    requires IsDir(s, Origin(cwd, path)) && Walk(s, Origin(cwd, path), Elements(path), true) == Found(c.d)
    ensures Linked(s.inodes[Origin(cwd, path)]) ==> Inv(Apply(s, c)) && Canonical(Apply(s, c))
  {
    if Linked(s.inodes[Origin(cwd, path)]) {
      hide Inv, Walk;
      PathFacts(s, cwd, path);
      ChangeKeeps(s, c);
      AddedNamesFit(s, c);
    }
  }

  lemma AddedNamesFit(s: Fs, c: Change)
    requires Canonical(s) && Allowed(s, c) && Adds(c) && Fits(c.name)
    ensures Canonical(Apply(s, c))
  {
    hide NotIn;
    var t := Apply(s, c);
    forall i, k | 0 <= i < |t.inodes| && 0 <= k < |t.inodes[i].entries| ensures Fits(t.inodes[i].entries[k].name) {
    }
  }

  /** Looking names up does not depend on link counts. */
  lemma {:induction false} WalkIgnoresLinks(s: Fs, i: nat, n: int, at: nat, names: seq<string>, parent: bool)
    requires i < |s.inodes|
    ensures Walk(s.(inodes := s.inodes[i := s.inodes[i].(nlink := n)]), at, names, parent) == Walk(s, at, names, parent)
    decreases |names|
  {
    if names != [] && at < |s.inodes| {
      WalkIgnoresLinks(s, i, n, Target(s.inodes[at].entries, names[0]), names[1..], parent);
    }
  }

  lemma ElementIsClean(path: string, name: string, rest: string)
    requires NUL !in path && Elements(path) == [name] + Elements(rest)
    ensures Fits(name)
  {
    var p := SkipSlashes(path);
    CleanTail(path);
    assert name == Elements(path)[0] == Cut(Element(p));
  }

  lemma {:induction false} CleanTail(path: string)
    requires NUL !in path
    ensures NUL !in SkipSlashes(path)
  {
    if path != "" && path[0] == '/' {
      CleanTail(path[1..]);
    }
  }

  /**
   mkdir a, mkdir a/b, make b the working directory, remove it, remove a: the way up from b leads
   to an inode that is not in use.
   */
  lemma ParentFreed() returns (ss: seq<Fs>, cs: seq<Change>)
    ensures IsRun(ss, cs) && 3 in ss[|cs|].open && IsDir(ss[|cs|], 3)
    ensures Strays(ss[|cs|], 3, [".."]) && Walk(ss[|cs|], 3, ["..", "x"], true).Lost?
  {
    var dots := [Entry(1, "."), Entry(1, "..")];
    var a, b := [Entry(2, "."), Entry(1, "..")], [Entry(3, "."), Entry(2, "..")];
    var s0 := RootOnly(4);
    var s1 := Fs([NoInode, Inode(Dir, 2, dots + [Entry(2, "a")]), Inode(Dir, 1, a), NoInode], {});
    var s2 := s1.(inodes := [NoInode, s1.inodes[1], Inode(Dir, 2, a + [Entry(3, "b")]), Inode(Dir, 1, b)]);
    var s3 := s2.(open := {3});
    var s4 := s3.(inodes := [NoInode, s1.inodes[1], Inode(Dir, 1, a + [Unused]), Inode(Dir, 0, b)]);
    var s5 := s4.(inodes := [NoInode, Inode(Dir, 1, dots + [Unused]), NoInode, Inode(Dir, 0, b)]);
    assert s0.inodes == [NoInode, Inode(Dir, 1, dots), NoInode, NoInode];
    assert Happens(s0, MakeDir(1, 2, "a", 2), s1) by {
      assert Apply(s0, MakeDir(1, 2, "a", 2)).inodes == s1.inodes;
    }
    assert Happens(s1, MakeDir(2, 2, "b", 3), s2) by {
      assert Apply(s1, MakeDir(2, 2, "b", 3)).inodes == s2.inodes;
    }
    assert Happens(s2, Refer(3), s3);
    assert a + [Entry(3, "b")] == [Entry(2, "."), Entry(1, ".."), Entry(3, "b")];
    assert a + [Unused] == [Entry(2, "."), Entry(1, ".."), Unused];
    assert dots + [Entry(2, "a")] == [Entry(1, "."), Entry(1, ".."), Entry(2, "a")];
    assert dots + [Unused] == [Entry(1, "."), Entry(1, ".."), Unused];
    assert Happens(s3, Remove(2, 2), s4) by { RemoveInner(s3, s4); }
    assert Happens(s4, Remove(1, 2), s5) by { RemoveOuter(s4, s5); }
    ss := [s0, s1, s2, s3, s4, s5];
    cs := [MakeDir(1, 2, "a", 2), MakeDir(2, 2, "b", 3), Refer(3), Remove(2, 2), Remove(1, 2)];
    assert [".."][1..] == [] && Climbs([], 0) && CutOff(s5, 2, 0);
    assert Climbs([".."], 1) && CutOff(s5, 3, 1);
    hide Happens, Inv, Apply, Allowed;
    assert IsRun(ss, cs) by {
      forall i: nat | i < 5 ensures Happens(ss[i], cs[i], ss[i + 1]) {
        assert i == 0 || i == 1 || i == 2 || i == 3 || i == 4;
      }
    }
    RunsKeep(ss, cs, 5);
    assert ["..", "x"][..1] == [".."];
    LostIff(s5, 3, ["..", "x"], true);
  }

  lemma RemoveInner(s: Fs, t: Fs)
    requires |s.inodes| == 4 && s.open == {3}
    requires s.inodes[2] == Inode(Dir, 2, [Entry(2, "."), Entry(1, ".."), Entry(3, "b")])
    requires s.inodes[3] == Inode(Dir, 1, [Entry(3, "."), Entry(2, "..")])
    requires t == s.(inodes := [s.inodes[0], s.inodes[1],
                                Inode(Dir, 1, [Entry(2, "."), Entry(1, ".."), Unused]), s.inodes[3].(nlink := 0)])
    ensures Allowed(s, Remove(2, 2)) && t == Apply(s, Remove(2, 2))
  {
    assert s.open + {3} == s.open && Held(s, 3) == s;
    assert s.inodes[2].entries[2 := Unused] == t.inodes[2].entries;
    assert Apply(s, Remove(2, 2)) == Unnamed(s, 2, 2, 1);
    assert Unnamed(s, 2, 2, 1).inodes == t.inodes;
  }

  lemma RemoveOuter(s: Fs, t: Fs)
    requires |s.inodes| == 4 && s.open == {3}
    requires s.inodes[1] == Inode(Dir, 2, [Entry(1, "."), Entry(1, ".."), Entry(2, "a")])
    requires s.inodes[2] == Inode(Dir, 1, [Entry(2, "."), Entry(1, ".."), Unused])
    requires t == s.(inodes := [s.inodes[0], Inode(Dir, 1, [Entry(1, "."), Entry(1, ".."), Unused]), NoInode,
                                s.inodes[3]])
    ensures Allowed(s, Remove(1, 2)) && t == Apply(s, Remove(1, 2))
  {
    var h := Held(s, 2);
    assert s.inodes[1].entries[2 := Unused] == t.inodes[1].entries;
    var u := Unnamed(h, 1, 2, 1);
    assert u.inodes == [s.inodes[0], t.inodes[1], s.inodes[2].(nlink := 0), s.inodes[3]];
    assert Apply(s, Remove(1, 2)) == Released(u, 2);
    assert Released(u, 2).inodes == t.inodes;
    assert Released(u, 2).open == t.open;
  }
}
