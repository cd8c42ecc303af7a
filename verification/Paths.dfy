/**
 Where a path leads (kernel/fs.c, namex): the function that follows it name by name, what that
 function finds stated as a row of directory entries, and what a name added or removed changes.
 */
module Paths {
  import opened Common
  import opened Directory
  import opened DirectoryRuns

  /** The entry a name leads to, 0 if there is none: the first one in use. */
  function Target(es: seq<Entry>, name: string): (i: nat)
    ensures i == 0 <==> NotIn(es, name)
    ensures i != 0 ==> exists k :: 0 <= k < |es| && es[k] == Entry(i, name)
  {
    if es == [] then 0
    else if es[0].inum != 0 && es[0].name == name then assert es[0] == Entry(es[0].inum, name); es[0].inum
    else
      var i := Target(es[1..], name);
      assert i != 0 ==> exists k :: 0 <= k < |es| - 1 && es[1..][k] == Entry(i, name) && es[k + 1] == Entry(i, name);
      i
  }

  datatype Look = Found(i: nat) | Missing | Lost

  /** namex: follow the names from inode `at`, stopping before the last one if `parent`. */
  function Walk(fs: Fs, at: nat, names: seq<string>, parent: bool): Look
    decreases |names|
  {
    if names == [] then (if parent then Missing else Found(at))
    else if at >= |fs.inodes| || fs.inodes[at].kind.Free? then Lost
    else if !fs.inodes[at].kind.Dir? then Missing
    else if parent && |names| == 1 then Found(at)
    else
      var i := Target(fs.inodes[at].entries, names[0]);
      if i == 0 then Missing else Walk(fs, i, names[1..], parent)
  }

  function Last(names: seq<string>): string {
    if names == [] then "" else names[|names| - 1]
  }

  // ------------------------------------------------------------------------ rows of entries

  /** Position k of directory d is the first in use with the name, and it leads to i. */
  predicate EntryAt(fs: Fs, d: nat, k: nat, name: string, i: nat) {
    && d < |fs.inodes| && fs.inodes[d].kind.Dir? && k < |fs.inodes[d].entries|
    && i != 0 && fs.inodes[d].entries[k] == Entry(i, name) && NotIn(fs.inodes[d].entries[..k], name)
  }

  ghost predicate LeadsTo(fs: Fs, d: nat, name: string, i: nat) {
    exists k: nat :: EntryAt(fs, d, k, name, i)
  }

  /** Each inode of the row is a directory with an entry of the next name that leads to the next inode. */
  ghost predicate IsTrail(fs: Fs, row: seq<nat>, names: seq<string>) {
    |row| == |names| + 1 && forall k: nat :: k < |names| ==> LeadsTo(fs, row[k], names[k], row[k + 1])
  }

  ghost predicate Reaches(fs: Fs, at: nat, names: seq<string>, i: nat) {
    exists row: seq<nat> :: IsTrail(fs, row, names) && row[0] == at && row[|names|] == i
  }

  lemma {:induction false} TargetIs(es: seq<Entry>, name: string, k: nat)
    requires k < |es| && es[k].inum != 0 && es[k].name == name && NotIn(es[..k], name)
    ensures Target(es, name) == es[k].inum
  {
    if k > 0 {
      assert es[..k][0] == es[0] && es[1..][..k - 1] == es[..k][1..];
      TargetIs(es[1..], name, k - 1);
    }
  }

  lemma {:induction false} TargetFirst(es: seq<Entry>, name: string) returns (k: nat)
    requires !NotIn(es, name)
    ensures k < |es| && es[k] == Entry(Target(es, name), name) && NotIn(es[..k], name)
  {
    if es[0].inum != 0 && es[0].name == name {
      k := 0;
    } else {
      var j := TargetFirst(es[1..], name);
      k := j + 1;
      assert es[..k] == [es[0]] + es[1..][..j];
    }
  }

  lemma LeadsToIff(fs: Fs, d: nat, name: string, i: nat)
    requires d < |fs.inodes| && fs.inodes[d].kind.Dir?
    ensures LeadsTo(fs, d, name, i) <==> i != 0 && Target(fs.inodes[d].entries, name) == i
  {
    var es := fs.inodes[d].entries;
    if LeadsTo(fs, d, name, i) {
      var k: nat :| EntryAt(fs, d, k, name, i);
      TargetIs(es, name, k);
    }
    if i != 0 && Target(es, name) == i {
      var k := TargetFirst(es, name);
      assert EntryAt(fs, d, k, name, i);
    }
  }

  /** A row's first step, and the rest of it. */
  lemma ReachesOn(fs: Fs, at: nat, names: seq<string>, i: nat)
    requires names != []
    ensures Reaches(fs, at, names, i) <==> exists j :: LeadsTo(fs, at, names[0], j) && Reaches(fs, j, names[1..], i)
  {
    hide LeadsTo;
    if Reaches(fs, at, names, i) {
      var row :| IsTrail(fs, row, names) && row[0] == at && row[|names|] == i;
      assert LeadsTo(fs, row[0], names[0], row[1]);
      assert IsTrail(fs, row[1..], names[1..]);
      assert Reaches(fs, row[1], names[1..], i);
    }
    if j :| LeadsTo(fs, at, names[0], j) && Reaches(fs, j, names[1..], i) {
      var row :| IsTrail(fs, row, names[1..]) && row[0] == j && row[|names[1..]|] == i;
      var more := [at] + row;
      forall k: nat | k < |names| ensures LeadsTo(fs, more[k], names[k], more[k + 1]) {
        if k > 0 {
          assert LeadsTo(fs, row[k - 1], names[1..][k - 1], row[k]);
        }
      }
      assert IsTrail(fs, more, names);
    }
  }

  /** A path leads to an inode exactly when there is a row of entries with its names from the start to there. */
  lemma {:induction false} FoundIff(fs: Fs, at: nat, names: seq<string>, i: nat)
    ensures Walk(fs, at, names, false) == Found(i) <==> Reaches(fs, at, names, i)
    decreases |names|
  {
    hide Target;
    if names == [] {
      if at == i {
        assert IsTrail(fs, [at], names);
      }
    } else {
      ReachesOn(fs, at, names, i);
      if at < |fs.inodes| && fs.inodes[at].kind.Dir? {
        var j := Target(fs.inodes[at].entries, names[0]);
        forall x ensures LeadsTo(fs, at, names[0], x) <==> x != 0 && x == j {
          LeadsToIff(fs, at, names[0], x);
        }
        FoundIff(fs, j, names[1..], i);
      }
    }
  }

  /** The parent of a path: a directory that the path leads to, its last name left out. */
  lemma {:induction false} ParentFoundIff(fs: Fs, at: nat, names: seq<string>, i: nat)
    ensures Walk(fs, at, names, true) == Found(i) <==>
            names != [] && Reaches(fs, at, names[..|names| - 1], i) && i < |fs.inodes| && fs.inodes[i].kind.Dir?
  {
    if names != [] {
      ParentWalk(fs, at, names);
      FoundIff(fs, at, names[..|names| - 1], i);
    }
  }

  lemma {:induction false} ParentWalk(fs: Fs, at: nat, names: seq<string>)
    requires names != []
    ensures var up, most := Walk(fs, at, names, true), Walk(fs, at, names[..|names| - 1], false);
            forall i: nat :: up == Found(i) <==> most == Found(i) && i < |fs.inodes| && fs.inodes[i].kind.Dir?
    decreases |names|
  {
    hide Target;
    if |names| > 1 && at < |fs.inodes| && fs.inodes[at].kind.Dir? {
      var i := Target(fs.inodes[at].entries, names[0]);
      assert names[..|names| - 1][1..] == names[1..][..|names| - 2];
      if i != 0 {
        ParentWalk(fs, i, names[1..]);
      }
    }
  }

  /** Where a path leads, or with `parent` the directory that its last name is to be looked up in. */
  ghost predicate Finds(fs: Fs, at: nat, names: seq<string>, parent: bool, i: nat) {
    if parent then names != [] && Reaches(fs, at, names[..|names| - 1], i) && i < |fs.inodes| && fs.inodes[i].kind.Dir?
    else Reaches(fs, at, names, i)
  }

  lemma WalkFinds(fs: Fs, at: nat, names: seq<string>, parent: bool)
    ensures forall i: nat :: Walk(fs, at, names, parent) == Found(i) <==> Finds(fs, at, names, parent, i)
  {
    hide Reaches, Walk;
    forall i: nat ensures Walk(fs, at, names, parent) == Found(i) <==> Finds(fs, at, names, parent, i) {
      if parent {
        ParentFoundIff(fs, at, names, i);
      } else {
        FoundIff(fs, at, names, i);
      }
    }
  }

  /** Once the parent is found, the last name decides. */
  lemma LastStep(fs: Fs, at: nat, names: seq<string>)
    requires Walk(fs, at, names, true).Found?
    ensures var d := Walk(fs, at, names, true).i;
            && d < |fs.inodes|
            && var i := Target(fs.inodes[d].entries, Last(names));
            Walk(fs, at, names, false) == if i == 0 then Missing else Found(i)
    decreases |names|
  {
    hide Target;
    if |names| > 1 {
      LastStep(fs, Target(fs.inodes[at].entries, names[0]), names[1..]);
    }
  }

  // ------------------------------------------------------------- what a change does to paths

  /** Whatever a name of a directory leads to, it leads there afterwards. */
  ghost predicate KeepsNames(s: Fs, t: Fs) {
    forall d: nat, name, i: nat :: LeadsTo(s, d, name, i) ==> LeadsTo(t, d, name, i)
  }

  lemma TrailKept(s: Fs, t: Fs, at: nat, names: seq<string>, i: nat)
    requires KeepsNames(s, t) && Reaches(s, at, names, i)
    ensures Reaches(t, at, names, i)
  {
    hide LeadsTo;
    var row :| IsTrail(s, row, names) && row[0] == at && row[|names|] == i;
    assert IsTrail(t, row, names);
  }

  lemma TrailSnoc(fs: Fs, at: nat, names: seq<string>, d: nat, i: nat)
    requires names != [] && Reaches(fs, at, names[..|names| - 1], d) && LeadsTo(fs, d, Last(names), i)
    ensures Reaches(fs, at, names, i)
  {
    hide LeadsTo;
    var most := names[..|names| - 1];
    var row :| IsTrail(fs, row, most) && row[0] == at && row[|most|] == d;
    var more := row + [i];
    forall k: nat | k < |names| ensures LeadsTo(fs, more[k], names[k], more[k + 1]) {
      if k < |most| {
        assert LeadsTo(fs, row[k], most[k], row[k + 1]);
      }
    }
    assert IsTrail(fs, more, names);
  }

  lemma TrailLast(fs: Fs, at: nat, names: seq<string>, i: nat) returns (d: nat)
    requires names != [] && Reaches(fs, at, names, i)
    ensures Reaches(fs, at, names[..|names| - 1], d) && LeadsTo(fs, d, Last(names), i)
  {
    hide LeadsTo;
    var row :| IsTrail(fs, row, names) && row[0] == at && row[|names|] == i;
    var n := |names| - 1;
    d := row[n];
    assert LeadsTo(fs, row[n], names[n], row[n + 1]);
    forall k: nat | k < n ensures LeadsTo(fs, row[..n + 1][k], names[..n][k], row[..n + 1][k + 1]) {
      assert LeadsTo(fs, row[k], names[k], row[k + 1]);
    }
    assert IsTrail(fs, row[..n + 1], names[..n]);
  }

  /** A new name takes nothing away, and it leads to its inode. */
  lemma AddedNames(s: Fs, c: Change)
    requires Allowed(s, c) && Adds(c)
    ensures KeepsNames(s, Apply(s, c)) && LeadsTo(Apply(s, c), c.d, c.name, c.x)
  {
    var t := Apply(s, c);
    forall d: nat, name, i: nat | LeadsTo(s, d, name, i) ensures LeadsTo(t, d, name, i) {
      var k: nat :| EntryAt(s, d, k, name, i);
      var es, fs := s.inodes[d].entries, t.inodes[d].entries;
      forall j | 0 <= j < k && fs[j].inum != 0 ensures fs[j].name != name {
        assert es[..k][j] == es[j];
        assert es[k].name != c.name || d != c.d;
      }
      assert EntryAt(t, d, k, name, i);
    }
    var k := if c.k < |s.inodes[c.d].entries| then c.k else |s.inodes[c.d].entries|;
    assert EntryAt(t, c.d, k, c.name, c.x);
  }

  /** Every path that led somewhere before a name was added leads there afterwards. */
  lemma AddKeepsPaths(s: Fs, c: Change, at: nat, names: seq<string>, i: nat)
    requires Allowed(s, c) && Adds(c) && Walk(s, at, names, false) == Found(i)
    ensures Walk(Apply(s, c), at, names, false) == Found(i)
  {
    hide Allowed, Apply, Walk;
    AddedNames(s, c);
    FoundIff(s, at, names, i);
    TrailKept(s, Apply(s, c), at, names, i);
    FoundIff(Apply(s, c), at, names, i);
  }

  /** The path whose last name was added leads to what was added. */
  lemma AddedIsFound(s: Fs, c: Change, at: nat, names: seq<string>)
    requires Allowed(s, c) && Adds(c) && Walk(s, at, names, true) == Found(c.d) && c.name == Last(names)
    ensures Walk(Apply(s, c), at, names, false) == Found(c.x)
  {
    hide Allowed, Apply, Walk, LeadsTo, Reaches;
    AddedNames(s, c);
    ParentFoundIff(s, at, names, c.d);
    TrailKept(s, Apply(s, c), at, names[..|names| - 1], c.d);
    TrailSnoc(Apply(s, c), at, names, c.d, c.x);
    FoundIff(Apply(s, c), at, names, c.x);
  }

  /** A name removed is the only one that goes, apart from those in a directory that goes with it. */
  lemma RemovedNames(s: Fs, d: nat, k: nat, at: nat, name: string, i: nat)
    requires Inv(s) && Allowed(s, Remove(d, k))
    ensures var t := Apply(s, Remove(d, k));
            LeadsTo(t, at, name, i) <==>
            && LeadsTo(s, at, name, i) && !(at == d && name == s.inodes[d].entries[k].name)
            && at < |t.inodes| && !t.inodes[at].kind.Free?
  {
    hide Inv, Bare;
    var t := Apply(s, Remove(d, k));
    DirNamesUnique(s, d);
    if at < |s.inodes| {
      var was, now := s.inodes[at].entries, t.inodes[at].entries;
      if LeadsTo(t, at, name, i) {
        var j: nat :| EntryAt(t, at, j, name, i);
        forall m | 0 <= m < j && was[m].inum != 0 ensures was[m].name != name {
          assert now[..j][m] == now[m];
        }
        assert EntryAt(s, at, j, name, i);
      }
      if LeadsTo(s, at, name, i) && !(at == d && name == was[k].name) && !t.inodes[at].kind.Free? {
        var j: nat :| EntryAt(s, at, j, name, i);
        forall m | 0 <= m < j && now[m].inum != 0 ensures now[m].name != name {
          assert was[..j][m] == was[m];
        }
        assert EntryAt(t, at, j, name, i);
      }
    }
  }

  lemma DirNamesUnique(s: Fs, d: nat)
    requires Inv(s) && IsDir(s, d)
    ensures UniqueNames(s.inodes[d].entries)
  {
    hide Sum, Count;
    assert InodeOk(s, d);
  }

  /** The path whose last name was removed leads nowhere. */
  lemma RemovedIsGone(s: Fs, d: nat, k: nat, at: nat, names: seq<string>)
    requires Inv(s) && Allowed(s, Remove(d, k)) && Walk(s, at, names, true) == Found(d)
    requires Last(names) == s.inodes[d].entries[k].name
    ensures !Walk(Apply(s, Remove(d, k)), at, names, false).Found?
  {
    hide Inv, Allowed, Apply, Walk, LeadsTo, Reaches;
    var t := Apply(s, Remove(d, k));
    ParentFoundIff(s, at, names, d);
    var w, most := Walk(t, at, names, false), names[..|names| - 1];
    if w.Found? {
      FoundIff(t, at, names, w.i);
      var up := TrailLast(t, at, names, w.i);
      forall x: nat, name, i: nat | LeadsTo(t, x, name, i) ensures LeadsTo(s, x, name, i) {
        RemovedNames(s, d, k, x, name, i);
      }
      TrailKept(t, s, at, most, up);
      FoundIff(s, at, most, up);
      FoundIff(s, at, most, d);
      RemovedNames(s, d, k, d, Last(names), w.i);
    }
  }
}
