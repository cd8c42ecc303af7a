/**
 The memory of processes (kernel/proc.c, kernel/exec.c): growing, copying and replacing an
 address space, with every failure path giving back the pages it took.
 */
module VmProc {
  import opened Bytes
  import Common
  import opened Sv39
  import opened VmModel
  import opened Vm
  import opened VmImage

  const MAXARG: nat := 32
  const USERSTACK: nat := 1

  // -------------------------------------------------------------------- address spaces

  lemma SpaceGrew(ram: set<nat>, m: Mem, n: Mem, r: nat, lo: nat, hi: nat, tramp: nat, trapframe: nat)
    requires Space(m, r, lo, tramp, trapframe) && Grew(ram, m, n, r, lo, hi) && Sized(n, r, hi)
    ensures Space(n, r, hi, tramp, trapframe)
  {
    hide Leaf, MemOk, OtherTables, GrewData;
  }

  lemma SpaceRestored(ram: set<nat>, m: Mem, n: Mem, r: nat, size: nat, tramp: nat, trapframe: nat)
    requires MemOk(ram, m) && Space(m, r, size, tramp, trapframe) && Restored(ram, m, n, r)
    ensures Space(n, r, size, tramp, trapframe)
  {
    hide Leaf, MemOk, OtherTables;
  }

  lemma SpaceShrunk(ram: set<nat>, m: Mem, n: Mem, r: nat, lo: nat, hi: nat, tramp: nat, trapframe: nat)
    requires Space(m, r, hi, tramp, trapframe) && Unmapped(ram, m, n, r, lo, hi, true) && Sized(n, r, lo)
    ensures Space(n, r, lo, tramp, trapframe)
  {
    hide Leaf, Core, Held, OtherTables;
  }

  /** A page of the kernel's own, such as a trapframe, can be freed whoever maps it. */
  lemma FreedKernel(ram: set<nat>, m: Mem, p: nat)
    requires MemOk(ram, m) && p in m.holder && m.holder[p] == Kernel
    ensures p in m.data && MemOk(ram, Given(m, p)) && Given(m, p).tables == m.tables && Given(m, p).place == m.place
  {
    hide Core, Leaf, PteAddr, PteFlags, IsUser;
    MemParts(ram, m);
    GivenData(ram, m, p);
    var n := Given(m, p);
    forall s, w: nat | IsRoot(n.place, s) && w < NVPN ensures LeafHeld(n, s, w) {
      assert LeafHeld(m, s, w);
    }
    forall q | q in n.holder ensures PageMapped(n, q) {
      assert PageMapped(m, q);
    }
  }

  /** Another address space is the same through any change to r. */
  lemma SpaceOther(m: Mem, n: Mem, r: nat, s: nat, size: nat, tramp: nat, trapframe: nat)
    requires Space(m, s, size, tramp, trapframe) && Only(m, n, r) && s != r
    ensures Space(n, s, size, tramp, trapframe)
  {
    hide Leaf, OtherTables, OtherData, Pte;
  }

  /** Everything there was is still there: data pages, their holders and every mapping. */
  ghost predicate Kept(m: Mem, n: Mem) {
    && (forall p :: p in m.data && p in m.holder ==>
          p in n.data && p in n.holder && n.data[p] == m.data[p] && n.holder[p] == m.holder[p])
    && (forall s :: IsRoot(m.place, s) ==> IsRoot(n.place, s))
    && (forall s, v: nat :: IsRoot(m.place, s) && v < NVPN ==> Leaf(n.tables, s, v) == Leaf(m.tables, s, v))
  }

  lemma KeptTwice(m: Mem, u: Mem, n: Mem)
    requires Kept(m, u) && Kept(u, n)
    ensures Kept(m, n)
  {
    hide Leaf;
  }

  lemma TakenKept(ram: set<nat>, m: Mem, page: seq<Byte>)
    requires MemOk(ram, m) && m.free != []
    ensures Kept(m, Taken(m, page))
  {
    hide Leaf, Trees, Held;
    FreeFacts(ram, m);
  }

  /** A new address space keeps everything there was. */
  lemma NewSpaceKept(ram: set<nat>, m: Mem, n: Mem, r: nat)
    requires MemOk(ram, m) && r !in m.tables && Only(m, n, r)
    ensures Kept(m, n)
  {
    hide Leaf, OtherTables, Core, Held;
    forall p | p in m.holder ensures !HeldBy(m, p, r) {
      NotHeldBy(ram, m, p, r);
    }
    NotARoot(ram, m, r);
  }

  lemma NotARoot(ram: set<nat>, m: Mem, r: nat)
    requires MemOk(ram, m) && r !in m.tables
    ensures !IsRoot(m.place, r)
  {
    hide Held;
  }

  lemma GrewKept(ram: set<nat>, m: Mem, n: Mem, r: nat, hi: nat)
    requires Grew(ram, m, n, r, 0, hi) && Sized(m, r, 0) && hi <= TRAPVPN
    ensures MemOk(ram, n)
    ensures forall p :: p in m.data && p in m.holder ==>
              p in n.data && p in n.holder && n.data[p] == m.data[p] && n.holder[p] == m.holder[p]
    ensures forall s, v: nat :: s != r && IsRoot(m.place, s) && v < NVPN ==>
            IsRoot(n.place, s) && Leaf(n.tables, s, v) == Leaf(m.tables, s, v)
  {
    hide Leaf, OtherTables, MemOk;
  }

  /** The copy is of the pages as they were before the child was set up. */
  lemma CopiedFrom(ram: set<nat>, m: Mem, u: Mem, n: Mem, from: nat, r: nat, k: nat)
    requires MemOk(ram, m) && Kept(m, u) && Copied(u, n, from, r, k) && Sized(m, from, k)
    ensures Copied(m, n, from, r, k)
  {
    hide Core, Leaf, PteAddr, PteFlags, IsUser;
    MemParts(ram, m);
    forall v: nat | v < k ensures SamePage(m, n, from, r, v) {
      assert SamePage(u, n, from, r, v);
      assert LeafHeld(m, from, v);
    }
  }

  lemma TakenGiven(ram: set<nat>, m: Mem, junk: seq<Byte>, n: Mem)
    requires MemOk(ram, m) && m.free != [] && Unchanged(Taken(m, junk), n)
    ensures m.free[0] in n.holder && n.holder[m.free[0]] == Kernel && Unchanged(m, Given(n, m.free[0]))
  {
    hide Trees, Held;
    var p := m.free[0];
    FreeFacts(ram, m);
    assert p !in m.place by { CoreKeys(ram, m); }
    var w := Given(n, p);
    assert w.tables == m.tables && w.place == m.place && w.data == m.data && w.holder == m.holder;
    forall q ensures q in w.free <==> q in m.free {
      InCons(w.free, q);
      InCons(m.free, q);
    }
  }

  lemma CoreKeys(ram: set<nat>, m: Mem)
    requires MemOk(ram, m)
    ensures m.place.Keys == m.tables.Keys && m.holder.Keys == m.data.Keys
  {
    hide Held;
  }

  lemma OnlyGiven(ram: set<nat>, m: Mem, w: Mem, r: nat, p: nat)
    requires MemOk(ram, m) && MemOk(ram, w) && Only(m, w, r)
    requires p in m.holder && m.holder[p] == Kernel && p in w.holder && w.holder[p] == Kernel
    ensures Only(Given(m, p), Given(w, p), r)
  {
    hide Leaf, Core, Held, Below;
    FreedKernel(ram, m, p);
    FreedKernel(ram, w, p);
  }

  lemma UnchangedTwice(m: Mem, u: Mem, n: Mem)
    requires Unchanged(m, u) && Unchanged(u, n)
    ensures Unchanged(m, n)
  {
  }

  /** fork's cleanup when the copy failed: trapframe, then address space. */
  lemma ForkUndone(ram: set<nat>, m: Mem, junk: seq<Byte>, w: Mem, n: Mem, r: nat)
    requires MemOk(ram, m) && m.free != [] && |junk| == PGSIZE && r !in m.tables
    requires MemOk(ram, w) && Only(Taken(m, junk), w, r) && m.free[0] in w.holder && w.holder[m.free[0]] == Kernel
    requires Gone(ram, Given(w, m.free[0]), n, r)
    ensures Unchanged(m, n)
  {
    hide Core, Held, Only, Gone, Unchanged;
    var u, p := Taken(m, junk), m.free[0];
    TakenMemOk(ram, m, junk);
    FreedKernel(ram, u, p);
    FreedKernel(ram, w, p);
    OnlyGiven(ram, u, w, r, p);
    BackToStart(ram, Given(u, p), Given(w, p), n, r);
    UnchangedNothing(u);
    TakenGiven(ram, m, junk, u);
    UnchangedTwice(m, Given(u, p), n);
  }

  lemma TakenMemOk(ram: set<nat>, m: Mem, page: seq<Byte>)
    requires MemOk(ram, m) && m.free != [] && |page| == PGSIZE
    ensures MemOk(ram, Taken(m, page))
  {
    hide Core, Held;
    TakenOk(ram, m, page);
    HeldTaken(ram, m, page);
  }

  lemma FullPage(ram: set<nat>, m: Mem, p: nat)
    requires Core(ram, m) && p in m.data
    ensures |m.data[p]| == PGSIZE
  {
  }

  ghost predicate IsKernel(m: Mem, p: nat) {
    p in m.holder && m.holder[p] == Kernel
  }

  /** The kernel's own pages stay when an address space goes. */
  lemma KernelStays(ram: set<nat>, m: Mem, n: Mem, r: nat, p: nat)
    requires Gone(ram, m, n, r) && IsKernel(m, p)
    ensures IsKernel(n, p)
  {
    hide MemOk, Pruned;
  }

  lemma KernelKept(ram: set<nat>, m: Mem, n: Mem, r: nat, p: nat)
    requires MemOk(ram, m) && Only(m, n, r) && p in m.holder && m.holder[p] == Kernel
    ensures p in n.holder && n.holder[p] == Kernel
  {
    hide Core, Held, OtherTables, OtherLeaves;
    MemParts(ram, m);
  }

  lemma SpaceUnchanged(m: Mem, n: Mem, r: nat, size: nat, tramp: nat, trapframe: nat)
    requires Space(m, r, size, tramp, trapframe) && Unchanged(m, n)
    ensures Space(n, r, size, tramp, trapframe) && (IsKernel(m, trapframe) ==> IsKernel(n, trapframe))
  {
    hide Leaf;
  }

  lemma SpaceGiven(ram: set<nat>, m: Mem, p: nat, r: nat, size: nat, tramp: nat)
    requires MemOk(ram, m) && p in m.holder && m.holder[p] == Kernel && Space(m, r, size, tramp, p)
    ensures Space(Given(m, p), r, size, tramp, p)
  {
    hide Leaf, MemOk;
    FreedKernel(ram, m, p);
  }

  lemma RestoredHolder(ram: set<nat>, m: Mem, n: Mem, r: nat)
    requires Restored(ram, m, n, r)
    ensures n.holder == m.holder
  {
    hide MemOk, OtherTables, SameLeaves;
  }

  /** After allocproc the parent's address space and everything else is still there. */
  lemma NewChild(ram: set<nat>, m: Mem, junk: seq<Byte>, u: Mem, root: nat, parent: nat, size: nat, tramp: nat,
          trapframe: nat)
    requires MemOk(ram, m) && m.free != [] && |junk| == PGSIZE && root !in m.tables && Only(Taken(m, junk), u, root)
    requires Space(m, parent, size, tramp, trapframe)
    ensures Kept(m, u) && Space(u, parent, size, tramp, trapframe) && parent != root
    ensures Sized(u, parent, size)
  {
    hide MemOk, Only, Leaf, Kept, Pte;
    TakenMemOk(ram, m, junk);
    TakenKept(ram, m, junk);
    NewSpaceKept(ram, Taken(m, junk), u, root);
    KeptTwice(m, Taken(m, junk), u);
    NotARoot(ram, m, root);
    SpaceOther(Taken(m, junk), u, root, parent, size, tramp, trapframe);
  }

  ghost function WithData(m: Mem, p: nat, page: seq<Byte>): Mem {
    m.(data := m.data[p := page])
  }

  /** Filling a page of the kernel's own touches no address space. */
  lemma FilledKernel(ram: set<nat>, m: Mem, p: nat, page: seq<Byte>)
    requires MemOk(ram, m) && p in m.holder && m.holder[p] == Kernel && |page| == PGSIZE
    ensures MemOk(ram, WithData(m, p, page))
  {
    hide Trees, Held;
    var n := WithData(m, p, page);
    assert n.data.Keys == m.data.Keys;
    WroteHeld(m, n);
  }

  lemma FilledCopied(ram: set<nat>, m: Mem, w: Mem, p: nat, page: seq<Byte>, from: nat, r: nat, k: nat)
    requires MemOk(ram, w) && Sized(w, r, k) && p in w.holder && w.holder[p] == Kernel && Copied(m, w, from, r, k)
    ensures Copied(m, WithData(w, p, page), from, r, k)
  {
    hide Core, Leaf, PteAddr, PteFlags, IsUser;
    forall v: nat | v < k ensures SamePage(m, WithData(w, p, page), from, r, v) {
      assert SamePage(m, w, from, r, v);
      assert LeafHeld(w, r, v);
    }
  }

  /** The child's registers: the parent's, but fork returns 0. The register a0 is saved at offset 112. */
  function ChildFrame(page: seq<Byte>): seq<Byte> {
    if |page| < 120 then page else page[..112] + Word64(0) + page[120..]
  }

  lemma ChildFrameSize(page: seq<Byte>)
    ensures |ChildFrame(page)| == |page|
  {
  }

  lemma ChildFrameBytes(page: seq<Byte>)
    requires |page| == PGSIZE
    ensures var child := ChildFrame(page);
            && |child| == PGSIZE
            && (forall b :: 112 <= b < 120 ==> child[b] == 0)
            && (forall b :: 0 <= b < PGSIZE && !(112 <= b < 120) ==> child[b] == page[b])
  {
  }

  lemma ForkDone(ram: set<nat>, m: Mem, u: Mem, w: Mem, parent: nat, root: nat, size: nat, tramp: nat,
          trapframe: nat, tf: nat)
    requires MemOk(ram, m) && Kept(m, u) && Space(m, parent, size, tramp, trapframe) && root !in m.tables
    requires Space(u, parent, size, tramp, trapframe) && Space(u, root, 0, tramp, tf) && parent != root
    requires Grew(ram, u, w, root, 0, size) && Sized(w, root, size) && Only(u, w, root)
    requires Copied(u, w, parent, root, size)
    requires tf in u.holder && u.holder[tf] == Kernel && tf !in m.data && trapframe in m.holder
    ensures trapframe in m.data && trapframe in w.data && w.data[trapframe] == m.data[trapframe]
    ensures |w.data[trapframe]| == PGSIZE
    ensures var x := WithData(w, tf, ChildFrame(w.data[trapframe]));
            && MemOk(ram, x) && Space(x, root, size, tramp, tf) && Space(x, parent, size, tramp, trapframe)
            && Kept(m, x) && Copied(m, x, parent, root, size)
            && IsKernel(x, tf) && (IsKernel(m, trapframe) ==> IsKernel(x, trapframe))
  {
    hide Core, Held, Leaf, Only, OtherTables, Copied, Pte, ChildFrame;
    MemParts(ram, m);
    NotARoot(ram, m, root);
    GrewKept(ram, u, w, root, size);
    MemParts(ram, w);
    FullPage(ram, w, trapframe);
    ChildFrameSize(w.data[trapframe]);
    FilledKernel(ram, w, tf, ChildFrame(w.data[trapframe]));
    SpaceOther(u, w, root, parent, size, tramp, trapframe);
    SpaceGrew(ram, u, w, root, 0, size, tramp, tf);
    CopiedFrom(ram, m, u, w, parent, root, size);
    FilledCopied(ram, m, w, tf, ChildFrame(w.data[trapframe]), parent, root, size);
  }

  lemma SpaceSized(m: Mem, r: nat, size: nat, tramp: nat, trapframe: nat)
    requires Space(m, r, size, tramp, trapframe)
    ensures Sized(m, r, size)
  {
    hide Leaf;
  }

  lemma FreshFrame(ram: set<nat>, m: Mem)
    requires MemOk(ram, m) && m.free != []
    ensures m.free[0] !in m.data && m.free[0] !in m.holder
  {
    hide Held, Trees;
    FreeFacts(ram, m);
  }

  // ------------------------------------------------------------------------------ exec

  function Flags2Perm(flags: nat): (xperm: nat)
    ensures xperm % 4 == 0 && xperm < 16
  {
    (if flags % 2 == 1 then PTE_X else 0) + (if flags / 2 % 2 == 1 then PTE_W else 0)
  }

  /** exec so far: a new address space of so many pages beside everything there was. */
  ghost predicate Building(ram: set<nat>, m: Mem, n: Mem, r: nat, size: nat, tramp: nat, trapframe: nat) {
    MemOk(ram, n) && Space(n, r, size, tramp, trapframe) && Only(m, n, r) && r !in m.tables
  }

  lemma BuildingGrew(ram: set<nat>, m: Mem, u: Mem, n: Mem, r: nat, lo: nat, hi: nat, tramp: nat, trapframe: nat)
    requires Building(ram, m, u, r, lo, tramp, trapframe) && Grew(ram, u, n, r, lo, hi) && Sized(n, r, hi)
    requires Only(u, n, r)
    ensures Building(ram, m, n, r, hi, tramp, trapframe)
  {
    hide Space, MemOk, Only, GrewMap, GrewData, OtherTables;
    OnlyTwice(m, u, n, r);
    SpaceGrew(ram, u, n, r, lo, hi, tramp, trapframe);
  }

  lemma BuildingRestored(ram: set<nat>, m: Mem, u: Mem, n: Mem, r: nat, size: nat, tramp: nat, trapframe: nat)
    requires Building(ram, m, u, r, size, tramp, trapframe) && Restored(ram, u, n, r) && Only(u, n, r)
    ensures Building(ram, m, n, r, size, tramp, trapframe)
  {
    hide Space, MemOk, Only, SameLeaves, OtherTables;
    OnlyTwice(m, u, n, r);
    SpaceRestored(ram, u, n, r, size, tramp, trapframe);
  }

  lemma BuildingWrote(ram: set<nat>, m: Mem, u: Mem, n: Mem, r: nat, size: nat, tramp: nat, trapframe: nat, va: nat,
          bytes: seq<Byte>)
    requires Building(ram, m, u, r, size, tramp, trapframe) && Wrote(u, n, r, va, bytes)
    ensures Building(ram, m, n, r, size, tramp, trapframe)
    ensures forall k :: AllUser(u, r, k) ==> AllUser(n, r, k)
  {
    hide MemOk, Only, ByteAt, Leaf, Pte;
    WroteOk(ram, u, n, r, va, bytes);
    OnlyTwice(m, u, n, r);
  }

  lemma BuildingFacts(ram: set<nat>, m: Mem, n: Mem, r: nat, size: nat, tramp: nat, trapframe: nat)
    requires Building(ram, m, n, r, size, tramp, trapframe)
    ensures MemOk(ram, n) && Sized(n, r, size) && IsRoot(n.place, r) && Space(n, r, size, tramp, trapframe)
  {
    hide MemOk, Only, Leaf, Pte;
  }

  lemma BuildingKernel(ram: set<nat>, m: Mem, n: Mem, r: nat, size: nat, tramp: nat, trapframe: nat)
    requires MemOk(ram, m) && Building(ram, m, n, r, size, tramp, trapframe) && IsKernel(m, trapframe)
    ensures IsKernel(n, trapframe)
  {
    hide MemOk, Only, Space;
    KernelKept(ram, m, n, r, trapframe);
  }

  /** exec's bad path: nothing is left of the new address space. */
  lemma BuildingUndone(ram: set<nat>, m: Mem, w: Mem, n: Mem, r: nat, size: nat, tramp: nat, trapframe: nat)
    requires MemOk(ram, m) && Building(ram, m, w, r, size, tramp, trapframe) && Gone(ram, w, n, r)
    ensures MemOk(ram, n) && Unchanged(m, n)
  {
    hide MemOk, Only, Space, Gone;
    GoneOk(ram, w, n, r);
    BackToStart(ram, m, w, n, r);
  }

  lemma LoadedPage(ram: set<nat>, m: Mem, u: Mem, n: Mem, r: nat, va: nat, file: seq<Byte>, i: nat, got: nat,
          size: nat, pa: nat)
    requires i + got <= |file|
    requires MemOk(ram, u) && Sized(u, r, size) && AllUser(u, r, size) && Wrote(m, u, r, va, file[..i])
    requires pa in u.data && got <= |u.data[pa]| && n == WithData(u, pa, file[i..i + got] + u.data[pa][got..])
    requires Wrote(u, WithData(u, pa, u.data[pa][..0] + file[i..i + got] + u.data[pa][0 + |file[i..i + got]|..]), r,
            va + i, file[i..i + got])
    ensures MemOk(ram, n) && Sized(n, r, size) && AllUser(n, r, size) && Wrote(m, n, r, va, file[..i + got])
  {
    hide MemOk, Wrote, IsUser;
    assert u.data[pa][..0] + file[i..i + got] + u.data[pa][0 + |file[i..i + got]|..] ==
        file[i..i + got] + u.data[pa][got..];
    assert file[..i] + file[i..i + got] == file[..i + got];
    WroteTwice(m, u, n, r, va, file[..i], file[i..i + got]);
    WroteOk(ram, u, n, r, va + i, file[i..i + got]);
  }

  lemma NoUserPages(m: Mem, r: nat)
    ensures AllUser(m, r, 0) && Pages(0) == 0
  {
  }

  lemma PagesCover(sz: nat)
    ensures sz <= Pages(sz) * PGSIZE < sz + PGSIZE
  {
  }

  lemma SegmentBits(pte: nat, flags: nat)
    requires PteFlags(pte) == PTE_V + PTE_R + PTE_U + Flags2Perm(flags)
    ensures SegmentMode(pte, flags)
  {
    ModeBits(pte);
    UserFlag(pte);
  }

  lemma SegmentModes(ram: set<nat>, m: Mem, n: Mem, r: nat, lo: nat, hi: nat, flags: nat)
    requires Grew(ram, m, n, r, lo, hi) && hi <= TRAPVPN
    requires FreshPages(n, r, lo, hi, PTE_V + PTE_R + PTE_U + Flags2Perm(flags))
    ensures Moded(n, r, lo, hi, flags) && LeavesBelow(m, n, r, lo)
  {
    hide Leaf, PteFlags, PteAddr, SegmentMode, Flags2Perm, MemOk, OtherTables, GrewData;
    forall v: nat | lo <= v < hi ensures SegmentMode(Leaf(n.tables, r, v), flags) {
      SegmentBits(Leaf(n.tables, r, v), flags);
    }
  }

  /** The two pages above the program do not change how its own pages may be used. */
  lemma StackModes(ram: set<nat>, u: Mem, w: Mem, x: Mem, r: nat, size: nat, sz1: nat)
    requires size % PGSIZE == 0 && sz1 == size + 2 * PGSIZE && Pages(sz1) <= TRAPVPN
    requires Grew(ram, u, w, r, Pages(size), Pages(sz1))
    requires FreshPages(w, r, Pages(size), Pages(sz1), PTE_V + PTE_R + PTE_U + PTE_W)
    requires LeafChange(w, x, r, sz1 / PGSIZE - 2, WithoutUser(Leaf(w.tables, r, sz1 / PGSIZE - 2)))
    ensures LeavesBelow(u, x, r, Pages(size)) && Pages(size) == sz1 / PGSIZE - 2
    ensures SegmentMode(Leaf(x.tables, r, sz1 / PGSIZE - 1), 2)
  {
    hide Leaf, PteFlags, PteAddr, SegmentMode, MemOk, OtherTables, GrewData, WithoutUser, Pages;
    StackPages(size, sz1);
    SegmentBits(Leaf(w.tables, r, sz1 / PGSIZE - 1), 2);
  }

  lemma GrownUser(ram: set<nat>, m: Mem, n: Mem, r: nat, sz0: nat, sz1: nat, xperm: nat)
    requires AllUser(m, r, Pages(sz0)) && Grew(ram, m, n, r, Pages(sz0), Pages(sz1)) && Sized(n, r, Pages(sz1))
    requires FreshPages(n, r, Pages(sz0), Pages(sz1), PTE_V + PTE_R + PTE_U + xperm) && xperm % 4 == 0 && xperm < 16
    ensures AllUser(n, r, Pages(sz1))
  {
    hide AllUser, Grew, FreshPages, Pages;
    FreshUser(ram, m, n, r, Pages(sz0), Pages(sz1), PTE_V + PTE_R + PTE_U + xperm);
  }

  /** The bytes of an address space that has grown. */
  lemma SegmentGrew(ram: set<nat>, m: Mem, n: Mem, r: nat, sz0: nat, sz1: nat, xperm: nat)
    requires Grew(ram, m, n, r, Pages(sz0), Pages(sz1)) && Sized(m, r, Pages(sz0)) && Sized(n, r, Pages(sz1))
    requires FreshPages(n, r, Pages(sz0), Pages(sz1), PTE_V + PTE_R + PTE_U + xperm)
    ensures SegmentIn(m, n, r, Pages(sz0), Pages(sz1), 0, []) && Pages(sz0) <= Pages(sz1)
  {
    hide MemOk, FreshPages, Pages, SegmentIn, GrewMap, GrewData, OtherTables, Leaf;
    GrewBytes(ram, m, n, r, Pages(sz0), Pages(sz1), PTE_V + PTE_R + PTE_U + xperm);
  }

  lemma SegmentFits(m: Mem, r: nat, n: nat)
    ensures SegmentIn(m, m, r, n, n, 0, [])
  {
    hide ByteAt;
  }

  /** A failed uvmalloc, or one asked for nothing, leaves the address space being built as it was. */
  lemma AfterUvmalloc(ram: set<nat>, m: Mem, u: Mem, n: Mem, r: nat, oldsz: nat, newsz: nat, tramp: nat, trapframe: nat)
    requires Building(ram, m, u, r, Pages(oldsz), tramp, trapframe) && Only(u, n, r)
    requires newsz < oldsz ==> oldsz == 0
    requires newsz >= oldsz && newsz == 0 ==>
            Grew(ram, u, n, r, Pages(oldsz), Pages(newsz)) && Sized(n, r, Pages(newsz))
    requires newsz >= oldsz && newsz != 0 ==> Restored(ram, u, n, r)
    ensures Building(ram, m, n, r, Pages(oldsz), tramp, trapframe)
  {
    hide Building, Grew, Restored, Only, Sized;
    if newsz == 0 {
      BuildingGrew(ram, m, u, n, r, Pages(oldsz), Pages(oldsz), tramp, trapframe);
    } else {
      BuildingRestored(ram, m, u, n, r, Pages(oldsz), tramp, trapframe);
    }
  }

  lemma WroteTables(m: Mem, n: Mem, r: nat, va: nat, bytes: seq<Byte>)
    requires Wrote(m, n, r, va, bytes)
    ensures n.tables == m.tables && n.free == m.free
  {
    hide ByteAt;
  }

  lemma SameBelowNothing(m: Mem, r: nat, top: nat)
    ensures SameBelow(m, m, r, top)
  {
    hide ByteAt;
  }

  lemma NoDepth()
    ensures Depth([]) == 0
  {
  }

  lemma AboveBase(m: Mem, r: nat, base: nat, sp: nat)
    ensures Roomy(m, r, base, sp) ==> base <= sp
  {
    hide Access;
  }

  lemma NoStrings(m: Mem, r: nat, sp: nat, args: seq<seq<Byte>>)
    ensures Strings(m, r, sp, [], args) && Words([]) == []
  {
  }

  lemma Wrapped(sp: nat, n: nat)
    requires sp < UINT64
    ensures n <= sp ==> (sp - n) % UINT64 == sp - n
  {
  }

  /** A push that fails at byte k on a stack with room reaches below the base. */
  lemma OutOfRoom(m: Mem, r: nat, base: nat, sp: nat, to: nat, n: nat, k: nat)
    requires sp < UINT64 && k < n && base <= to && !Access(m, r, to + k, true)
    requires to == (sp - n) % UINT64 - (sp - n) % UINT64 % 16
    ensures Roomy(m, r, base, sp) ==> sp - n - (sp - n) % 16 < base
  {
    hide Access;
    Wrapped(sp, n);
  }

  /** A stack pointer that had wrapped around would not have been writable. */
  lemma NoWrap(m: Mem, r: nat, sp: nat, to: nat, n: nat)
    requires n > 0 && sp < UINT64 && Writable(m, r, to, to + n)
    requires to == (sp - n) % UINT64 - (sp - n) % UINT64 % 16
    ensures to + n <= sp && to == sp - n - (sp - n) % 16
  {
    hide Leaf, IsUser;
    assert Access(m, r, to + n - 1, true);
    assert (sp - n) % UINT64 == if n <= sp then sp - n else sp - n + UINT64;
  }

  lemma SameRoundedSize(sz: nat)
    ensures Pages(RoundUp(sz)) == Pages(sz) && RoundUp(sz) % PGSIZE == 0 && sz <= RoundUp(sz) < sz + PGSIZE
  {
  }

  lemma BuildingStarts(ram: set<nat>, m: Mem, n: Mem, r: nat, tramp: nat, trapframe: nat)
    requires MemOk(ram, n) && Space(n, r, 0, tramp, trapframe) && Only(m, n, r) && r !in m.tables
    ensures Building(ram, m, n, r, Pages(0), tramp, trapframe)
  {
    hide MemOk, Space, Only;
  }

  lemma StackFlags(m: Mem, r: nat, size: nat, sz1: nat)
    requires FreshPages(m, r, Pages(size), Pages(sz1), PTE_V + PTE_R + PTE_U + PTE_W)
    requires size % PGSIZE == 0 && sz1 == size + 2 * PGSIZE
    ensures Pages(sz1) == sz1 / PGSIZE >= 2 && sz1 % PGSIZE == 0
    ensures PteFlags(Leaf(m.tables, r, sz1 / PGSIZE - 2)) != PTE_V + PTE_U
  {
    hide Leaf, PteFlags, PteAddr;
  }

  lemma GuardBuilt(ram: set<nat>, m: Mem, u: Mem, n: Mem, r: nat, v: nat, size: nat, tramp: nat, trapframe: nat)
    requires Building(ram, m, u, r, size, tramp, trapframe) && v < size
    requires MemOk(ram, n) && Sized(n, r, size) && Only(u, n, r)
    requires LeafChange(u, n, r, v, WithoutUser(Leaf(u.tables, r, v)))
    ensures Building(ram, m, n, r, size, tramp, trapframe) && !IsUser(Leaf(n.tables, r, v))
  {
    hide MemOk, Only, Leaf, Pte, IsUser;
    ClearedBits(Leaf(u.tables, r, v));
    OnlyTwice(m, u, n, r);
  }

  /** What exec can run: a program it can load, and arguments that fit the stack. */
  predicate Runnable(phdrs: seq<Phdr>, args: seq<seq<Byte>>) {
    Accepted(phdrs) && |args| < MAXARG && ArgRoom(args) <= USERSTACK * PGSIZE
  }

  /** What makes exec store a pointer behind its array. */
  predicate Overruns(phdrs: seq<Phdr>, args: seq<seq<Byte>>) {
    Accepted(phdrs) && |args| == MAXARG && Depth(args) <= USERSTACK * PGSIZE
  }

  /** Thirty-two empty strings do. */
  lemma ThirtyTwoArguments(args: seq<seq<Byte>>)
    requires |args| == MAXARG && forall i :: 0 <= i < |args| ==> args[i] == []
    ensures Overruns([], args)
  {
    EmptyDepth(args, MAXARG);
    assert args[..MAXARG] == args;
  }

  lemma {:induction false} EmptyDepth(args: seq<seq<Byte>>, n: nat)
    requires n <= |args| && forall i :: 0 <= i < |args| ==> args[i] == []
    ensures Depth(args[..n]) == 16 * n
  {
    if n == 0 {
      assert args[..0] == [];
    } else {
      EmptyDepth(args, n - 1);
      DepthNext(args, n - 1);
      Common.DivUnique(16 * (n - 1) + 1 + 15, 16, n, 0);
    }
  }

  /** The size exec gives a process: the program, a guard page and the stack. */
  function ImageSize(phdrs: seq<Phdr>): nat {
    RoundUp(Size(phdrs)) + (USERSTACK + 1) * PGSIZE
  }

  lemma StackPages(size: nat, sz1: nat)
    requires size % PGSIZE == 0 && sz1 == size + 2 * PGSIZE
    ensures var v := sz1 / PGSIZE - 1;
            v >= 1 && Pages(sz1) == v + 1 && Pages(size) == v - 1 && sz1 == v * PGSIZE + PGSIZE
    ensures sz1 % 16 == 0
  {
    var k := size / PGSIZE;
    Common.Euclid(size, PGSIZE);
    Common.DivUnique(sz1, PGSIZE, k + 2, 0);
    Common.DivUnique(size + PGSIZE - 1, PGSIZE, k, PGSIZE - 1);
    Common.DivUnique(sz1 + PGSIZE - 1, PGSIZE, k + 2, PGSIZE - 1);
    Common.DivUnique(sz1, 16, (k + 2) * 256, 0);
  }

  /** A page that is the user's to write stays so when the one below it is taken out of reach. */
  lemma StackPage(w: Mem, x: Mem, r: nat, v: nat, a: nat)
    requires 0 < v < TRAPVPN && PteFlags(Leaf(w.tables, r, v)) == PTE_V + PTE_R + PTE_U + PTE_W
    requires IsValid(Leaf(w.tables, r, v)) && a / PGSIZE == v
    requires LeafChange(w, x, r, v - 1, WithoutUser(Leaf(w.tables, r, v - 1)))
    ensures Access(x, r, a, true)
  {
    hide Leaf, PteFlags, IsUser, IsWritable, WithoutUser;
    UserFlag(Leaf(w.tables, r, v));
    StackBits();
  }

  /** The user can write all of the stack. */
  lemma StackRoomy(w: Mem, x: Mem, r: nat, size: nat, sz1: nat)
    requires size % PGSIZE == 0 && sz1 == size + 2 * PGSIZE && Sized(w, r, Pages(sz1))
    requires FreshPages(w, r, Pages(size), Pages(sz1), PTE_V + PTE_R + PTE_U + PTE_W)
    requires LeafChange(w, x, r, sz1 / PGSIZE - 2, WithoutUser(Leaf(w.tables, r, sz1 / PGSIZE - 2)))
    ensures Roomy(x, r, sz1 - PGSIZE, sz1) && sz1 % 16 == 0
  {
    hide Leaf, PteAddr, PteFlags, IsUser, IsValid, WithoutUser, LeafChange, Access, Pages;
    StackPages(size, sz1);
    var v := sz1 / PGSIZE - 1;
    SizedPage(w, r, Pages(sz1), v);
    assert PteFlags(Leaf(w.tables, r, v)) == PTE_V + PTE_R + PTE_U + PTE_W;
    forall a: nat | sz1 - PGSIZE <= a < sz1 ensures Access(x, r, a, true) {
      Common.DivUnique(a, PGSIZE, v, a - v * PGSIZE);
      StackPage(w, x, r, v, a);
    }
  }

  lemma SizedPage(m: Mem, r: nat, n: nat, v: nat)
    requires Sized(m, r, n) && v < n
    ensures v < TRAPVPN && IsValid(Leaf(m.tables, r, v))
  {
    hide Leaf, IsValid;
  }

  lemma StackBits()
    ensures IsUser(PTE_V + PTE_R + PTE_U + PTE_W) && IsWritable(PTE_V + PTE_R + PTE_U + PTE_W)
  {
  }

  /** The stack and its guard page leave the program as it was. */
  lemma StackBuilt(ram: set<nat>, u: Mem, w: Mem, x: Mem, r: nat, size: nat, sz1: nat, phdrs: seq<Phdr>)
    requires Shows(u, r, Pages(size), phdrs) && Sized(u, r, Pages(size)) && size % PGSIZE == 0
    requires sz1 == size + 2 * PGSIZE && Grew(ram, u, w, r, Pages(size), Pages(sz1)) && Sized(w, r, Pages(sz1))
    requires FreshPages(w, r, Pages(size), Pages(sz1), PTE_V + PTE_R + PTE_U + PTE_W)
    requires LeafChange(w, x, r, sz1 / PGSIZE - 2, WithoutUser(Leaf(w.tables, r, sz1 / PGSIZE - 2))) && x.data == w.data
    ensures Shows(x, r, sz1 / PGSIZE - 2, phdrs) && sz1 / PGSIZE - 2 <= TRAPVPN
  {
    hide MemOk, ByteAt, Leaf, Loaded, FreshPages, GrewMap, GrewData, OtherTables, LeafChange, WithoutUser;
    var k := Pages(size);
    assert k == sz1 / PGSIZE - 2 && Pages(sz1) == k + 2;
    SegmentGrew(ram, u, w, r, size, sz1, PTE_W);
    forall a: nat | a < k * PGSIZE ensures ByteAt(x, r, a) == Loaded(phdrs, a) {
      PageOf(a, k);
      ClearedBytes(w, x, r, k, a);
    }
  }

  /** Both address spaces exist side by side just before the old one is freed. */
  lemma Replacing(ram: set<nat>, m: Mem, w: Mem, r: nat, was: nat, size: nat, oldsize: nat, tramp: nat, trapframe: nat)
    requires MemOk(ram, m) && Building(ram, m, w, r, size, tramp, trapframe) && Space(m, was, oldsize, tramp, trapframe)
    ensures MemOk(ram, w) && Only(m, w, r) && r !in m.tables && was != r
    ensures Space(w, was, oldsize, tramp, trapframe) && Space(w, r, size, tramp, trapframe)
  {
    hide MemOk, Only, Leaf, Pte;
    NotARoot(ram, m, r);
    SpaceOther(m, w, r, was, oldsize, tramp, trapframe);
  }

  lemma Replaced(ram: set<nat>, w: Mem, n: Mem, r: nat, was: nat, size: nat, tramp: nat, trapframe: nat)
    requires MemOk(ram, w) && Space(w, r, size, tramp, trapframe) && was != r && Gone(ram, w, n, was)
    ensures MemOk(ram, n) && Space(n, r, size, tramp, trapframe)
    ensures forall v: nat :: v < NVPN ==> Leaf(n.tables, r, v) == Leaf(w.tables, r, v)
  {
    hide Held, Partition, Leaf, Pte, Pruned, Trees;
    PrunedRoot(w.tables, w.place, n.tables, n.place, was);
  }

  class Proc {
    const vm: Vm
    /** The physical page of the trampoline code, in kernel text. */
    const tramp: nat
    var pagetable: nat
    var sz: nat
    var trapframe: nat

    constructor (vm: Vm, tramp: nat, pagetable: nat, sz: nat, trapframe: nat)
      ensures this.vm == vm && this.tramp == tramp
      ensures this.pagetable == pagetable && this.sz == sz && this.trapframe == trapframe
    {
      this.vm, this.tramp, this.pagetable, this.sz, this.trapframe := vm, tramp, pagetable, sz, trapframe;
    }

    ghost predicate Valid()
      reads this, vm
    {
      && MemOk(vm.ram, vm.State()) && IsPageAddr(tramp) && IsPageAddr(trapframe)
      && Space(vm.State(), pagetable, Pages(sz), tramp, trapframe)
    }

    /** The trapframe is a page of the kernel's own. */
    ghost predicate OwnsFrame()
      reads this, vm
    {
      IsKernel(vm.State(), trapframe)
    }

    /** allocproc's memory: a trapframe page and an address space without user pages, or neither. */
    method AllocProc() returns (ok: bool, tf: nat, root: nat, ghost junk: seq<Byte>)
      requires MemOk(vm.ram, vm.State()) && IsPageAddr(tramp)
      modifies vm
      ensures MemOk(vm.ram, vm.State())
      ensures !ok ==> Unchanged(old(vm.State()), vm.State())
      ensures |old(vm.free)| <= if ok then |vm.free| + 6 else 5
      ensures ok ==> old(vm.free) != [] && tf == old(vm.free)[0] && |junk| == PGSIZE && IsPageAddr(tf)
      ensures ok ==> tf in vm.holder && vm.holder[tf] == Kernel && root !in old(vm.tables)
      ensures ok ==> Space(vm.State(), root, 0, tramp, tf) && Only(Taken(old(vm.State()), junk), vm.State(), root)
    {
      hide Core, Held, Unchanged, Only, Space;
      ghost var m := vm.State();
      UnchangedNothing(m);
      tf := vm.Kalloc();
      root, junk := 0, [];
      if tf == 0 {
        ok := false;
        return;
      }
      junk := vm.data[tf];
      FullPage(vm.ram, vm.State(), tf);
      TakenMemOk(vm.ram, m, junk);
      root := vm.ProcPagetable(tramp, tf);
      if root == 0 {
        TakenGiven(vm.ram, m, junk, vm.State());
        FreedKernel(vm.ram, vm.State(), tf);
        CorePartition(vm.ram, vm.State());
        vm.Kfree(tf);
        ok := false;
        return;
      }
      KernelKept(vm.ram, Taken(m, junk), vm.State(), root, tf);
      ok := true;
    }

    /**
     Copy this process's memory into a new process. If memory runs out, everything is as it was;
     otherwise everything is still there, and the child has its own copy of every page.
     */
    method Fork() returns (np: Proc?)
      requires Valid() && OwnsFrame()
      modifies vm
      ensures Valid()
      ensures np == null ==> Unchanged(old(vm.State()), vm.State()) && |old(vm.free)| < 3 * Pages(sz) + 6
      ensures np != null ==> fresh(np) && np.vm == vm && np.tramp == tramp && np.sz == sz
      ensures OwnsFrame() && (np != null ==> np.Valid() && np.OwnsFrame())
      ensures np != null ==> Kept(old(vm.State()), vm.State())
      ensures np != null ==> np.pagetable !in old(vm.tables) && np.trapframe !in old(vm.data)
      ensures np != null ==> Copied(old(vm.State()), vm.State(), pagetable, np.pagetable, Pages(sz))
      ensures np != null ==>
                && trapframe in old(vm.data) && np.trapframe in vm.data
                && |old(vm.data)[trapframe]| == |vm.data[np.trapframe]| == PGSIZE
                && (forall b :: 112 <= b < 120 ==> vm.data[np.trapframe][b] == 0)
                && (forall b :: 0 <= b < PGSIZE && !(112 <= b < 120) ==>
                      vm.data[np.trapframe][b] == old(vm.data)[trapframe][b])
    {
      hide MemOk, Unchanged, Only, Space, Kept, Copied, Sized, Grew, Restored, Gone, IsPageAddr, ChildFrame;
      ghost var m := vm.State();
      ghost var junk;
      var ok, tf, root;
      ok, tf, root, junk := AllocProc();
      ghost var u := vm.State();
      if !ok {
        SpaceUnchanged(m, u, pagetable, Pages(sz), tramp, trapframe);
        return null;
      }
      NewChild(vm.ram, m, junk, u, root, pagetable, Pages(sz), tramp, trapframe);
      SpaceSized(u, root, 0, tramp, tf);
      var copied := vm.Uvmcopy(pagetable, root, sz);
      ghost var w := vm.State();
      if !copied {
        SpaceRestored(vm.ram, u, w, root, 0, tramp, tf);
        OnlyTwice(Taken(m, junk), u, w, root);
        RestoredHolder(vm.ram, u, w, root);
        FreedKernel(vm.ram, w, tf);
        MemParts(vm.ram, w);
        CorePartition(vm.ram, w);
        vm.Kfree(tf);
        SpaceGiven(vm.ram, w, tf, root, 0, tramp);
        vm.ProcFreepagetable(root, 0, tramp, tf);
        ForkUndone(vm.ram, m, junk, w, vm.State(), root);
        GoneOk(vm.ram, Given(w, tf), vm.State(), root);
        SpaceUnchanged(m, vm.State(), pagetable, Pages(sz), tramp, trapframe);
        return null;
      }
      FreshFrame(vm.ram, m);
      ForkDone(vm.ram, m, u, w, pagetable, root, Pages(sz), tramp, trapframe, tf);
      ChildFrameBytes(vm.data[trapframe]);
      vm.data := vm.data[tf := ChildFrame(vm.data[trapframe])];
      np := new Proc(vm, tramp, root, sz, tf);
    }

    /** Read a segment into pages that are mapped already: as much of it as the file holds. */
    method Loadseg(root: nat, va: nat, file: seq<Byte>, filesz: nat, ghost size: nat)
      returns (ok: bool, ghost k: nat)
      requires MemOk(vm.ram, vm.State()) && Sized(vm.State(), root, size) && AllUser(vm.State(), root, size)
      requires va % PGSIZE == 0 && va + filesz <= size * PGSIZE
      modifies vm
      ensures k <= |file| && Wrote(old(vm.State()), vm.State(), root, va, file[..k])
      ensures ok <==> filesz <= |file|
      ensures ok ==> k == filesz
    {
      hide MemOk, Wrote, Access, PteAddr, Leaf, IsUser;
      ghost var m := vm.State();
      WroteNothing(m, root, va);
      k := 0;
      var i := 0;
      while i < filesz
        invariant i == k <= filesz && k <= |file| && (i < filesz ==> i % PGSIZE == 0)
        invariant MemOk(vm.ram, vm.State()) && Sized(vm.State(), root, size) && AllUser(vm.State(), root, size)
        invariant Wrote(m, vm.State(), root, va, file[..k])
        decreases filesz - i
      {
        ghost var u := vm.State();
        UserAccess(u, root, size, va + i);
        var pa := vm.Walkaddr(root, va + i);
        assert pa != 0;
        var n := if filesz - i < PGSIZE then filesz - i else PGSIZE;
        var got := if |file| - i < n then |file| - i else n;
        assert (va + i) % PGSIZE == 0;
        WrotePage(vm.ram, u, root, va + i, file[i..i + got]);
        vm.data := vm.data[pa := file[i..i + got] + vm.data[pa][got..]];
        LoadedPage(vm.ram, m, u, vm.State(), root, va, file, i, got, size, pa);
        i := i + got;
        k := i;
        if got != n {
          return false, k;
        }
      }
      ok := true;
    }

    /** exec's loop over the program headers: the size reached, and whether every segment was loaded. */
    method LoadProgram(root: nat, phdrs: seq<Phdr>, ghost m: Mem) returns (ok: bool, size: nat)
      requires Building(vm.ram, m, vm.State(), root, Pages(0), tramp, trapframe)
      requires forall i :: 0 <= i < |phdrs| && phdrs[i].Load? ==> phdrs[i].vaddr < UINT64 && phdrs[i].memsz < UINT64
      modifies vm
      ensures Building(vm.ram, m, vm.State(), root, Pages(size), tramp, trapframe)
      ensures ok ==> AllUser(vm.State(), root, Pages(size)) && Shows(vm.State(), root, Pages(size), phdrs)
      ensures ok ==> Permitted(vm.State(), root, phdrs)
      ensures ok ==> Accepted(phdrs) && size == Size(phdrs) && |old(vm.free)| <= |vm.free| + 3 * Pages(size)
      ensures !ok ==> !Accepted(phdrs) || |old(vm.free)| < 3 * Pages(Size(phdrs))
    {
      hide Building, AllUser, Shows, Size, SegmentIn, Pages, Accepted, AcceptedTo, HeaderIn, Permitted, Moded, Leaf;
      NoUserPages(vm.State(), root);
      ShowsNothing(vm.State(), root);
      PermittedNothing(vm.State(), root);
      NoneAccepted(phdrs);
      size := 0;
      var i := 0;
      while i < |phdrs|
        invariant 0 <= i <= |phdrs|
        invariant Building(vm.ram, m, vm.State(), root, Pages(size), tramp, trapframe)
        invariant AllUser(vm.State(), root, Pages(size)) && Shows(vm.State(), root, Pages(size), phdrs[..i])
        invariant Permitted(vm.State(), root, phdrs[..i])
        invariant size == Size(phdrs[..i]) && AcceptedTo(phdrs, i) && |old(vm.free)| <= |vm.free| + 3 * Pages(size)
      {
        ghost var u, lo := vm.State(), Pages(size);
        SizeNext(phdrs, i);
        AcceptedNext(phdrs, i);
        assert phdrs[..i + 1] == phdrs[..i] + [phdrs[i]];
        match phdrs[i] {
          case Unreadable =>
            return false, size;
          case NotLoaded =>
            ShowsSkip(u, root, lo, phdrs[..i]);
            PermittedMore(u, u, root, phdrs, i);
          case Load(vaddr, memsz, filesz, flags, file) =>
            if memsz < filesz || (vaddr + memsz) % UINT64 < vaddr || vaddr % PGSIZE != 0 {
              return false, size;
            }
            var loaded;
            loaded, size := LoadSegment(root, vaddr, memsz, filesz, flags, file, size, m);
            if !loaded {
              PagesGrow(Size(phdrs[..i + 1]), Size(phdrs));
              return false, size;
            }
            ShowsMore(u, vm.State(), root, lo, Pages(size), phdrs[..i], phdrs[i]);
            PermittedMore(u, vm.State(), root, phdrs, i);
        }
        i := i + 1;
      }
      AllAccepted(phdrs);
      ok := true;
    }

    /** Make room for one segment and read it in. */
    method LoadSegment(root: nat, vaddr: nat, memsz: nat, filesz: nat, flags: nat, file: seq<Byte>, sz0: nat,
            ghost m: Mem)
      returns (ok: bool, size: nat)
      requires Building(vm.ram, m, vm.State(), root, Pages(sz0), tramp, trapframe)
      requires AllUser(vm.State(), root, Pages(sz0))
      requires filesz <= memsz && vaddr + memsz < UINT64 && vaddr % PGSIZE == 0
      modifies vm
      ensures ok ==> filesz <= |file|
      ensures ok ==> SegmentIn(old(vm.State()), vm.State(), root, Pages(sz0), Pages(size), vaddr, file[..filesz])
      ensures Building(vm.ram, m, vm.State(), root, Pages(size), tramp, trapframe)
      ensures ok ==> AllUser(vm.State(), root, Pages(size)) && Moded(vm.State(), root, Pages(sz0), Pages(size), flags)
      ensures ok ==> LeavesBelow(old(vm.State()), vm.State(), root, Pages(sz0))
      ensures ok ==> HeaderIn(Load(vaddr, memsz, filesz, flags, file), Pages(size))
      ensures ok ==> size == (if vaddr + memsz > sz0 then vaddr + memsz else sz0)
      ensures ok ==> 0 < size && Pages(sz0) <= Pages(size)
      ensures ok ==> |old(vm.free)| <= |vm.free| + 3 * (Pages(size) - Pages(sz0))
      ensures !ok ==>
                || filesz > |file| || vaddr + memsz == 0 == sz0
                || (vaddr + memsz >= sz0 && |old(vm.free)| < 3 * (Pages(vaddr + memsz) - Pages(sz0)))
    {
      hide SegmentIn, Building, AllUser, MemOk, Sized, Grew, Restored, Only, FreshPages, Wrote, Pages, Space, Leaf,
        SegmentMode;
      ghost var u := vm.State();
      BuildingFacts(vm.ram, m, u, root, Pages(sz0), tramp, trapframe);
      var sz1 := vm.Uvmalloc(root, sz0, vaddr + memsz, Flags2Perm(flags));
      ghost var w := vm.State();
      if sz1 == 0 {
        AfterUvmalloc(vm.ram, m, u, w, root, sz0, vaddr + memsz, tramp, trapframe);
        return false, sz0;
      }
      if vaddr + memsz >= sz0 {
        BuildingGrew(vm.ram, m, u, w, root, Pages(sz0), Pages(sz1), tramp, trapframe);
        GrownUser(vm.ram, u, w, root, sz0, sz1, Flags2Perm(flags));
        BuildingFacts(vm.ram, m, w, root, Pages(sz1), tramp, trapframe);
        SizedBound(vm.ram, w, root, Pages(sz1));
        SegmentModes(vm.ram, u, w, root, Pages(sz0), Pages(sz1), flags);
        SegmentGrew(vm.ram, u, w, root, sz0, sz1, Flags2Perm(flags));
      } else {
        SegmentFits(u, root, Pages(sz0));
      }
      BuildingFacts(vm.ram, m, w, root, Pages(sz1), tramp, trapframe);
      PagesCover(sz1);
      ghost var k;
      ok, k := Loadseg(root, vaddr, file, filesz, Pages(sz1));
      BuildingWrote(vm.ram, m, w, vm.State(), root, Pages(sz1), tramp, trapframe, vaddr, file[..k]);
      WroteTables(w, vm.State(), root, vaddr, file[..k]);
      SizedBound(vm.ram, w, root, Pages(sz1));
      FilledBytes(u, w, vm.State(), root, Pages(sz0), Pages(sz1), vaddr, file[..k]);
      size := sz1;
    }

    /**
     exec's argument strings and the array of pointers to them, pushed on the new stack. With exactly
     MAXARG strings the null pointer that ends the array would be stored behind ustack: `overruns`
     says so, and what comes after it is not modelled.
     */
    method PushArgs(root: nat, top: nat, stackbase: nat, args: seq<seq<Byte>>, ghost m: Mem, ghost size: nat)
      returns (ok: bool, overruns: bool, sp: nat, ghost ptrs: seq<nat>)
      requires Building(vm.ram, m, vm.State(), root, size, tramp, trapframe) && top < UINT64
      modifies vm
      ensures Building(vm.ram, m, vm.State(), root, size, tramp, trapframe)
      ensures ok ==> |args| < MAXARG && stackbase <= sp && sp % 16 == 0
      ensures vm.tables == old(vm.tables) && SameBelow(old(vm.State()), vm.State(), root, stackbase)
      ensures ok ==> Stacked(vm.State(), root, sp, ptrs, args)
      ensures overruns ==> !ok && |args| == MAXARG
      ensures top % 16 == 0 && Roomy(old(vm.State()), root, stackbase, top) && |args| == MAXARG ==>
                (overruns <==> Depth(args) <= top - stackbase)
      ensures ok && top % 16 == 0 ==> sp == top - ArgRoom(args)
      ensures !ok && top % 16 == 0 && Roomy(old(vm.State()), root, stackbase, top) && |args| < MAXARG ==>
                ArgRoom(args) > top - stackbase
    {
      hide Building, Wrote, MemOk, Only, Strings, ReadsAs, SameBelow, Word64, Words, Depth, Up16, Roomy;
      assert args[..0] == [];
      DepthGrows(args, 0);
      NoDepth();
      ptrs, overruns := [], false;
      SameBelowNothing(vm.State(), root, stackbase);
      NoStrings(vm.State(), root, top, args);
      sp := top;
      var ustack: seq<Byte> := [];
      var argc := 0;
      while argc < |args|
        invariant 0 <= argc <= |args| && argc <= MAXARG && sp < UINT64
        invariant Building(vm.ram, m, vm.State(), root, size, tramp, trapframe) && vm.tables == old(vm.tables)
        invariant SameBelow(old(vm.State()), vm.State(), root, stackbase)
        invariant top % 16 == 0 ==> sp == top - Depth(args[..argc])
        invariant Roomy(old(vm.State()), root, stackbase, top) ==> Roomy(vm.State(), root, stackbase, sp)
        invariant |ptrs| == argc && Strings(vm.State(), root, sp, ptrs, args) && ustack == Words(ptrs)
      {
        if argc >= MAXARG {
          return false, false, sp, ptrs;
        }
        ghost var u, was := vm.State(), sp;
        DepthNext(args, argc);
        DepthGrows(args, argc + 1);
        if top % 16 == 0 {
          PushedTo(top, Depth(args[..argc]), |args[argc]| + 1);
        }
        var pushed;
        pushed, sp := Push(root, sp, stackbase, args[argc] + [0], m, size);
        SameBelowTwice(old(vm.State()), u, vm.State(), root, stackbase);
        if !pushed {
          return false, false, sp, ptrs;
        }
        BuildingFacts(vm.ram, m, u, root, size, tramp, trapframe);
        StringsMore(vm.ram, u, vm.State(), root, was, ptrs, args, sp);
        if Roomy(u, root, stackbase, was) {
          RoomBelow(u, vm.State(), root, stackbase, was, sp);
        }
        ustack := ustack + Word64(sp);
        ptrs := ptrs + [sp];
        argc := argc + 1;
      }
      assert args[..argc] == args;
      if argc == MAXARG {
        AboveBase(vm.State(), root, stackbase, sp);
        return false, true, sp, ptrs;
      }
      ghost var u, was := vm.State(), sp;
      WordsSize(ptrs);
      if top % 16 == 0 {
        PushedTo(top, Depth(args), 8 * (|args| + 1));
      }
      ok, sp := Push(root, sp, stackbase, ustack + Word64(0), m, size);
      SameBelowTwice(old(vm.State()), u, vm.State(), root, stackbase);
      if ok {
        BuildingFacts(vm.ram, m, u, root, size, tramp, trapframe);
        StringsKept(vm.ram, u, vm.State(), root, was, ptrs, args, sp, ustack + Word64(0));
      }
    }

    /** One copyout below the stack pointer, kept 16-byte aligned; arithmetic is modulo 2^64. */
    method Push(root: nat, sp: nat, stackbase: nat, bytes: seq<Byte>, ghost m: Mem, ghost size: nat)
      returns (ok: bool, to: nat)
      requires Building(vm.ram, m, vm.State(), root, size, tramp, trapframe) && sp < UINT64 && bytes != []
      modifies vm
      ensures Building(vm.ram, m, vm.State(), root, size, tramp, trapframe)
      ensures vm.tables == old(vm.tables)
      ensures to < UINT64 && (ok ==> stackbase <= to && to % 16 == 0)
      ensures ok ==> Wrote(old(vm.State()), vm.State(), root, to, bytes) && ReadsAs(vm.State(), root, to, bytes)
      ensures ok ==> to + |bytes| <= sp && to == sp - |bytes| - (sp - |bytes|) % 16
      ensures !ok && Roomy(old(vm.State()), root, stackbase, sp) ==> sp - |bytes| - (sp - |bytes|) % 16 < stackbase
      ensures SameBelow(old(vm.State()), vm.State(), root, stackbase)
    {
      hide Building, Wrote, MemOk, Only, SameBelow, ReadsAs, Roomy, Access;
      ghost var u := vm.State();
      BuildingFacts(vm.ram, m, u, root, size, tramp, trapframe);
      to := (sp - |bytes|) % UINT64;
      to := to - to % 16;
      SameBelowNothing(u, root, stackbase);
      Wrapped(sp, |bytes|);
      if to < stackbase {
        return false, to;
      }
      ghost var k;
      ok, k := vm.Copyout(root, to, bytes);
      BuildingWrote(vm.ram, m, u, vm.State(), root, size, tramp, trapframe, to, bytes[..k]);
      WroteTables(u, vm.State(), root, to, bytes[..k]);
      WroteAbove(u, vm.State(), root, to, bytes[..k], stackbase);
      if ok {
        assert bytes[..k] == bytes;
        ReadsWritten(vm.ram, u, vm.State(), root, to, bytes);
        NoWrap(u, root, sp, to, |bytes|);
      } else {
        OutOfRoom(u, root, stackbase, sp, to, |bytes|, k);
      }
    }

    /**
     Replace the process's memory image. On failure the process and all of memory are as they
     were; on success `built` is memory with the new address space beside everything there was,
     and memory ends as `built` with the old address space gone.
     */
    method Exec(readable: bool, phdrs: seq<Phdr>, args: seq<seq<Byte>>)
      returns (ret: int, overruns: bool, sp: nat, ghost ptrs: seq<nat>, ghost built: Mem)
      requires Valid()
      requires forall i :: 0 <= i < |phdrs| && phdrs[i].Load? ==> phdrs[i].vaddr < UINT64 && phdrs[i].memsz < UINT64
      modifies this`pagetable, this`sz, vm
      ensures Valid()
      ensures old(OwnsFrame()) ==> OwnsFrame()
      ensures ret == -1 || 0 <= ret == |args| < MAXARG
      ensures ret == -1 && !overruns ==>
                pagetable == old(pagetable) && sz == old(sz) && Unchanged(old(vm.State()), vm.State())
      ensures overruns ==> ret == -1 && readable && Overruns(phdrs, args)
      ensures readable && Overruns(phdrs, args) && |old(vm.free)| >= 3 * Pages(Size(phdrs)) + 11 ==> overruns
      ensures ret != -1 ==>
                && pagetable !in old(vm.tables) && Only(old(vm.State()), built, pagetable)
                && Gone(vm.ram, built, vm.State(), old(pagetable))
                && Imaged(vm.State(), pagetable, sz, phdrs, args, sp, ptrs)
                && sz == ImageSize(phdrs) && sp == sz - ArgRoom(args)
      ensures ret != -1 ==> readable && Runnable(phdrs, args)
      ensures readable && Runnable(phdrs, args) && |old(vm.free)| >= 3 * Pages(Size(phdrs)) + 11 ==> ret != -1
    {
      hide Building, MemOk, Only, Space, Gone, Unchanged, IsPageAddr, Leaf, IsUser, Imaged, SameSpace, Runnable,
        Overruns, Accepted, Size, ArgRoom;
      overruns, sp, ptrs := false, 0, [];
      ghost var m := vm.State();
      built := m;
      UnchangedNothing(m);
      if !readable {
        return -1, overruns, 0, [], m;
      }
      var root := vm.ProcPagetable(tramp, trapframe);
      if root == 0 {
        SpaceUnchanged(m, vm.State(), pagetable, Pages(sz), tramp, trapframe);
        return -1, overruns, 0, [], m;
      }
      assert Pages(0) == 0;
      BuildingStarts(vm.ram, m, vm.State(), root, tramp, trapframe);
      var ok, size;
      ok, overruns, size, sp, ptrs := BuildImage(root, phdrs, args, m);
      ghost var w := vm.State();
      BuildingFacts(vm.ram, m, w, root, Pages(size), tramp, trapframe);
      if !ok {
        vm.ProcFreepagetable(root, size, tramp, trapframe);
        BuildingUndone(vm.ram, m, w, vm.State(), root, Pages(size), tramp, trapframe);
        SpaceUnchanged(m, vm.State(), pagetable, Pages(sz), tramp, trapframe);
        return -1, overruns, 0, [], m;
      }
      var oldpagetable, oldsz := pagetable, sz;
      pagetable := root;
      sz := size;
      if IsKernel(m, trapframe) {
        BuildingKernel(vm.ram, m, w, root, Pages(size), tramp, trapframe);
      }
      Replacing(vm.ram, m, w, root, oldpagetable, Pages(size), Pages(oldsz), tramp, trapframe);
      vm.ProcFreepagetable(oldpagetable, oldsz, tramp, trapframe);
      Replaced(vm.ram, w, vm.State(), root, oldpagetable, Pages(size), tramp, trapframe);
      if IsKernel(w, trapframe) {
        KernelStays(vm.ram, w, vm.State(), oldpagetable, trapframe);
      }
      GoneSame(vm.ram, w, vm.State(), root, oldpagetable);
      ImagedSame(vm.ram, w, vm.State(), root, size, phdrs, args, sp, ptrs);
      ret, built := |args|, w;
    }

    /** The part of exec that builds the new image: segments, stack with its guard page, arguments. */
    method BuildImage(root: nat, phdrs: seq<Phdr>, args: seq<seq<Byte>>, ghost m: Mem)
      returns (ok: bool, overruns: bool, size: nat, sp: nat, ghost ptrs: seq<nat>)
      requires Building(vm.ram, m, vm.State(), root, Pages(0), tramp, trapframe)
      requires forall i :: 0 <= i < |phdrs| && phdrs[i].Load? ==> phdrs[i].vaddr < UINT64 && phdrs[i].memsz < UINT64
      modifies vm
      ensures Building(vm.ram, m, vm.State(), root, Pages(size), tramp, trapframe)
      ensures overruns ==> !ok && Overruns(phdrs, args)
      ensures ok ==> |args| < MAXARG && Imaged(vm.State(), root, size, phdrs, args, sp, ptrs)
      ensures ok ==> Runnable(phdrs, args) && size == ImageSize(phdrs) && sp == size - ArgRoom(args)
      ensures !ok ==> !Runnable(phdrs, args) || |old(vm.free)| < 3 * Pages(Size(phdrs)) + 6
      ensures Overruns(phdrs, args) && |old(vm.free)| >= 3 * Pages(Size(phdrs)) + 6 ==> overruns
    {
      hide Building, MemOk, Only, Space, Leaf, IsUser, Grew, Restored, FreshPages, Sized, AllUser, LeafChange, Shows,
        Stacked, SameBelow, Size, Accepted, Depth, Up16, Roomy, ArgRoom, Permitted, SegmentMode;
      overruns, sp, ptrs := false, 0, [];
      ok, size := LoadProgram(root, phdrs, m);
      if !ok {
        return;
      }
      ghost var u := vm.State();
      SameRoundedSize(size);
      size := RoundUp(size);
      BuildingFacts(vm.ram, m, u, root, Pages(size), tramp, trapframe);
      SizeBelow(vm.ram, u, root, size);
      var sz1 := vm.Uvmalloc(root, size, size + (USERSTACK + 1) * PGSIZE, PTE_W);
      ghost var w := vm.State();
      if sz1 == 0 {
        BuildingRestored(vm.ram, m, u, w, root, Pages(size), tramp, trapframe);
        return false, false, size, 0, [];
      }
      BuildingGrew(vm.ram, m, u, w, root, Pages(size), Pages(sz1), tramp, trapframe);
      StackFlags(w, root, size, sz1);
      vm.Uvmclear(root, sz1 / PGSIZE - 2, Pages(sz1));
      ghost var x := vm.State();
      GuardBuilt(vm.ram, m, w, x, root, sz1 / PGSIZE - 2, Pages(sz1), tramp, trapframe);
      BuildingFacts(vm.ram, m, x, root, Pages(sz1), tramp, trapframe);
      StackBuilt(vm.ram, u, w, x, root, size, sz1, phdrs);
      StackRoomy(w, x, root, size, sz1);
      StackModes(vm.ram, u, w, x, root, size, sz1);
      ok, overruns, sp, ptrs := PushArgs(root, sz1, sz1 - USERSTACK * PGSIZE, args, m, Pages(sz1));
      PermittedSame(u, vm.State(), root, phdrs);
      ShowsBelow(x, vm.State(), root, sz1 / PGSIZE - 2, sz1 - USERSTACK * PGSIZE, phdrs);
      size := sz1;
    }

    /**
     Grow or shrink user memory by n bytes. A failed request to grow changes no mapping and no
     data; shrinking below nothing is ignored.
     */
    method Growproc(n: int) returns (ok: bool)
      requires Valid() && -0x8000_0000 <= n < 0x8000_0000
      modifies this`sz, vm
      ensures Valid() && Only(old(vm.State()), vm.State(), pagetable) && (old(OwnsFrame()) ==> OwnsFrame())
      ensures !ok ==> n > 0 && sz == old(sz) && Restored(vm.ram, old(vm.State()), vm.State(), pagetable)
      ensures !ok ==> |vm.free| <= Pages(sz + n) - Pages(sz) && |old(vm.free)| < 3 * (Pages(sz + n) - Pages(sz))
      ensures ok ==> sz == Common.GrownTo(old(sz), n)
      ensures ok && n > 0 ==>
                && Grew(vm.ram, old(vm.State()), vm.State(), pagetable, Pages(old(sz)), Pages(sz))
                && FreshPages(vm.State(), pagetable, Pages(old(sz)), Pages(sz), PTE_V + PTE_R + PTE_U + PTE_W)
      ensures n < 0 <= old(sz) + n ==>
                Unmapped(vm.ram, old(vm.State()), vm.State(), pagetable, Pages(sz), Pages(old(sz)), true)
      ensures n <= 0 && sz == old(sz) ==> vm.State() == old(vm.State())
    {
      hide MemOk, Sized, Grew, Restored, Only, FreshPages, Unmapped, Leaf, Pte, Pages, IsPageAddr;
      ghost var m := vm.State();
      MemParts(vm.ram, m);
      OnlyNothing(vm.ram, m, pagetable);
      var size := sz;
      if n > 0 {
        size := vm.Uvmalloc(pagetable, sz, sz + n, PTE_W);
        if size == 0 {
          SpaceRestored(vm.ram, m, vm.State(), pagetable, Pages(sz), tramp, trapframe);
          RestoredHolder(vm.ram, m, vm.State(), pagetable);
          return false;
        }
        SpaceGrew(vm.ram, m, vm.State(), pagetable, Pages(sz), Pages(sz + n), tramp, trapframe);
      } else if n < 0 {
        var newsz := (sz + n) % UINT64;
        SizeBelow(vm.ram, m, pagetable, sz);
        size := vm.Uvmdealloc(pagetable, sz, newsz);
        if newsz < sz {
          SpaceShrunk(vm.ram, m, vm.State(), pagetable, Pages(newsz), Pages(sz), tramp, trapframe);
        }
      }
      if IsKernel(m, trapframe) {
        KernelKept(vm.ram, m, vm.State(), pagetable, trapframe);
      }
      sz := size;
      ok := true;
    }
  }

  lemma SizeBelow(ram: set<nat>, m: Mem, r: nat, sz: nat)
    requires MemOk(ram, m) && Sized(m, r, Pages(sz))
    ensures sz <= NPAGES * PGSIZE
  {
    SizedBound(ram, m, r, Pages(sz));
  }
}
