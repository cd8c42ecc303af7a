/**
 The page allocator and the page tables (kernel/kalloc.c, kernel/vm.c).

 The source's panics are preconditions here, so each caller proves that it cannot panic.
 */
module Vm {
  import opened Bytes
  import opened Sv39
  import opened VmModel

  class Vm {
    ghost const ram: set<nat>
    var free: seq<nat>
    var tables: Tables
    var data: map<nat, seq<Byte>>
    ghost var place: map<nat, Place>
    ghost var holder: map<nat, Holder>

    /** kinit: every page of RAM from the end of the kernel on is free. */
    constructor Kinit(end: nat)
      requires KERNBASE <= end
      ensures MemOk(ram, State()) && ram == RamPages(end)
      ensures tables == map[] && data == map[]
    {
      ram := RamPages(end);
      free, tables, data, place, holder := [], map[], map[], map[], map[];
      new;
      var p := RoundUp(end);
      while p + PGSIZE <= PHYSTOP
        invariant Freeing(free, end, p) && (p <= PHYSTOP || free == [])
        invariant State() == Mem(free, map[], map[], map[], map[])
      {
        FreeingMore(free, end, p);
        free := [p] + free;
        p := p + PGSIZE;
      }
      BootOk(free, end, p);
    }

    ghost function State(): Mem
      reads this
    {
      Mem(free, tables, data, place, holder)
    }

    // ------------------------------------------------------------------- page allocator

    method Memset(b: Byte) returns (page: seq<Byte>)
      ensures |page| == PGSIZE && forall i :: 0 <= i < PGSIZE ==> page[i] == b
    {
      page := [];
      while |page| < PGSIZE
        invariant |page| <= PGSIZE && forall i :: 0 <= i < |page| ==> page[i] == b
      {
        page := page + [b];
      }
    }

    /** A page for the kernel, or 0 if none is free. */
    method Kalloc() returns (pa: nat)
      requires Core(ram, State())
      modifies this`free, this`data, this`holder
      ensures old(free) == [] ==> pa == 0 && State() == old(State())
      ensures old(free) != [] ==>
                pa == old(free)[0] && pa in data && IsPageAddr(pa) && State() == Taken(old(State()), data[pa])
      ensures Core(ram, State())
    {
      if free == [] {
        return 0;
      }
      var junk := Memset(5);
      FreeFacts(ram, State());
      TakenPartition(ram, State(), junk);
      pa := free[0];
      free := free[1..];
      data := data[pa := junk];
      holder := holder[pa := Kernel];
    }

    method Kfree(pa: nat)
      requires Partition(ram, State()) && (pa in data || pa in tables)
      modifies this
      ensures State() == Given(old(State()), pa) && Partition(ram, State())
    {
      GivenPartition(ram, State(), pa);
      free := [pa] + free;
      tables := tables - {pa};
      data := data - {pa};
      place := place - {pa};
      holder := holder - {pa};
    }

    // -------------------------------------------------------------------------- tables

    method ZeroTable() returns (page: seq<nat>)
      ensures AllZero(page)
    {
      page := [];
      while |page| < NPTE
        invariant |page| <= NPTE && forall i :: 0 <= i < |page| ==> page[i] == 0
      {
        page := page + [0];
      }
    }

    /** One level of walk: the table that entry i of table t leads to, made if need be. */
    method WalkStep(t: nat, i: nat, alloc: bool, ghost root: nat) returns (c: nat)
      requires Core(ram, State()) && IsRoot(place, root) && t in tables && InTree(place, t, root)
      requires place[t].level > 0 && i < NPTE
      modifies this
      ensures Walked(ram, old(State()), State(), root)
      ensures c == Down(tables, t, i)
      ensures !alloc ==> State() == old(State())
      ensures c == 0 ==> State() == old(State()) && (alloc ==> free == [])
      ensures |old(free)| <= |free| + 1
    {
      hide Walked, Partition, Below;
      TreesFacts(tables, place);
      WalkedNothing(ram, State(), root);
      DownPlace(tables, place, t, i);
      var pte := tables[t][i];
      if IsValid(pte) {
        return PteAddr(pte);
      }
      if !alloc {
        return 0;
      }
      ghost var m := State();
      c := Kalloc();
      if c == 0 {
        return;
      }
      FreeFacts(ram, m);
      var page := ZeroTable();
      HungWalked(ram, m, t, i, page, root);
      TakenBack(m, data[c]);
      data := data - {c};
      holder := holder - {c};
      var entries: seq<nat> := tables[t][i := Pte(c, PTE_V)];
      tables := tables[t := entries][c := page];
      place := place[c := Place(place[t].level - 1, t, i)];
    }

    /** The bottom table of a page's path, made if need be; 0 if it is missing or memory has run out. */
    method Walk(root: nat, vpn: nat, alloc: bool) returns (t: nat)
      requires Core(ram, State()) && IsRoot(place, root) && vpn < MAXVPN
      modifies this
      ensures Walked(ram, old(State()), State(), root)
      ensures t == Low(tables, root, vpn)
      ensures !alloc ==> State() == old(State())
      ensures |old(free)| <= |free| + 2
      ensures t == 0 && alloc ==> free == [] && |old(free)| <= 1
    {
      hide Walked, Core, Low, Mid, Below;
      ghost var m := State();
      WalkedNothing(ram, m, root);
      RootFacts(ram, m, root);
      t := root;
      var level := 2;
      while level > 0
        invariant 0 <= level <= 2 && t == Node(tables, root, vpn, level) != 0
        invariant Core(ram, State()) && IsRoot(place, root) && Walked(ram, m, State(), root)
        invariant !alloc ==> State() == m
        invariant |m.free| <= |free| + (2 - level)
      {
        ghost var u := State();
        NodePlace(ram, u, root, vpn, level);
        t := WalkStep(t, Index(level, vpn), alloc, root);
        WalkedNode(ram, u, State(), root, vpn, level);
        WalkedCore(ram, u, State(), root);
        NodePlace(ram, State(), root, vpn, level);
        WalkedTwice(ram, m, u, State(), root);
        if t == 0 {
          NoWay(ram, State(), root, vpn, level);
          return;
        }
        level := level - 1;
      }
    }

    /**
     Map n pages from vpn to the physical pages from pa. On failure memory has run out and only
     the first k pages are mapped; either way nothing else changes.
     */
    method Mappages(root: nat, vpn: nat, n: nat, pa: nat, perm: nat) returns (ok: bool, ghost k: nat)
      requires Core(ram, State()) && IsRoot(place, root) && n > 0 && vpn + n <= MAXVPN
      requires pa % PGSIZE == 0 && perm < 1024
      requires forall v: nat :: vpn <= v < vpn + n ==> !IsValid(Leaf(tables, root, v))
      modifies this
      ensures k <= n && (ok <==> k == n) && (!ok ==> free == [])
      ensures |old(free)| <= |free| + 2 * k + (if ok then 0 else 1)
      ensures MappedRun(ram, old(State()), State(), root, vpn, k, pa, WithValid(perm))
    {
      hide MappedRun, Core, Leaf, Low, Pte;
      ghost var m := State();
      MappedNothing(ram, m, root, vpn, pa, WithValid(perm));
      k := 0;
      var a := vpn;
      while true
        invariant a == vpn + k && k < n && |m.free| <= |free| + 2 * k
        invariant MappedRun(ram, m, State(), root, vpn, k, pa, WithValid(perm))
        decreases n - k
      {
        ghost var u := State();
        MappedRunCore(ram, m, u, root, vpn, k, pa, WithValid(perm));
        var t := Walk(root, a, true);
        if t == 0 {
          MappedWalked(ram, m, u, State(), root, vpn, k, pa, WithValid(perm));
          return false, k;
        }
        MappedMore(ram, m, u, State(), root, vpn, k, pa, WithValid(perm));
        LowFacts(ram, State(), root, a);
        StillUnmapped(ram, m, u, State(), root, vpn, k, pa, WithValid(perm));
        assert !IsValid(tables[t][Index(0, a)]);
        var entries: seq<nat> := tables[t][Index(0, a) := Pte(pa + (a - vpn) * PGSIZE, WithValid(perm))];
        tables := tables[t := entries];
        k := k + 1;
        if a == vpn + n - 1 {
          break;
        }
        a := a + 1;
      }
      ok := true;
    }

    /**
     Remove n mappings, all of them leaves, and free the pages they lead to if asked. Freeing
     needs the pages to be the address space's own, as user pages are.
     */
    method Uvmunmap(root: nat, vpn: nat, n: nat, doFree: bool)
      requires Core(ram, State()) && IsRoot(place, root) && vpn + n <= MAXVPN
      requires forall v: nat :: vpn <= v < vpn + n ==>
                 IsValid(Leaf(tables, root, v)) && PteFlags(Leaf(tables, root, v)) != PTE_V
      requires doFree ==> Held(State()) && vpn + n <= TRAPVPN
      modifies this
      ensures Unmapped(ram, old(State()), State(), root, vpn, vpn + n, doFree)
    {
      hide Unmapped, Core, Held, Leaf, Low, PteAddr, PteFlags;
      ghost var m := State();
      UnmappedNothing(ram, m, root, vpn, doFree);
      var a := vpn;
      while a < vpn + n
        invariant vpn <= a <= vpn + n
        invariant Unmapped(ram, m, State(), root, vpn, a, doFree)
      {
        ghost var u := State();
        UnmappedCore(ram, m, u, root, vpn, a, doFree);
        UnmapPage(root, a, doFree);
        UnmappedMore(ram, m, u, State(), root, vpn, a, a + 1, doFree);
        a := a + 1;
      }
    }

    /** One pass of uvmunmap's loop. */
    method UnmapPage(root: nat, a: nat, doFree: bool)
      requires Core(ram, State()) && IsRoot(place, root) && a < MAXVPN
      requires IsValid(Leaf(tables, root, a)) && PteFlags(Leaf(tables, root, a)) != PTE_V
      requires doFree ==> Held(State()) && a < TRAPVPN
      modifies this
      ensures Unmapped(ram, old(State()), State(), root, a, a + 1, doFree)
    {
      hide Unmapped, Core, Held, PteAddr, PteFlags, Low;
      ghost var m := State();
      LeafHasTable(ram, m, root, a);
      var t := Walk(root, a, false);
      assert t != 0;
      LowFacts(ram, m, root, a);
      var pte := tables[t][Index(0, a)];
      assert IsValid(pte) && PteFlags(pte) != PTE_V;
      PageUnmappedOk(ram, m, root, a, doFree);
      if doFree {
        CorePartition(ram, m);
        GivenData(ram, m, PteAddr(pte));
        Kfree(PteAddr(pte));
      }
      var entries: seq<nat> := tables[t][Index(0, a) := 0];
      tables := tables[t := entries];
    }

    // ------------------------------------------------------------------ address spaces

    /** Shrink an address space; never grows it. */
    method Uvmdealloc(root: nat, oldsz: nat, newsz: nat) returns (sz: nat)
      requires MemOk(ram, State()) && Sized(State(), root, Pages(oldsz))
      modifies this
      ensures sz == if newsz < oldsz then newsz else oldsz
      ensures newsz >= oldsz ==> State() == old(State())
      ensures newsz < oldsz ==> Unmapped(ram, old(State()), State(), root, Pages(newsz), Pages(oldsz), true)
      ensures MemOk(ram, State()) && Sized(State(), root, Pages(sz)) && Only(old(State()), State(), root)
    {
      hide Unmapped, Core, Held, Leaf, Sized, Only, PteFlags;
      ghost var m := State();
      OnlyNothing(ram, m, root);
      if newsz >= oldsz {
        return oldsz;
      }
      RangeMapped(ram, m, root, Pages(newsz), Pages(oldsz));
      SizedFacts(m, root, Pages(oldsz));
      UnmappedNothing(ram, m, root, Pages(newsz), true);
      if Pages(newsz) < Pages(oldsz) {
        Uvmunmap(root, Pages(newsz), Pages(oldsz) - Pages(newsz), true);
      }
      SizedShrunk(ram, m, State(), root, Pages(newsz), Pages(oldsz));
      sz := newsz;
    }

    /** kalloc, fill and map page v of an address space, as uvmalloc and uvmcopy do; if that fails, nothing is kept. */
    method AddUserPage(root: nat, v: nat, page: seq<Byte>, perm: nat) returns (ok: bool)
      requires MemOk(ram, State()) && IsRoot(place, root) && v < TRAPVPN && !IsValid(Leaf(tables, root, v))
      requires |page| == PGSIZE && PTE_V < perm < 1024
      modifies this
      ensures MemOk(ram, State())
      ensures ok ==> old(free) != [] && IsPageAddr(old(free)[0])
      ensures ok ==> PageAdded(ram, old(State()), State(), root, v, old(free)[0], page, WithValid(perm))
      ensures !ok ==> Restored(ram, old(State()), State(), root) && |free| <= 1
      ensures |old(free)| <= if ok then |free| + 3 else 2
    {
      hide Core, Held, Leaf, Restored, PageAdded, MappedRun, Pte;
      ghost var m := State();
      RestoredNothing(ram, m, root);
      var mem := Kalloc();
      if mem == 0 {
        return false;
      }
      TakenAgain(m, data[mem], page);
      data := data[mem := page];
      TakenOk(ram, m, page);
      ghost var k;
      ok, k := Mappages(root, v, 1, mem, perm);
      if ok {
        AddPage(ram, m, State(), root, v, page, WithValid(perm));
        holder := holder[mem := User(root, v)];
        PageAddedOk(ram, m, State(), root, v, mem, page, WithValid(perm));
      } else {
        NoPage(ram, m, State(), root, v, page, WithValid(perm));
        MappedRunCore(ram, Taken(m, page), State(), root, v, 0, mem, WithValid(perm));
        CorePartition(ram, State());
        Kfree(mem);
        RestoredOk(ram, m, State(), root);
      }
    }

    /**
     Grow an address space from oldsz to newsz bytes with zeroed pages. If memory runs out the
     pages already added are freed again, and so few pages are left that the request could not
     be met; 0 is also the answer for a request to grow from 0 to 0.
     */
    method Uvmalloc(root: nat, oldsz: nat, newsz: nat, xperm: nat) returns (sz: nat)
      requires MemOk(ram, State()) && Sized(State(), root, Pages(oldsz))
      requires xperm % 4 == 0 && xperm < 16
      modifies this
      ensures MemOk(ram, State()) && Only(old(State()), State(), root)
      ensures newsz < oldsz ==> sz == oldsz && State() == old(State())
      ensures newsz >= oldsz ==> sz == newsz || sz == 0
      ensures newsz >= oldsz && sz == newsz ==>
                && Sized(State(), root, Pages(newsz))
                && Grew(ram, old(State()), State(), root, Pages(oldsz), Pages(newsz))
                && FreshPages(State(), root, Pages(oldsz), Pages(newsz), PTE_V + PTE_R + PTE_U + xperm)
                && |old(free)| <= |free| + 3 * (Pages(newsz) - Pages(oldsz))
      ensures newsz >= oldsz && sz == 0 != newsz ==>
                && Sized(State(), root, Pages(oldsz))
                && Restored(ram, old(State()), State(), root)
                && |free| <= Pages(newsz) - Pages(oldsz) && |old(free)| < 3 * (Pages(newsz) - Pages(oldsz))
    {
      hide Growing, Grew, Restored, Core, Held, Leaf, Sized, Only, FreshPages, Unmapped;
      ghost var m, flags := State(), PTE_V + PTE_R + PTE_U + xperm;
      OnlyNothing(ram, m, root);
      if newsz < oldsz {
        return oldsz;
      }
      var lo := Pages(oldsz);
      var a := lo;
      GrowingStarts(ram, m, root, lo, flags);
      while a * PGSIZE < newsz
        invariant lo <= a <= Pages(newsz) && Growing(ram, m, State(), root, lo, a, flags)
        invariant |m.free| <= |free| + 3 * (a - lo)
        decreases Pages(newsz) - a
      {
        ghost var u := State();
        GrowingFacts(ram, m, u, root, lo, a, flags);
        var page := Memset(0);
        var ok := AddUserPage(root, a, page, PTE_R + PTE_U + xperm);
        if !ok {
          GrowingFails(ram, m, u, State(), root, lo, a, flags);
          u := State();
          var back := Uvmdealloc(root, a * PGSIZE, lo * PGSIZE);
          GrowingUndone(ram, m, u, State(), root, lo, a);
          return 0;
        }
        GrowingMore(ram, m, u, State(), root, lo, a, u.free[0], page, flags);
        a := a + 1;
      }
      GrowingDone(ram, m, State(), root, lo, a, flags);
      sz := newsz;
    }

    /**
     Copy the pages of address space `from` into the empty address space `root`. On failure the
     new address space is empty again, and fewer pages are free than the copy needs.
     */
    method Uvmcopy(from: nat, root: nat, size: nat) returns (ok: bool)
      requires MemOk(ram, State()) && from != root && Sized(State(), from, Pages(size)) && Sized(State(), root, 0)
      modifies this
      ensures MemOk(ram, State()) && Only(old(State()), State(), root)
      ensures ok ==>
                && Sized(State(), root, Pages(size))
                && Grew(ram, old(State()), State(), root, 0, Pages(size))
                && Copied(old(State()), State(), from, root, Pages(size))
                && |old(free)| <= |free| + 3 * Pages(size)
      ensures !ok ==>
                && Sized(State(), root, 0)
                && Restored(ram, old(State()), State(), root)
                && |free| <= Pages(size) && |old(free)| < 3 * Pages(size)
    {
      hide Copying, Grew, Restored, Core, Held, Leaf, Sized, Only, Copied, Unmapped, PteAddr, PteFlags, PageAdded;
      ghost var m := State();
      CopyingStarts(ram, m, from, root);
      var i := 0;
      while i * PGSIZE < size
        invariant 0 <= i <= Pages(size) && Copying(ram, m, State(), from, root, i)
        invariant |m.free| <= |free| + 3 * i
        decreases Pages(size) - i
      {
        ghost var u := State();
        CopyingFacts(ram, m, u, from, root, i, Pages(size));
        var added := CopyPage(from, root, i);
        if !added {
          CopyingFails(ram, m, u, State(), from, root, i);
          u := State();
          RangeMapped(ram, u, root, 0, i);
          SizedFacts(u, root, i);
          Uvmunmap(root, 0, i, true);
          GrowingUndone(ram, m, u, State(), root, 0, i);
          return false;
        }
        CopyingMore(ram, m, u, State(), from, root, i, u.free[0]);
        i := i + 1;
      }
      CopyingDone(ram, m, State(), from, root, i);
      ok := true;
    }

    /** One pass of uvmcopy's loop. */
    method CopyPage(from: nat, root: nat, i: nat) returns (ok: bool)
      requires MemOk(ram, State()) && IsRoot(place, root) && IsRoot(place, from) && i < TRAPVPN
      requires !IsValid(Leaf(tables, root, i))
      requires IsValid(Leaf(tables, from, i)) && PTE_V < PteFlags(Leaf(tables, from, i))
      requires PteAddr(Leaf(tables, from, i)) in data && |data[PteAddr(Leaf(tables, from, i))]| == PGSIZE
      modifies this
      ensures MemOk(ram, State())
      ensures ok ==> old(free) != [] && IsPageAddr(old(free)[0])
      ensures ok ==> var leaf := Leaf(old(tables), from, i);
                     PageAdded(ram, old(State()), State(), root, i, old(free)[0], old(data)[PteAddr(leaf)],
                               WithValid(PteFlags(leaf)))
      ensures !ok ==> Restored(ram, old(State()), State(), root) && |free| <= 1
      ensures |old(free)| <= if ok then |free| + 3 else 2
    {
      hide Core, Held, Restored, PageAdded, Low;
      LeafHasTable(ram, State(), from, i);
      var t := Walk(from, i, false);
      assert t != 0;
      LowFacts(ram, State(), from, i);
      var pte := tables[t][Index(0, i)];
      assert IsValid(pte);
      ok := AddUserPage(root, i, data[PteAddr(pte)], PteFlags(pte));
    }

    // ------------------------------------------------------------- taking tables down

    /**
     Free table t and every table below it. All leaf mappings must be gone, so the panic on a
     leaf is not reached.
     */
    method Freewalk(t: nat)
      requires Core(ram, State()) && t in tables && NoLeaves(tables, place, t)
      modifies this
      ensures Partition(ram, State()) && SameData(old(State()), State())
      ensures Pruned(old(tables), old(place), tables, place, t)
      decreases place[t].level
    {
      hide Partition, Trees, Pruned, Pruning, NoLeaves, Pte, PteAddr;
      ghost var m := State();
      TreesFacts(tables, place);
      PruningStarts(tables, place, t);
      var i := 0;
      while i < NPTE
        invariant 0 <= i <= NPTE && t in tables && |tables[t]| == NPTE
        invariant Partition(ram, State()) && SameData(m, State())
        invariant Pruning(m.tables, m.place, tables, place, t, i)
      {
        PruningFacts(m.tables, m.place, tables, place, t, i);
        var pte := tables[t][i];
        if IsValid(pte) && pte / PTE_R % 8 == 0 {
          EntryDown(m.tables, m.place, tables, place, t, i);
          var child := PteAddr(pte);
          NoLeavesChild(m.tables, m.place, tables, place, t, i, child);
          ghost var u := State();
          Freewalk(child);
          PruningMore(m.tables, m.place, u.tables, u.place, tables, place, t, i, child);
          var entries: seq<nat> := tables[t][i := 0];
          PartitionStore(ram, State(), t, entries);
          tables := tables[t := entries];
        } else {
          if IsValid(pte) {
            EntryDown(m.tables, m.place, tables, place, t, i);
            assert false;
          }
          PruningSkip(m.tables, m.place, tables, place, t, i);
        }
        i := i + 1;
      }
      PruningEnds(m.tables, m.place, tables, place, t);
      GivenTable(ram, State(), t);
      Kfree(t);
    }

    /** An empty address space; 0 if no page is free. */
    method Uvmcreate() returns (root: nat)
      requires MemOk(ram, State())
      modifies this
      ensures MemOk(ram, State())
      ensures root == 0 ==> State() == old(State()) && free == []
      ensures root != 0 ==> root !in old(tables) && Only(old(State()), State(), root)
      ensures root != 0 ==> IsRoot(place, root) && forall v: nat :: Leaf(tables, root, v) == 0
      ensures root != 0 ==> |old(free)| == |free| + 1
    {
      hide Held, Leaf, Only, Partition, UpLinks, DownLinks;
      ghost var m := State();
      root := Kalloc();
      if root == 0 {
        return;
      }
      FreeFacts(ram, m);
      var page := ZeroTable();
      TakenBack(m, data[root]);
      CreatedOk(ram, m, page);
      data := data - {root};
      holder := holder - {root};
      tables := tables[root := page];
      place := place[root := Place(2, 0, 0)];
    }

    /** Free an address space's pages and then its tables; the two top pages must be unmapped. */
    method Uvmfree(root: nat, size: nat)
      requires MemOk(ram, State()) && Sized(State(), root, Pages(size))
      requires Leaf(tables, root, TRAPVPN) == 0 == Leaf(tables, root, TRAMPVPN)
      modifies this
      ensures Gone(ram, old(State()), State(), root)
    {
      hide Core, Held, Leaf, Gone, Sized, Unmapped, Pruned, Partition;
      ghost var m := State();
      SizedFacts(m, root, Pages(size));
      UnmappedNothing(ram, m, root, 0, true);
      if size > 0 {
        RangeMapped(ram, m, root, 0, Pages(size));
        Uvmunmap(root, 0, Pages(size), true);
      }
      ghost var u := State();
      SizedShrunk(ram, m, u, root, 0, Pages(size));
      UnmappedCore(ram, m, u, root, 0, Pages(size), true);
      EmptySpace(ram, u, root);
      Freewalk(root);
      WalkedDown(ram, u, State(), root);
      GoneAfterUnmap(ram, m, u, State(), root, 0, Pages(size), true);
    }

    /**
     The address space of a new process: no user pages, the trampoline and the trapframe above
     them. If memory runs out, every page taken for it is free again.
     */
    method ProcPagetable(tramp: nat, trapframe: nat) returns (root: nat)
      requires MemOk(ram, State()) && IsPageAddr(tramp) && IsPageAddr(trapframe)
      modifies this
      ensures MemOk(ram, State())
      ensures root == 0 ==> Unchanged(old(State()), State()) && |old(free)| < 5
      ensures root != 0 ==>
                && root !in old(tables) && Space(State(), root, 0, tramp, trapframe)
                && Only(old(State()), State(), root)
                && |old(free)| <= |free| + 5
    {
      hide Core, Held, Leaf, Only, Sized, MappedRun, Unmapped, Gone, Unchanged, LeafChange, Pte, PteAddr, OtherTables;
      ghost var m := State();
      UnchangedNothing(m);
      root := Uvmcreate();
      if root == 0 {
        return;
      }
      ghost var a := State();
      SizedNothing(ram, a, root);
      ghost var k;
      var ok;
      ok, k := Mappages(root, TRAMPVPN, 1, tramp, PTE_R + PTE_X);
      ghost var b := State();
      if !ok {
        TopFailed(ram, a, b, root, TRAMPVPN, tramp, PTE_V + PTE_R + PTE_X);
        OnlyTwice(m, a, b, root);
        SizedNothing(ram, b, root);
        Uvmfree(root, 0);
        BackToStart(ram, m, b, State(), root);
        GoneOk(ram, b, State(), root);
        return 0;
      }
      TopMapped(ram, a, b, root, TRAMPVPN, tramp, PTE_V + PTE_R + PTE_X);
      OnlyTwice(m, a, b, root);
      LeafChangeFacts(a, b, root, TRAMPVPN, Pte(tramp, PTE_V + PTE_R + PTE_X));
      SizedTop(a, b, root, TRAMPVPN, Pte(tramp, PTE_V + PTE_R + PTE_X), 0);
      assert !IsValid(0);
      ok, k := Mappages(root, TRAPVPN, 1, trapframe, PTE_R + PTE_W);
      ghost var c := State();
      if !ok {
        TopFailed(ram, b, c, root, TRAPVPN, trapframe, PTE_V + PTE_R + PTE_W);
        OnlyTwice(m, b, c, root);
        PteRoundTrip(tramp, PTE_V + PTE_R + PTE_X);
        Uvmunmap(root, TRAMPVPN, 1, false);
        ghost var d := State();
        TopUnmapped(ram, c, d, root, TRAMPVPN);
        LeafChangeFacts(c, d, root, TRAMPVPN, 0);
        OnlyTwice(m, c, d, root);
        SizedNothing(ram, d, root);
        Uvmfree(root, 0);
        BackToStart(ram, m, d, State(), root);
        GoneOk(ram, d, State(), root);
        return 0;
      }
      TopMapped(ram, b, c, root, TRAPVPN, trapframe, PTE_V + PTE_R + PTE_W);
      OnlyTwice(m, b, c, root);
      LeafChangeFacts(b, c, root, TRAPVPN, Pte(trapframe, PTE_V + PTE_R + PTE_W));
      SizedTop(b, c, root, TRAPVPN, Pte(trapframe, PTE_V + PTE_R + PTE_W), 0);
    }

    /** Free a process's address space: every table and every user page, each once. */
    method ProcFreepagetable(root: nat, size: nat, ghost tramp: nat, ghost trapframe: nat)
      requires MemOk(ram, State()) && Space(State(), root, Pages(size), tramp, trapframe)
      requires IsPageAddr(tramp) && IsPageAddr(trapframe)
      modifies this
      ensures Gone(ram, old(State()), State(), root)
    {
      hide Core, Held, Leaf, Gone, Sized, Unmapped, Pte, PteFlags;
      ghost var m := State();
      SizedFacts(m, root, Pages(size));
      PteRoundTrip(tramp, PTE_V + PTE_R + PTE_X);
      PteRoundTrip(trapframe, PTE_V + PTE_R + PTE_W);
      Uvmunmap(root, TRAMPVPN, 1, false);
      ghost var u := State();
      TopUnmapped(ram, m, u, root, TRAMPVPN);
      SizedTop(m, u, root, TRAMPVPN, 0, Pages(size));
      Uvmunmap(root, TRAPVPN, 1, false);
      ghost var w := State();
      TopUnmapped(ram, u, w, root, TRAPVPN);
      SizedTop(u, w, root, TRAPVPN, 0, Pages(size));
      Uvmfree(root, size);
      GoneAfterUnmap(ram, u, w, State(), root, TRAPVPN, TRAPVPN + 1, false);
      GoneAfterUnmap(ram, m, u, State(), root, TRAMPVPN, TRAMPVPN + 1, false);
    }

    /** Take a page out of the user's reach, as exec does for the stack guard. */
    method Uvmclear(root: nat, v: nat, ghost size: nat)
      requires MemOk(ram, State()) && Sized(State(), root, size) && v < size
      requires PteFlags(Leaf(tables, root, v)) != PTE_V + PTE_U
      modifies this
      ensures MemOk(ram, State()) && Sized(State(), root, size) && Only(old(State()), State(), root)
      ensures LeafChange(old(State()), State(), root, v, WithoutUser(Leaf(old(tables), root, v)))
      ensures data == old(data)
    {
      hide Core, Held, PteFlags, Low, Only, LeafChange, OnlyMap, SameLeavesBut;
      ghost var m := State();
      LeafHasTable(ram, m, root, v);
      var t := Walk(root, v, false);
      assert t != 0;
      LowFacts(ram, m, root, v);
      var pte := tables[t][Index(0, v)];
      LeafSetOk(ram, m, root, v, WithoutUser(pte));
      LeafSetChange(m, root, v, WithoutUser(pte));
      ClearedOk(ram, m, LeafSet(m, root, v, WithoutUser(pte)), root, v, size);
      var entries: seq<nat> := tables[t][Index(0, v) := WithoutUser(pte)];
      tables := tables[t := entries];
    }

    // ----------------------------------------------------- copying to and from user space

    /** The physical page of a user-accessible address, 0 if there is none. */
    method Walkaddr(root: nat, va: nat) returns (pa: nat)
      requires MemOk(ram, State()) && IsRoot(place, root)
      modifies this
      ensures State() == old(State())
      ensures pa != 0 <==> Access(State(), root, va, false)
      ensures pa != 0 ==> pa == PteAddr(Leaf(tables, root, va / PGSIZE)) && pa in data && |data[pa]| == PGSIZE
    {
      hide MemOk, PteAddr, Low;
      if va >= MAXVA {
        return 0;
      }
      MemParts(ram, State());
      var t := Walk(root, va / PGSIZE, false);
      if t == 0 {
        NoTableNoLeaf(ram, State(), root, va / PGSIZE);
        return 0;
      }
      LowFacts(ram, State(), root, va / PGSIZE);
      var pte := tables[t][Index(0, va / PGSIZE)];
      if !IsValid(pte) || !IsUser(pte) {
        return 0;
      }
      AccessPage(ram, State(), root, va, false);
      pa := PteAddr(pte);
    }

    /**
     Copy to user space. It stops at the first byte the user may not write; what has been
     written by then is exactly the bytes before it.
     */
    method Copyout(root: nat, dstva: nat, src: seq<Byte>) returns (ok: bool, ghost k: nat)
      requires MemOk(ram, State()) && IsRoot(place, root)
      modifies this
      ensures k <= |src| && (ok <==> k == |src|)
      ensures Wrote(old(State()), State(), root, dstva, src[..k])
      ensures Writable(old(State()), root, dstva, dstva + k)
      ensures !ok ==> !Access(old(State()), root, dstva + k, true)
      ensures MemOk(ram, State()) && Only(old(State()), State(), root)
    {
      hide MemOk, Wrote, Access, Only, Writable;
      ghost var m := State();
      NothingWritable(m, root, dstva);
      WroteNothing(m, root, dstva);
      WroteOk(ram, m, m, root, dstva, []);
      k := 0;
      var done := 0;
      while done < |src|
        invariant 0 <= done == k <= |src| && MemOk(ram, State()) && IsRoot(place, root)
        invariant Wrote(m, State(), root, dstva, src[..k]) && Only(m, State(), root)
        invariant Writable(m, root, dstva, dstva + k)
      {
        var n := CopyoutPage(root, dstva + done, src[done..], m, dstva, src[..done]);
        assert src[..done] + src[done..][..n] == src[..done + n];
        if n == 0 {
          return false, k;
        }
        SamePageRun(m, root, dstva, dstva + done, n);
        done := done + n;
        k := done;
      }
      assert src[..k] == src;
      ok := true;
    }

    /** One pass of copyout's loop: how many bytes it copied, 0 if the page may not be written. */
    method CopyoutPage(root: nat, va: nat, src: seq<Byte>, ghost m: Mem, ghost start: nat, ghost before: seq<Byte>)
      returns (n: nat)
      requires MemOk(ram, State()) && IsRoot(place, root) && src != [] && MemOk(ram, m)
      requires Wrote(m, State(), root, start, before) && va == start + |before|
      modifies this
      ensures MemOk(ram, State()) && IsRoot(place, root) && n <= |src| && va % PGSIZE + n <= PGSIZE
      ensures n != 0 <==> Access(m, root, va, true)
      ensures Wrote(m, State(), root, start, before + src[..n]) && Only(m, State(), root)
    {
      hide MemOk, Wrote, PteAddr, Low, Only;
      WroteOk(ram, m, State(), root, start, before);
      assert before + src[..0] == before;
      ghost var u := State();
      var vpn := va / PGSIZE;
      if vpn >= MAXVPN {
        return 0;
      }
      MemParts(ram, u);
      var t := Walk(root, vpn, false);
      if t == 0 {
        NoTableNoLeaf(ram, u, root, vpn);
        return 0;
      }
      LowFacts(ram, u, root, vpn);
      var pte := tables[t][Index(0, vpn)];
      if !IsValid(pte) || !IsUser(pte) || !IsWritable(pte) {
        return 0;
      }
      var o := va % PGSIZE;
      n := if PGSIZE - o > |src| then |src| else PGSIZE - o;
      WrotePage(ram, u, root, va, src[..n]);
      WroteOk(ram, u, WithPage(u, PteAddr(pte), o, src[..n]), root, va, src[..n]);
      var page := data[PteAddr(pte)];
      data := data[PteAddr(pte) := page[..o] + src[..n] + page[o + n..]];
      WroteTwice(m, u, State(), root, start, before, src[..n]);
      WroteOk(ram, m, State(), root, start, before + src[..n]);
    }

    /** Copy from user space: the bytes up to the first one the user may not read. */
    method Copyin(root: nat, srcva: nat, len: nat) returns (ok: bool, dst: seq<Byte>)
      requires MemOk(ram, State()) && IsRoot(place, root)
      modifies this
      ensures State() == old(State()) && |dst| <= len && (ok <==> |dst| == len)
      ensures ReadsAs(State(), root, srcva, dst)
      ensures !ok ==> !Access(State(), root, srcva + |dst|, false)
    {
      hide MemOk, PteAddr, Access, Leaf;
      dst := [];
      while |dst| < len
        invariant |dst| <= len && State() == old(State()) && ReadsAs(State(), root, srcva, dst)
      {
        var va := srcva + |dst|;
        var pa := Walkaddr(root, va);
        if pa == 0 {
          return false, dst;
        }
        var o := va % PGSIZE;
        var n := if PGSIZE - o > len - |dst| then len - |dst| else PGSIZE - o;
        ReadMore(ram, State(), root, srcva, dst, n);
        dst := dst + data[pa][o..o + n];
      }
      ok := true;
    }

    /**
     Copy a string from user space, NUL included. It succeeds exactly when a string of fewer
     than max bytes can be read there.
     */
    method Copyinstr(root: nat, srcva: nat, max: nat) returns (ok: bool, dst: seq<Byte>)
      requires MemOk(ram, State()) && IsRoot(place, root)
      modifies this
      ensures State() == old(State())
      ensures ok <==> exists k: nat :: k < max && StringAt(State(), root, srcva, k)
      ensures ok ==> dst != [] && StringAt(State(), root, srcva, |dst| - 1) && ReadsAs(State(), root, srcva, dst)
    {
      hide MemOk, PteAddr, Access, Leaf, ReadsAs, StringAt;
      ReadsNothing(State(), root, srcva);
      dst := [];
      while |dst| < max
        invariant |dst| <= max && State() == old(State()) && ReadsAs(State(), root, srcva, dst) && NoNul(dst)
      {
        var va := srcva + |dst|;
        var pa := Walkaddr(root, va);
        if pa == 0 {
          break;
        }
        var o := va % PGSIZE;
        var n := if PGSIZE - o > max - |dst| then max - |dst| else PGSIZE - o;
        var j := Scan(data[pa], o, n);
        ReadMore(ram, State(), root, srcva, dst, j);
        ghost var was := dst;
        dst := dst + data[pa][o..o + j];
        if j < n {
          ReadMore(ram, State(), root, srcva, was, j + 1);
          assert data[pa][o..o + j + 1] == data[pa][o..o + j] + [0];
          assert was + data[pa][o..o + j + 1] == dst + [0];
          IsString(State(), root, srcva, dst);
          ok, dst := true, dst + [0];
          return;
        }
      }
      forall k: nat | k < max ensures !StringAt(State(), root, srcva, k) {
        IsNoString(State(), root, srcva, dst, max, k);
      }
      ok := false;
    }

    /** copyinstr's inner loop: how far to the first NUL, or n. */
    method Scan(page: seq<Byte>, o: nat, n: nat) returns (j: nat)
      requires n > 0 && o + n <= |page|
      ensures j <= n && NoNul(page[o..o + j]) && (j < n ==> page[o + j] == 0)
    {
      j := 0;
      while j < n && page[o + j] != 0
        invariant 0 <= j <= n && forall i :: o <= i < o + j ==> page[i] != 0
      {
        j := j + 1;
      }
    }
  }

  lemma ReadsNothing(m: Mem, r: nat, va: nat)
    ensures ReadsAs(m, r, va, [])
  {
  }

  ghost function WithPage(m: Mem, p: nat, o: nat, bytes: seq<Byte>): Mem {
    if p in m.data && o + |bytes| <= |m.data[p]| then
      m.(data := m.data[p := m.data[p][..o] + bytes + m.data[p][o + |bytes|..]])
    else m
  }

  lemma NoTableNoLeaf(ram: set<nat>, m: Mem, r: nat, v: nat)
    requires Core(ram, m) && Low(m.tables, r, v) == 0
    ensures Leaf(m.tables, r, v) == 0
  {
    assert 0 !in m.tables;
  }

  lemma NothingWritable(m: Mem, r: nat, va: nat)
    ensures Writable(m, r, va, va)
  {
  }

  lemma SamePageRun(m: Mem, r: nat, va: nat, pos: nat, n: nat)
    requires Writable(m, r, va, pos) && Access(m, r, pos, true) && pos % PGSIZE + n <= PGSIZE
    ensures Writable(m, r, va, pos + n)
  {
    hide Access;
    forall a: nat | va <= a < pos + n ensures Access(m, r, a, true) {
      if a >= pos {
        assert a / PGSIZE == pos / PGSIZE;
        SamePageAccess(m, r, pos, a, true);
      }
    }
  }

  lemma LeafSetChange(m: Mem, r: nat, v: nat, pte: nat)
    requires IsRoot(m.place, r) && v < MAXVPN && Leaf(LeafSet(m, r, v, pte).tables, r, v) == pte
    requires SameLeavesBut(m.place, m.tables, LeafSet(m, r, v, pte).tables, r, v)
    ensures LeafChange(m, LeafSet(m, r, v, pte), r, v, pte)
  {
    hide Leaf;
  }

  lemma UnchangedNothing(m: Mem)
    ensures Unchanged(m, m)
  {
  }

  lemma GoneOk(ram: set<nat>, m: Mem, n: Mem, r: nat)
    requires Gone(ram, m, n, r)
    ensures MemOk(ram, n)
  {
    hide MemOk, Pruned;
  }

  lemma LeafChangeFacts(m: Mem, n: Mem, r: nat, v: nat, pte: nat)
    requires LeafChange(m, n, r, v, pte)
    ensures IsRoot(n.place, r) && Leaf(n.tables, r, v) == pte
    ensures forall w: nat :: w < MAXVPN && w != v ==> Leaf(n.tables, r, w) == Leaf(m.tables, r, w)
  {
    hide Leaf;
  }

  lemma CreatedOk(ram: set<nat>, m: Mem, page: seq<nat>)
    requires MemOk(ram, m) && m.free != [] && AllZero(page)
    ensures var r := m.free[0];
            var n := m.(free := m.free[1..], tables := m.tables[r := page], place := m.place[r := Place(2, 0, 0)]);
            MemOk(ram, n) && Only(m, n, r) && IsRoot(n.place, r) && forall v: nat :: Leaf(n.tables, r, v) == 0
  {
    hide Partition, Leaf, UpLinks, DownLinks, Held;
    var r := m.free[0];
    var n := m.(free := m.free[1..], tables := m.tables[r := page], place := m.place[r := Place(2, 0, 0)]);
    FreeFacts(ram, m);
    AddRoot(m.tables, m.place, r, page);
    CreatedPartition(ram, m, page);
    CreatedHeld(m, n, r);
    CreatedOnly(ram, m, n, r);
  }

  lemma CreatedPartition(ram: set<nat>, m: Mem, page: seq<nat>)
    requires Partition(ram, m) && m.free != []
    ensures Partition(ram, m.(free := m.free[1..], tables := m.tables[m.free[0] := page],
            place := m.place[m.free[0] := Place(2, 0, 0)]))
  {
    forall p ensures p in m.free <==> p == m.free[0] || p in m.free[1..] {
      InCons(m.free, p);
    }
  }

  lemma CreatedHeld(m: Mem, n: Mem, r: nat)
    requires Held(m) && n.holder == m.holder && n.place == m.place[r := Place(2, 0, 0)] && r !in m.place
    requires SameLeaves(m.place, m.tables, n.tables) && forall v: nat :: Leaf(n.tables, r, v) == 0
    ensures Held(n)
  {
    hide Leaf, PteAddr, PteFlags, IsUser;
    forall s, w: nat | IsRoot(n.place, s) && w < NVPN ensures LeafHeld(n, s, w) {
      assert s != r ==> LeafHeld(m, s, w);
    }
    forall q | q in n.holder ensures PageMapped(n, q) {
      assert PageMapped(m, q);
    }
  }

  lemma CreatedOnly(ram: set<nat>, m: Mem, n: Mem, r: nat)
    requires Core(ram, m) && r !in m.tables && n.place == m.place[r := Place(2, 0, 0)] && n.holder == m.holder
    requires n.data == m.data && n.tables.Keys == m.tables.Keys + {r}
    requires forall x :: x in m.tables ==> n.tables[x] == m.tables[x]
    requires SameLeaves(m.place, m.tables, n.tables)
    ensures Only(m, n, r)
  {
    hide Leaf, UpLinks, DownLinks, Below, Partition;
    CorePartition(ram, m);
    HolderKeys(ram, m);
    forall x | x in m.tables ensures !InTree(m.place, x, r) && !InTree(n.place, x, r) {
      NotInTree(m.tables, m.place, x, r);
      NotInNewTree(m.tables, m.place, x, r);
    }
  }

  lemma NotInNewTree(tables: Tables, place: map<nat, Place>, x: nat, r: nat)
    requires Trees(tables, place) && x in tables && r !in tables
    ensures !InTree(place[r := Place(2, 0, 0)], x, r)
  {
    hide DownLinks, Pte;
    assert place[x].level < 2 ==> place[x].parent in tables;
    assert place[x].level < 2 && place[place[x].parent].level < 2 ==> place[place[x].parent].parent in tables;
  }

  lemma PruningFacts(S: Tables, p: map<nat, Place>, T: Tables, q: map<nat, Place>, t: nat, i: nat)
    requires Pruning(S, p, T, q, t, i)
    ensures Trees(T, q) && t in q && t in p && q[t] == p[t]
  {
    hide UpLinks, DownLinks;
  }

  /** A valid entry that freewalk meets leads to a child table and has no permission bits. */
  lemma EntryDown(S: Tables, p: map<nat, Place>, T: Tables, q: map<nat, Place>, t: nat, i: nat)
    requires Trees(S, p) && NoLeaves(S, p, t) && Pruning(S, p, T, q, t, i) && i < NPTE && IsValid(T[t][i])
    ensures var c := PteAddr(T[t][i]);
            && t in q && p[t] == q[t] && 0 < q[t].level <= 2
            && c in T && q[c] == Place(q[t].level - 1, t, i) && T[t][i] / PTE_R % 8 == 0
  {
    hide PteAddr, Below;
    var c := PteAddr(T[t][i]);
    assert T[t][i] == S[t][i];
    assert p[t].level > 0;
    assert c in T && T[t][i] == Pte(c, PTE_V);
    PointerFlags(c / PGSIZE);
  }

  lemma PointerFlags(q: nat)
    ensures (q * 1024 + PTE_V) / PTE_R % 8 == 0
  {
    assert (q * 1024 + 1) / 2 == q * 512;
    assert q * 512 == 8 * (q * 64);
  }

  lemma CopyingDone(ram: set<nat>, m: Mem, n: Mem, from: nat, r: nat, k: nat)
    requires Copying(ram, m, n, from, r, k)
    ensures MemOk(ram, n) && Sized(n, r, k) && Grew(ram, m, n, r, 0, k) && Only(m, n, r) && Copied(m, n, from, r, k)
  {
    hide MemOk, Sized, Grew, Only, Copied;
  }

  lemma GrowingDone(ram: set<nat>, m: Mem, n: Mem, r: nat, lo: nat, hi: nat, flags: nat)
    requires Growing(ram, m, n, r, lo, hi, flags)
    ensures MemOk(ram, n) && Sized(n, r, hi) && Grew(ram, m, n, r, lo, hi) && Only(m, n, r)
    ensures FreshPages(n, r, lo, hi, flags)
  {
    hide MemOk, Sized, Grew, Only, FreshPages;
  }

  lemma RestoredNothing(ram: set<nat>, m: Mem, r: nat)
    requires MemOk(ram, m)
    ensures Restored(ram, m, m, r)
  {
    hide Held, Leaf, Below, UpLinks, DownLinks;
  }

  lemma RestoredOk(ram: set<nat>, m: Mem, n: Mem, r: nat)
    requires Restored(ram, m, n, r)
    ensures MemOk(ram, n)
  {
    hide MemOk, Leaf, Below;
  }

  lemma PageAddedOk(ram: set<nat>, m: Mem, n: Mem, r: nat, v: nat, p: nat, page: seq<Byte>, flags: nat)
    requires PageAdded(ram, m, n, r, v, p, page, flags)
    ensures MemOk(ram, n)
  {
    hide MemOk, Leaf, Below;
  }

  lemma TakenOk(ram: set<nat>, m: Mem, page: seq<Byte>)
    requires MemOk(ram, m) && m.free != [] && |page| == PGSIZE
    ensures Core(ram, Taken(m, page))
  {
    hide Held, UpLinks, DownLinks;
    TakenPartition(ram, m, page);
  }

  lemma TakenAgain(m: Mem, junk: seq<Byte>, page: seq<Byte>)
    requires m.free != []
    ensures Taken(m, junk).(data := Taken(m, junk).data[m.free[0] := page]) == Taken(m, page)
  {
    assert m.data[m.free[0] := junk][m.free[0] := page] == m.data[m.free[0] := page];
  }

  lemma SizedFacts(m: Mem, r: nat, n: nat)
    requires Sized(m, r, n)
    ensures IsRoot(m.place, r) && n <= TRAPVPN
  {
  }

  lemma CorePartition(ram: set<nat>, m: Mem)
    requires Core(ram, m)
    ensures Partition(ram, m)
  {
  }

  lemma UnmappedCore(ram: set<nat>, m: Mem, n: Mem, r: nat, lo: nat, hi: nat, freed: bool)
    requires Unmapped(ram, m, n, r, lo, hi, freed)
    ensures Core(ram, n) && IsRoot(n.place, r) && (freed ==> Held(n))
    ensures forall v: nat :: hi <= v < MAXVPN ==> Leaf(n.tables, r, v) == Leaf(m.tables, r, v)
  {
    hide Core, Leaf, Held, OtherTables;
  }

  lemma MappedNothing(ram: set<nat>, m: Mem, r: nat, lo: nat, pa: nat, flags: nat)
    requires Core(ram, m) && IsRoot(m.place, r)
    ensures MappedRun(ram, m, m, r, lo, 0, pa, flags)
  {
    hide Partition, Leaf, Below, UpLinks, DownLinks;
  }

  lemma MappedRunCore(ram: set<nat>, m: Mem, n: Mem, r: nat, lo: nat, k: nat, pa: nat, flags: nat)
    requires MappedRun(ram, m, n, r, lo, k, pa, flags)
    ensures Core(ram, n) && IsRoot(n.place, r)
  {
    hide Core, Leaf, OtherTables;
  }

  lemma MappedWalked(ram: set<nat>, m: Mem, u: Mem, n: Mem, r: nat, lo: nat, k: nat, pa: nat, flags: nat)
    requires MappedRun(ram, m, u, r, lo, k, pa, flags) && Walked(ram, u, n, r) && lo + k <= MAXVPN
    ensures MappedRun(ram, m, n, r, lo, k, pa, flags)
  {
    hide Core, Leaf, OtherTables, Down;
    WalkedOnlyMap(ram, u, n, r);
    OnlyMapTwice(ram, m, u, n, r);
  }

  lemma LowFacts(ram: set<nat>, m: Mem, r: nat, v: nat)
    requires Core(ram, m) && IsRoot(m.place, r) && Low(m.tables, r, v) != 0
    ensures Low(m.tables, r, v) in m.tables && |m.tables[Low(m.tables, r, v)]| == NPTE
    ensures Leaf(m.tables, r, v) == m.tables[Low(m.tables, r, v)][Index(0, v)]
  {
    PathPlaces(m.tables, m.place, r, v);
  }

  lemma StillUnmapped(ram: set<nat>, m: Mem, u: Mem, w: Mem, r: nat, lo: nat, k: nat, pa: nat, flags: nat)
    requires MappedRun(ram, m, u, r, lo, k, pa, flags) && Walked(ram, u, w, r) && lo + k < MAXVPN
    ensures Leaf(w.tables, r, lo + k) == Leaf(m.tables, r, lo + k)
  {
    hide Core, Leaf, OtherTables, Down;
  }

  lemma RootFacts(ram: set<nat>, m: Mem, r: nat)
    requires Core(ram, m) && IsRoot(m.place, r)
    ensures r != 0 && r in m.tables
  {
  }

  lemma WalkedCore(ram: set<nat>, m: Mem, n: Mem, r: nat)
    requires Walked(ram, m, n, r)
    ensures Core(ram, n) && IsRoot(n.place, r)
  {
    hide Core, SameLeaves, OtherTables;
  }

  lemma NoWay(ram: set<nat>, m: Mem, root: nat, vpn: nat, level: nat)
    requires Core(ram, m) && 1 <= level <= 2 && Node(m.tables, root, vpn, level - 1) == 0
    ensures Low(m.tables, root, vpn) == 0
  {
    assert 0 !in m.tables;
  }

  /** A page taken for the kernel and then made into a table was never data. */
  lemma TakenBack(m: Mem, junk: seq<Byte>)
    requires m.free != [] && m.free[0] !in m.data && m.free[0] !in m.holder
    ensures m.data[m.free[0] := junk] - {m.free[0]} == m.data
    ensures m.holder[m.free[0] := Kernel] - {m.free[0]} == m.holder
  {
  }
}
