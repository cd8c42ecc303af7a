/**
 Physical memory as the kernel uses it (kernel/kalloc.c, kernel/vm.c): free pages, page-table
 pages and data pages, who holds each page, and the address spaces the tables define.
 */
module VmModel {
  import Common
  import opened Sv39
  import opened Bytes

  /** The trapframe page and the trampoline page above it lie at the top of every address space. */
  const TRAMPVPN: nat := MAXVPN - 1
  const TRAPVPN: nat := MAXVPN - 2

  const KERNBASE: nat := 0x8000_0000
  const PHYSTOP: nat := KERNBASE + 128 * 1024 * 1024
  /** At most this many pages of RAM. */
  const NPAGES: nat := (PHYSTOP - KERNBASE) / PGSIZE

  /** What a data page is for: a page of an address space, or the kernel's own. */
  datatype Holder = Kernel | User(root: nat, vpn: nat)

  datatype Mem = Mem(free: seq<nat>, tables: Tables, data: map<nat, seq<Byte>>,
                     place: map<nat, Place>, holder: map<nat, Holder>)

  // ------------------------------------------------------------------------ invariants

  ghost predicate Distinct(s: seq<nat>) {
    forall i, j :: 0 <= i < j < |s| ==> s[i] != s[j]
  }

  ghost predicate RamOk(ram: set<nat>) {
    |ram| <= NPAGES && forall p :: p in ram ==> IsPageAddr(p)
  }

  /** Every page of RAM is free, a table or data, and only one of these. */
  ghost predicate Partition(ram: set<nat>, m: Mem) {
    && RamOk(ram) && Distinct(m.free)
    && (forall p :: p in ram <==> p in m.free || p in m.tables || p in m.data)
    && (forall p :: p in m.free ==> p !in m.tables && p !in m.data)
    && (forall p :: p in m.tables ==> p !in m.data)
    && m.holder.Keys == m.data.Keys
    && (forall p :: p in m.data ==> |m.data[p]| == PGSIZE)
  }

  ghost predicate Core(ram: set<nat>, m: Mem) {
    Partition(ram, m) && Trees(m.tables, m.place)
  }

  /** A valid entry below the trapframe leads to the page held for it; none above is a user's. */
  ghost predicate LeafHeld(m: Mem, r: nat, v: nat) {
    var leaf := Leaf(m.tables, r, v);
    leaf != 0 ==>
      && v < MAXVPN && IsValid(leaf) && PteFlags(leaf) != PTE_V
      && (if v < TRAPVPN then PteAddr(leaf) in m.holder && m.holder[PteAddr(leaf)] == User(r, v) else !IsUser(leaf))
  }

  ghost predicate PageMapped(m: Mem, p: nat)
    requires p in m.holder
  {
    m.holder[p].User? ==>
      var User(r, v) := m.holder[p];
      IsRoot(m.place, r) && v < TRAPVPN && IsValid(Leaf(m.tables, r, v)) && PteAddr(Leaf(m.tables, r, v)) == p
  }

  ghost predicate Held(m: Mem) {
    && (forall r, v: nat :: IsRoot(m.place, r) && v < NVPN ==> LeafHeld(m, r, v))
    && (forall p :: p in m.holder ==> PageMapped(m, p))
  }

  /** The invariant of physical memory and every address space in it. */
  ghost predicate MemOk(ram: set<nat>, m: Mem) {
    Core(ram, m) && Held(m)
  }

  /** The user pages of an address space are exactly the first n. */
  ghost predicate Sized(m: Mem, r: nat, n: nat) {
    && IsRoot(m.place, r) && n <= TRAPVPN
    && forall v: nat :: v < TRAPVPN ==> (IsValid(Leaf(m.tables, r, v)) <==> v < n)
  }

  /** The pages kinit frees: all of RAM after the kernel. */
  ghost function RamPages(end: nat): set<nat> {
    set p: nat | RoundUp(end) <= p < PHYSTOP && p + PGSIZE <= PHYSTOP && p % PGSIZE == 0
  }

  ghost function Elements(s: seq<nat>): (r: set<nat>)
    ensures |r| <= |s|
    ensures forall x :: x in r <==> x in s
  {
    if s == [] then {} else {s[0]} + Elements(s[1..])
  }

  /** freerange's loop: every page below p is on the list, once. */
  ghost predicate Freeing(s: seq<nat>, end: nat, p: nat) {
    && p % PGSIZE == 0 && RoundUp(end) <= p && |s| * PGSIZE == p - RoundUp(end) && Distinct(s)
    && forall q: nat :: q in s <==> RoundUp(end) <= q < p && q % PGSIZE == 0
  }

  lemma FreeingMore(s: seq<nat>, end: nat, p: nat)
    requires Freeing(s, end, p)
    ensures Freeing([p] + s, end, p + PGSIZE)
  {
    forall q: nat ensures q in [p] + s <==> RoundUp(end) <= q < p + PGSIZE && q % PGSIZE == 0 {
      assert q in [p] + s <==> q == p || q in s;
    }
    assert p !in s;
    forall i, j | 0 <= i < j < |[p] + s| ensures ([p] + s)[i] != ([p] + s)[j] {
      assert ([p] + s)[j] == s[j - 1] && s[j - 1] in s;
      assert i > 0 ==> ([p] + s)[i] == s[i - 1];
    }
  }

  /** After boot memory is all free. */
  lemma BootOk(s: seq<nat>, end: nat, p: nat)
    requires Freeing(s, end, p) && KERNBASE <= end && p + PGSIZE > PHYSTOP && (p <= PHYSTOP || s == [])
    ensures MemOk(RamPages(end), Mem(s, map[], map[], map[], map[]))
  {
    var ram := RamPages(end);
    assert PHYSTOP % PGSIZE == 0;
    assert forall q :: q in ram <==> q in s;
    assert ram == Elements(s);
  }

  // ----------------------------------------------------------------------------- frames

  /** Table x belongs to the tree of r. */
  ghost predicate InTree(place: map<nat, Place>, x: nat, r: nat) {
    x == r || Below(place, x, r)
  }

  /** The tables of other trees are as they were, and the other trees are the same. */
  ghost predicate OtherTables(a: Mem, b: Mem, r: nat) {
    && (forall x :: x in a.tables && !InTree(a.place, x, r) ==>
          && x in b.tables && x in a.place && x in b.place && b.tables[x] == a.tables[x] && b.place[x] == a.place[x]
          && !InTree(b.place, x, r))
    && (forall x :: x in b.tables && !InTree(b.place, x, r) ==> x in a.tables && !InTree(a.place, x, r))
  }

  ghost predicate HeldBy(m: Mem, p: nat, r: nat) {
    p in m.holder && m.holder[p].User? && m.holder[p].root == r
  }

  /** Data pages that are not pages of r are as they were. */
  ghost predicate OtherData(a: Mem, b: Mem, r: nat) {
    && (forall p :: p in a.data && p in a.holder && !HeldBy(a, p, r) ==>
          p in b.data && p in b.holder && b.data[p] == a.data[p] && b.holder[p] == a.holder[p])
    && (forall p :: p in b.data && !HeldBy(b, p, r) ==> p in a.data && !HeldBy(a, p, r))
  }

  ghost predicate OtherLeaves(a: Mem, b: Mem, r: nat) {
    && (forall s :: s != r ==> (IsRoot(a.place, s) <==> IsRoot(b.place, s)))
    && (forall s, v: nat :: s != r && IsRoot(a.place, s) && v < NVPN ==> Leaf(b.tables, s, v) == Leaf(a.tables, s, v))
  }

  /** Only the address space r, its tables and its pages may differ. */
  ghost predicate Only(a: Mem, b: Mem, r: nat) {
    OtherTables(a, b, r) && OtherData(a, b, r) && OtherLeaves(a, b, r)
  }

  lemma OnlyTwice(a: Mem, b: Mem, c: Mem, r: nat)
    requires Only(a, b, r) && Only(b, c, r)
    ensures Only(a, c, r)
  {
    hide Leaf, Below;
  }

  lemma OnlyNothing(ram: set<nat>, a: Mem, r: nat)
    requires Core(ram, a)
    ensures Only(a, a, r)
  {
  }

  // ------------------------------------------------------------------- single changes

  /** kalloc: the first free page, filled, becomes the kernel's. */
  ghost function Taken(m: Mem, page: seq<Byte>): Mem
    requires m.free != []
  {
    m.(free := m.free[1..], data := m.data[m.free[0] := page], holder := m.holder[m.free[0] := Kernel])
  }

  /** kfree: the page joins the free list. */
  ghost function Given(m: Mem, p: nat): Mem {
    m.(free := [p] + m.free, tables := m.tables - {p}, place := m.place - {p},
       data := m.data - {p}, holder := m.holder - {p})
  }

  lemma TakenPartition(ram: set<nat>, m: Mem, page: seq<Byte>)
    requires Partition(ram, m) && m.free != [] && |page| == PGSIZE
    ensures Partition(ram, Taken(m, page))
  {
    var n := Taken(m, page);
    forall p ensures p in m.free <==> p == m.free[0] || p in n.free {
      InCons(m.free, p);
    }
  }

  lemma InCons(s: seq<nat>, p: nat)
    requires s != []
    ensures p in s <==> p == s[0] || p in s[1..]
  {
  }

  lemma GivenPartition(ram: set<nat>, m: Mem, p: nat)
    requires Partition(ram, m) && (p in m.data || p in m.tables)
    ensures Partition(ram, Given(m, p))
  {
    var n := Given(m, p);
    forall q ensures q in n.free <==> q == p || q in m.free {
      InCons(n.free, q);
    }
  }

  /** walk's new table: a free page, zeroed, hung in entry i of table t. */
  ghost function Hung(m: Mem, t: nat, i: nat, page: seq<nat>): Mem
    requires m.free != [] && t in m.tables && i < |m.tables[t]| && t in m.place && m.place[t].level > 0
  {
    m.(free := m.free[1..], tables := Grown(m.tables, t, i, m.free[0], page),
       place := m.place[m.free[0] := Place(m.place[t].level - 1, t, i)])
  }

  lemma HungPartition(ram: set<nat>, m: Mem, t: nat, i: nat, page: seq<nat>)
    requires Partition(ram, m) && m.free != [] && t in m.tables && i < |m.tables[t]|
    requires t in m.place && m.place[t].level > 0
    ensures Partition(ram, Hung(m, t, i, page))
  {
    hide Pte;
    var n := Hung(m, t, i, page);
    forall p ensures p in m.free <==> p == m.free[0] || p in n.free {
      InCons(m.free, p);
    }
    assert forall p :: p in n.tables <==> p == m.free[0] || p in m.tables;
  }

  /** A table page more, in the tree of r: the same map, the same data, the same other trees. */
  ghost predicate Walked(ram: set<nat>, m: Mem, n: Mem, r: nat) {
    && Core(ram, m) && Core(ram, n) && IsRoot(m.place, r)
    && n.data == m.data && n.holder == m.holder
    && SameLeaves(m.place, m.tables, n.tables)
    && (forall s :: IsRoot(m.place, s) <==> IsRoot(n.place, s))
    && (forall t, i: nat :: Down(m.tables, t, i) != 0 ==> Down(n.tables, t, i) == Down(m.tables, t, i))
    && OtherTables(m, n, r)
  }

  lemma HungWalked(ram: set<nat>, m: Mem, t: nat, i: nat, page: seq<nat>, r: nat)
    requires Core(ram, m) && m.free != [] && IsRoot(m.place, r) && t in m.tables && InTree(m.place, t, r)
    requires m.place[t].level > 0 && i < NPTE && !IsValid(m.tables[t][i]) && AllZero(page)
    ensures Walked(ram, m, Hung(m, t, i, page), r)
    ensures Down(Hung(m, t, i, page).tables, t, i) == m.free[0]
  {
    hide Leaf, Pte, Partition, Below, Trees, OtherTables, Grown, Down;
    TreesFacts(m.tables, m.place);
    FreeFacts(ram, m);
    HungPartition(ram, m, t, i, page);
    HungTrees(m, t, i, page);
    HungOthers(m, t, i, page, r);
    HungDown(m, t, i, page);
  }

  lemma TreesFacts(tables: Tables, place: map<nat, Place>)
    requires Trees(tables, place)
    ensures tables.Keys == place.Keys && forall t :: t in tables ==> t in place && |tables[t]| == NPTE
  {
  }

  lemma HungTrees(m: Mem, t: nat, i: nat, page: seq<nat>)
    requires Trees(m.tables, m.place) && m.free != [] && t in m.tables && i < NPTE && m.place[t].level > 0
    requires m.free[0] !in m.tables && IsPageAddr(m.free[0]) && !IsValid(m.tables[t][i]) && AllZero(page)
    ensures var n := Hung(m, t, i, page);
            && Trees(n.tables, n.place) && SameLeaves(m.place, m.tables, n.tables)
            && (forall s :: IsRoot(m.place, s) <==> IsRoot(n.place, s))
            && Down(n.tables, t, i) == m.free[0]
  {
    hide Leaf, Pte, UpLinks, DownLinks, AllZero, Down;
    AddTable(m.tables, m.place, t, i, m.free[0], page);
  }

  lemma FreeFacts(ram: set<nat>, m: Mem)
    requires Partition(ram, m) && m.free != []
    ensures m.free[0] in ram && m.free[0] !in m.tables && m.free[0] !in m.data && m.free[0] !in m.holder
    ensures IsPageAddr(m.free[0])
  {
    assert m.free[0] in m.free;
  }

  lemma HungDown(m: Mem, t: nat, i: nat, page: seq<nat>)
    requires Trees(m.tables, m.place) && m.free != [] && t in m.tables && i < NPTE && m.place[t].level > 0
    requires m.free[0] !in m.tables && !IsValid(m.tables[t][i])
    ensures forall s, j: nat :: Down(m.tables, s, j) != 0 ==>
              Down(Hung(m, t, i, page).tables, s, j) == Down(m.tables, s, j)
  {
    hide Pte, PteAddr;
  }

  lemma HungOthers(m: Mem, t: nat, i: nat, page: seq<nat>, r: nat)
    requires Trees(m.tables, m.place) && m.free != [] && IsRoot(m.place, r)
    requires t in m.tables && InTree(m.place, t, r) && m.place[t].level > 0 && i < NPTE && m.free[0] !in m.tables
    ensures OtherTables(m, Hung(m, t, i, page), r)
  {
    hide Pte, PteAddr, Trees;
    TreesFacts(m.tables, m.place);
    var n := Hung(m, t, i, page);
    forall x | x in m.tables ensures InTree(n.place, x, r) <==> InTree(m.place, x, r) {
      HungInTree(m, t, i, page, r, x);
    }
    HungBelow(m, t, i, page, r);
  }

  lemma HungInTree(m: Mem, t: nat, i: nat, page: seq<nat>, r: nat, x: nat)
    requires Trees(m.tables, m.place) && m.free != [] && x in m.tables
    requires t in m.tables && m.place[t].level > 0 && i < NPTE && m.free[0] !in m.tables
    ensures InTree(Hung(m, t, i, page).place, x, r) <==> InTree(m.place, x, r)
  {
    hide Pte, PteAddr, DownLinks;
    assert m.place[x].level < 2 ==> m.place[x].parent in m.tables && m.place[x].parent != m.free[0];
  }

  lemma HungBelow(m: Mem, t: nat, i: nat, page: seq<nat>, r: nat)
    requires Trees(m.tables, m.place) && m.free != [] && IsRoot(m.place, r)
    requires t in m.tables && InTree(m.place, t, r) && m.place[t].level > 0 && i < NPTE && m.free[0] !in m.tables
    ensures InTree(Hung(m, t, i, page).place, m.free[0], r)
  {
    hide Pte, PteAddr, DownLinks;
    assert m.place[t].level < 2 ==> m.place[m.place[t].parent].level == m.place[t].level + 1;
  }

  lemma WalkedTwice(ram: set<nat>, a: Mem, b: Mem, c: Mem, r: nat)
    requires Walked(ram, a, b, r) && Walked(ram, b, c, r)
    ensures Walked(ram, a, c, r)
  {
    hide Core, Leaf, Below, Down;
  }

  lemma WalkedNothing(ram: set<nat>, a: Mem, r: nat)
    requires Core(ram, a) && IsRoot(a.place, r)
    ensures Walked(ram, a, a, r)
  {
    hide Partition, Leaf, Below, Down;
  }

  // ------------------------------------------------------------- changes of the abstract map

  /** The entry of one page stored in its table. */
  ghost function LeafSet(m: Mem, r: nat, v: nat, pte: nat): Mem {
    var t := Low(m.tables, r, v);
    if t in m.tables && |m.tables[t]| == NPTE then m.(tables := Store(m.tables, t, Index(0, v), pte)) else m
  }

  /** Memory is the same but for the map of address space r, and tables of its tree. */
  ghost predicate OnlyMap(ram: set<nat>, m: Mem, n: Mem, r: nat) {
    && Core(ram, m) && Core(ram, n) && IsRoot(m.place, r)
    && n.data == m.data && n.holder == m.holder
    && (forall s :: IsRoot(m.place, s) <==> IsRoot(n.place, s))
    && OtherTables(m, n, r)
  }

  lemma OnlyMapTwice(ram: set<nat>, a: Mem, b: Mem, c: Mem, r: nat)
    requires OnlyMap(ram, a, b, r) && OnlyMap(ram, b, c, r)
    ensures OnlyMap(ram, a, c, r)
  {
    hide Core, Below;
  }

  lemma WalkedOnlyMap(ram: set<nat>, m: Mem, n: Mem, r: nat)
    requires Walked(ram, m, n, r)
    ensures OnlyMap(ram, m, n, r)
  {
    hide Core, OtherTables, Leaf, Down;
  }

  lemma LeafSetOk(ram: set<nat>, m: Mem, r: nat, v: nat, pte: nat)
    requires Core(ram, m) && IsRoot(m.place, r) && v < MAXVPN && Low(m.tables, r, v) != 0
    ensures Low(m.tables, r, v) in m.tables && |m.tables[Low(m.tables, r, v)]| == NPTE
    ensures var n := LeafSet(m, r, v, pte);
            && OnlyMap(ram, m, n, r) && n.place == m.place
            && Leaf(n.tables, r, v) == pte && SameLeavesBut(m.place, m.tables, n.tables, r, v)
  {
    hide Leaf, Index;
    StoreLeaf(m.tables, m.place, r, v, pte);
    PathPlaces(m.tables, m.place, r, v);
    var n := LeafSet(m, r, v, pte);
    LowInTree(m.tables, m.place, r, v);
  }

  lemma LowInTree(tables: Tables, place: map<nat, Place>, r: nat, v: nat)
    requires Trees(tables, place) && IsRoot(place, r)
    ensures Mid(tables, r, v) != 0 ==> InTree(place, Mid(tables, r, v), r)
    ensures Low(tables, r, v) != 0 ==> InTree(place, Low(tables, r, v), r)
  {
    hide Index, Pte, PteAddr, UpLinks, DownLinks, Down;
    PathPlaces(tables, place, r, v);
  }

  /** mappages so far: k pages from lo lead to consecutive physical pages, and nothing else has changed. */
  ghost predicate MappedRun(ram: set<nat>, m: Mem, n: Mem, r: nat, lo: nat, k: nat, pa: nat, flags: nat) {
    && OnlyMap(ram, m, n, r)
    && (forall v: nat :: lo <= v < lo + k ==> Leaf(n.tables, r, v) == Pte(pa + (v - lo) * PGSIZE, flags))
    && (forall s, v: nat :: IsRoot(m.place, s) && v < NVPN && !(s == r && lo <= v < lo + k) ==>
          Leaf(n.tables, s, v) == Leaf(m.tables, s, v))
  }

  lemma MappedMore(ram: set<nat>, m: Mem, u: Mem, w: Mem, r: nat, lo: nat, k: nat, pa: nat, flags: nat)
    requires MappedRun(ram, m, u, r, lo, k, pa, flags) && Walked(ram, u, w, r)
    requires lo + k < MAXVPN && Low(w.tables, r, lo + k) != 0
    ensures MappedRun(ram, m, LeafSet(w, r, lo + k, Pte(pa + k * PGSIZE, flags)), r, lo, k + 1, pa, flags)
  {
    hide Core, Leaf, Low, Index, OtherTables, Pte, Down, LeafSet;
    LeafSetOk(ram, w, r, lo + k, Pte(pa + k * PGSIZE, flags));
    var n := LeafSet(w, r, lo + k, Pte(pa + k * PGSIZE, flags));
    WalkedOnlyMap(ram, u, w, r);
    OnlyMapTwice(ram, m, u, w, r);
    OnlyMapTwice(ram, m, w, n, r);
    forall v: nat | lo <= v < lo + k + 1 ensures Leaf(n.tables, r, v) == Pte(pa + (v - lo) * PGSIZE, flags) {
      assert v < lo + k ==> Leaf(w.tables, r, v) == Leaf(u.tables, r, v);
    }
    forall s, v: nat | IsRoot(m.place, s) && v < NVPN && !(s == r && lo <= v < lo + k + 1)
      ensures Leaf(n.tables, s, v) == Leaf(m.tables, s, v)
    {
      assert Leaf(w.tables, s, v) == Leaf(u.tables, s, v);
    }
  }

  /** The table at a level on the way to a page; 0 if there is none. */
  function Node(tables: Tables, root: nat, vpn: nat, level: nat): nat {
    if level >= 2 then root else if level == 1 then Mid(tables, root, vpn) else Low(tables, root, vpn)
  }

  lemma NodePlace(ram: set<nat>, m: Mem, r: nat, v: nat, level: nat)
    requires Core(ram, m) && IsRoot(m.place, r) && 1 <= level <= 2
    ensures var t := Node(m.tables, r, v, level);
            && (t != 0 ==> t in m.tables && t in m.place && m.place[t].level == level && InTree(m.place, t, r))
            && Node(m.tables, r, v, level - 1) == Down(m.tables, t, Index(level, v))
  {
    hide Partition, Down, Pte, PteAddr, UpLinks, DownLinks;
    PathPlaces(m.tables, m.place, r, v);
    LowInTree(m.tables, m.place, r, v);
  }

  lemma WalkedNode(ram: set<nat>, m: Mem, n: Mem, r: nat, v: nat, level: nat)
    requires Walked(ram, m, n, r) && 1 <= level <= 2 && Node(m.tables, r, v, level) != 0
    ensures Node(n.tables, r, v, level) == Node(m.tables, r, v, level)
  {
    hide Core, SameLeaves, OtherTables;
  }

  // --------------------------------------------------------------- pages of an address space

  /** The data pages held for pages lo..hi of address space r. */
  ghost function UserRange(m: Mem, r: nat, lo: nat, hi: nat): set<nat> {
    set p | p in m.holder && InRange(m.holder[p], r, lo, hi)
  }

  predicate InRange(h: Holder, r: nat, lo: nat, hi: nat) {
    h.User? && h.root == r && lo <= h.vpn < hi
  }

  /** The map of r has changed at page v only. */
  ghost predicate LeafChange(m: Mem, n: Mem, r: nat, v: nat, pte: nat) {
    && IsRoot(m.place, r) && v < MAXVPN
    && (forall s :: IsRoot(m.place, s) <==> IsRoot(n.place, s))
    && SameLeavesBut(m.place, m.tables, n.tables, r, v)
    && Leaf(n.tables, r, v) == pte
  }

  /** Clearing the entry of a page that has been freed keeps every other page held. */
  lemma HeldUnmap(m: Mem, n: Mem, r: nat, v: nat)
    requires Held(m) && LeafChange(m, n, r, v, 0) && v < TRAPVPN && IsValid(Leaf(m.tables, r, v))
    requires n.holder == m.holder - {PteAddr(Leaf(m.tables, r, v))}
    ensures Held(n)
    ensures UserRange(m, r, v, v + 1) == {PteAddr(Leaf(m.tables, r, v))}
  {
    hide Leaf, PteAddr, PteFlags, IsUser;
    assert LeafHeld(m, r, v);
    assert !IsValid(0);
    forall s, w: nat | IsRoot(n.place, s) && w < NVPN ensures LeafHeld(n, s, w) {
      assert LeafHeld(m, s, w);
    }
    forall p | p in n.holder ensures PageMapped(n, p) {
      assert PageMapped(m, p);
    }
    forall p | p in m.holder && InRange(m.holder[p], r, v, v + 1) ensures p == PteAddr(Leaf(m.tables, r, v)) {
      assert PageMapped(m, p);
    }
  }

  /** Mapping a page that was the kernel's makes it the address space's. */
  lemma HeldMap(m: Mem, n: Mem, r: nat, v: nat, p: nat, pte: nat)
    requires Held(m) && LeafChange(m, n, r, v, pte) && v < TRAPVPN && !IsValid(Leaf(m.tables, r, v))
    requires p in m.holder && m.holder[p] == Kernel && PteAddr(pte) == p && IsValid(pte) && PteFlags(pte) != PTE_V
    requires n.holder == m.holder[p := User(r, v)]
    ensures Held(n)
  {
    hide Leaf, PteAddr, PteFlags, IsUser;
    forall s, w: nat | IsRoot(n.place, s) && w < NVPN ensures LeafHeld(n, s, w) {
      assert LeafHeld(m, s, w);
    }
    forall q | q in n.holder ensures PageMapped(n, q) {
      assert q in m.holder && PageMapped(m, q);
    }
  }

  /** The trapframe and trampoline entries can come and go as long as users cannot use them. */
  lemma HeldTop(m: Mem, n: Mem, r: nat, v: nat, pte: nat)
    requires Held(m) && LeafChange(m, n, r, v, pte) && v >= TRAPVPN && n.holder == m.holder
    requires pte != 0 ==> IsValid(pte) && PteFlags(pte) != PTE_V && !IsUser(pte)
    ensures Held(n)
  {
    hide Leaf, PteAddr, PteFlags, IsUser;
    forall s, w: nat | IsRoot(n.place, s) && w < NVPN ensures LeafHeld(n, s, w) {
      assert LeafHeld(m, s, w);
    }
    forall q | q in n.holder ensures PageMapped(n, q) {
      assert PageMapped(m, q);
    }
  }

  /** The same map and the same data pages, wherever the tables are. */
  lemma HeldSame(m: Mem, n: Mem)
    requires Held(m) && n.holder == m.holder && SameLeaves(m.place, m.tables, n.tables)
    requires forall s :: IsRoot(m.place, s) <==> IsRoot(n.place, s)
    ensures Held(n)
  {
    hide Leaf, PteAddr, PteFlags, IsUser;
    forall s, w: nat | IsRoot(n.place, s) && w < NVPN ensures LeafHeld(n, s, w) {
      assert LeafHeld(m, s, w);
    }
    forall q | q in n.holder ensures PageMapped(n, q) {
      assert PageMapped(m, q);
    }
  }

  // ----------------------------------------------------------------------------- unmapping

  /** Pages lo..hi of r are gone from the map and, if freed, their data pages are free; nothing else has changed. */
  ghost predicate Unmapped(ram: set<nat>, m: Mem, n: Mem, r: nat, lo: nat, hi: nat, freed: bool) {
    && Core(ram, m) && Core(ram, n) && IsRoot(m.place, r) && n.place == m.place && lo <= hi
    && (forall v: nat :: lo <= v < hi ==> Leaf(n.tables, r, v) == 0)
    && (forall s, v: nat :: IsRoot(m.place, s) && v < NVPN && !(s == r && lo <= v < hi) ==>
          Leaf(n.tables, s, v) == Leaf(m.tables, s, v))
    && OtherTables(m, n, r) && n.tables.Keys == m.tables.Keys
    && (if freed then
          && Held(n) && |n.free| == |m.free| + (hi - lo)
          && n.data == m.data - UserRange(m, r, lo, hi) && n.holder == m.holder - UserRange(m, r, lo, hi)
        else n.data == m.data && n.holder == m.holder && n.free == m.free)
  }

  lemma UnmappedNothing(ram: set<nat>, m: Mem, r: nat, lo: nat, freed: bool)
    requires Core(ram, m) && IsRoot(m.place, r) && (freed ==> Held(m))
    ensures Unmapped(ram, m, m, r, lo, lo, freed)
  {
    hide Leaf, Below, UpLinks, DownLinks;
    assert UserRange(m, r, lo, lo) == {};
    assert m.data - {} == m.data && m.holder - {} == m.holder;
  }

  /** uvmunmap of one page. */
  ghost function PageUnmapped(m: Mem, r: nat, v: nat, freed: bool): Mem {
    LeafSet(if freed then Given(m, PteAddr(Leaf(m.tables, r, v))) else m, r, v, 0)
  }

  lemma GivenData(ram: set<nat>, m: Mem, p: nat)
    requires Core(ram, m) && p in m.data
    ensures Core(ram, Given(m, p)) && Given(m, p).tables == m.tables && Given(m, p).place == m.place
  {
    hide UpLinks, DownLinks;
    GivenPartition(ram, m, p);
    assert m.tables - {p} == m.tables;
    assert m.place - {p} == m.place;
  }

  lemma PageUnmappedOk(ram: set<nat>, m: Mem, r: nat, v: nat, freed: bool)
    requires Core(ram, m) && IsRoot(m.place, r) && v < MAXVPN && IsValid(Leaf(m.tables, r, v))
    requires freed ==> Held(m) && v < TRAPVPN
    ensures Unmapped(ram, m, PageUnmapped(m, r, v, freed), r, v, v + 1, freed)
    ensures freed ==> PteAddr(Leaf(m.tables, r, v)) in m.data
  {
    hide Leaf, Low, PteAddr, Partition, OtherTables, Trees;
    LeafHasTable(ram, m, r, v);
    var p := PteAddr(Leaf(m.tables, r, v));
    if freed {
      assert LeafHeld(m, r, v);
      HolderKeys(ram, m);
      GivenData(ram, m, p);
    }
    var u := if freed then Given(m, p) else m;
    var n := PageUnmapped(m, r, v, freed);
    LeafSetOk(ram, u, r, v, 0);
    LeafSetKeys(u, r, v, 0);
    OtherTablesSame(m, u, n, r);
    if freed {
      HeldUnmap(m, n, r, v);
    }
  }

  lemma HolderKeys(ram: set<nat>, m: Mem)
    requires Core(ram, m)
    ensures m.holder.Keys == m.data.Keys
  {
  }

  lemma LeafHasTable(ram: set<nat>, m: Mem, r: nat, v: nat)
    requires Core(ram, m) && IsValid(Leaf(m.tables, r, v))
    ensures Low(m.tables, r, v) != 0
  {
    assert 0 !in m.tables;
  }

  lemma LeafSetKeys(m: Mem, r: nat, v: nat, pte: nat)
    ensures LeafSet(m, r, v, pte).tables.Keys == m.tables.Keys
    ensures LeafSet(m, r, v, pte) == m.(tables := LeafSet(m, r, v, pte).tables)
  {
  }

  lemma OtherTablesSame(m: Mem, u: Mem, n: Mem, r: nat)
    requires u.tables == m.tables && u.place == m.place && OtherTables(u, n, r)
    ensures OtherTables(m, n, r)
  {
  }

  lemma UnmappedMore(ram: set<nat>, m: Mem, u: Mem, n: Mem, r: nat, lo: nat, mid: nat, hi: nat, freed: bool)
    requires Unmapped(ram, m, u, r, lo, mid, freed) && Unmapped(ram, u, n, r, mid, hi, freed) && hi <= MAXVPN
    ensures Unmapped(ram, m, n, r, lo, hi, freed)
  {
    hide Core, Leaf, Held, Below;
    if freed {
      RangesAdd(m, u, r, lo, mid, hi);
      MapMinusTwice(m.data, UserRange(m, r, lo, mid), UserRange(u, r, mid, hi));
      MapMinusTwice(m.holder, UserRange(m, r, lo, mid), UserRange(u, r, mid, hi));
    }
  }

  lemma RangesAdd(m: Mem, u: Mem, r: nat, lo: nat, mid: nat, hi: nat)
    requires lo <= mid <= hi && u.holder == m.holder - UserRange(m, r, lo, mid)
    ensures UserRange(m, r, lo, mid) + UserRange(u, r, mid, hi) == UserRange(m, r, lo, hi)
  {
  }

  lemma MapMinusTwice<T>(f: map<nat, T>, a: set<nat>, b: set<nat>)
    ensures f - a - b == f - (a + b)
  {
  }

  // ------------------------------------------------------------------------------ counting

  ghost function UserPages(m: Mem, r: nat, n: nat): set<nat> {
    if n == 0 then {} else UserPages(m, r, n - 1) + {PteAddr(Leaf(m.tables, r, n - 1))}
  }

  lemma {:induction false} UserPagesCount(ram: set<nat>, m: Mem, r: nat, n: nat, k: nat)
    requires MemOk(ram, m) && Sized(m, r, n) && k <= n
    ensures |UserPages(m, r, k)| == k && UserPages(m, r, k) <= ram
    ensures forall p :: p in UserPages(m, r, k) ==> p in m.holder && m.holder[p].User? && m.holder[p].vpn < k
  {
    hide Trees, Leaf, PteAddr, PteFlags, IsUser;
    if k > 0 {
      UserPagesCount(ram, m, r, n, k - 1);
      assert LeafHeld(m, r, k - 1);
    }
  }

  /** RAM holds far fewer pages than lie below the trapframe, so no address space comes near it. */
  lemma SizedBound(ram: set<nat>, m: Mem, r: nat, n: nat)
    requires MemOk(ram, m) && Sized(m, r, n)
    ensures n <= NPAGES < TRAPVPN
  {
    UserPagesCount(ram, m, r, n, n);
    Common.SubsetSize(UserPages(m, r, n), ram);
  }

  // --------------------------------------------------------- growing and shrinking a space

  /** The same address spaces and data pages; only tables of r's tree may have been added. */
  ghost predicate Restored(ram: set<nat>, m: Mem, n: Mem, r: nat) {
    && MemOk(ram, n) && n.data == m.data && n.holder == m.holder
    && SameLeaves(m.place, m.tables, n.tables)
    && (forall s :: IsRoot(m.place, s) <==> IsRoot(n.place, s))
    && OtherTables(m, n, r)
  }

  /** One new page v of r: data page p with contents `page`. */
  ghost predicate PageAdded(ram: set<nat>, m: Mem, n: Mem, r: nat, v: nat, p: nat, page: seq<Byte>, flags: nat) {
    && MemOk(ram, n) && p !in m.data
    && n.data == m.data[p := page] && n.holder == m.holder[p := User(r, v)]
    && LeafChange(m, n, r, v, Pte(p, flags))
    && OtherTables(m, n, r)
  }

  ghost predicate GrewMap(m: Mem, n: Mem, r: nat, lo: nat, hi: nat) {
    && (forall s :: IsRoot(m.place, s) <==> IsRoot(n.place, s))
    && (forall s, v: nat :: IsRoot(m.place, s) && v < NVPN && !(s == r && lo <= v < hi) ==>
          Leaf(n.tables, s, v) == Leaf(m.tables, s, v))
    && (forall v: nat :: lo <= v < hi ==> IsValid(Leaf(n.tables, r, v)))
  }

  ghost predicate GrewData(m: Mem, n: Mem, r: nat, lo: nat, hi: nat) {
    && (forall p :: p in m.data ==> p in n.data && n.data[p] == m.data[p])
    && (forall p :: p in m.holder ==> p in n.holder && n.holder[p] == m.holder[p] && !InRange(m.holder[p], r, lo, hi))
    && (forall p :: p in n.holder && p !in m.holder ==> InRange(n.holder[p], r, lo, hi))
  }

  /** Pages lo..hi of r are new; everything else is as it was. */
  ghost predicate Grew(ram: set<nat>, m: Mem, n: Mem, r: nat, lo: nat, hi: nat) {
    && MemOk(ram, m) && MemOk(ram, n) && IsRoot(m.place, r) && lo <= hi
    && GrewMap(m, n, r, lo, hi) && GrewData(m, n, r, lo, hi) && OtherTables(m, n, r)
  }

  lemma MemParts(ram: set<nat>, m: Mem)
    requires MemOk(ram, m)
    ensures Core(ram, m) && Held(m) && m.holder.Keys == m.data.Keys
  {
  }

  /** mappages of a page just taken. */
  lemma AddPage(ram: set<nat>, m: Mem, n: Mem, r: nat, v: nat, page: seq<Byte>, flags: nat)
    requires MemOk(ram, m) && m.free != [] && |page| == PGSIZE && v < TRAPVPN && !IsValid(Leaf(m.tables, r, v))
    requires flags < 1024 && IsValid(flags) && flags != PTE_V
    requires MappedRun(ram, Taken(m, page), n, r, v, 1, m.free[0], flags)
    ensures PageAdded(ram, m, n.(holder := n.holder[m.free[0] := User(r, v)]), r, v, m.free[0], page, flags)
  {
    hide Partition, Trees, Leaf, Pte, PteAddr, PteFlags, Below;
    var p := m.free[0];
    FreeFacts(ram, m);
    var u := Taken(m, page);
    var w := n.(holder := n.holder[p := User(r, v)]);
    assert Leaf(n.tables, r, v) == Pte(p + (v - v) * PGSIZE, flags);
    PteRoundTrip(p, flags);
    HeldTaken(ram, m, page);
    HeldMap(u, w, r, v, p, Pte(p, flags));
    HolderPartition(ram, n, p, User(r, v));
    OtherTablesSame(m, u, n, r);
  }

  lemma HolderPartition(ram: set<nat>, n: Mem, p: nat, h: Holder)
    requires Partition(ram, n) && p in n.data
    ensures Partition(ram, n.(holder := n.holder[p := h]))
  {
  }

  lemma HeldTaken(ram: set<nat>, m: Mem, page: seq<Byte>)
    requires MemOk(ram, m) && m.free != []
    ensures Held(Taken(m, page))
  {
    hide Trees, Leaf, PteAddr, PteFlags, IsUser;
    FreeFacts(ram, m);
    var n := Taken(m, page);
    forall s, w: nat | IsRoot(n.place, s) && w < NVPN ensures LeafHeld(n, s, w) {
      assert LeafHeld(m, s, w);
    }
    forall q | q in n.holder ensures PageMapped(n, q) {
      assert q != m.free[0] ==> PageMapped(m, q);
    }
  }

  /** mappages failed: the page goes back. */
  lemma NoPage(ram: set<nat>, m: Mem, n: Mem, r: nat, v: nat, page: seq<Byte>, flags: nat)
    requires MemOk(ram, m) && m.free != [] && |page| == PGSIZE
    requires MappedRun(ram, Taken(m, page), n, r, v, 0, m.free[0], flags)
    ensures m.free[0] in n.data
    ensures Restored(ram, m, Given(n, m.free[0]), r)
  {
    hide Partition, Trees, Leaf, PteAddr, PteFlags, Below;
    var p := m.free[0];
    FreeFacts(ram, m);
    assert p in n.data;
    GivenData(ram, n, p);
    var w := Given(n, p);
    assert w.data == m.data && w.holder == m.holder;
    OtherTablesSame(m, Taken(m, page), n, r);
    assert OtherTables(m, w, r);
    HeldSame(m, w);
  }

  lemma GrewNothing(ram: set<nat>, m: Mem, r: nat, lo: nat)
    requires MemOk(ram, m) && IsRoot(m.place, r)
    ensures Grew(ram, m, m, r, lo, lo)
  {
    hide UpLinks, DownLinks, Leaf, Held;
  }

  lemma GrewMore(ram: set<nat>, m: Mem, u: Mem, n: Mem, r: nat, lo: nat, hi: nat, p: nat, page: seq<Byte>, flags: nat)
    requires Grew(ram, m, u, r, lo, hi) && PageAdded(ram, u, n, r, hi, p, page, flags)
    requires IsPageAddr(p) && flags < 1024 && IsValid(flags) && hi < TRAPVPN && !IsValid(Leaf(u.tables, r, hi))
    ensures Grew(ram, m, n, r, lo, hi + 1)
  {
    hide MemOk, Leaf, Pte, PteAddr, PteFlags, IsUser, Below;
    PteRoundTrip(p, flags);
    GrewDataMore(ram, m, u, n, r, lo, hi, p, page);
  }

  lemma GrewDataMore(ram: set<nat>, m: Mem, u: Mem, n: Mem, r: nat, lo: nat, hi: nat, p: nat, page: seq<Byte>)
    requires MemOk(ram, u) && GrewData(m, u, r, lo, hi) && lo <= hi && !IsValid(Leaf(u.tables, r, hi))
    requires p !in u.data && n.data == u.data[p := page] && n.holder == u.holder[p := User(r, hi)]
    ensures GrewData(m, n, r, lo, hi + 1)
  {
    hide MemOk, Leaf, InRange, GrewData;
    MemParts(ram, u);
    forall q | q in u.holder ensures u.holder[q] != User(r, hi) {
      NotHeldFor(ram, u, q, r, hi);
    }
    GrewDataStep(m, u, n, r, lo, hi, p, page);
  }

  lemma GrewDataStep(m: Mem, u: Mem, n: Mem, r: nat, lo: nat, hi: nat, p: nat, page: seq<Byte>)
    requires GrewData(m, u, r, lo, hi) && lo <= hi && p !in u.data && p !in u.holder
    requires n.data == u.data[p := page] && n.holder == u.holder[p := User(r, hi)]
    requires forall q :: q in u.holder ==> u.holder[q] != User(r, hi)
    ensures GrewData(m, n, r, lo, hi + 1)
  {
  }

  lemma NotHeldFor(ram: set<nat>, m: Mem, q: nat, r: nat, v: nat)
    requires MemOk(ram, m) && q in m.holder && !IsValid(Leaf(m.tables, r, v))
    ensures m.holder[q] != User(r, v)
  {
    hide Core, Leaf, PteAddr, PteFlags, IsUser;
    assert PageMapped(m, q);
  }

  lemma BeyondSize(ram: set<nat>, m: Mem, r: nat, n: nat, hi: nat)
    requires MemOk(ram, m) && Sized(m, r, n) && hi <= TRAPVPN
    ensures forall v: nat :: n <= v < hi ==> Leaf(m.tables, r, v) == 0
  {
    hide Core, Leaf, PteAddr, PteFlags, IsUser;
    forall v: nat | n <= v < hi ensures Leaf(m.tables, r, v) == 0 {
      assert LeafHeld(m, r, v);
    }
  }

  /** Back to the old size after a failed attempt to grow. */
  lemma GrewBack(ram: set<nat>, m: Mem, u: Mem, n: Mem, r: nat, lo: nat, hi: nat)
    requires Grew(ram, m, u, r, lo, hi) && Unmapped(ram, u, n, r, lo, hi, true) && hi <= TRAPVPN
    requires Sized(m, r, lo)
    ensures Restored(ram, m, n, r)
  {
    hide Core, Held, Leaf, Below;
    MemParts(ram, m);
    BeyondSize(ram, m, r, lo, hi);
    MemParts(ram, u);
    assert n.holder == m.holder;
    assert n.data == m.data;
  }

  /** A failed attempt that touched only tables can come between. */
  lemma GrewRestored(ram: set<nat>, m: Mem, u: Mem, w: Mem, r: nat, lo: nat, hi: nat)
    requires Grew(ram, m, u, r, lo, hi) && Restored(ram, u, w, r) && hi <= TRAPVPN
    ensures Grew(ram, m, w, r, lo, hi)
  {
    hide MemOk, Leaf, Below;
  }

  ghost predicate ZeroPage(page: seq<Byte>) {
    |page| == PGSIZE && forall i :: 0 <= i < PGSIZE ==> page[i] == 0
  }

  /** Pages lo..hi of r read as zeroes and have these flags. */
  ghost predicate FreshPages(m: Mem, r: nat, lo: nat, hi: nat, flags: nat) {
    forall v: nat :: lo <= v < hi ==>
      var leaf := Leaf(m.tables, r, v);
      PteFlags(leaf) == flags && PteAddr(leaf) in m.data && ZeroPage(m.data[PteAddr(leaf)])
  }

  lemma FreshMore(ram: set<nat>, u: Mem, n: Mem, r: nat, lo: nat, hi: nat, p: nat, page: seq<Byte>, flags: nat)
    requires FreshPages(u, r, lo, hi, flags) && PageAdded(ram, u, n, r, hi, p, page, flags)
    requires IsPageAddr(p) && flags < 1024 && ZeroPage(page)
    ensures FreshPages(n, r, lo, hi + 1, flags)
  {
    hide MemOk, Leaf, Pte, PteAddr, PteFlags, OtherTables, ZeroPage;
    PteRoundTrip(p, flags);
    forall v: nat | lo <= v < hi + 1
      ensures var leaf := Leaf(n.tables, r, v);
              PteFlags(leaf) == flags && PteAddr(leaf) in n.data && ZeroPage(n.data[PteAddr(leaf)])
    {
      if v < hi {
        assert Leaf(n.tables, r, v) == Leaf(u.tables, r, v);
      }
    }
  }

  /** Taking user pages off the end. */
  lemma SizedShrunk(ram: set<nat>, m: Mem, n: Mem, r: nat, a: nat, b: nat)
    requires Sized(m, r, b) && Unmapped(ram, m, n, r, a, b, true)
    ensures MemOk(ram, n) && Sized(n, r, a) && Only(m, n, r)
  {
    hide Core, Held, Leaf, Below;
  }

  /** Sizes, seen from the other side of a growth. */
  lemma SizedGrew(ram: set<nat>, m: Mem, n: Mem, r: nat, lo: nat, hi: nat)
    requires Sized(m, r, lo) && Grew(ram, m, n, r, lo, hi) && hi <= TRAPVPN
    ensures Sized(n, r, hi) && Only(m, n, r)
  {
    hide MemOk, Leaf, OtherTables, GrewData;
    MemParts(ram, m);
    MemParts(ram, n);
    GrewOthers(m, n, r, lo, hi);
  }

  lemma GrewOthers(m: Mem, n: Mem, r: nat, lo: nat, hi: nat)
    requires GrewData(m, n, r, lo, hi) && m.holder.Keys == m.data.Keys && n.holder.Keys == n.data.Keys
    ensures OtherData(m, n, r)
  {
  }

  lemma SizedRestored(ram: set<nat>, m: Mem, n: Mem, r: nat, size: nat)
    requires Sized(m, r, size) && MemOk(ram, m) && Restored(ram, m, n, r)
    ensures Sized(n, r, size) && Only(m, n, r)
  {
    hide MemOk, Leaf, Below;
    MemParts(ram, m);
  }

  /** The next page of an address space is free to be mapped. */
  lemma NextPage(ram: set<nat>, m: Mem, r: nat, n: nat)
    requires MemOk(ram, m) && Sized(m, r, n)
    ensures n < TRAPVPN && !IsValid(Leaf(m.tables, r, n)) && IsRoot(m.place, r)
  {
    SizedBound(ram, m, r, n);
  }

  lemma RangeMapped(ram: set<nat>, m: Mem, r: nat, lo: nat, n: nat)
    requires MemOk(ram, m) && Sized(m, r, n)
    ensures forall v: nat :: lo <= v < n ==> IsValid(Leaf(m.tables, r, v)) && PteFlags(Leaf(m.tables, r, v)) != PTE_V
  {
    hide Core, Leaf, PteAddr, PteFlags, IsUser;
    forall v: nat | lo <= v < n ensures IsValid(Leaf(m.tables, r, v)) && PteFlags(Leaf(m.tables, r, v)) != PTE_V {
      assert LeafHeld(m, r, v);
    }
  }

  /** uvmdealloc after a failed attempt to grow. */
  lemma GrewDealloc(ram: set<nat>, m: Mem, u: Mem, n: Mem, r: nat, lo: nat, hi: nat)
    requires Grew(ram, m, u, r, lo, hi) && Sized(m, r, lo) && hi <= TRAPVPN
    requires (lo == hi && n == u) || Unmapped(ram, u, n, r, lo, hi, true)
    ensures Restored(ram, m, n, r) && |n.free| == |u.free| + (hi - lo)
  {
    hide Grew, Restored, Core, Held, Leaf, Sized, OtherTables;
    GrewStart(ram, m, u, r, lo, hi);
    if n != u || lo < hi {
      GrewBack(ram, m, u, n, r, lo, hi);
    } else {
      GrewEmpty(ram, m, u, r, lo);
    }
  }

  lemma GrewEmpty(ram: set<nat>, m: Mem, u: Mem, r: nat, lo: nat)
    requires Grew(ram, m, u, r, lo, lo)
    ensures Restored(ram, m, u, r)
  {
    hide Core, Held, Leaf, OtherTables;
    MemParts(ram, m);
    MemParts(ram, u);
    assert u.data == m.data && u.holder == m.holder;
  }

  /** uvmalloc's loop: pages lo..hi added so far, zeroed and with these flags. */
  ghost predicate Growing(ram: set<nat>, m: Mem, n: Mem, r: nat, lo: nat, hi: nat, flags: nat) {
    && MemOk(ram, n) && Sized(m, r, lo) && Sized(n, r, hi)
    && Grew(ram, m, n, r, lo, hi) && Only(m, n, r) && FreshPages(n, r, lo, hi, flags)
  }

  lemma GrowingStarts(ram: set<nat>, m: Mem, r: nat, lo: nat, flags: nat)
    requires MemOk(ram, m) && Sized(m, r, lo)
    ensures Growing(ram, m, m, r, lo, lo, flags)
  {
    hide Grew, Only, Core, Held, Leaf;
    GrewNothing(ram, m, r, lo);
    OnlyNothing(ram, m, r);
  }

  lemma GrowingFacts(ram: set<nat>, m: Mem, n: Mem, r: nat, lo: nat, hi: nat, flags: nat)
    requires Growing(ram, m, n, r, lo, hi, flags)
    ensures MemOk(ram, n) && IsRoot(n.place, r) && hi < TRAPVPN && !IsValid(Leaf(n.tables, r, hi))
  {
    hide Grew, Only, FreshPages, MemOk, Leaf;
    NextPage(ram, n, r, hi);
  }

  lemma GrowingMore(ram: set<nat>, m: Mem, u: Mem, n: Mem, r: nat, lo: nat, hi: nat, p: nat, page: seq<Byte>,
          flags: nat)
    requires Growing(ram, m, u, r, lo, hi, flags) && PageAdded(ram, u, n, r, hi, p, page, flags)
    requires IsPageAddr(p) && flags < 1024 && IsValid(flags) && ZeroPage(page)
    ensures Growing(ram, m, n, r, lo, hi + 1, flags)
  {
    hide Grew, Only, FreshPages, MemOk, Leaf, ZeroPage, Sized, OtherTables;
    NextPage(ram, u, r, hi);
    GrewMore(ram, m, u, n, r, lo, hi, p, page, flags);
    FreshMore(ram, u, n, r, lo, hi, p, page, flags);
    SizedGrew(ram, m, n, r, lo, hi + 1);
  }

  /** A page could not be added, before uvmdealloc and after it. */
  lemma GrowingFails(ram: set<nat>, m: Mem, u: Mem, w: Mem, r: nat, lo: nat, hi: nat, flags: nat)
    requires Growing(ram, m, u, r, lo, hi, flags) && Restored(ram, u, w, r)
    ensures MemOk(ram, w) && Sized(w, r, hi) && Grew(ram, m, w, r, lo, hi)
  {
    hide Grew, Only, FreshPages, Leaf, Core, Held, OtherTables;
    SizedRestored(ram, u, w, r, hi);
    GrewRestored(ram, m, u, w, r, lo, hi);
  }

  lemma GrowingUndone(ram: set<nat>, m: Mem, w: Mem, n: Mem, r: nat, lo: nat, hi: nat)
    requires Sized(m, r, lo) && Grew(ram, m, w, r, lo, hi) && hi <= TRAPVPN
    requires (lo == hi && n == w) || Unmapped(ram, w, n, r, lo, hi, true)
    ensures MemOk(ram, n) && Sized(n, r, lo) && Only(m, n, r)
    ensures Restored(ram, m, n, r) && |n.free| == |w.free| + (hi - lo)
  {
    hide Grew, Only, Leaf, Core, Held, Sized, Unmapped, OtherTables;
    GrewDealloc(ram, m, w, n, r, lo, hi);
    GrewStart(ram, m, w, r, lo, hi);
    SizedRestored(ram, m, n, r, lo);
  }

  lemma GrewStart(ram: set<nat>, m: Mem, n: Mem, r: nat, lo: nat, hi: nat)
    requires Grew(ram, m, n, r, lo, hi)
    ensures MemOk(ram, m) && lo <= hi
  {
    hide Core, Held, Leaf, OtherTables;
  }

  // ------------------------------------------------------------------------------- copying

  /** Page v of r has the flags and the contents that page v of `from` had. */
  ghost predicate SamePage(m: Mem, n: Mem, from: nat, r: nat, v: nat) {
    var was, now := Leaf(m.tables, from, v), Leaf(n.tables, r, v);
    && PteFlags(now) == PteFlags(was)
    && PteAddr(was) in m.data && PteAddr(now) in n.data && n.data[PteAddr(now)] == m.data[PteAddr(was)]
  }

  ghost predicate Copied(m: Mem, n: Mem, from: nat, r: nat, k: nat) {
    forall v: nat :: v < k ==> SamePage(m, n, from, r, v)
  }

  /** uvmcopy's loop: the first k pages copied. */
  ghost predicate Copying(ram: set<nat>, m: Mem, n: Mem, from: nat, r: nat, k: nat) {
    && MemOk(ram, n) && Sized(m, r, 0) && Sized(n, r, k)
    && Grew(ram, m, n, r, 0, k) && Only(m, n, r) && Copied(m, n, from, r, k)
  }

  lemma CopyingStarts(ram: set<nat>, m: Mem, from: nat, r: nat)
    requires MemOk(ram, m) && Sized(m, r, 0)
    ensures Copying(ram, m, m, from, r, 0)
  {
    hide Grew, Only, Core, Held, Leaf;
    GrewNothing(ram, m, r, 0);
    OnlyNothing(ram, m, r);
  }

  /** The parent's page is where it was, so it can be copied. */
  lemma CopyingFacts(ram: set<nat>, m: Mem, n: Mem, from: nat, r: nat, k: nat, size: nat)
    requires Copying(ram, m, n, from, r, k) && from != r && Sized(m, from, size) && k < size
    ensures MemOk(ram, n) && IsRoot(n.place, r) && IsRoot(n.place, from) && k < TRAPVPN
    ensures !IsValid(Leaf(n.tables, r, k))
    ensures var leaf := Leaf(n.tables, from, k);
            && leaf == Leaf(m.tables, from, k) && IsValid(leaf) && PTE_V < PteFlags(leaf) < 1024
            && PteAddr(leaf) in n.data && PteAddr(leaf) in m.data && n.data[PteAddr(leaf)] == m.data[PteAddr(leaf)]
            && |n.data[PteAddr(leaf)]| == PGSIZE && WithValid(PteFlags(leaf)) == PteFlags(leaf)
  {
    hide Only, Copied, Leaf, OtherTables, Trees;
    NextPage(ram, n, r, k);
    GrewStart(ram, m, n, r, 0, k);
    assert LeafHeld(m, from, k);
    var leaf := Leaf(m.tables, from, k);
    assert leaf % 2 == 1 ==> PteFlags(leaf) % 2 == 1;
  }

  lemma CopyingMore(ram: set<nat>, m: Mem, u: Mem, n: Mem, from: nat, r: nat, k: nat, p: nat)
    requires Copying(ram, m, u, from, r, k) && from != r
    requires var leaf := Leaf(m.tables, from, k);
             && PteAddr(leaf) in m.data && IsPageAddr(p) && IsValid(PteFlags(leaf))
             && PageAdded(ram, u, n, r, k, p, m.data[PteAddr(leaf)], PteFlags(leaf))
    ensures Copying(ram, m, n, from, r, k + 1)
  {
    hide Grew, Only, MemOk, Leaf, Sized, OtherTables, Pte, PteAddr;
    var leaf := Leaf(m.tables, from, k);
    NextPage(ram, u, r, k);
    GrewMore(ram, m, u, n, r, 0, k, p, m.data[PteAddr(leaf)], PteFlags(leaf));
    PteRoundTrip(p, PteFlags(leaf));
    SizedGrew(ram, m, n, r, 0, k + 1);
    forall v: nat | v < k + 1 ensures SamePage(m, n, from, r, v) {
      if v < k {
        assert SamePage(m, u, from, r, v);
        assert Leaf(n.tables, r, v) == Leaf(u.tables, r, v);
      }
    }
  }

  lemma CopyingFails(ram: set<nat>, m: Mem, u: Mem, w: Mem, from: nat, r: nat, k: nat)
    requires Copying(ram, m, u, from, r, k) && Restored(ram, u, w, r)
    ensures MemOk(ram, w) && Sized(w, r, k) && Grew(ram, m, w, r, 0, k)
  {
    hide Grew, Only, Copied, Leaf, Core, Held, OtherTables;
    SizedRestored(ram, u, w, r, k);
    GrewRestored(ram, m, u, w, r, 0, k);
  }

  // ------------------------------------------------------------------- taking a space down

  /** A table cleared or freed: memory otherwise the same. */
  ghost predicate SameData(m: Mem, n: Mem) {
    n.data == m.data && n.holder == m.holder
  }

  lemma PartitionStore(ram: set<nat>, m: Mem, t: nat, page: seq<nat>)
    requires Partition(ram, m) && t in m.tables
    ensures Partition(ram, m.(tables := m.tables[t := page]))
  {
  }

  lemma GivenTable(ram: set<nat>, m: Mem, t: nat)
    requires Partition(ram, m) && t in m.tables
    ensures Given(m, t).data == m.data && Given(m, t).holder == m.holder
  {
    assert m.data - {t} == m.data && m.holder - {t} == m.holder;
  }

  /** Address space r, its tables and its pages are free again; everything else is as it was. */
  ghost predicate Gone(ram: set<nat>, m: Mem, n: Mem, r: nat) {
    && MemOk(ram, n) && IsRoot(m.place, r)
    && Pruned(m.tables, m.place, n.tables, n.place, r)
    && n.data == m.data - UserRange(m, r, 0, TRAPVPN)
    && n.holder == m.holder - UserRange(m, r, 0, TRAPVPN)
  }

  /** Nothing but the order of the free list has changed. */
  ghost predicate Unchanged(m: Mem, n: Mem) {
    && n.tables == m.tables && n.place == m.place && n.data == m.data && n.holder == m.holder
    && forall p :: p in n.free <==> p in m.free
  }

  /** The tree can be walked down once its map is empty. */
  lemma EmptySpace(ram: set<nat>, m: Mem, r: nat)
    requires MemOk(ram, m) && Sized(m, r, 0) && Leaf(m.tables, r, TRAPVPN) == 0 == Leaf(m.tables, r, TRAMPVPN)
    ensures Core(ram, m) && r in m.tables && NoLeaves(m.tables, m.place, r)
  {
    hide Partition, Leaf, PteAddr, PteFlags, IsUser, UpLinks, DownLinks, NoLeaves;
    forall v: nat | v < NVPN ensures !IsValid(Leaf(m.tables, r, v)) {
      assert LeafHeld(m, r, v);
    }
    EmptyMap(m.tables, m.place, r);
  }

  /** freewalk of an empty address space. */
  lemma WalkedDown(ram: set<nat>, m: Mem, n: Mem, r: nat)
    requires MemOk(ram, m) && Sized(m, r, 0) && Partition(ram, n) && SameData(m, n)
    requires Pruned(m.tables, m.place, n.tables, n.place, r)
    ensures Gone(ram, m, n, r)
  {
    hide Partition, Leaf, Pruned, Trees, PteAddr, PteFlags, IsUser;
    PrunedRoot(m.tables, m.place, n.tables, n.place, r);
    NoUsers(ram, m, r);
    forall s, w: nat | IsRoot(n.place, s) && w < NVPN ensures LeafHeld(n, s, w) {
      assert LeafHeld(m, s, w);
    }
    forall q | q in n.holder ensures PageMapped(n, q) {
      assert PageMapped(m, q);
      assert q !in UserRange(m, r, 0, TRAPVPN);
    }
  }

  lemma NoUsers(ram: set<nat>, m: Mem, r: nat)
    requires MemOk(ram, m) && Sized(m, r, 0)
    ensures UserRange(m, r, 0, TRAPVPN) == {}
    ensures m.data - {} == m.data && m.holder - {} == m.holder
  {
    hide Core, Leaf, PteAddr, PteFlags, IsUser;
    forall p | p in m.holder ensures !InRange(m.holder[p], r, 0, TRAPVPN) {
      assert PageMapped(m, p);
    }
  }

  /** Unmapping part of an address space first makes no difference to what is left when it is gone. */
  lemma GoneAfterUnmap(ram: set<nat>, m: Mem, u: Mem, n: Mem, r: nat, lo: nat, hi: nat, freed: bool)
    requires Unmapped(ram, m, u, r, lo, hi, freed) && Gone(ram, u, n, r) && (freed ==> hi <= TRAPVPN)
    ensures Gone(ram, m, n, r)
  {
    hide Core, Held, Leaf, Below;
    PrunedAfter(ram, m, u, n, r);
    if freed {
      RangesUnion(m, u, r, lo, hi);
      MapMinusTwice(m.data, UserRange(m, r, lo, hi), UserRange(u, r, 0, TRAPVPN));
      MapMinusTwice(m.holder, UserRange(m, r, lo, hi), UserRange(u, r, 0, TRAPVPN));
    }
  }

  lemma RangesUnion(m: Mem, u: Mem, r: nat, lo: nat, hi: nat)
    requires u.holder == m.holder - UserRange(m, r, lo, hi) && hi <= TRAPVPN
    ensures UserRange(m, r, lo, hi) + UserRange(u, r, 0, TRAPVPN) == UserRange(m, r, 0, TRAPVPN)
  {
  }

  lemma PrunedAfter(ram: set<nat>, m: Mem, u: Mem, n: Mem, r: nat)
    requires Core(ram, m) && u.place == m.place && u.tables.Keys == m.tables.Keys && OtherTables(m, u, r)
    requires Pruned(u.tables, u.place, n.tables, n.place, r)
    ensures Pruned(m.tables, m.place, n.tables, n.place, r)
  {
    hide Partition, UpLinks, DownLinks, Below;
  }

  /** A new address space that comes to nothing leaves no trace. */
  lemma BackToStart(ram: set<nat>, m: Mem, w: Mem, n: Mem, r: nat)
    requires MemOk(ram, m) && r !in m.tables && MemOk(ram, w) && Only(m, w, r) && Gone(ram, w, n, r)
    ensures Unchanged(m, n)
  {
    hide Held, Leaf, Pruned, OtherTables, OtherData;
    BackTables(ram, m, w, n, r);
    BackData(ram, m, w, n, r);
    BackFree(ram, m, n);
  }

  lemma BackFree(ram: set<nat>, m: Mem, n: Mem)
    requires Partition(ram, m) && Partition(ram, n) && n.tables == m.tables && n.data == m.data
    ensures forall p :: p in n.free <==> p in m.free
  {
  }

  lemma BackTables(ram: set<nat>, m: Mem, w: Mem, n: Mem, r: nat)
    requires Core(ram, m) && r !in m.tables && Core(ram, w) && OtherTables(m, w, r)
    requires Pruned(w.tables, w.place, n.tables, n.place, r)
    ensures n.tables == m.tables && n.place == m.place
  {
    hide Partition, UpLinks, DownLinks, Below;
    forall x | x in m.tables ensures !InTree(m.place, x, r) {
      NotInTree(m.tables, m.place, x, r);
    }
    assert n.tables.Keys == m.tables.Keys;
    assert n.place.Keys == m.place.Keys;
  }

  lemma NotInTree(tables: Tables, place: map<nat, Place>, x: nat, r: nat)
    requires Trees(tables, place) && x in tables && r !in tables
    ensures !InTree(place, x, r)
  {
    hide DownLinks, Pte;
    assert place[x].level < 2 ==> place[x].parent in tables;
    assert place[x].level < 2 && place[place[x].parent].level < 2 ==> place[place[x].parent].parent in tables;
  }

  lemma BackData(ram: set<nat>, m: Mem, w: Mem, n: Mem, r: nat)
    requires MemOk(ram, m) && r !in m.tables && MemOk(ram, w) && OtherData(m, w, r)
    requires n.data == w.data - UserRange(w, r, 0, TRAPVPN) && n.holder == w.holder - UserRange(w, r, 0, TRAPVPN)
    ensures n.data == m.data && n.holder == m.holder
  {
    hide Core, Held, InRange;
    MemParts(ram, m);
    MemParts(ram, w);
    forall p | p in m.holder ensures !HeldBy(m, p, r) {
      NotHeldBy(ram, m, p, r);
    }
    forall p | p in w.holder ensures HeldBy(w, p, r) <==> InRange(w.holder[p], r, 0, TRAPVPN) {
      HeldInRange(ram, w, p, r);
    }
    assert n.data.Keys == m.data.Keys;
    assert n.holder.Keys == m.holder.Keys;
  }

  lemma NotHeldBy(ram: set<nat>, m: Mem, p: nat, r: nat)
    requires MemOk(ram, m) && r !in m.tables && p in m.holder
    ensures !HeldBy(m, p, r)
  {
    hide Leaf, PteAddr, PteFlags, IsUser, UpLinks, DownLinks;
    assert PageMapped(m, p);
  }

  lemma HeldInRange(ram: set<nat>, m: Mem, p: nat, r: nat)
    requires MemOk(ram, m) && p in m.holder
    ensures HeldBy(m, p, r) <==> InRange(m.holder[p], r, 0, TRAPVPN)
  {
    hide Core, Leaf, PteAddr, PteFlags, IsUser;
    assert PageMapped(m, p);
  }

  // -------------------------------------------------------- the two pages above user memory

  lemma OnlyMapOnly(ram: set<nat>, m: Mem, n: Mem, r: nat)
    requires OnlyMap(ram, m, n, r) && OtherLeaves(m, n, r)
    ensures Only(m, n, r)
  {
    hide Core, OtherTables, OtherLeaves;
  }

  /** The trampoline or the trapframe mapped, out of users' reach. */
  lemma TopMapped(ram: set<nat>, m: Mem, n: Mem, r: nat, v: nat, pa: nat, flags: nat)
    requires MemOk(ram, m) && MappedRun(ram, m, n, r, v, 1, pa, flags) && TRAPVPN <= v < MAXVPN
    requires IsPageAddr(pa) && flags < 1024 && IsValid(flags) && flags != PTE_V && !IsUser(flags)
    ensures MemOk(ram, n) && Only(m, n, r) && LeafChange(m, n, r, v, Pte(pa, flags))
  {
    hide Core, Held, Leaf, Pte, PteAddr, PteFlags, IsUser, OtherTables;
    PteRoundTrip(pa, flags);
    assert Leaf(n.tables, r, v) == Pte(pa + (v - v) * PGSIZE, flags);
    HeldTop(m, n, r, v, Pte(pa, flags));
    OnlyMapOnly(ram, m, n, r);
  }

  lemma TopFailed(ram: set<nat>, m: Mem, n: Mem, r: nat, v: nat, pa: nat, flags: nat)
    requires MemOk(ram, m) && MappedRun(ram, m, n, r, v, 0, pa, flags)
    ensures MemOk(ram, n) && Only(m, n, r)
    ensures forall w: nat :: w < NVPN ==> Leaf(n.tables, r, w) == Leaf(m.tables, r, w)
    ensures IsRoot(n.place, r)
  {
    hide Core, Held, Leaf, Pte, OtherTables;
    HeldSame(m, n);
    OnlyMapOnly(ram, m, n, r);
  }

  lemma TopUnmapped(ram: set<nat>, m: Mem, n: Mem, r: nat, v: nat)
    requires MemOk(ram, m) && Unmapped(ram, m, n, r, v, v + 1, false) && TRAPVPN <= v < MAXVPN
    ensures MemOk(ram, n) && Only(m, n, r) && LeafChange(m, n, r, v, 0)
  {
    hide Core, Held, Leaf, OtherTables;
    HeldTop(m, n, r, v, 0);
  }

  lemma SizedTop(m: Mem, n: Mem, r: nat, v: nat, pte: nat, size: nat)
    requires Sized(m, r, size) && LeafChange(m, n, r, v, pte) && v >= TRAPVPN
    ensures Sized(n, r, size)
  {
    hide Leaf;
  }

  lemma SizedNothing(ram: set<nat>, m: Mem, r: nat)
    requires IsRoot(m.place, r) && forall v: nat :: v < TRAPVPN ==> Leaf(m.tables, r, v) == 0
    ensures Sized(m, r, 0)
  {
    hide Leaf;
    assert !IsValid(0);
  }

  /** An address space as a process has it: user pages, trapframe and trampoline. */
  ghost predicate Space(m: Mem, r: nat, size: nat, tramp: nat, trapframe: nat) {
    && Sized(m, r, size)
    && Leaf(m.tables, r, TRAMPVPN) == Pte(tramp, PTE_V + PTE_R + PTE_X)
    && Leaf(m.tables, r, TRAPVPN) == Pte(trapframe, PTE_V + PTE_R + PTE_W)
  }

  // ------------------------------------------------------------------------ bytes of a space

  /** The byte at a virtual address, through the map. */
  ghost function ByteAt(m: Mem, r: nat, va: nat): Byte {
    var p := PteAddr(Leaf(m.tables, r, va / PGSIZE));
    if p in m.data && |m.data[p]| == PGSIZE then m.data[p][va % PGSIZE] else 0
  }

  /** A user may read the address, or write it. */
  ghost predicate Access(m: Mem, r: nat, va: nat, write: bool) {
    var leaf := Leaf(m.tables, r, va / PGSIZE);
    va < MAXVA && IsValid(leaf) && IsUser(leaf) && (write ==> IsWritable(leaf))
  }

  /** Memory differs in data pages of r only: the bytes from va are as given, all other user bytes as before. */
  ghost predicate Wrote(m: Mem, n: Mem, r: nat, va: nat, bytes: seq<Byte>) {
    && n == m.(data := n.data) && n.data.Keys == m.data.Keys
    && (forall p :: p in m.data ==> |n.data[p]| == |m.data[p]|)
    && (forall p :: p in m.data && !HeldBy(m, p, r) ==> n.data[p] == m.data[p])
    && (forall s, a: nat :: IsRoot(m.place, s) && a / PGSIZE < TRAPVPN ==>
          ByteAt(n, s, a) == if s == r && va <= a < va + |bytes| then bytes[a - va] else ByteAt(m, s, a))
  }

  lemma AccessPage(ram: set<nat>, m: Mem, r: nat, va: nat, write: bool)
    requires MemOk(ram, m) && IsRoot(m.place, r) && Access(m, r, va, write)
    ensures var p := PteAddr(Leaf(m.tables, r, va / PGSIZE));
            && p != 0 && p in m.data && |m.data[p]| == PGSIZE && va / PGSIZE < TRAPVPN
            && p in m.holder && m.holder[p] == User(r, va / PGSIZE)
  {
    hide Leaf, PteAddr, PteFlags, IsUser, Trees;
    assert LeafHeld(m, r, va / PGSIZE);
  }

  /** Writing part of one user page. */
  lemma WrotePage(ram: set<nat>, m: Mem, r: nat, va: nat, bytes: seq<Byte>)
    requires MemOk(ram, m) && IsRoot(m.place, r) && Access(m, r, va, false)
    requires va % PGSIZE + |bytes| <= PGSIZE
    ensures var p, o := PteAddr(Leaf(m.tables, r, va / PGSIZE)), va % PGSIZE;
            && p in m.data && |m.data[p]| == PGSIZE
            && var page := m.data[p][..o] + bytes + m.data[p][o + |bytes|..];
            Wrote(m, m.(data := m.data[p := page]), r, va, bytes)
  {
    hide Leaf, PteAddr, PteFlags, MemOk, Access;
    AccessPage(ram, m, r, va, false);
    var v, o := va / PGSIZE, va % PGSIZE;
    var p := PteAddr(Leaf(m.tables, r, v));
    var page := m.data[p][..o] + bytes + m.data[p][o + |bytes|..];
    var n := m.(data := m.data[p := page]);
    forall s, a: nat | IsRoot(m.place, s) && a / PGSIZE < TRAPVPN
      ensures ByteAt(n, s, a) == if s == r && va <= a < va + |bytes| then bytes[a - va] else ByteAt(m, s, a)
    {
      assert va <= a < va + |bytes| ==> a / PGSIZE == v;
      if PteAddr(Leaf(m.tables, s, a / PGSIZE)) == p {
        OnePage(ram, m, s, a / PGSIZE, r, v);
      }
    }
  }

  /** A data page held for a user page is reached through no other user page. */
  lemma OnePage(ram: set<nat>, m: Mem, s: nat, w: nat, r: nat, v: nat)
    requires MemOk(ram, m) && IsRoot(m.place, s) && w < TRAPVPN
    requires var p := PteAddr(Leaf(m.tables, s, w)); p != 0 && p in m.holder && m.holder[p] == User(r, v)
    ensures s == r && w == v
  {
    hide Core, Leaf, PteFlags, IsUser;
    assert LeafHeld(m, s, w);
  }

  lemma WroteTwice(m: Mem, u: Mem, n: Mem, r: nat, va: nat, a: seq<Byte>, b: seq<Byte>)
    requires Wrote(m, u, r, va, a) && Wrote(u, n, r, va + |a|, b)
    ensures Wrote(m, n, r, va, a + b)
  {
    hide ByteAt;
    forall s, x: nat | IsRoot(m.place, s) && x / PGSIZE < TRAPVPN
      ensures ByteAt(n, s, x) == if s == r && va <= x < va + |a + b| then (a + b)[x - va] else ByteAt(m, s, x)
    {
      assert ByteAt(u, s, x) == if s == r && va <= x < va + |a| then a[x - va] else ByteAt(m, s, x);
    }
  }

  lemma WroteNothing(m: Mem, r: nat, va: nat)
    ensures Wrote(m, m, r, va, [])
  {
  }

  lemma WroteOk(ram: set<nat>, m: Mem, n: Mem, r: nat, va: nat, bytes: seq<Byte>)
    requires MemOk(ram, m) && Wrote(m, n, r, va, bytes)
    ensures MemOk(ram, n) && Only(m, n, r)
    ensures forall a: nat, w: bool :: Access(n, r, a, w) <==> Access(m, r, a, w)
  {
    hide Trees, Leaf, ByteAt, PteAddr, PteFlags, IsUser, Below;
    TreesFacts(m.tables, m.place);
    WroteHeld(m, n);
    assert Partition(ram, n);
  }

  lemma WroteHeld(m: Mem, n: Mem)
    requires Held(m) && n == m.(data := n.data)
    ensures Held(n)
  {
    hide Leaf;
    HeldSame(m, n);
  }

  /** copyin after copyout: every byte is readable and is the byte written. */
  lemma ReadBack(ram: set<nat>, m: Mem, n: Mem, r: nat, va: nat, bytes: seq<Byte>, i: nat)
    requires MemOk(ram, m) && IsRoot(m.place, r) && Wrote(m, n, r, va, bytes) && i < |bytes|
    requires Access(m, r, va + i, true)
    ensures Access(n, r, va + i, false) && ByteAt(n, r, va + i) == bytes[i]
  {
    hide ByteAt;
    AccessPage(ram, m, r, va + i, true);
  }

  /** Addresses on one page are accessible together. */
  lemma SamePageAccess(m: Mem, r: nat, a: nat, b: nat, write: bool)
    requires Access(m, r, a, write) && a / PGSIZE == b / PGSIZE
    ensures Access(m, r, b, write)
  {
    hide Leaf;
  }

  ghost predicate Writable(m: Mem, r: nat, lo: nat, hi: nat) {
    forall a: nat :: lo <= a < hi ==> Access(m, r, a, true)
  }

  /** The bytes of an address space from va on. */
  ghost predicate ReadsAs(m: Mem, r: nat, va: nat, bytes: seq<Byte>) {
    forall a: nat :: va <= a < va + |bytes| ==> Access(m, r, a, false) && bytes[a - va] == ByteAt(m, r, a)
  }

  lemma ReadMore(ram: set<nat>, m: Mem, r: nat, va: nat, got: seq<Byte>, n: nat)
    requires MemOk(ram, m) && IsRoot(m.place, r) && ReadsAs(m, r, va, got)
    requires Access(m, r, va + |got|, false) && (va + |got|) % PGSIZE + n <= PGSIZE
    ensures var p, o := PteAddr(Leaf(m.tables, r, (va + |got|) / PGSIZE)), (va + |got|) % PGSIZE;
            && p in m.data && |m.data[p]| == PGSIZE
            && ReadsAs(m, r, va, got + m.data[p][o..o + n])
  {
    hide MemOk, Leaf, PteAddr, Access;
    var pos := va + |got|;
    AccessPage(ram, m, r, pos, false);
    var p, o := PteAddr(Leaf(m.tables, r, pos / PGSIZE)), pos % PGSIZE;
    var more := m.data[p][o..o + n];
    forall a: nat | va <= a < va + |got + more|
      ensures Access(m, r, a, false) && (got + more)[a - va] == ByteAt(m, r, a)
    {
      if a >= pos {
        assert a / PGSIZE == pos / PGSIZE && a % PGSIZE == o + (a - pos);
        SamePageAccess(m, r, pos, a, false);
        assert (got + more)[a - va] == more[a - pos] == m.data[p][o + (a - pos)] == ByteAt(m, r, a);
      }
    }
  }

  /** A string of k bytes, ended by a NUL, that a user may read at va. */
  ghost predicate StringAt(m: Mem, r: nat, va: nat, k: nat) {
    && (forall a: nat :: va <= a < va + k ==> Access(m, r, a, false) && ByteAt(m, r, a) != 0)
    && Access(m, r, va + k, false) && ByteAt(m, r, va + k) == 0
  }

  predicate NoNul(s: seq<Byte>) {
    forall i :: 0 <= i < |s| ==> s[i] != 0
  }

  lemma IsString(m: Mem, r: nat, va: nat, s: seq<Byte>)
    requires ReadsAs(m, r, va, s + [0]) && NoNul(s)
    ensures StringAt(m, r, va, |s|)
  {
    hide Access, ByteAt;
    forall a: nat | va <= a < va + |s| ensures Access(m, r, a, false) && ByteAt(m, r, a) != 0 {
      assert (s + [0])[a - va] == s[a - va];
    }
    assert (s + [0])[|s|] == 0;
  }

  /** Bytes with no NUL among them, followed by one that may not be read or may not be asked for. */
  lemma IsNoString(m: Mem, r: nat, va: nat, s: seq<Byte>, max: nat, k: nat)
    requires ReadsAs(m, r, va, s) && NoNul(s) && (|s| >= max || !Access(m, r, va + |s|, false)) && k < max
    ensures !StringAt(m, r, va, k)
  {
    hide Access, ByteAt;
    if k < |s| {
      assert s[k] == ByteAt(m, r, va + k);
    }
  }

  // ---------------------------------------------------------------------- user permission

  /** A user may reach each of the first k pages. */
  ghost predicate AllUser(m: Mem, r: nat, k: nat) {
    forall v: nat :: v < k ==> IsUser(Leaf(m.tables, r, v))
  }

  lemma UserFlag(pte: nat)
    ensures IsUser(pte) <==> IsUser(PteFlags(pte))
    ensures IsWritable(pte) <==> IsWritable(PteFlags(pte))
  {
    PteParts(pte / 1024, pte % 1024);
  }

  lemma FreshUser(ram: set<nat>, m: Mem, n: Mem, r: nat, lo: nat, hi: nat, flags: nat)
    requires AllUser(m, r, lo) && Grew(ram, m, n, r, lo, hi) && hi <= TRAPVPN
    requires FreshPages(n, r, lo, hi, flags) && IsUser(flags)
    ensures AllUser(n, r, hi)
  {
    hide Leaf, PteFlags, PteAddr, IsUser, MemOk, OtherTables, GrewData;
    forall v: nat | v < hi ensures IsUser(Leaf(n.tables, r, v)) {
      if v >= lo {
        UserFlag(Leaf(n.tables, r, v));
      }
    }
  }

  /** A mapped page with the user bit can be accessed. */
  lemma UserAccess(m: Mem, r: nat, size: nat, va: nat)
    requires Sized(m, r, size) && AllUser(m, r, size) && va < size * PGSIZE
    ensures Access(m, r, va, false)
  {
    hide Leaf, IsUser;
    assert va / PGSIZE < size;
  }

  function WithoutUser(pte: nat): nat {
    if IsUser(pte) && pte >= PTE_U then pte - PTE_U else pte
  }

  /** Clearing the user bit leaves everything else in the entry alone. */
  lemma ClearedBits(pte: nat)
    ensures PteAddr(WithoutUser(pte)) == PteAddr(pte) && IsValid(WithoutUser(pte)) == IsValid(pte)
    ensures !IsUser(WithoutUser(pte)) && PteFlags(WithoutUser(pte)) == WithoutUser(PteFlags(pte))
  {
    hide IsUser;
    UserFlag(pte);
    var q, f := pte / 1024, pte % 1024;
    ClearedSplit(f);
    PteParts(q, f);
    PteParts(q, WithoutUser(f));
    UserFlag(q * 1024 + WithoutUser(f));
  }

  lemma ClearedSplit(f: nat)
    ensures WithoutUser(f) <= f && !IsUser(WithoutUser(f)) && WithoutUser(f) % 2 == f % 2
    ensures IsUser(f) ==> f >= PTE_U
  {
    if IsUser(f) {
      LowerBits(f);
    }
  }

  lemma LowerBits(f: nat)
    requires IsUser(f)
    ensures f >= PTE_U && !IsUser(f - PTE_U) && (f - PTE_U) % 2 == f % 2
  {
    var q, r := f / PTE_U, f % PTE_U;
    Common.Euclid(f, PTE_U);
    Common.DivUnique(f - PTE_U, PTE_U, q - 1, r);
    Common.Euclid(q, 2);
    Common.DivUnique(q - 1, 2, q / 2, 0);
  }

  /** uvmclear: the page stays mapped and held, out of the user's reach. */
  lemma ClearedOk(ram: set<nat>, m: Mem, n: Mem, r: nat, v: nat, size: nat)
    requires MemOk(ram, m) && Sized(m, r, size) && v < size && PteFlags(Leaf(m.tables, r, v)) != PTE_V + PTE_U
    requires OnlyMap(ram, m, n, r) && LeafChange(m, n, r, v, WithoutUser(Leaf(m.tables, r, v)))
    ensures MemOk(ram, n) && Sized(n, r, size) && Only(m, n, r)
  {
    hide Core, Leaf, PteAddr, PteFlags, IsUser, OtherTables;
    var leaf := Leaf(m.tables, r, v);
    assert LeafHeld(m, r, v);
    ClearedBits(leaf);
    ClearedFlags(PteFlags(leaf));
    forall s, w: nat | IsRoot(n.place, s) && w < NVPN ensures LeafHeld(n, s, w) {
      assert LeafHeld(m, s, w);
    }
    forall q | q in n.holder ensures PageMapped(n, q) {
      assert PageMapped(m, q);
    }
    OnlyMapOnly(ram, m, n, r);
  }

  lemma ClearedFlags(f: nat)
    requires f != PTE_V && f != PTE_V + PTE_U
    ensures WithoutUser(f) != PTE_V
  {
  }
}
