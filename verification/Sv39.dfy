/**
 Sv39 page tables as values (kernel/riscv.h, kernel/vm.c): page-table entries, the three
 index fields of a virtual page number, and trees of table pages in physical memory.

 A virtual page number stands for the 4096 addresses of its page; addresses are byte addresses.
 */
module Sv39 {
  const PGSIZE: nat := 4096
  const NPTE: nat := 512
  /** One beyond the highest virtual page number: MAXVA / PGSIZE. */
  const MAXVPN: nat := 0x400_0000
  const MAXVA: nat := MAXVPN * PGSIZE
  /** What three nine-bit indices can tell apart; the kernel uses the lower half. */
  const NVPN: nat := 2 * MAXVPN

  const PTE_V: nat := 1
  const PTE_R: nat := 2
  const PTE_W: nat := 4
  const PTE_X: nat := 8
  const PTE_U: nat := 16

  // --------------------------------------------------------------------------- entries

  function Pte(pa: nat, flags: nat): nat {
    pa / PGSIZE * 1024 + flags
  }

  function PteAddr(pte: nat): nat {
    pte / 1024 * PGSIZE
  }

  function PteFlags(pte: nat): nat {
    pte % 1024
  }

  predicate IsValid(pte: nat) {
    pte % 2 == 1
  }

  predicate IsReadable(pte: nat) {
    pte / PTE_R % 2 == 1
  }

  predicate IsWritable(pte: nat) {
    pte / PTE_W % 2 == 1
  }

  predicate IsExecutable(pte: nat) {
    pte / PTE_X % 2 == 1
  }

  predicate IsUser(pte: nat) {
    pte / PTE_U % 2 == 1
  }

  /** perm | PTE_V. */
  function WithValid(perm: nat): nat {
    if perm % 2 == 1 then perm else perm + 1
  }

  predicate IsPageAddr(pa: nat) {
    pa % PGSIZE == 0 && 0 < pa < 0x100_0000_0000_0000
  }

  /** PA2PTE and PTE2PA are inverse on page addresses, flags stay apart, and an entry fits 64 bits. */
  lemma PteRoundTrip(pa: nat, flags: nat)
    requires IsPageAddr(pa) && flags < 1024
    ensures PteAddr(Pte(pa, flags)) == pa && PteFlags(Pte(pa, flags)) == flags
    ensures IsValid(Pte(pa, flags)) == IsValid(flags) && IsUser(Pte(pa, flags)) == IsUser(flags)
    ensures IsWritable(Pte(pa, flags)) == IsWritable(flags)
    ensures Pte(pa, flags) < 0x1_0000_0000_0000_0000
  {
    var q := pa / PGSIZE;
    PteParts(q, flags);
    assert pa == q * PGSIZE;
  }

  lemma PteParts(q: nat, flags: nat)
    requires flags < 1024
    ensures (q * 1024 + flags) / 1024 == q && (q * 1024 + flags) % 1024 == flags
    ensures (q * 1024 + flags) % 2 == flags % 2
    ensures (q * 1024 + flags) / PTE_W % 2 == flags / PTE_W % 2
    ensures (q * 1024 + flags) / PTE_U % 2 == flags / PTE_U % 2
  {
    EvenOffset(q * 512, flags);
    WPart(q * 256, flags);
    EvenOffset(q * 128, flags / PTE_W);
    UPart(q * 64, flags);
    EvenOffset(q * 32, flags / PTE_U);
  }

  lemma WPart(n: nat, flags: nat)
    ensures (n * PTE_W + flags) / PTE_W == n + flags / PTE_W
  {
  }

  lemma UPart(n: nat, flags: nat)
    ensures (n * PTE_U + flags) / PTE_U == n + flags / PTE_U
  {
  }

  lemma RPart(n: nat, flags: nat)
    ensures (n * PTE_R + flags) / PTE_R == n + flags / PTE_R
  {
  }

  lemma XPart(n: nat, flags: nat)
    ensures (n * PTE_X + flags) / PTE_X == n + flags / PTE_X
  {
  }

  lemma EvenOffset(n: nat, k: nat)
    ensures (2 * n + k) % 2 == k % 2
  {
  }

  function RoundUp(sz: nat): nat {
    (sz + PGSIZE - 1) / PGSIZE * PGSIZE
  }

  /** The number of pages that sz bytes need. */
  function Pages(sz: nat): nat {
    (sz + PGSIZE - 1) / PGSIZE
  }

  // --------------------------------------------------------------------------- indices

  /** PX(level, va) of a virtual page number. */
  function Index(level: nat, vpn: nat): (i: nat)
    requires level <= 2
    ensures i < NPTE
  {
    if level == 2 then vpn / 262144 % NPTE else if level == 1 then vpn / NPTE % NPTE else vpn % NPTE
  }

  /** The three indices determine the page. */
  lemma IndexInjective(v: nat, w: nat)
    requires v < NVPN && w < NVPN
    requires Index(2, v) == Index(2, w) && Index(1, v) == Index(1, w) && Index(0, v) == Index(0, w)
    ensures v == w
  {
    Recompose(v);
    Recompose(w);
  }

  lemma Recompose(v: nat)
    requires v < NVPN
    ensures v == Index(2, v) * 262144 + Index(1, v) * NPTE + Index(0, v)
  {
    var n := v / NPTE;
    assert v == n * NPTE + Index(0, v);
    assert v / 262144 == n / NPTE;
  }

  // ----------------------------------------------------------------- trees of table pages

  /** Where a table page hangs: its level, and for levels below 2 its parent and entry there. */
  datatype Place = Place(level: nat, parent: nat, index: nat)

  type Tables = map<nat, seq<nat>>

  /** The table an entry leads to; 0 if the entry is not valid. */
  function Down(tables: Tables, t: nat, i: nat): nat {
    if t in tables && i < |tables[t]| && IsValid(tables[t][i]) then PteAddr(tables[t][i]) else 0
  }

  function Mid(tables: Tables, root: nat, vpn: nat): nat {
    Down(tables, root, Index(2, vpn))
  }

  function Low(tables: Tables, root: nat, vpn: nat): nat {
    Down(tables, Mid(tables, root, vpn), Index(1, vpn))
  }

  function EntryOf(tables: Tables, t: nat, i: nat): nat {
    if t in tables && i < |tables[t]| then tables[t][i] else 0
  }

  /** The abstract map: the leaf entry of a page, 0 if there is none. */
  function Leaf(tables: Tables, root: nat, vpn: nat): nat {
    EntryOf(tables, Low(tables, root, vpn), Index(0, vpn))
  }

  ghost predicate TablesOk(tables: Tables, place: map<nat, Place>) {
    && place.Keys == tables.Keys
    && forall t :: t in tables ==> |tables[t]| == NPTE && IsPageAddr(t) && place[t].level <= 2
  }

  /** Each table below a root is where its place says. */
  ghost predicate UpLinks(tables: Tables, place: map<nat, Place>)
    requires TablesOk(tables, place)
  {
    forall t :: t in tables && place[t].level < 2 ==>
      && place[t].parent in tables && place[place[t].parent].level == place[t].level + 1
      && place[t].index < NPTE && tables[place[t].parent][place[t].index] == Pte(t, PTE_V)
  }

  /** Each valid entry above the leaves leads to the table placed there. */
  ghost predicate DownLinks(tables: Tables, place: map<nat, Place>)
    requires TablesOk(tables, place)
  {
    forall t, i: nat :: t in tables && i < NPTE && place[t].level > 0 && IsValid(tables[t][i]) ==>
      && PteAddr(tables[t][i]) in tables
      && place[PteAddr(tables[t][i])] == Place(place[t].level - 1, t, i)
  }

  /** The table pages form disjoint three-level trees. */
  ghost predicate Trees(tables: Tables, place: map<nat, Place>) {
    TablesOk(tables, place) && UpLinks(tables, place) && DownLinks(tables, place)
  }

  ghost predicate IsRoot(place: map<nat, Place>, r: nat) {
    r in place && place[r].level == 2
  }

  /** Every page of every tree keeps its entry, except possibly page vpn of tree root. */
  ghost predicate SameLeavesBut(place: map<nat, Place>, a: Tables, b: Tables, root: nat, vpn: nat) {
    forall r, v: nat :: IsRoot(place, r) && v < NVPN && !(r == root && v == vpn) ==> Leaf(b, r, v) == Leaf(a, r, v)
  }

  ghost predicate SameLeaves(place: map<nat, Place>, a: Tables, b: Tables) {
    forall r, v: nat :: IsRoot(place, r) && v < NVPN ==> Leaf(b, r, v) == Leaf(a, r, v)
  }

  lemma DownPlace(tables: Tables, place: map<nat, Place>, t: nat, i: nat)
    requires Trees(tables, place) && t in tables && place[t].level > 0 && i < NPTE
    ensures Down(tables, t, i) != 0 ==>
              Down(tables, t, i) in tables && place[Down(tables, t, i)] == Place(place[t].level - 1, t, i)
    ensures IsValid(tables[t][i]) <==> Down(tables, t, i) != 0
    ensures 0 !in tables
  {
  }

  /** Where the tables on the way to a page hang. */
  lemma PathPlaces(tables: Tables, place: map<nat, Place>, r: nat, v: nat)
    requires Trees(tables, place) && IsRoot(place, r)
    ensures var m, t := Mid(tables, r, v), Low(tables, r, v);
            && 0 !in tables
            && (m != 0 ==> m in tables && place[m] == Place(1, r, Index(2, v)))
            && (t != 0 ==> m != 0 && t in tables && place[t] == Place(0, m, Index(1, v)))
  {
    hide Pte, Index;
    DownPlace(tables, place, r, Index(2, v));
    var m := Mid(tables, r, v);
    if m != 0 {
      DownPlace(tables, place, m, Index(1, v));
    }
  }

  /** A page's entry lies on no other page's path. */
  lemma PathsDisjoint(tables: Tables, place: map<nat, Place>, r: nat, v: nat, s: nat, w: nat)
    requires Trees(tables, place) && IsRoot(place, r) && IsRoot(place, s) && v < NVPN && w < NVPN
    requires Low(tables, r, v) != 0 && Low(tables, r, v) == Low(tables, s, w) && Index(0, v) == Index(0, w)
    ensures r == s && v == w
  {
    PathPlaces(tables, place, r, v);
    PathPlaces(tables, place, s, w);
    IndexInjective(v, w);
  }

  /** Storing in one entry of a table. */
  function Store(tables: Tables, t: nat, i: nat, pte: nat): Tables
    requires t in tables && i < |tables[t]|
  {
    var page: seq<nat> := tables[t][i := pte];
    tables[t := page]
  }

  lemma DownElsewhere(a: Tables, b: Tables, t: nat, i: nat)
    requires t in a <==> t in b
    requires t in a ==> |a[t]| == |b[t]| && (i < |a[t]| ==> a[t][i] == b[t][i])
    ensures Down(a, t, i) == Down(b, t, i) && EntryOf(a, t, i) == EntryOf(b, t, i)
  {
  }

  /** Writing a leaf entry changes the abstract map at that page and nowhere else. */
  lemma StoreLeaf(tables: Tables, place: map<nat, Place>, root: nat, vpn: nat, pte: nat)
    requires Trees(tables, place) && IsRoot(place, root) && vpn < MAXVPN && Low(tables, root, vpn) != 0
    ensures Low(tables, root, vpn) in tables && |tables[Low(tables, root, vpn)]| == NPTE
    ensures var b := Store(tables, Low(tables, root, vpn), Index(0, vpn), pte);
            Trees(b, place) && Leaf(b, root, vpn) == pte && SameLeavesBut(place, tables, b, root, vpn)
  {
    hide Pte, Index, PteAddr;
    PathPlaces(tables, place, root, vpn);
    var t, i := Low(tables, root, vpn), Index(0, vpn);
    var b := Store(tables, t, i, pte);
    StoreLow(tables, place, t, i, pte);
    forall r, v: nat | IsRoot(place, r) && v < NVPN
      ensures Leaf(b, r, v) == if r == root && v == vpn then pte else Leaf(tables, r, v)
    {
      PathPlaces(tables, place, r, v);
      LowSame(tables, place, t, i, pte, r, v);
      if Low(tables, r, v) == t && Index(0, v) == i {
        PathsDisjoint(tables, place, r, v, root, vpn);
      }
    }
  }

  lemma StoreLow(tables: Tables, place: map<nat, Place>, t: nat, i: nat, pte: nat)
    requires Trees(tables, place) && t in tables && place[t].level == 0 && i < NPTE
    ensures Trees(Store(tables, t, i, pte), place)
  {
  }

  lemma LowSame(tables: Tables, place: map<nat, Place>, t: nat, i: nat, pte: nat, r: nat, v: nat)
    requires Trees(tables, place) && IsRoot(place, r) && t in tables && place[t].level == 0 && i < NPTE
    ensures Low(Store(tables, t, i, pte), r, v) == Low(tables, r, v)
  {
    hide Pte, Index, PteAddr;
    var b := Store(tables, t, i, pte);
    PathPlaces(tables, place, r, v);
    DownElsewhere(tables, b, r, Index(2, v));
    DownElsewhere(tables, b, Mid(tables, r, v), Index(1, v));
  }

  // ------------------------------------------------------------------- growing a tree

  ghost predicate AllZero(page: seq<nat>) {
    |page| == NPTE && forall i :: 0 <= i < NPTE ==> page[i] == 0
  }

  /** Hanging a fresh zeroed table in an invalid entry changes no page's entry. */
  lemma AddTable(tables: Tables, place: map<nat, Place>, t: nat, i: nat, c: nat, page: seq<nat>)
    requires Trees(tables, place) && t in tables && place[t].level > 0 && i < NPTE && !IsValid(tables[t][i])
    requires c !in tables && IsPageAddr(c) && AllZero(page)
    ensures var b := Store(tables, t, i, Pte(c, PTE_V))[c := page];
            var p := place[c := Place(place[t].level - 1, t, i)];
            && Trees(b, p) && SameLeaves(place, tables, b) && Down(b, t, i) == c
            && (forall r :: IsRoot(p, r) <==> IsRoot(place, r))
  {
    hide Index, Leaf;
    var b := Store(tables, t, i, Pte(c, PTE_V))[c := page];
    AddTableTrees(tables, place, t, i, c, page);
    PteRoundTrip(c, PTE_V);
    forall r, v: nat | IsRoot(place, r) && v < NVPN ensures Leaf(b, r, v) == Leaf(tables, r, v) {
      AddTableLeaf(tables, place, t, i, c, page, r, v);
    }
  }

  ghost function Grown(tables: Tables, t: nat, i: nat, c: nat, page: seq<nat>): Tables
    requires t in tables && i < |tables[t]|
  {
    Store(tables, t, i, Pte(c, PTE_V))[c := page]
  }

  lemma AddTableTrees(tables: Tables, place: map<nat, Place>, t: nat, i: nat, c: nat, page: seq<nat>)
    requires Trees(tables, place) && t in tables && place[t].level > 0 && i < NPTE && !IsValid(tables[t][i])
    requires c !in tables && IsPageAddr(c) && AllZero(page)
    ensures Trees(Grown(tables, t, i, c, page), place[c := Place(place[t].level - 1, t, i)])
  {
    hide Pte, PteAddr, UpLinks, DownLinks;
    AddTableUp(tables, place, t, i, c, page);
    AddTableDown(tables, place, t, i, c, page);
  }

  lemma AddTableUp(tables: Tables, place: map<nat, Place>, t: nat, i: nat, c: nat, page: seq<nat>)
    requires Trees(tables, place) && t in tables && place[t].level > 0 && i < NPTE && !IsValid(tables[t][i])
    requires c !in tables && IsPageAddr(c) && AllZero(page)
    ensures var b, p := Grown(tables, t, i, c, page), place[c := Place(place[t].level - 1, t, i)];
            TablesOk(b, p) && UpLinks(b, p)
  {
    hide Pte, PteAddr, DownLinks, IsPageAddr;
    var b, p := Grown(tables, t, i, c, page), place[c := Place(place[t].level - 1, t, i)];
    assert TablesOk(b, p);
    forall x | x in b && p[x].level < 2
      ensures p[x].parent in b && p[p[x].parent].level == p[x].level + 1
      ensures p[x].index < NPTE && b[p[x].parent][p[x].index] == Pte(x, PTE_V)
    {
      if x != c {
        PteRoundTrip(x, PTE_V);
        assert x in tables && IsValid(tables[place[x].parent][place[x].index]);
      }
    }
  }

  lemma AddTableDown(tables: Tables, place: map<nat, Place>, t: nat, i: nat, c: nat, page: seq<nat>)
    requires Trees(tables, place) && t in tables && place[t].level > 0 && i < NPTE && !IsValid(tables[t][i])
    requires c !in tables && IsPageAddr(c) && AllZero(page)
    ensures var b, p := Grown(tables, t, i, c, page), place[c := Place(place[t].level - 1, t, i)];
            TablesOk(b, p) && DownLinks(b, p)
  {
    hide Pte, PteAddr, UpLinks;
    PteRoundTrip(c, PTE_V);
  }

  lemma AddTableLeaf(tables: Tables, place: map<nat, Place>, t: nat, i: nat, c: nat, page: seq<nat>, r: nat, v: nat)
    requires Trees(tables, place) && t in tables && place[t].level > 0 && i < NPTE && !IsValid(tables[t][i])
    requires c !in tables && IsPageAddr(c) && AllZero(page) && IsRoot(place, r)
    ensures Leaf(Store(tables, t, i, Pte(c, PTE_V))[c := page], r, v) == Leaf(tables, r, v)
  {
    hide Pte, PteAddr, Index;
    PteRoundTrip(c, PTE_V);
    var b := Store(tables, t, i, Pte(c, PTE_V))[c := page];
    PathPlaces(tables, place, r, v);
    if r == t && Index(2, v) == i {
      assert Mid(b, r, v) == c;
    } else {
      DownElsewhere(tables, b, r, Index(2, v));
      var m := Mid(tables, r, v);
      if m == t && Index(1, v) == i {
        assert Low(b, r, v) == c;
      } else {
        assert m != c;
        DownElsewhere(tables, b, m, Index(1, v));
        if Low(tables, r, v) != 0 {
          DownElsewhere(tables, b, Low(tables, r, v), Index(0, v));
        }
      }
    }
  }

  /** A fresh zeroed root maps nothing and changes no other tree. */
  lemma AddRoot(tables: Tables, place: map<nat, Place>, c: nat, page: seq<nat>)
    requires Trees(tables, place) && c !in tables && IsPageAddr(c) && AllZero(page)
    ensures var b, p := tables[c := page], place[c := Place(2, 0, 0)];
            && Trees(b, p) && SameLeaves(place, tables, b) && (forall v: nat :: Leaf(b, c, v) == 0)
  {
    hide Leaf;
    var b, p := tables[c := page], place[c := Place(2, 0, 0)];
    AddRootTrees(tables, place, c, page);
    forall r, v: nat | IsRoot(place, r) && v < NVPN ensures Leaf(b, r, v) == Leaf(tables, r, v) {
      AddRootLeaf(tables, place, c, page, r, v);
    }
    forall v: nat ensures Leaf(b, c, v) == 0 {
      NewRootLeaf(tables, c, page, v);
    }
  }

  lemma AddRootTrees(tables: Tables, place: map<nat, Place>, c: nat, page: seq<nat>)
    requires Trees(tables, place) && c !in tables && IsPageAddr(c) && AllZero(page)
    ensures Trees(tables[c := page], place[c := Place(2, 0, 0)])
  {
    hide Pte, PteAddr;
  }

  lemma AddRootLeaf(tables: Tables, place: map<nat, Place>, c: nat, page: seq<nat>, r: nat, v: nat)
    requires Trees(tables, place) && c !in tables && c != 0 && IsRoot(place, r)
    ensures Leaf(tables[c := page], r, v) == Leaf(tables, r, v)
  {
    hide Pte, PteAddr, Index;
    PathPlaces(tables, place, r, v);
  }

  lemma NewRootLeaf(tables: Tables, c: nat, page: seq<nat>, v: nat)
    requires 0 !in tables && c != 0 && AllZero(page)
    ensures Leaf(tables[c := page], c, v) == 0
  {
    assert page[Index(2, v)] == 0;
    assert Mid(tables[c := page], c, v) == 0;
  }

  // ------------------------------------------------------------------- taking a tree down

  /** Table x hangs below table t. */
  ghost predicate Below(place: map<nat, Place>, x: nat, t: nat) {
    && x in place && place[x].level < 2
    && (|| place[x].parent == t
        || (place[x].parent in place && place[place[x].parent].level < 2 && place[place[x].parent].parent == t))
  }

  /** T is S without table t and everything below it. */
  ghost predicate Pruned(S: Tables, p: map<nat, Place>, T: Tables, q: map<nat, Place>, t: nat) {
    && q.Keys == T.Keys
    && (forall x :: x in T <==> x in S && x != t && !Below(p, x, t))
    && (forall x :: x in T ==> x in p && T[x] == S[x] && q[x] == p[x])
  }

  /** Clearing the entry that led to a pruned table leaves trees again. */
  lemma PrunedTrees(S: Tables, p: map<nat, Place>, T: Tables, q: map<nat, Place>, t: nat)
    requires Trees(S, p) && t in S && p[t].level < 2 && Pruned(S, p, T, q, t)
    ensures p[t].parent in T && p[t].index < |T[p[t].parent]|
    ensures Trees(Store(T, p[t].parent, p[t].index, 0), q)
  {
    hide Pte, PteAddr, Below;
    PrunedParent(S, p, T, q, t);
    var u := p[t].parent;
    var b := Store(T, u, p[t].index, 0);
    assert TablesOk(b, q);
    forall x | x in T && q[x].level < 2
      ensures q[x].parent in T && q[q[x].parent].level == q[x].level + 1
      ensures q[x].index < NPTE && b[q[x].parent][q[x].index] == Pte(x, PTE_V)
    {
      PrunedUp(S, p, T, q, t, x);
    }
    PrunedDownLinks(S, p, T, q, t);
  }

  lemma PrunedParent(S: Tables, p: map<nat, Place>, T: Tables, q: map<nat, Place>, t: nat)
    requires Trees(S, p) && t in S && p[t].level < 2 && Pruned(S, p, T, q, t)
    ensures p[t].parent in T && |T[p[t].parent]| == NPTE && p[t].index < NPTE
  {
    hide Pte, PteAddr;
    var u := p[t].parent;
    assert p[u].level == p[t].level + 1;
    assert p[u].level < 2 ==> p[p[u].parent].level == p[u].level + 1;
  }

  lemma PrunedDownLinks(S: Tables, p: map<nat, Place>, T: Tables, q: map<nat, Place>, t: nat)
    requires Trees(S, p) && t in S && p[t].level < 2 && Pruned(S, p, T, q, t)
    requires p[t].parent in T && p[t].index < |T[p[t].parent]|
    requires TablesOk(Store(T, p[t].parent, p[t].index, 0), q)
    ensures DownLinks(Store(T, p[t].parent, p[t].index, 0), q)
  {
    hide Pte, PteAddr, Below, UpLinks, DownLinks;
    var b := Store(T, p[t].parent, p[t].index, 0);
    forall x, i: nat | x in b && i < NPTE && q[x].level > 0 && IsValid(b[x][i])
      ensures PteAddr(b[x][i]) in b && q[PteAddr(b[x][i])] == Place(q[x].level - 1, x, i)
    {
      PrunedDown(S, p, T, q, t, x, i);
    }
    DownLinksIntro(b, q);
  }

  lemma DownLinksIntro(b: Tables, q: map<nat, Place>)
    requires TablesOk(b, q)
    requires forall x, i: nat :: x in b && i < NPTE && q[x].level > 0 && IsValid(b[x][i]) ==>
               PteAddr(b[x][i]) in b && q[PteAddr(b[x][i])] == Place(q[x].level - 1, x, i)
    ensures DownLinks(b, q)
  {
  }

  lemma PrunedUp(S: Tables, p: map<nat, Place>, T: Tables, q: map<nat, Place>, t: nat, x: nat)
    requires Trees(S, p) && t in S && p[t].level < 2 && Pruned(S, p, T, q, t) && x in T && p[x].level < 2
    ensures p[x].parent in T && p[p[x].parent].level == p[x].level + 1
    ensures p[x].index < NPTE && T[p[x].parent][p[x].index] == Pte(x, PTE_V)
    ensures !(p[x].parent == p[t].parent && p[x].index == p[t].index)
  {
    hide Pte, PteAddr;
    var y := p[x].parent;
    assert y in S && p[y].level == p[x].level + 1;
    assert p[y].level < 2 ==> p[p[y].parent].level == p[y].level + 1;
    PteRoundTrip(x, PTE_V);
    PteRoundTrip(t, PTE_V);
  }

  lemma PrunedDown(S: Tables, p: map<nat, Place>, T: Tables, q: map<nat, Place>, t: nat, x: nat, i: nat)
    requires Trees(S, p) && t in S && p[t].level < 2 && Pruned(S, p, T, q, t)
    requires x in T && i < NPTE && p[x].level > 0 && IsValid(T[x][i]) && !(x == p[t].parent && i == p[t].index)
    ensures PteAddr(T[x][i]) in T && p[PteAddr(T[x][i])] == Place(p[x].level - 1, x, i)
  {
    hide Pte, PteAddr;
    var c := PteAddr(S[x][i]);
    assert c in S && p[c] == Place(p[x].level - 1, x, i);
  }

  /** The bottom tables of t's tree map nothing. */
  ghost predicate NoLeaves(tables: Tables, place: map<nat, Place>, t: nat) {
    forall x, i: nat ::
      x in tables && x in place && i < |tables[x]| && place[x].level == 0 && (x == t || Below(place, x, t)) ==>
      !IsValid(tables[x][i])
  }

  /** freewalk's loop: the trees below the first i entries of t are gone, and those entries are clear. */
  ghost predicate Pruning(S: Tables, p: map<nat, Place>, T: Tables, q: map<nat, Place>, t: nat, i: nat) {
    && Trees(T, q) && t in T && t in S
    && (forall x :: x in T ==> x in S && x in p && q[x] == p[x] && (x != t ==> T[x] == S[x]))
    && (forall x :: x in S && x != t && !Below(p, x, t) ==> x in T)
    && (forall j: nat :: j < i && j < NPTE ==> !IsValid(T[t][j]))
    && |S[t]| == NPTE && (forall j: nat :: i <= j < NPTE ==> T[t][j] == S[t][j])
  }

  lemma PruningStarts(S: Tables, p: map<nat, Place>, t: nat)
    requires Trees(S, p) && t in S
    ensures Pruning(S, p, S, p, t, 0)
  {
    hide UpLinks, DownLinks, Below;
  }

  lemma PruningSkip(S: Tables, p: map<nat, Place>, T: Tables, q: map<nat, Place>, t: nat, i: nat)
    requires Pruning(S, p, T, q, t, i) && i < NPTE && !IsValid(T[t][i])
    ensures Pruning(S, p, T, q, t, i + 1)
  {
    hide UpLinks, DownLinks, Below;
  }

  /** A child freed and its entry cleared. */
  lemma PruningMore(S: Tables, p: map<nat, Place>, T: Tables, q: map<nat, Place>, U: Tables, z: map<nat, Place>,
                    t: nat, i: nat, c: nat)
    requires Trees(S, p) && Pruning(S, p, T, q, t, i) && i < NPTE
    requires c in T && q[c].level < 2 && q[c].parent == t && q[c].index == i && Pruned(T, q, U, z, c)
    ensures t in U && |U[t]| == NPTE && Pruning(S, p, Store(U, t, i, 0), z, t, i + 1)
  {
    hide Pte, PteAddr, UpLinks, DownLinks, Below;
    PrunedTrees(T, q, U, z, c);
    assert t in U && U[t] == T[t];
    forall x | x in S && x != t && !Below(p, x, t) ensures x in U {
      assert x in T;
      if x == c || Below(q, x, c) {
        BelowChild(S, p, T, q, t, c, x);
      }
    }
  }

  /** What hangs below a child of t hangs below t. */
  lemma BelowChild(S: Tables, p: map<nat, Place>, T: Tables, q: map<nat, Place>, t: nat, c: nat, x: nat)
    requires Trees(S, p) && TablesOk(T, q) && x in T && c in T && x in S && t in S
    requires forall y :: y in T ==> y in S && y in p && q[y] == p[y]
    requires q[c].level < 2 && q[c].parent == t
    requires x == c || Below(q, x, c)
    ensures Below(p, x, t)
  {
    hide Pte, PteAddr, DownLinks;
    assert p[c].level + 1 == p[t].level;
    if x != c {
      var y := p[x].parent;
      assert p[x].level < 2 && p[y].level == p[x].level + 1;
      assert p[y].level < 2 ==> p[p[y].parent].level == p[y].level + 1;
    }
  }

  lemma NoLeavesChild(S: Tables, p: map<nat, Place>, T: Tables, q: map<nat, Place>, t: nat, i: nat, c: nat)
    requires Trees(S, p) && NoLeaves(S, p, t) && Pruning(S, p, T, q, t, i)
    requires c in T && q[c].level < 2 && q[c].parent == t
    ensures NoLeaves(T, q, c)
  {
    hide Pte, PteAddr, UpLinks, DownLinks, Below;
    forall x, j: nat | x in T && x in q && j < |T[x]| && q[x].level == 0 && (x == c || Below(q, x, c))
      ensures !IsValid(T[x][j])
    {
      BelowChild(S, p, T, q, t, c, x);
      BelowNotSelf(S, p, x, t);
    }
  }

  lemma BelowNotSelf(S: Tables, p: map<nat, Place>, x: nat, t: nat)
    requires Trees(S, p) && x in S && t in S && Below(p, x, t)
    ensures x != t && p[x].level < p[t].level
  {
    hide Pte, PteAddr, DownLinks;
    assert p[p[x].parent].level == p[x].level + 1;
    if p[x].parent != t {
      assert p[p[p[x].parent].parent].level == p[p[x].parent].level + 1;
    }
  }

  /** All entries clear: only t itself is left to free. */
  lemma PruningEnds(S: Tables, p: map<nat, Place>, T: Tables, q: map<nat, Place>, t: nat)
    requires Trees(S, p) && Pruning(S, p, T, q, t, NPTE)
    ensures Pruned(S, p, T - {t}, q - {t}, t)
  {
    hide PteAddr, UpLinks, DownLinks, Pte, IsPageAddr, Below;
    forall x | x in T && x != t ensures !Below(p, x, t) {
      PruningEndsAt(S, p, T, q, t, x);
    }
  }

  lemma PruningEndsAt(S: Tables, p: map<nat, Place>, T: Tables, q: map<nat, Place>, t: nat, x: nat)
    requires Trees(S, p) && Pruning(S, p, T, q, t, NPTE) && x in T && x != t
    ensures !Below(p, x, t)
  {
    hide PteAddr, DownLinks, Pte, IsPageAddr;
    PteRoundTrip(x, PTE_V);
    var y := p[x].parent;
    if p[x].level < 2 {
      assert y in T && T[y][p[x].index] == Pte(x, PTE_V);
      PteRoundTrip(y, PTE_V);
    }
  }

  /** A whole tree taken away: trees are left, with the same maps. */
  lemma PrunedRoot(S: Tables, p: map<nat, Place>, T: Tables, q: map<nat, Place>, r: nat)
    requires Trees(S, p) && IsRoot(p, r) && Pruned(S, p, T, q, r)
    ensures Trees(T, q)
    ensures forall s :: IsRoot(q, s) <==> IsRoot(p, s) && s != r
    ensures forall s, v: nat :: IsRoot(p, s) && s != r && v < NVPN ==> Leaf(T, s, v) == Leaf(S, s, v)
  {
    hide Pte, PteAddr, Leaf, UpLinks, DownLinks, Below;
    assert TablesOk(T, q);
    PrunedRootUp(S, p, T, q, r);
    PrunedRootDown(S, p, T, q, r);
    forall s | IsRoot(p, s) && s != r ensures s in T {
      RootNotBelow(p, s, r);
    }
    forall s, v: nat | IsRoot(p, s) && s != r && v < NVPN ensures Leaf(T, s, v) == Leaf(S, s, v) {
      PrunedLeaf(S, p, T, q, r, s, v);
    }
  }

  lemma RootNotBelow(p: map<nat, Place>, s: nat, r: nat)
    requires IsRoot(p, s)
    ensures !Below(p, s, r)
  {
  }

  lemma PrunedRootUp(S: Tables, p: map<nat, Place>, T: Tables, q: map<nat, Place>, r: nat)
    requires Trees(S, p) && IsRoot(p, r) && Pruned(S, p, T, q, r) && TablesOk(T, q)
    ensures UpLinks(T, q)
  {
    hide Pte, PteAddr, DownLinks;
    forall x | x in T && q[x].level < 2 ensures q[x].parent in T {
      var y := p[x].parent;
      assert y in S && p[y].level == p[x].level + 1;
      assert p[y].level < 2 ==> p[p[y].parent].level == p[y].level + 1;
    }
  }

  lemma PrunedRootDown(S: Tables, p: map<nat, Place>, T: Tables, q: map<nat, Place>, r: nat)
    requires Trees(S, p) && IsRoot(p, r) && Pruned(S, p, T, q, r) && TablesOk(T, q)
    ensures DownLinks(T, q)
  {
    hide Pte, PteAddr, UpLinks;
    forall x, i: nat | x in T && i < NPTE && q[x].level > 0 && IsValid(T[x][i])
      ensures PteAddr(T[x][i]) in T && q[PteAddr(T[x][i])] == Place(q[x].level - 1, x, i)
    {
      assert p[PteAddr(S[x][i])] == Place(p[x].level - 1, x, i);
    }
  }

  lemma PrunedLeaf(S: Tables, p: map<nat, Place>, T: Tables, q: map<nat, Place>, r: nat, s: nat, v: nat)
    requires Trees(S, p) && IsRoot(p, r) && IsRoot(p, s) && s != r && Pruned(S, p, T, q, r)
    ensures Leaf(T, s, v) == Leaf(S, s, v)
  {
    hide Pte, PteAddr, UpLinks, DownLinks, Index;
    PathPlaces(S, p, s, v);
    DownElsewhere(S, T, s, Index(2, v));
    var m := Mid(S, s, v);
    if m != 0 {
      DownElsewhere(S, T, m, Index(1, v));
      var t := Low(S, s, v);
      if t != 0 {
        DownElsewhere(S, T, t, Index(0, v));
      }
    }
  }

  /** Every entry of a bottom table is the entry of some page. */
  lemma EntryIsLeaf(S: Tables, p: map<nat, Place>, r: nat, x: nat, i: nat) returns (v: nat)
    requires Trees(S, p) && IsRoot(p, r) && x in S && p[x].level == 0 && Below(p, x, r) && i < NPTE
    ensures v < NVPN && Leaf(S, r, v) == S[x][i]
  {
    hide DownLinks, Pte, PteAddr;
    var y := p[x].parent;
    assert p[y].level == 1 && p[y].parent == r;
    var i2, i1 := p[y].index, p[x].index;
    v := i2 * 262144 + i1 * NPTE + i;
    IndexCompose(i2, i1, i);
    PteRoundTrip(y, PTE_V);
    PteRoundTrip(x, PTE_V);
    assert Mid(S, r, v) == y;
    assert Low(S, r, v) == x;
  }

  lemma IndexCompose(i2: nat, i1: nat, i0: nat)
    requires i2 < NPTE && i1 < NPTE && i0 < NPTE
    ensures var v := i2 * 262144 + i1 * NPTE + i0;
            v < NVPN && Index(2, v) == i2 && Index(1, v) == i1 && Index(0, v) == i0
  {
    var v := i2 * 262144 + i1 * NPTE + i0;
    assert v / NPTE == i2 * NPTE + i1;
    assert v / 262144 == i2;
  }

  /** A tree whose map is empty can be walked down without meeting a leaf. */
  lemma EmptyMap(S: Tables, p: map<nat, Place>, r: nat)
    requires Trees(S, p) && IsRoot(p, r) && forall v: nat :: v < NVPN ==> !IsValid(Leaf(S, r, v))
    ensures NoLeaves(S, p, r)
  {
    hide Pte, PteAddr, Leaf, UpLinks, DownLinks, Below;
    forall x, i: nat | x in S && x in p && i < |S[x]| && p[x].level == 0 && (x == r || Below(p, x, r))
      ensures !IsValid(S[x][i])
    {
      var v := EntryIsLeaf(S, p, r, x, i);
    }
  }
}
