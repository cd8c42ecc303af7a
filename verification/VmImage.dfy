/**
 What exec puts into a new address space (kernel/exec.c): the bytes of the program's segments,
 and on the stack the argument strings and the array of pointers to them.
 */
module VmImage {
  import opened Bytes
  import Common
  import opened Sv39
  import opened VmModel

  const UINT64: nat := 0x1_0000_0000_0000_0000

  // ---------------------------------------------------------------------------- the program

  /** What reading a program header gives; `file` is what the file holds from the segment's offset on. */
  datatype Phdr =
    | Unreadable
    | NotLoaded
    | Load(vaddr: nat, memsz: nat, filesz: nat, flags: nat, file: seq<Byte>)

  /** A header exec can follow. */
  predicate HeaderFine(h: Phdr) {
    match h
    case Unreadable => false
    case NotLoaded => true
    case Load(vaddr, memsz, filesz, _, file) =>
      filesz <= memsz && filesz <= |file| && vaddr % PGSIZE == 0 && vaddr + memsz < UINT64
  }

  /** The size of a program: the end of its highest segment. */
  function Size(phdrs: seq<Phdr>): nat {
    if phdrs == [] then 0
    else
      var h, rest := phdrs[|phdrs| - 1], Size(phdrs[..|phdrs| - 1]);
      if h.Load? && h.vaddr + h.memsz > rest then h.vaddr + h.memsz else rest
  }

  /** The headers are such that exec can load the program, if it does not start with an empty segment at 0. */
  predicate Accepted(phdrs: seq<Phdr>) {
    AcceptedTo(phdrs, |phdrs|)
  }

  predicate AcceptedTo(phdrs: seq<Phdr>, n: nat) {
    forall i :: 0 <= i < n ==> AcceptedAt(phdrs, i)
  }

  predicate AcceptedAt(phdrs: seq<Phdr>, i: int) {
    0 <= i < |phdrs| && HeaderFine(phdrs[i]) && (phdrs[i].Load? ==> Size(phdrs[..i + 1]) > 0)
  }

  lemma SizeNext(phdrs: seq<Phdr>, i: nat)
    requires i < |phdrs|
    ensures Size(phdrs[..i + 1]) ==
            if phdrs[i].Load? && phdrs[i].vaddr + phdrs[i].memsz > Size(phdrs[..i])
            then phdrs[i].vaddr + phdrs[i].memsz else Size(phdrs[..i])
  {
    assert phdrs[..i + 1][..i] == phdrs[..i];
  }

  lemma {:induction false} SizeGrows(phdrs: seq<Phdr>, i: nat)
    requires i <= |phdrs|
    ensures Size(phdrs[..i]) <= Size(phdrs)
    decreases |phdrs| - i
  {
    if i < |phdrs| {
      SizeNext(phdrs, i);
      SizeGrows(phdrs, i + 1);
    } else {
      assert phdrs[..i] == phdrs;
    }
  }

  lemma NoneAccepted(phdrs: seq<Phdr>)
    ensures AcceptedTo(phdrs, 0) && phdrs[..0] == []
  {
  }

  /** The test of one more header decides whether the program is still accepted. */
  lemma AcceptedNext(phdrs: seq<Phdr>, i: nat)
    requires i < |phdrs| && AcceptedTo(phdrs, i)
    ensures Size(phdrs[..i + 1]) <= Size(phdrs)
    ensures HeaderFine(phdrs[i]) && (phdrs[i].Load? ==> Size(phdrs[..i + 1]) > 0) ==> AcceptedTo(phdrs, i + 1)
    ensures !(HeaderFine(phdrs[i]) && (phdrs[i].Load? ==> Size(phdrs[..i + 1]) > 0)) ==> !Accepted(phdrs)
  {
    hide Size, HeaderFine;
    SizeGrows(phdrs, i + 1);
    assert !AcceptedAt(phdrs, i) ==> !Accepted(phdrs);
  }

  lemma AllAccepted(phdrs: seq<Phdr>)
    requires AcceptedTo(phdrs, |phdrs|)
    ensures Accepted(phdrs) && phdrs[..|phdrs|] == phdrs
  {
  }

  /** A header exec accepts, with a segment inside n pages. */
  predicate HeaderIn(h: Phdr, n: nat) {
    HeaderFine(h) && (h.Load? ==> h.vaddr + h.memsz <= n * PGSIZE)
  }

  predicate HeadersIn(phdrs: seq<Phdr>, n: nat) {
    forall i :: 0 <= i < |phdrs| ==> HeaderIn(phdrs[i], n)
  }

  predicate Supplies(h: Phdr, a: nat) {
    h.Load? && h.vaddr <= a < h.vaddr + h.filesz && a - h.vaddr < |h.file|
  }

  /** The byte a program puts at an address: that of the last segment with one for it, or 0. */
  function Loaded(phdrs: seq<Phdr>, a: nat): Byte {
    if phdrs == [] then 0
    else
      var h := phdrs[|phdrs| - 1];
      if Supplies(h, a) then h.file[a - h.vaddr] else Loaded(phdrs[..|phdrs| - 1], a)
  }

  /** The first n pages hold the program, all of it. */
  ghost predicate Shows(m: Mem, r: nat, n: nat, phdrs: seq<Phdr>) {
    HeadersIn(phdrs, n) && forall a: nat :: a < n * PGSIZE ==> ByteAt(m, r, a) == Loaded(phdrs, a)
  }

  lemma {:induction false} LoadedAbove(phdrs: seq<Phdr>, n: nat, a: nat)
    requires HeadersIn(phdrs, n) && n * PGSIZE <= a
    ensures Loaded(phdrs, a) == 0
  {
    if phdrs != [] {
      assert HeaderIn(phdrs[|phdrs| - 1], n);
      LoadedAbove(phdrs[..|phdrs| - 1], n, a);
    }
  }

  /**
   A page of a segment with these flags: valid, the user's and readable, executable if and only if
   bit 0 of the flags is set, writable if and only if bit 1 is.
   */
  predicate SegmentMode(pte: nat, flags: nat) {
    && IsValid(pte) && IsReadable(pte) && IsUser(pte)
    && (IsExecutable(pte) <==> flags % 2 == 1)
    && (IsWritable(pte) <==> flags / 2 % 2 == 1)
  }

  ghost predicate Moded(m: Mem, r: nat, lo: nat, hi: nat, flags: nat) {
    forall v: nat :: lo <= v < hi ==> SegmentMode(Leaf(m.tables, r, v), flags)
  }

  /** The pages that header i added, from the size before it to the size after it. */
  ghost predicate HeaderMode(m: Mem, r: nat, phdrs: seq<Phdr>, i: nat)
    requires i < |phdrs|
  {
    phdrs[i].Load? ==> Moded(m, r, Pages(Size(phdrs[..i])), Pages(Size(phdrs[..i + 1])), phdrs[i].flags)
  }

  /** Every page of the program may be used as the segment that added it says. */
  ghost predicate Permitted(m: Mem, r: nat, phdrs: seq<Phdr>) {
    forall i: nat :: i < |phdrs| ==> HeaderMode(m, r, phdrs, i)
  }

  ghost predicate LeavesBelow(m: Mem, n: Mem, r: nat, k: nat) {
    forall v: nat :: v < k ==> Leaf(n.tables, r, v) == Leaf(m.tables, r, v)
  }

  lemma PagesGrow(a: nat, b: nat)
    requires a <= b
    ensures Pages(a) <= Pages(b)
  {
  }

  lemma ModedSame(m: Mem, n: Mem, r: nat, lo: nat, hi: nat, k: nat, flags: nat)
    requires Moded(m, r, lo, hi, flags) && LeavesBelow(m, n, r, k) && hi <= k
    ensures Moded(n, r, lo, hi, flags)
  {
    hide Leaf, SegmentMode;
  }

  lemma PermittedSame(m: Mem, n: Mem, r: nat, phdrs: seq<Phdr>)
    requires Permitted(m, r, phdrs) && LeavesBelow(m, n, r, Pages(Size(phdrs)))
    ensures Permitted(n, r, phdrs)
  {
    hide Moded, Size, Pages, LeavesBelow;
    forall i: nat | i < |phdrs| ensures HeaderMode(n, r, phdrs, i) {
      assert HeaderMode(m, r, phdrs, i);
      SizeGrows(phdrs, i + 1);
      PagesGrow(Size(phdrs[..i + 1]), Size(phdrs));
      if phdrs[i].Load? {
        ModedSame(m, n, r, Pages(Size(phdrs[..i])), Pages(Size(phdrs[..i + 1])), Pages(Size(phdrs)), phdrs[i].flags);
      }
    }
  }

  lemma PermittedNothing(m: Mem, r: nat)
    ensures Permitted(m, r, [])
  {
  }

  lemma PermittedMore(m: Mem, n: Mem, r: nat, phdrs: seq<Phdr>, i: nat)
    requires i < |phdrs| && Permitted(m, r, phdrs[..i]) && LeavesBelow(m, n, r, Pages(Size(phdrs[..i])))
    requires HeaderMode(n, r, phdrs, i)
    ensures Permitted(n, r, phdrs[..i + 1])
  {
    hide Moded, Size, Pages, LeavesBelow;
    var upto := phdrs[..i + 1];
    PermittedSame(m, n, r, phdrs[..i]);
    forall j: nat | j < |upto| ensures HeaderMode(n, r, upto, j) {
      assert upto[..j] == phdrs[..j] && upto[..j + 1] == phdrs[..j + 1];
      if j < i {
        assert HeaderMode(n, r, phdrs[..i], j);
        assert phdrs[..i][..j] == phdrs[..j] && phdrs[..i][..j + 1] == phdrs[..j + 1];
      }
    }
  }

  lemma ModeBits(pte: nat)
    ensures IsReadable(pte) <==> IsReadable(PteFlags(pte))
    ensures IsExecutable(pte) <==> IsExecutable(PteFlags(pte))
    ensures IsValid(pte) <==> IsValid(PteFlags(pte))
  {
    var q, flags := pte / 1024, pte % 1024;
    Common.Euclid(pte, 1024);
    RPart(q * 512, flags);
    EvenOffset(q * 256, flags / PTE_R);
    XPart(q * 128, flags);
    EvenOffset(q * 64, flags / PTE_X);
    EvenOffset(q * 512, flags);
  }

  lemma ShowsNothing(m: Mem, r: nat)
    ensures Shows(m, r, 0, []) && Size([]) == 0
  {
  }

  lemma ShowsSkip(m: Mem, r: nat, n: nat, phdrs: seq<Phdr>)
    requires Shows(m, r, n, phdrs)
    ensures Shows(m, r, n, phdrs + [NotLoaded])
  {
    hide ByteAt;
    assert (phdrs + [NotLoaded])[..|phdrs|] == phdrs;
  }

  /** Pages lo..hi are new and zero, and then bytes were put at va. */
  ghost predicate SegmentIn(m: Mem, n: Mem, r: nat, lo: nat, hi: nat, va: nat, bytes: seq<Byte>) {
    forall a: nat :: a < hi * PGSIZE ==>
      ByteAt(n, r, a) ==
      if va <= a < va + |bytes| then bytes[a - va] else if a < lo * PGSIZE then ByteAt(m, r, a) else 0
  }

  /** One more segment. */
  lemma ShowsMore(m: Mem, n: Mem, r: nat, lo: nat, hi: nat, phdrs: seq<Phdr>, h: Phdr)
    requires Shows(m, r, lo, phdrs) && lo <= hi && h.Load? && HeaderIn(h, hi)
    requires SegmentIn(m, n, r, lo, hi, h.vaddr, h.file[..h.filesz])
    ensures Shows(n, r, hi, phdrs + [h])
  {
    hide ByteAt;
    var more := phdrs + [h];
    assert more[..|phdrs|] == phdrs;
    forall i | 0 <= i < |more| ensures HeaderIn(more[i], hi) {
      if i < |phdrs| {
        assert HeaderIn(phdrs[i], lo);
      }
    }
    forall a: nat | a < hi * PGSIZE ensures ByteAt(n, r, a) == Loaded(more, a) {
      if a >= lo * PGSIZE {
        LoadedAbove(phdrs, lo, a);
      }
    }
  }

  // ------------------------------------------------------------------------- growing and clearing

  lemma PageOf(a: nat, n: nat)
    ensures a < n * PGSIZE <==> a / PGSIZE < n
  {
  }

  /** New pages read as zeroes and the others as before. */
  lemma GrewBytes(ram: set<nat>, m: Mem, n: Mem, r: nat, lo: nat, hi: nat, flags: nat)
    requires Grew(ram, m, n, r, lo, hi) && FreshPages(n, r, lo, hi, flags) && Sized(m, r, lo) && hi <= TRAPVPN
    ensures SegmentIn(m, n, r, lo, hi, 0, [])
  {
    hide MemOk, Leaf, PteAddr, PteFlags, OtherTables;
    forall a: nat | a < hi * PGSIZE ensures ByteAt(n, r, a) == if a < lo * PGSIZE then ByteAt(m, r, a) else 0 {
      PageOf(a, hi);
      PageOf(a, lo);
      if a < lo * PGSIZE {
        ValidPage(ram, m, r, a / PGSIZE);
      }
    }
  }

  lemma ValidPage(ram: set<nat>, m: Mem, r: nat, v: nat)
    requires MemOk(ram, m) && IsRoot(m.place, r) && v < TRAPVPN && IsValid(Leaf(m.tables, r, v))
    ensures var p := PteAddr(Leaf(m.tables, r, v)); p in m.data && p in m.holder && m.holder[p] == User(r, v)
  {
    hide Core, Leaf, PteAddr, PteFlags, IsUser;
    MemParts(ram, m);
    assert LeafHeld(m, r, v);
  }

  /** The guard page keeps its bytes. */
  lemma ClearedBytes(m: Mem, n: Mem, r: nat, v: nat, a: nat)
    requires LeafChange(m, n, r, v, WithoutUser(Leaf(m.tables, r, v))) && n.data == m.data && a / PGSIZE < NVPN
    ensures ByteAt(n, r, a) == ByteAt(m, r, a)
  {
    hide Leaf, PteAddr, WithoutUser, IsUser;
    ClearedBits(Leaf(m.tables, r, v));
  }

  /** Bytes put at va after pages have been added. */
  lemma FilledBytes(m: Mem, u: Mem, n: Mem, r: nat, lo: nat, hi: nat, va: nat, bytes: seq<Byte>)
    requires SegmentIn(m, u, r, lo, hi, 0, []) && Wrote(u, n, r, va, bytes) && IsRoot(u.place, r) && hi <= TRAPVPN
    ensures SegmentIn(m, n, r, lo, hi, va, bytes)
  {
    hide ByteAt;
    forall a: nat | a < hi * PGSIZE
      ensures ByteAt(n, r, a) ==
              if va <= a < va + |bytes| then bytes[a - va] else if a < lo * PGSIZE then ByteAt(m, r, a) else 0
    {
      PageOf(a, hi);
    }
  }

  // --------------------------------------------------------------------------------- the stack

  /** Eight bytes, least significant first. */
  function Word64(x: nat): (s: seq<Byte>)
    ensures |s| == 8
  {
    [x % 256, x / 0x100 % 256, x / 0x1_0000 % 256, x / 0x100_0000 % 256, x / 0x1_0000_0000 % 256,
     x / 0x100_0000_0000 % 256, x / 0x1_0000_0000_0000 % 256, x / 0x100_0000_0000_0000 % 256]
  }

  /** An array of pointers in memory. */
  /** The number that bytes stand for, the least significant first. */
  function Value(bytes: seq<Byte>): nat {
    if bytes == [] then 0 else bytes[0] + 256 * Value(bytes[1..])
  }

  lemma ValueDigit(x: nat, k: nat, bytes: seq<Byte>)
    requires k > 0 && bytes != [] && bytes[0] == x / k % 256 && Value(bytes[1..]) == x / (k * 256)
    ensures Value(bytes) == x / k
  {
    DivTwice(x, k);
    Common.Euclid(x / k, 256);
  }

  lemma DivTwice(x: nat, k: nat)
    requires k > 0
    ensures x / k / 256 == x / (k * 256)
  {
    var y, e := x / k, x % k;
    var p, d := y / 256, y % 256;
    Common.Euclid(x, k);
    Common.Euclid(y, 256);
    Common.Regrouped(k, 256, p, d, e);
    DigitBound(k, d, e);
    Common.DivUnique(x, k * 256, p, k * d + e);
  }

  lemma DigitBound(k: nat, d: nat, e: nat)
    requires d < 256 && e < k
    ensures 0 <= k * d + e < k * 256
  {
    assert k * d <= k * 255;
  }

  /** A word of the argument array holds the number put there. */
  lemma Word64Value(x: nat)
    requires x < UINT64
    ensures Value(Word64(x)) == x
  {
    var w := Word64(x);
    assert forall k :: 0 <= k < 8 ==> w[k..][1..] == w[k + 1..];
    ValueDigit(x, 0x100_0000_0000_0000, w[7..]);
    ValueDigit(x, 0x1_0000_0000_0000, w[6..]);
    ValueDigit(x, 0x100_0000_0000, w[5..]);
    ValueDigit(x, 0x1_0000_0000, w[4..]);
    ValueDigit(x, 0x100_0000, w[3..]);
    ValueDigit(x, 0x1_0000, w[2..]);
    ValueDigit(x, 0x100, w[1..]);
    ValueDigit(x, 1, w);
  }

  function Words(ptrs: seq<nat>): seq<Byte> {
    if ptrs == [] then [] else Words(ptrs[..|ptrs| - 1]) + Word64(ptrs[|ptrs| - 1])
  }

  function Up16(n: nat): nat {
    (n + 15) / 16 * 16
  }

  /** How deep the argument strings lie, each rounded down to a multiple of 16. */
  function Depth(args: seq<seq<Byte>>): nat {
    if args == [] then 0 else Up16(Depth(args[..|args| - 1]) + |args[|args| - 1]| + 1)
  }

  /** The room on the stack for strings and pointers. */
  function ArgRoom(args: seq<seq<Byte>>): nat {
    Up16(Depth(args) + 8 * (|args| + 1))
  }

  lemma DepthNext(args: seq<seq<Byte>>, i: nat)
    requires i < |args|
    ensures Depth(args[..i + 1]) == Up16(Depth(args[..i]) + |args[i]| + 1)
  {
    assert args[..i + 1][..i] == args[..i];
  }

  lemma {:induction false} DepthGrows(args: seq<seq<Byte>>, i: nat)
    requires i <= |args|
    ensures Depth(args[..i]) <= Depth(args) <= ArgRoom(args)
    decreases |args| - i
  {
    if i < |args| {
      DepthNext(args, i);
      DepthGrows(args, i + 1);
    } else {
      assert args[..i] == args;
    }
  }

  lemma {:induction false} WordsSize(ptrs: seq<nat>)
    ensures |Words(ptrs)| == 8 * |ptrs|
  {
    if ptrs != [] {
      WordsSize(ptrs[..|ptrs| - 1]);
    }
  }

  /** Pushing n bytes below a depth of d and aligning, without the wrap-around. */
  lemma PushedTo(top: nat, d: nat, n: nat)
    requires top % 16 == 0
    ensures top - (d + n) - (top - (d + n)) % 16 == top - Up16(d + n)
  {
  }

  /** A stack with room from base up to sp. */
  ghost predicate Roomy(m: Mem, r: nat, base: nat, sp: nat) {
    base <= sp && Writable(m, r, base, sp)
  }

  lemma RoomBelow(m: Mem, n: Mem, r: nat, base: nat, top: nat, sp: nat)
    requires Roomy(m, r, base, top) && base <= sp <= top && n.tables == m.tables
    ensures Roomy(n, r, base, sp)
  {
    hide Leaf, IsUser;
    forall a: nat | base <= a < sp ensures Access(n, r, a, true) {
      assert Access(m, r, a, true);
    }
  }

  /** A NUL-terminated string the user can read, at or above sp. */
  ghost predicate StringHere(m: Mem, r: nat, sp: nat, p: nat, arg: seq<Byte>) {
    sp <= p && ReadsAs(m, r, p, arg + [0])
  }

  /** The first strings have been pushed. */
  ghost predicate Strings(m: Mem, r: nat, sp: nat, ptrs: seq<nat>, args: seq<seq<Byte>>) {
    |ptrs| <= |args| && forall i :: 0 <= i < |ptrs| ==> StringHere(m, r, sp, ptrs[i], args[i])
  }

  /** What main finds: argv at sp, ended by a null pointer, and each argument where argv says. */
  ghost predicate Stacked(m: Mem, r: nat, sp: nat, ptrs: seq<nat>, args: seq<seq<Byte>>) {
    |ptrs| == |args| && Strings(m, r, sp, ptrs, args) && ReadsAs(m, r, sp, Words(ptrs) + Word64(0))
  }

  /** No byte of r below top has changed. */
  ghost predicate SameBelow(m: Mem, n: Mem, r: nat, top: nat) {
    forall a: nat :: a < top && a / PGSIZE < TRAPVPN ==> ByteAt(n, r, a) == ByteAt(m, r, a)
  }

  lemma SameBelowTwice(m: Mem, u: Mem, n: Mem, r: nat, top: nat)
    requires SameBelow(m, u, r, top) && SameBelow(u, n, r, top)
    ensures SameBelow(m, n, r, top)
  {
    hide ByteAt;
  }

  lemma WroteAbove(m: Mem, n: Mem, r: nat, va: nat, bytes: seq<Byte>, top: nat)
    requires Wrote(m, n, r, va, bytes) && IsRoot(m.place, r) && top <= va
    ensures SameBelow(m, n, r, top)
  {
    hide ByteAt;
  }

  lemma ReadsWritten(ram: set<nat>, m: Mem, n: Mem, r: nat, va: nat, bytes: seq<Byte>)
    requires MemOk(ram, m) && IsRoot(m.place, r) && Wrote(m, n, r, va, bytes) && Writable(m, r, va, va + |bytes|)
    ensures ReadsAs(n, r, va, bytes)
  {
    hide MemOk, Wrote, ByteAt, Access;
    forall a: nat | va <= a < va + |bytes| ensures Access(n, r, a, false) && bytes[a - va] == ByteAt(n, r, a) {
      assert Access(m, r, a, true);
      ReadBack(ram, m, n, r, va, bytes, a - va);
    }
  }

  /** What lies above a write is still there. */
  lemma ReadsKept(ram: set<nat>, m: Mem, n: Mem, r: nat, va: nat, bytes: seq<Byte>, to: nat, more: seq<Byte>)
    requires MemOk(ram, m) && IsRoot(m.place, r) && ReadsAs(m, r, va, bytes)
    requires Wrote(m, n, r, to, more) && to + |more| <= va
    ensures ReadsAs(n, r, va, bytes)
  {
    hide MemOk, ByteAt, Leaf, PteAddr, IsUser;
    forall a: nat | va <= a < va + |bytes| ensures Access(n, r, a, false) && bytes[a - va] == ByteAt(n, r, a) {
      AccessPage(ram, m, r, a, false);
    }
  }

  lemma StringsKept(ram: set<nat>, m: Mem, n: Mem, r: nat, sp: nat, ptrs: seq<nat>, args: seq<seq<Byte>>, to: nat,
          more: seq<Byte>)
    requires MemOk(ram, m) && IsRoot(m.place, r) && Strings(m, r, sp, ptrs, args)
    requires Wrote(m, n, r, to, more) && to + |more| <= sp
    ensures Strings(n, r, to, ptrs, args)
  {
    hide MemOk, Wrote, ReadsAs;
    forall i | 0 <= i < |ptrs| ensures StringHere(n, r, to, ptrs[i], args[i]) {
      assert StringHere(m, r, sp, ptrs[i], args[i]);
      ReadsKept(ram, m, n, r, ptrs[i], args[i] + [0], to, more);
    }
  }

  /** One more string. */
  lemma StringsMore(ram: set<nat>, m: Mem, n: Mem, r: nat, sp: nat, ptrs: seq<nat>, args: seq<seq<Byte>>, to: nat)
    requires MemOk(ram, m) && IsRoot(m.place, r) && Strings(m, r, sp, ptrs, args) && |ptrs| < |args|
    requires Wrote(m, n, r, to, args[|ptrs|] + [0]) && to + |args[|ptrs|] + [0]| <= sp
    requires ReadsAs(n, r, to, args[|ptrs|] + [0])
    ensures Strings(n, r, to, ptrs + [to], args) && Words(ptrs + [to]) == Words(ptrs) + Word64(to)
  {
    hide MemOk, Wrote, ReadsAs, Word64;
    StringsKept(ram, m, n, r, sp, ptrs, args, to, args[|ptrs|] + [0]);
    assert (ptrs + [to])[..|ptrs|] == ptrs;
    assert StringHere(n, r, to, to, args[|ptrs|]);
    forall i | 0 <= i < |ptrs| + 1 ensures StringHere(n, r, to, (ptrs + [to])[i], args[i]) {
      if i < |ptrs| {
        assert StringHere(n, r, to, ptrs[i], args[i]);
      }
    }
  }

  lemma {:induction false} WordsAt(ptrs: seq<nat>, i: nat)
    requires i < |ptrs|
    ensures |Words(ptrs)| == 8 * |ptrs| && Words(ptrs)[8 * i..8 * i + 8] == Word64(ptrs[i])
  {
    hide Word64;
    WordsSize(ptrs[..|ptrs| - 1]);
    if i < |ptrs| - 1 {
      WordsAt(ptrs[..|ptrs| - 1], i);
      assert Words(ptrs)[8 * i..8 * i + 8] == Words(ptrs[..|ptrs| - 1])[8 * i..8 * i + 8];
    }
  }

  /** The user reads the pointer p in the eight bytes at va. */
  ghost predicate PointerAt(m: Mem, r: nat, va: nat, p: nat) {
    exists word: seq<Byte> :: |word| == 8 && ReadsAs(m, r, va, word) && Value(word) == p
  }

  lemma WordRead(m: Mem, r: nat, va: nat, bytes: seq<Byte>, i: nat, p: nat)
    requires ReadsAs(m, r, va, bytes) && 8 * i + 8 <= |bytes|
    requires bytes[8 * i..8 * i + 8] == Word64(p) && p < UINT64
    ensures PointerAt(m, r, va + 8 * i, p)
  {
    hide Word64, Access, ByteAt;
    var word := Word64(p);
    Word64Value(p);
    forall a: nat | va + 8 * i <= a < va + 8 * i + 8
      ensures Access(m, r, a, false) && word[a - (va + 8 * i)] == ByteAt(m, r, a)
    {
      assert word[a - (va + 8 * i)] == bytes[a - va];
    }
    assert ReadsAs(m, r, va + 8 * i, word);
  }

  /** What main finds at argv: a pointer to every argument, one after the other, and then a null pointer. */
  lemma ArgvHolds(m: Mem, r: nat, sp: nat, ptrs: seq<nat>, args: seq<seq<Byte>>)
    requires Stacked(m, r, sp, ptrs, args)
    ensures forall i: nat :: i < |args| ==>
              PointerAt(m, r, sp + 8 * i, ptrs[i]) && StringHere(m, r, sp, ptrs[i], args[i])
    ensures PointerAt(m, r, sp + 8 * |args|, 0)
  {
    hide Word64, PointerAt, ByteAt, Leaf, Words;
    var bytes := Words(ptrs) + Word64(0);
    WordsSize(ptrs);
    forall i: nat | i < |args|
      ensures PointerAt(m, r, sp + 8 * i, ptrs[i]) && StringHere(m, r, sp, ptrs[i], args[i])
    {
      assert StringHere(m, r, sp, ptrs[i], args[i]);
      assert Access(m, r, ptrs[i], false);
      WordsAt(ptrs, i);
      assert bytes[8 * i..8 * i + 8] == Words(ptrs)[8 * i..8 * i + 8];
      WordRead(m, r, sp, bytes, i, ptrs[i]);
    }
    assert bytes[8 * |args|..8 * |args| + 8] == Word64(0);
    WordRead(m, r, sp, bytes, |args|, 0);
  }

  // ------------------------------------------------------------------------------ the whole image

  /** The image exec leaves in an address space of sz bytes: program, guard page, stack. */
  ghost predicate Imaged(m: Mem, r: nat, sz: nat, phdrs: seq<Phdr>, args: seq<seq<Byte>>, sp: nat, ptrs: seq<nat>) {
    && sz >= 2 * PGSIZE && sz % PGSIZE == 0
    && Shows(m, r, sz / PGSIZE - 2, phdrs) && Stacked(m, r, sp, ptrs, args)
    && Permitted(m, r, phdrs) && Pages(Size(phdrs)) <= sz / PGSIZE - 2
    && !IsUser(Leaf(m.tables, r, sz / PGSIZE - 2))
    && SegmentMode(Leaf(m.tables, r, sz / PGSIZE - 1), 2)
  }

  lemma ShowsBelow(m: Mem, n: Mem, r: nat, k: nat, top: nat, phdrs: seq<Phdr>)
    requires Shows(m, r, k, phdrs) && SameBelow(m, n, r, top) && k * PGSIZE <= top && k <= TRAPVPN
    ensures Shows(n, r, k, phdrs)
  {
    hide ByteAt, Loaded;
    forall a: nat | a < k * PGSIZE ensures ByteAt(n, r, a) == Loaded(phdrs, a) {
      PageOf(a, k);
    }
  }

  /** Nothing of r changes: the same entries, and the same bytes in the pages they lead to. */
  ghost predicate SameSpace(m: Mem, n: Mem, r: nat) {
    && (forall v: nat :: v < NVPN ==> Leaf(n.tables, r, v) == Leaf(m.tables, r, v))
    && (forall a: nat :: a / PGSIZE < TRAPVPN && IsValid(Leaf(m.tables, r, a / PGSIZE)) ==>
          ByteAt(n, r, a) == ByteAt(m, r, a))
  }

  /** Freeing another address space takes no page of r. */
  lemma GoneSame(ram: set<nat>, m: Mem, n: Mem, r: nat, was: nat)
    requires MemOk(ram, m) && IsRoot(m.place, r) && was != r && Gone(ram, m, n, was)
    requires forall v: nat :: v < NVPN ==> Leaf(n.tables, r, v) == Leaf(m.tables, r, v)
    ensures SameSpace(m, n, r)
  {
    hide MemOk, Leaf, PteAddr, Pruned;
    forall a: nat | a / PGSIZE < TRAPVPN && IsValid(Leaf(m.tables, r, a / PGSIZE))
      ensures ByteAt(n, r, a) == ByteAt(m, r, a)
    {
      ValidPage(ram, m, r, a / PGSIZE);
    }
  }

  lemma ReadsSame(ram: set<nat>, m: Mem, n: Mem, r: nat, va: nat, bytes: seq<Byte>)
    requires MemOk(ram, m) && IsRoot(m.place, r) && SameSpace(m, n, r) && ReadsAs(m, r, va, bytes)
    ensures ReadsAs(n, r, va, bytes)
  {
    hide MemOk, ByteAt, Leaf, PteAddr, IsUser;
    forall a: nat | va <= a < va + |bytes| ensures Access(n, r, a, false) && bytes[a - va] == ByteAt(n, r, a) {
      AccessPage(ram, m, r, a, false);
    }
  }

  lemma ImagedSame(ram: set<nat>, m: Mem, n: Mem, r: nat, sz: nat, phdrs: seq<Phdr>, args: seq<seq<Byte>>, sp: nat,
          ptrs: seq<nat>)
    requires MemOk(ram, m) && Sized(m, r, Pages(sz)) && SameSpace(m, n, r) && Imaged(m, r, sz, phdrs, args, sp, ptrs)
    ensures Imaged(n, r, sz, phdrs, args, sp, ptrs)
  {
    hide MemOk, ByteAt, Leaf, IsUser, Loaded, ReadsAs, Words, Word64, Permitted, SegmentMode, Size;
    var k := sz / PGSIZE - 2;
    PermittedSame(m, n, r, phdrs);
    forall a: nat | a < k * PGSIZE ensures ByteAt(n, r, a) == Loaded(phdrs, a) {
      PageOf(a, k);
    }
    forall i | 0 <= i < |ptrs| ensures StringHere(n, r, sp, ptrs[i], args[i]) {
      assert StringHere(m, r, sp, ptrs[i], args[i]);
      ReadsSame(ram, m, n, r, ptrs[i], args[i] + [0]);
    }
    ReadsSame(ram, m, n, r, sp, Words(ptrs) + Word64(0));
  }
}
