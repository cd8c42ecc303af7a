/**
 Bits of a byte and little-endian words in a block, as the bitmap and the indirect blocks of
 the file system use them (kernel/fs.c).
 */
module Bytes {

  const BSIZE: nat := 1024
  const NINDIRECT: nat := 256

  type Byte = x: int | 0 <= x < 256
  type Block = b: seq<Byte> | |b| == BSIZE witness seq(BSIZE, _ => 0)

  predicate IsZero(b: Block) {
    forall i :: 0 <= i < BSIZE ==> b[i] == 0
  }

  lemma ZeroExists()
    ensures exists b: Block :: IsZero(b)
  {
    var b: Block := seq(BSIZE, _ => 0);
    assert IsZero(b);
  }

  /** The zeroed block. */
  ghost function Zero(): (b: Block)
    ensures IsZero(b)
  {
    ZeroExists();
    var b: Block :| IsZero(b);
    b
  }

  lemma ZeroIsUnique(b: Block)
    requires IsZero(b)
    ensures b == Zero()
  {
  }

  function Pow2(n: nat): (p: nat)
    ensures p >= 1
  {
    if n == 0 then 1 else 2 * Pow2(n - 1)
  }

  /** x & (1 << k) is non-zero. */
  predicate Nth(x: nat, k: nat) {
    if k == 0 then x % 2 == 1 else Nth(x / 2, k - 1)
  }

  /** x | (1 << k), or x & ~(1 << k). */
  function SetNth(x: nat, k: nat, v: bool): nat {
    if k == 0 then x / 2 * 2 + (if v then 1 else 0) else x % 2 + 2 * SetNth(x / 2, k - 1, v)
  }

  lemma {:induction false} NthOfSet(x: nat, k: nat, v: bool, j: nat)
    ensures Nth(SetNth(x, k, v), j) == if j == k then v else Nth(x, j)
  {
    if k > 0 && j > 0 {
      NthOfSet(x / 2, k - 1, v, j - 1);
      assert SetNth(x, k, v) / 2 == SetNth(x / 2, k - 1, v);
    } else if k == 0 && j > 0 {
      assert SetNth(x, k, v) / 2 == x / 2;
    }
  }

  lemma {:induction false} SetNthRange(x: nat, k: nat, v: bool, n: nat)
    requires k < n && x < Pow2(n)
    ensures SetNth(x, k, v) < Pow2(n)
  {
    var half := Pow2(n - 1);
    assert x / 2 < half;
    if k > 0 {
      SetNthRange(x / 2, k - 1, v, n - 1);
    }
  }

  predicate BitOf(b: Block, i: nat)
    requires i < BSIZE * 8
  {
    Nth(b[i / 8], i % 8)
  }

  lemma SetNthByte(x: Byte, k: nat, v: bool)
    requires k < 8
    ensures SetNth(x, k, v) < 256
  {
    assert Pow2(8) == 256;
    SetNthRange(x, k, v, 8);
  }

  function SetBit(b: Block, i: nat, v: bool): (r: Block)
    requires i < BSIZE * 8
  {
    SetNthByte(b[i / 8], i % 8, v);
    b[i / 8 := SetNth(b[i / 8], i % 8, v)]
  }

  lemma SetBitBits(b: Block, i: nat, v: bool)
    requires i < BSIZE * 8
    ensures forall j: nat :: j < BSIZE * 8 ==> BitOf(SetBit(b, i, v), j) == if j == i then v else BitOf(b, j)
  {
    forall j: nat | j < BSIZE * 8 ensures BitOf(SetBit(b, i, v), j) == if j == i then v else BitOf(b, j) {
      if j / 8 == i / 8 { NthOfSet(b[i / 8], i % 8, v, j % 8); }
    }
  }

  /** The value of the n little-endian bytes at position p. */
  function ValueAt(b: Block, p: nat, n: nat): nat
    requires p + n <= BSIZE
    decreases n
  {
    if n == 0 then 0 else b[p] + 256 * ValueAt(b, p + 1, n - 1)
  }

  /** b with the n low bytes of w stored at position p, little end first. */
  function StoreAt(b: Block, p: nat, n: nat, w: nat): Block
    requires p + n <= BSIZE
    decreases n
  {
    if n == 0 then b else StoreAt(b[p := w % 256], p + 1, n - 1, w / 256)
  }

  function Pow256(n: nat): nat {
    if n == 0 then 1 else 256 * Pow256(n - 1)
  }

  lemma {:induction false} StoreElsewhere(b: Block, p: nat, n: nat, w: nat, i: nat)
    requires p + n <= BSIZE && i < BSIZE && !(p <= i < p + n)
    ensures StoreAt(b, p, n, w)[i] == b[i]
    decreases n
  {
    if n > 0 { StoreElsewhere(b[p := w % 256], p + 1, n - 1, w / 256, i); }
  }

  lemma {:induction false} ValueSame(b: Block, c: Block, p: nat, n: nat)
    requires p + n <= BSIZE && forall i :: p <= i < p + n ==> c[i] == b[i]
    ensures ValueAt(c, p, n) == ValueAt(b, p, n)
    decreases n
  {
    if n > 0 { ValueSame(b, c, p + 1, n - 1); }
  }

  lemma {:induction false} ValueOfStore(b: Block, p: nat, n: nat, w: nat)
    requires p + n <= BSIZE && w < Pow256(n)
    ensures ValueAt(StoreAt(b, p, n, w), p, n) == w
    decreases n
  {
    if n > 0 {
      ValueOfStore(b[p := w % 256], p + 1, n - 1, w / 256);
      StoreElsewhere(b[p := w % 256], p + 1, n - 1, w / 256, p);
    }
  }

  const UINT: nat := 0x1_0000_0000

  /** ((uint*)data)[j]. */
  function Word(b: Block, j: nat): nat
    requires j < NINDIRECT
  {
    ValueAt(b, 4 * j, 4)
  }

  function PutWord(b: Block, j: nat, w: nat): (r: Block)
    requires j < NINDIRECT && w < UINT
  {
    StoreAt(b, 4 * j, 4, w)
  }

  lemma PutWordWords(b: Block, j: nat, w: nat)
    requires j < NINDIRECT && w < UINT
    ensures forall k: nat :: k < NINDIRECT ==> Word(PutWord(b, j, w), k) == if k == j then w else Word(b, k)
  {
    var r := PutWord(b, j, w);
    forall k: nat | k < NINDIRECT ensures Word(r, k) == if k == j then w else Word(b, k) {
      if k == j {
        assert Pow256(4) == UINT;
        ValueOfStore(b, 4 * j, 4, w);
      } else {
        forall i | 4 * k <= i < 4 * k + 4 ensures r[i] == b[i] {
          StoreElsewhere(b, 4 * j, 4, w, i);
        }
        ValueSame(b, r, 4 * k, 4);
      }
    }
  }

  lemma {:induction false} ValueOfZeroes(p: nat, n: nat)
    requires p + n <= BSIZE
    ensures ValueAt(Zero(), p, n) == 0
    decreases n
  {
    if n > 0 { ValueOfZeroes(p + 1, n - 1); }
  }

  lemma ZeroWords(j: nat)
    requires j < NINDIRECT
    ensures Word(Zero(), j) == 0
  {
    ValueOfZeroes(4 * j, 4);
  }
}
