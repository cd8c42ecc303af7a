/** Option, constants, and facts of division and counting, that several modules need. */
module Common {
  datatype Option<T> = None | Some(value: T)

  const NUL: char := 0 as char

  /** The length of a name in a directory, and the inode of the root. */
  const DIRSIZ: nat := 14
  const ROOTINO: nat := 1

  lemma Multiples(n: int, k: int)
    requires n > 0
    ensures k >= 1 ==> n * k >= n
    ensures k <= -1 ==> n * k <= -n
  {
  }

  /** Quotient and remainder are determined. */
  lemma Same(n: int, a: int, b: int, q: int, r: int)
    requires n * a + b == n * q + r && 0 <= b < n && 0 <= r < n
    ensures a == q && b == r
  {
    Multiples(n, a - q);
    assert n * (a - q) == n * a - n * q;
  }

  lemma Euclid(x: int, n: int)
    requires n > 0
    ensures x == n * (x / n) + x % n && 0 <= x % n < n
  {
  }

  lemma DivUnique(x: int, n: int, q: int, r: int)
    requires n > 0 && x == n * q + r && 0 <= r < n
    ensures x / n == q && x % n == r
  {
    Euclid(x, n);
    Same(n, x / n, x % n, q, r);
  }

  /** Positions less than a turn apart are different slots of a ring of n. */
  lemma SlotsDiffer(a: nat, b: nat, n: nat)
    requires a < b < a + n
    ensures a % n != b % n
  {
    Euclid(a, n);
    Euclid(b, n);
    Multiples(n, b / n - a / n);
    assert n * (b / n - a / n) == n * (b / n) - n * (a / n);
  }

  /** An index kept modulo m, a multiple of n, finds the same slot of a ring of n. */
  lemma WrapSlot(a: nat, n: nat, m: nat, k: nat)
    requires n > 0 && m > 0 && m == n * k
    ensures a % m % n == a % n
  {
    var q, r := a / m, a % m;
    Euclid(a, m);
    Euclid(r, n);
    Regrouped(n, k, q, r / n, r % n);
    DivUnique(a, n, k * q + r / n, r % n);
  }

  lemma Regrouped(n: int, k: int, q: int, p: int, r: int)
    ensures (n * k) * q + (n * p + r) == n * (k * q + p) + r
  {
    assert (n * k) * q == n * (k * q);
    assert n * (k * q + p) == n * (k * q) + n * p;
  }

  /** Counting on from a wrapped index. */
  lemma WrapNext(a: nat, m: nat)
    requires m > 1
    ensures (a % m + 1) % m == (a + 1) % m
  {
    var q, r := a / m, a % m;
    Euclid(a, m);
    if r + 1 < m {
      DivUnique(a + 1, m, q, r + 1);
      DivUnique(r + 1, m, 0, r + 1);
    } else {
      assert m * (q + 1) == m * q + m;
      DivUnique(a + 1, m, q + 1, 0);
      DivUnique(r + 1, m, 1, 0);
    }
  }

  lemma {:induction false} SubsetSize<T>(a: set<T>, b: set<T>)
    requires a <= b
    ensures |a| <= |b|
  {
    if a != {} {
      var x :| x in a;
      SubsetSize(a - {x}, b - {x});
    }
  }

  /** The size of a process after growproc(n). One that would go below 0 stays as it is. */
  function GrownTo(sz: nat, n: int): nat {
    if sz + n >= 0 then sz + n else sz
  }
}
