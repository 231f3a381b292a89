/** Facts about Euclidean division that the seat arithmetic needs. */
module Modular {

  /** Euclidean division is unique: `x == q * n + r` with `0 <= r < n`
      determines `x % n`. */
  lemma ModUnique(x: int, n: int, q: int, r: int)
    requires n > 0 && 0 <= r < n && x == q * n + r
    ensures x % n == r
  {
    var q0, r0 := x / n, x % n;
    assert x == q0 * n + r0;
    if q0 > q {
      MulAtLeast(q0 - q, n);
      assert false;
    } else if q0 < q {
      MulAtLeast(q - q0, n);
      assert false;
    }
  }

  lemma MulAtLeast(a: int, n: int)
    requires a >= 1 && n > 0
    ensures a * n >= n
  {
  }

  lemma ModSucc(x: nat, n: nat)
    requires n > 0
    ensures (x + 1) % n == (x % n + 1) % n
  {
    var q := x / n;
    assert x == q * n + x % n;
    if x % n + 1 < n {
      ModUnique(x + 1, n, q, x % n + 1);
      ModUnique(x % n + 1, n, 0, x % n + 1);
    } else {
      ModUnique(x + 1, n, q + 1, 0);
      ModUnique(x % n + 1, n, 1, 0);
    }
  }

  /** Reducing a value below twice the modulus subtracts the modulus at
      most once. */
  lemma ModBelowTwice(x: nat, n: nat)
    requires 0 < n && x < 2 * n
    ensures x % n == if x < n then x else x - n
  {
    if x < n {
      ModUnique(x, n, 0, x);
    } else {
      ModUnique(x, n, 1, x - n);
    }
  }

  /** Position `i` of block `j`, with blocks of `p` and fewer than `n`
      blocks, lies below `p * n`. */
  lemma BlockBound(i: nat, j: nat, p: nat, n: nat)
    requires i < p && j < n
    ensures i + j * p < p * n
  {
    MulLe(j + 1, n, p);
    assert (j + 1) * p == j * p + p;
    assert n * p == p * n;
  }

  lemma MulLe(a: nat, b: nat, p: nat)
    requires a <= b
    ensures a * p <= b * p
  {
    assert b * p == a * p + (b - a) * p;
  }
}
