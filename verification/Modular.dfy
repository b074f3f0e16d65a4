/** Facts about remainders by an unknown modulus, as ring cursors need them. */
module Modular {

  lemma MulBound(n: int, d: int)
    requires n > 0
    ensures d >= 1 ==> n * d >= n
    ensures d <= -1 ==> n * d <= -n
  {
  }

  lemma ModUnique(n: nat, q: nat, m: nat)
    requires m < n
    ensures (n * q + m) % n == m
  {
    var x := n * q + m;
    assert x == n * (x / n) + x % n;
    assert n * (x / n - q) == m - x % n;
    MulBound(n, x / n - q);
  }

  /** Two cursors less than `n` apart share a block only if they are equal. */
  lemma Apart(n: nat, a: nat, b: nat)
    requires n > 0 && a < b < a + n
    ensures a % n != b % n
  {
    var p, q := a / n, b / n;
    assert a == n * p + a % n && b == n * q + b % n;
    assert b - a == n * (q - p) + (b % n - a % n);
    MulBound(n, q - p);
  }

  /** Blocks of a contiguous run follow each other in memory. */
  lemma Offset(n: nat, c: nat, i: nat)
    requires n > 0 && c % n + i < n
    ensures (c + i) % n == c % n + i
  {
    assert c + i == n * (c / n) + (c % n + i);
    ModUnique(n, c / n, c % n + i);
  }

  lemma SameBlock(n: nat, c: nat)
    requires n > 0
    ensures (c + n) % n == c % n
  {
    assert c + n == n * (c / n + 1) + c % n;
    ModUnique(n, c / n + 1, c % n);
  }

  lemma Assoc(a: nat, b: nat, c: nat)
    ensures (a * b) * c == a * (b * c)
  {
  }

  lemma Distribute(a: int, b: int, c: int)
    ensures (a + b) * c == a * c + b * c && a * (b + c) == a * b + a * c
  {
  }
}
