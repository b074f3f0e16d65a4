/** Remainders, powers and bits of naturals. */
module ModArith {
  import opened Modular

  function Two(i: nat): (p: nat)
    ensures p > 0
  {
    if i == 0 then 1 else 2 * Two(i - 1)
  }

  ghost function Pow(a: nat, e: nat): nat {
    if e == 0 then 1 else a * Pow(a, e - 1)
  }

  lemma DivIs(v: nat, q: nat, d: nat, r: nat)
    requires v == d * q + r && r < d
    ensures v / d == q && v % d == r
  {
    ModUnique(d, q, r);
    assert d * (v / d) + v % d == v;
    assert d * (v / d - q) == 0;
    MulBound(d, v / d - q);
  }

  lemma ModPlus(x: nat, y: nat, m: nat)
    requires m > 0
    ensures (x % m + y % m) % m == (x + y) % m
  {
    var z := x % m + y % m;
    Euclid(x, m);
    Euclid(y, m);
    Euclid(z, m);
    PlusCore(m, x / m, y / m, z / m, z % m, x + y);
  }

  lemma PlusCore(m: nat, a: nat, b: nat, c: nat, r: nat, v: nat)
    requires r < m && v == m * a + m * b + m * c + r
    ensures v % m == r
  {
    Spread(m, a, b, c);
    DivIs(v, a + b + c, m, r);
  }

  lemma Spread(m: nat, a: nat, b: nat, c: nat)
    ensures m * (a + b + c) == m * a + m * b + m * c
  {
  }

  lemma ModTimes(x: nat, y: nat, m: nat)
    requires m > 0
    ensures ((x % m) * (y % m)) % m == (x * y) % m
  {
    Euclid(x, m);
    Euclid(y, m);
    var z := (x % m) * (y % m);
    Euclid(z, m);
    ModProduct(m, x / m, x % m, y / m, y % m, z / m, z % m);
  }

  lemma Euclid(x: nat, m: nat)
    requires m > 0
    ensures x == m * (x / m) + x % m && x % m < m
  {
  }

  lemma ModProduct(m: nat, a: nat, r: nat, b: nat, s: nat, q: nat, t: nat)
    requires t < m && r * s == m * q + t
    ensures ((m * a + r) * (m * b + s)) % m == t
  {
    Expand(m, a, r, b, s);
    var k := a * (m * b + s) + r * b;
    Spread(m, k, q, 0);
    DivIs((m * a + r) * (m * b + s), k + q, m, t);
  }

  lemma Expand(m: nat, a: nat, r: nat, b: nat, s: nat)
    ensures (m * a + r) * (m * b + s) == m * (a * (m * b + s) + r * b) + r * s
  {
    var y := m * b + s;
    assert (m * a + r) * y == m * a * y + r * y;
    assert r * y == r * (m * b) + r * s;
    assert r * (m * b) == m * (r * b);
    assert m * a * y == m * (a * y);
    assert m * (a * y + r * b) == m * (a * y) + m * (r * b);
  }

  lemma ModSmall(x: nat, m: nat)
    requires x < m
    ensures x % m == x
  {
    DivIs(x, 0, m, x);
  }

  lemma ModTwice(x: nat, m: nat)
    requires m > 0
    ensures x % m % m == x % m
  {
    ModSmall(x % m, m);
  }

  lemma {:induction false} TwoPlus(i: nat, j: nat)
    ensures Two(i + j) == Two(i) * Two(j)
  {
    if i > 0 {
      TwoPlus(i - 1, j);
      assert Two(i + j) == 2 * Two(i - 1 + j);
      assert 2 * (Two(i - 1) * Two(j)) == 2 * Two(i - 1) * Two(j);
    }
  }

  lemma {:induction false} PowPlus(a: nat, i: nat, j: nat)
    ensures Pow(a, i + j) == Pow(a, i) * Pow(a, j)
  {
    if i > 0 {
      PowPlus(a, i - 1, j);
      assert Pow(a, i + j) == a * Pow(a, i - 1 + j);
      assert a * (Pow(a, i - 1) * Pow(a, j)) == a * Pow(a, i - 1) * Pow(a, j);
    }
  }

  lemma {:induction false} PowTimes(a: nat, i: nat, j: nat)
    ensures Pow(Pow(a, i), j) == Pow(a, i * j)
  {
    if j > 0 {
      PowTimes(a, i, j - 1);
      assert i * j == i + i * (j - 1);
      PowPlus(a, i, i * (j - 1));
    }
  }

  /** A power of a remainder is the remainder of the power. */
  lemma {:induction false} PowMod(a: nat, e: nat, m: nat)
    requires m > 0
    ensures Pow(a % m, e) % m == Pow(a, e) % m
  {
    if e > 0 {
      PowMod(a, e - 1, m);
      var p, q := Pow(a % m, e - 1), Pow(a, e - 1);
      ModTimes(a % m, p, m);
      ModTimes(a, q, m);
      ModTwice(a, m);
    }
  }

  /** Bit `i` of a number. */
  ghost function Bit(v: nat, i: nat): nat {
    v / Two(i) % 2
  }

  lemma LowNext(v: nat, i: nat)
    ensures v % Two(i + 1) == v % Two(i) + Bit(v, i) * Two(i)
  {
    Euclid(v, Two(i));
    var q := v / Two(i);
    LowCore(v, Two(i), q / 2, q % 2, v % Two(i));
  }

  lemma LowCore(v: nat, t: nat, h: nat, b: nat, r: nat)
    requires v == t * (2 * h + b) + r && r < t && b <= 1
    ensures v % (2 * t) == r + b * t
  {
    assert t * (2 * h + b) == (2 * t) * h + t * b;
    assert t * b == if b == 0 then 0 else t;
    DivIs(v, h, 2 * t, r + b * t);
  }
}
