/** Modular addition, doubling, multiplication and exponentiation on limbs, as `src/encryption/rsa.cpp` does them. */
module RsaMod {
  import opened Words
  import opened Limbs
  import opened ModArith
  import opened LimbBits

  /** A sum below twice the modulus is reduced by at most one subtraction. */
  lemma ReduceOnce(x: nat, m: nat)
    requires x < 2 * m
    ensures x % m == if x >= m then x - m else x
  {
    if x >= m { DivIs(x, 1, m, x - m); } else { DivIs(x, 0, m, x); }
  }

  /** The compare-and-subtract that both additions end with; `carry` is the limb that did not fit. */
  method Reduce(tmp: array<u32>, m: array<u32>, carry: nat)
    requires tmp.Length == m.Length && tmp != m && carry <= 1
    requires Val(tmp[..]) + carry * Base(tmp.Length) < 2 * Val(m[..])
    modifies tmp
    ensures Val(tmp[..]) == (old(Val(tmp[..])) + carry * Base(tmp.Length)) % Val(m[..])
  {
    ghost var v := Val(tmp[..]);
    ValBound(tmp[..]);
    ValBound(m[..]);
    ReduceOnce(v + carry * Base(tmp.Length), Val(m[..]));
    var ge := false;
    if carry != 0 {
      ge := true;
    }
    var c := Compare(tmp, m);
    if c >= 0 {
      ge := true;
    }
    if ge {
      var borrow := Sub(tmp, tmp, m);
      ValBound(tmp[..]);
      BorrowIsCarry(v, Val(m[..]), Val(tmp[..]), carry, borrow, Base(tmp.Length));
    }
  }

  lemma BorrowIsCarry(v: nat, m: nat, r: nat, carry: nat, borrow: nat, base: nat)
    requires carry <= 1 && borrow <= 1 && r + m == v + borrow * base && r < base && v < base && m < base
    requires m <= v + carry * base < 2 * m
    ensures r == v + carry * base - m
  {
    assert carry * base == if carry == 0 then 0 else base;
    assert borrow * base == if borrow == 0 then 0 else base;
  }

  /** `mod_add`: `r` may be `a` or `b`. */
  method ModAdd(r: array<u32>, a: array<u32>, b: array<u32>, m: array<u32>, tmp: array<u32>)
    requires r.Length == a.Length == b.Length == m.Length == tmp.Length
    requires tmp != a && tmp != b && tmp != m && tmp != r && r != m
    requires Val(a[..]) < Val(m[..]) && Val(b[..]) < Val(m[..])
    modifies r, tmp
    ensures Val(r[..]) == (old(Val(a[..])) + old(Val(b[..]))) % Val(m[..])
  {
    var carry := Add(tmp, a, b);
    Reduce(tmp, m, carry);
    Copy(r, tmp);
  }

  /** `mod_double`. */
  method ModDouble(r: array<u32>, a: array<u32>, m: array<u32>, tmp: array<u32>)
    requires r.Length == a.Length == m.Length == tmp.Length
    requires tmp != a && tmp != m && tmp != r && r != m
    requires Val(a[..]) < Val(m[..])
    modifies r, tmp
    ensures Val(r[..]) == (2 * old(Val(a[..]))) % Val(m[..])
  {
    var carry := Add(tmp, a, a);
    Reduce(tmp, m, carry);
    Copy(r, tmp);
  }

  // ---------------------------------------------------------------- multiplication

  /** The state of double-and-add after `i` bits of `b`. */
  ghost predicate MulAfter(acc: nat, cur: nat, a: nat, b: nat, m: nat, i: nat) {
    m > 0 && acc == (a * (b % Two(i))) % m && cur == (a * Two(i)) % m
  }

  lemma MulStart(a: nat, b: nat, m: nat)
    requires a < m
    ensures MulAfter(0, a, a, b, m, 0)
  {
    ModSmall(a, m);
    ModSmall(0, m);
    assert b % Two(0) == 0;
  }

  lemma MulStep(acc: nat, cur: nat, a: nat, b: nat, m: nat, i: nat, acc': nat, cur': nat)
    requires MulAfter(acc, cur, a, b, m, i)
    requires acc' == if Bit(b, i) == 1 then (acc + cur) % m else acc
    requires cur' == (2 * cur) % m
    ensures MulAfter(acc', cur', a, b, m, i + 1)
  {
    hide Two;
    var t := Two(i);
    LowNext(b, i);
    AddStep(a, b % t, t, m);
    if Bit(b, i) == 1 { assert b % Two(i + 1) == b % t + t; }
    else { ZeroBit(b, i); }
    TwoNext(i);
    DoubleStep(a, t, m);
  }

  lemma ZeroBit(b: nat, i: nat)
    requires Bit(b, i) != 1
    ensures b % Two(i + 1) == b % Two(i)
  {
    LowNext(b, i);
    assert Bit(b, i) == 0;
  }

  lemma TwoNext(i: nat)
    ensures Two(i + 1) == 2 * Two(i)
  {
  }

  lemma AddStep(a: nat, low: nat, t: nat, m: nat)
    requires m > 0
    ensures ((a * low) % m + (a * t) % m) % m == (a * (low + t)) % m
  {
    Spread(a, low, t, 0);
    ModPlus(a * low, a * t, m);
  }

  lemma DoubleStep(a: nat, t: nat, m: nat)
    requires m > 0
    ensures (2 * ((a * t) % m)) % m == (a * (2 * t)) % m
  {
    AddStep(a, t, t, m);
  }

  /** `mod_mul_bin`: `r`, `a` and `b` may be the same array. */
  method ModMul(r: array<u32>, a: array<u32>, b: array<u32>, m: array<u32>, acc: array<u32>, cur: array<u32>, tmp: array<u32>)
    requires r.Length == a.Length == b.Length == m.Length == acc.Length == cur.Length == tmp.Length
    requires acc != cur && acc != tmp && cur != tmp && r != m
    requires acc != a && acc != b && acc != m && acc != r && cur != a && cur != b && cur != m && cur != r
    requires tmp != a && tmp != b && tmp != m && tmp != r
    requires Val(a[..]) < Val(m[..])
    modifies r, acc, cur, tmp
    ensures Val(r[..]) == (old(Val(a[..])) * old(Val(b[..]))) % Val(m[..])
  {
    hide Val, MulAfter, Two, Bit;
    ghost var va, vb, vm := Val(a[..]), Val(b[..]), Val(m[..]);
    Zero(acc);
    Copy(cur, a);
    MulStart(va, vb, vm);
    var bits := BitLen(b);
    for i := 0 to bits
      invariant b[..] == old(b[..]) && m[..] == old(m[..])
      invariant MulAfter(Val(acc[..]), Val(cur[..]), va, vb, vm, i)
    {
      MulBounds(Val(acc[..]), Val(cur[..]), va, vb, vm, i);
      ghost var x, y := Val(acc[..]), Val(cur[..]);
      var bit := GetBit(b, i);
      if bit == 1 {
        ModAdd(acc, acc, cur, m, tmp);
      }
      ModDouble(cur, cur, m, tmp);
      MulStep(x, y, va, vb, vm, i, Val(acc[..]), Val(cur[..]));
    }
    MulEnd(Val(acc[..]), Val(cur[..]), va, vb, vm, bits);
    Copy(r, acc);
  }

  lemma MulBounds(acc: nat, cur: nat, a: nat, b: nat, m: nat, i: nat)
    requires MulAfter(acc, cur, a, b, m, i)
    ensures acc < m && cur < m
  {
  }

  lemma MulEnd(acc: nat, cur: nat, a: nat, b: nat, m: nat, bits: nat)
    requires MulAfter(acc, cur, a, b, m, bits) && b < Two(bits)
    ensures acc == (a * b) % m
  {
    ModSmall(b, Two(bits));
  }

  // ---------------------------------------------------------------- exponentiation

  /** The state of square-and-multiply after `i` bits of `e`. */
  ghost predicate PowAfter(r: nat, t: nat, a: nat, e: nat, m: nat, i: nat) {
    m > 0 && r == Pow(a, e % Two(i)) % m && t == Pow(a, Two(i)) % m
  }

  lemma PowStart(a: nat, e: nat, m: nat)
    requires a < m && 1 < m
    ensures PowAfter(1, a, a, e, m, 0)
  {
    ModSmall(a, m);
    ModSmall(1, m);
    assert e % Two(0) == 0 && Two(0) == 1 && Pow(a, 0) == 1 && Pow(a, 1) == a * Pow(a, 0);
  }

  lemma PowStep(r: nat, t: nat, a: nat, e: nat, m: nat, i: nat, r': nat, t': nat)
    requires PowAfter(r, t, a, e, m, i)
    requires r' == if Bit(e, i) == 1 then (r * t) % m else r
    requires t' == (t * t) % m
    ensures PowAfter(r', t', a, e, m, i + 1)
  {
    hide Two, Pow;
    var p := Two(i);
    LowNext(e, i);
    PowProduct(a, e % p, p, m);
    PowProduct(a, p, p, m);
    if Bit(e, i) == 1 { assert e % Two(i + 1) == e % p + p; }
    else { ZeroBit(e, i); }
    TwoNext(i);
  }

  lemma PowProduct(a: nat, i: nat, j: nat, m: nat)
    requires m > 0
    ensures ((Pow(a, i) % m) * (Pow(a, j) % m)) % m == Pow(a, i + j) % m
  {
    ModTimes(Pow(a, i), Pow(a, j), m);
    PowPlus(a, i, j);
  }

  lemma PowBounds(r: nat, t: nat, a: nat, e: nat, m: nat, i: nat)
    requires PowAfter(r, t, a, e, m, i)
    ensures r < m && t < m
  {
  }

  lemma PowEnd(r: nat, t: nat, a: nat, e: nat, m: nat, bits: nat)
    requires PowAfter(r, t, a, e, m, bits) && e < Two(bits)
    ensures r == Pow(a, e) % m
  {
    ModSmall(e, Two(bits));
  }

  /** `mod_pow`: a^e mod m for every limb count. */
  method ModPow(r: array<u32>, a: array<u32>, e: array<u32>, m: array<u32>,
                t0: array<u32>, t1: array<u32>, t2: array<u32>, t3: array<u32>)
    requires r.Length == a.Length == e.Length == m.Length == t0.Length == t1.Length == t2.Length == t3.Length > 0
    requires r != a && r != e && r != m && r !in {t0, t1, t2, t3}
    requires t0 !in {a, e, m, t1, t2, t3} && t1 !in {a, e, m, t2, t3} && t2 !in {a, e, m, t3} && t3 !in {a, e, m}
    requires Val(a[..]) < Val(m[..]) && Val(m[..]) > 1
    modifies r, t0, t1, t2, t3
    ensures Val(r[..]) == Pow(old(Val(a[..])), old(Val(e[..]))) % old(Val(m[..]))
  {
    hide Val, PowAfter, Two, Bit, Pow;
    ghost var va, ve, vm := Val(a[..]), Val(e[..]), Val(m[..]);
    Zero(r);
    r[0] := 1;
    ValOne(r[..]);
    Copy(t0, a);
    PowStart(va, ve, vm);
    var bits := BitLen(e);
    for i := 0 to bits
      invariant e[..] == old(e[..]) && m[..] == old(m[..])
      invariant PowAfter(Val(r[..]), Val(t0[..]), va, ve, vm, i)
    {
      PowBounds(Val(r[..]), Val(t0[..]), va, ve, vm, i);
      ghost var x, y := Val(r[..]), Val(t0[..]);
      var bit := GetBit(e, i);
      if bit == 1 {
        ModMul(r, r, t0, m, t1, t2, t3);
      }
      ModMul(t0, t0, t0, m, t1, t2, t3);
      PowStep(x, y, va, ve, vm, i, Val(r[..]), Val(t0[..]));
    }
    PowEnd(Val(r[..]), Val(t0[..]), va, ve, vm, bits);
  }

  lemma {:induction false} ValOne(x: seq<u32>)
    requires |x| > 0 && x[0] == 1 && forall k :: 1 <= k < |x| ==> x[k] == 0
    ensures Val(x) == 1
  {
    var n := |x| - 1;
    if n > 0 {
      ValOne(x[..n]);
    } else {
      assert x[..0] == [];
    }
  }
}
