/** Little-endian 32-bit limb arithmetic of `src/encryption/rsa.cpp`, with its carries, borrows and aliasing. */
module Limbs {
  import opened Words
  import opened Modular

  /** The number a row of limbs stands for, least significant limb first. */
  ghost function Val(x: seq<u32>): nat {
    if x == [] then 0 else Val(x[..|x| - 1]) + x[|x| - 1] * Base(|x| - 1)
  }

  /** 2^(32 i). */
  ghost function Base(i: nat): nat {
    if i == 0 then 1 else TWO32 * Base(i - 1)
  }

  lemma ValNext(x: seq<u32>, i: nat)
    requires i < |x|
    ensures Val(x[..i + 1]) == Val(x[..i]) + x[i] * Base(i)
  {
    assert x[..i + 1][..i] == x[..i];
  }

  lemma {:induction false} ValBound(x: seq<u32>)
    ensures Val(x) < Base(|x|)
  {
    if x != [] {
      var i := |x| - 1;
      ValBound(x[..i]);
      TimesLess(x[i], TWO32, Base(i));
    }
  }

  lemma TimesNext(a: nat, c: nat)
    requires c > 0
    ensures a * c == a * (c - 1) + a
  {
  }

  lemma {:induction false} TimesLess(a: nat, b: nat, c: nat)
    requires a < b
    ensures a * c + c <= b * c
    decreases c
  {
    if c > 0 {
      TimesLess(a, b, c - 1);
      TimesNext(a, c);
      TimesNext(b, c);
    }
  }

  /** Limbs above `i` decide before those below. */
  lemma {:induction false} ValCompare(x: seq<u32>, y: seq<u32>, i: nat)
    requires |x| == |y| && i < |x| && x[i] < y[i] && forall k :: i < k < |x| ==> x[k] == y[k]
    ensures Val(x) < Val(y)
    decreases |x|
  {
    var n := |x| - 1;
    if i < n {
      ValCompare(x[..n], y[..n], i);
    } else {
      ValBound(x[..n]);
      TimesLess(x[n], y[n], Base(n));
    }
  }

  lemma {:induction false} ValZero(x: seq<u32>)
    requires forall k :: 0 <= k < |x| ==> x[k] == 0
    ensures Val(x) == 0
  {
    if x != [] { ValZero(x[..|x| - 1]); }
  }

  method Zero(x: array<u32>)
    modifies x
    ensures Val(x[..]) == 0 && forall k :: 0 <= k < x.Length ==> x[k] == 0
  {
    for i := 0 to x.Length
      invariant forall k :: 0 <= k < i ==> x[k] == 0
    {
      x[i] := 0;
    }
    ValZero(x[..]);
  }

  method Copy(dst: array<u32>, src: array<u32>)
    requires dst.Length == src.Length
    modifies dst
    ensures dst[..] == old(src[..])
  {
    if dst != src {
      for i := 0 to dst.Length
        invariant dst[..i] == src[..i] && src[..] == old(src[..])
      {
        dst[i] := src[i];
      }
      assert dst[..dst.Length] == dst[..] && src[..src.Length] == src[..];
    }
  }

  /** `bn_ucmp`. */
  method Compare(a: array<u32>, b: array<u32>) returns (c: int)
    requires a.Length == b.Length
    ensures c == if Val(a[..]) < Val(b[..]) then -1 else if Val(a[..]) > Val(b[..]) then 1 else 0
  {
    var i := 0;
    while i < a.Length
      invariant i <= a.Length && forall k :: a.Length - i <= k < a.Length ==> a[k] == b[k]
    {
      var j := a.Length - 1 - i;
      if a[j] < b[j] {
        ValCompare(a[..], b[..], j);
        return -1;
      }
      if a[j] > b[j] {
        ValCompare(b[..], a[..], j);
        return 1;
      }
      i := i + 1;
    }
    assert a[..] == b[..];
    c := 0;
  }

  /** One column of a sum. */
  lemma AddColumn(va: nat, vb: nat, vr: nat, a: nat, b: nat, c: nat, r: nat, c': nat, base: nat)
    requires va + vb == vr + c * base && a + b + c == r + c' * TWO32
    ensures (va + a * base) + (vb + b * base) == (vr + r * base) + c' * (TWO32 * base)
  {
    Distribute(a + b, c, base);
    Distribute(a, b, base);
    Distribute(r, c' * TWO32, base);
    assert (c' * TWO32) * base == c' * (TWO32 * base);
  }

  /** `bn_add`: `r` may be `a` or `b`. */
  method Add(r: array<u32>, a: array<u32>, b: array<u32>) returns (carry: nat)
    requires r.Length == a.Length == b.Length
    modifies r
    ensures carry <= 1
    ensures Val(r[..]) + carry * Base(r.Length) == old(Val(a[..])) + old(Val(b[..]))
  {
    ghost var x, y := a[..], b[..];
    carry := 0;
    for i := 0 to r.Length
      invariant carry <= 1 && a[i..] == x[i..] && b[i..] == y[i..]
      invariant Val(x[..i]) + Val(y[..i]) == Val(r[..i]) + carry * Base(i)
    {
      assert a[i] == a[i..][0] == x[i] && b[i] == b[i..][0] == y[i];
      ghost var before := r[..i];
      var c := carry + a[i] + b[i];
      ghost var c0 := carry;
      r[i] := c % TWO32;
      carry := c / TWO32;
      assert r[..i] == before;
      ValNext(x, i);
      ValNext(y, i);
      ValNext(r[..], i);
      assert r[..][..i] == r[..i] && r[..][..i + 1] == r[..i + 1];
      AddColumn(Val(x[..i]), Val(y[..i]), Val(before), x[i], y[i], c0, r[i], carry, Base(i));
      assert a[i + 1..] == a[i..][1..] && b[i + 1..] == b[i..][1..];
    }
    assert x[..|x|] == x && y[..|y|] == y && r[..r.Length] == r[..];
  }

  /** One column of a difference. */
  lemma SubColumn(va: nat, vb: nat, vr: nat, a: nat, b: nat, c: nat, r: nat, c': nat, base: nat)
    requires va + c * base == vr + vb && a + c' * TWO32 == r + b + c
    ensures (va + a * base) + c' * (TWO32 * base) == (vr + r * base) + (vb + b * base)
  {
    Distribute(a, c' * TWO32, base);
    assert (c' * TWO32) * base == c' * (TWO32 * base);
    Distribute(r + b, c, base);
    Distribute(r, b, base);
  }

  const TWO63: int := 0x8000_0000_0000_0000

  /** `bn_sub`: `r` may be `a` or `b`; differences are taken modulo 2^64 and the borrow is their top bit. */
  method Sub(r: array<u32>, a: array<u32>, b: array<u32>) returns (borrow: nat)
    requires r.Length == a.Length == b.Length
    modifies r
    ensures borrow <= 1
    ensures Val(r[..]) + old(Val(b[..])) == old(Val(a[..])) + borrow * Base(r.Length)
  {
    ghost var x, y := a[..], b[..];
    borrow := 0;
    for i := 0 to r.Length
      invariant borrow <= 1 && forall k :: i <= k < a.Length ==> a[k] == x[k] && b[k] == y[k]
      invariant Val(x[..i]) + borrow * Base(i) == Val(r[..i]) + Val(y[..i])
    {
      ghost var before := r[..i];
      var t: nat := (a[i] - b[i] - borrow) % (2 * TWO63);
      ghost var c0 := borrow;
      BorrowOf(a[i], b[i], borrow, t);
      r[i] := t % TWO32;
      borrow := t / TWO63;
      assert r[..i] == before;
      ValNext(x, i);
      ValNext(y, i);
      ValNext(r[..], i);
      assert r[..][..i] == r[..i] && r[..][..i + 1] == r[..i + 1];
      SubColumn(Val(x[..i]), Val(y[..i]), Val(before), x[i], y[i], c0, r[i], borrow, Base(i));
    }
    assert x[..|x|] == x && y[..|y|] == y && r[..r.Length] == r[..];
  }

  lemma BorrowOf(a: u32, b: u32, c: nat, t: nat)
    requires c <= 1 && t == (a - b - c) % (2 * TWO63)
    ensures t / TWO63 <= 1 && a + t / TWO63 * TWO32 == t % TWO32 + b + c
  {
    if a < b + c {
      assert t == a - b - c + 2 * TWO63;
    } else {
      assert t == a - b - c;
    }
  }
}
