/** Bytes as elements of GF(2^8), as `src/encryption/aes.cpp` multiplies them. */
module AesField {
  import opened XorBytes

  function Xtime(x: bv8): bv8 {
    (x << 1) ^ (if x & 0x80 != 0 then 0x1b else 0)
  }

  /** The same without a branch: the top bit spread over the places of 0x1b. */
  function Spread(x: bv8): bv8 {
    (x << 1) ^ (x >> 7) ^ ((x >> 7) << 1) ^ ((x >> 7) << 3) ^ ((x >> 7) << 4)
  }

  lemma XtimeSpread(x: bv8)
    ensures Xtime(x) == Spread(x)
  {
  }

  lemma XtimeLinear(a: bv8, b: bv8)
    ensures Xtime(Xor(a, b)) == Xor(Xtime(a), Xtime(b))
  {
    assert Spread(Xor(a, b)) == Xor(Spread(a), Spread(b));
    hide Xtime, Spread, Xor;
    XtimeSpread(a);
    XtimeSpread(b);
    XtimeSpread(Xor(a, b));
  }

  /** The product of `a` with the low `n` bits of `b`: a sum of `a` times x^i over the bits set. */
  function Gf(a: bv8, b: bv8, n: nat): bv8
    decreases n
  {
    if n == 0 then 0 else Xor(if b & 1 == 1 then a else 0, Gf(Xtime(a), b >> 1, n - 1))
  }

  lemma GfHalf(a: bv8, b: bv8, h: bv8, n: nat)
    requires n > 0 && b >> 1 == h
    ensures Gf(a, b, n) == Xor(if b & 1 == 1 then a else 0, Gf(Xtime(a), h, n - 1))
  {
  }

  lemma {:induction false} GfZero(a: bv8, n: nat)
    ensures Gf(a, 0, n) == 0
    decreases n
  {
    if n > 0 {
      GfZero(Xtime(a), n - 1);
      GfHalf(a, 0, 0, n);
    }
  }

  lemma GfOdd(a: bv8, b: bv8, h: bv8, n: nat)
    requires n > 0 && b >> 1 == h && b & 1 == 1
    ensures Gf(a, b, n) == Xor(a, Gf(Xtime(a), h, n - 1))
  {
    hide Gf, Xtime, Xor;
    GfHalf(a, b, h, n);
  }

  lemma GfEven(a: bv8, b: bv8, h: bv8, n: nat)
    requires n > 0 && b >> 1 == h && b & 1 != 1
    ensures Gf(a, b, n) == Gf(Xtime(a), h, n - 1)
  {
    hide Gf, Xtime, Xor;
    GfHalf(a, b, h, n);
    XorZero(Gf(Xtime(a), h, n - 1));
  }

  /** `gf_mul`: shift and add. */
  method GfMul(a0: bv8, b0: bv8) returns (p: bv8)
    ensures p == Gf(a0, b0, 8)
  {
    hide Gf, Xtime, Xor;
    var a, b := a0, b0;
    p := 0;
    XorZero(Gf(a0, b0, 8));
    for i := 0 to 8
      invariant Xor(p, Gf(a, b, 8 - i)) == Gf(a0, b0, 8)
    {
      p := GfStep(a, b, p, 8 - i);
      a := XtimeStep(a);
      b := b >> 1;
    }
    GfNone(a, b);
    XorZero(p);
  }

  /** Add `a` to the product when the low bit of `b` is set. */
  method GfStep(a: bv8, b: bv8, p: bv8, ghost n: nat) returns (q: bv8)
    requires n > 0
    ensures Xor(q, Gf(Xtime(a), b >> 1, n - 1)) == Xor(p, Gf(a, b, n))
  {
    hide Gf, Xtime, Xor;
    ghost var next := Gf(Xtime(a), b >> 1, n - 1);
    if b & 1 == 1 {
      GfOdd(a, b, b >> 1, n);
      XorMove(p, a, next);
      q := Xor(p, a);
    } else {
      GfEven(a, b, b >> 1, n);
      q := p;
    }
  }

  method XtimeStep(x: bv8) returns (y: bv8)
    ensures y == Xtime(x)
  {
    var hi := x & 0x80;
    y := x << 1;
    if hi != 0 {
      y := y ^ 0x1b;
    }
  }

  lemma GfNone(a: bv8, b: bv8)
    ensures Gf(a, b, 0) == 0
  {
  }

  lemma GfOne(a: bv8, n: nat)
    requires n > 0
    ensures Gf(a, 1, n) == a
  {
    hide Gf, Xtime, Xor;
    GfOdd(a, 1, 0, n);
    GfZero(Xtime(a), n - 1);
    XorZero(a);
  }

  /** The products with the constants of the column mix. */
  lemma GfTwoThree(a: bv8)
    ensures Gf(a, 2, 8) == Xtime(a) && Gf(a, 3, 8) == Xor(a, Xtime(a))
  {
    hide Xtime, Gf, Xor;
    GfOne(Xtime(a), 7);
    GfEven(a, 2, 1, 8);
    GfOdd(a, 3, 1, 8);
  }

  /** The products with the constants of the inverse column mix. */
  lemma GfConstants(a: bv8)
    ensures var x2 := Xtime(a); var x4 := Xtime(x2); var x8 := Xtime(x4);
      && Gf(a, 0x09, 8) == Xor(a, x8) && Gf(a, 0x0b, 8) == Xor(a, Xor(x2, x8))
      && Gf(a, 0x0d, 8) == Xor(a, Xor(x4, x8)) && Gf(a, 0x0e, 8) == Xor(x2, Xor(x4, x8))
  {
    hide Xtime, Gf, Xor;
    var x2 := Xtime(a);
    var x4 := Xtime(x2);
    var x8 := Xtime(x4);
    GfOne(x8, 5);
    GfEven(x4, 2, 1, 6);
    GfOdd(x4, 3, 1, 6);
    GfEven(x2, 4, 2, 7);
    GfOdd(x2, 5, 2, 7);
    GfEven(x2, 6, 3, 7);
    GfOdd(x2, 7, 3, 7);
    GfOdd(a, 9, 4, 8);
    GfOdd(a, 0xb, 5, 8);
    GfOdd(a, 0xd, 6, 8);
    GfEven(a, 0xe, 7, 8);
  }
}
