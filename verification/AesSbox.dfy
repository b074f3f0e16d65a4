/** What the substitution table computes (section 5.1.1 of FIPS 197). */
module AesSbox {
  import opened XorBytes
  import opened AesTables
  import opened AesField

  /** `a` when bit `i` of `b` is set. */
  function Sel(b: bv8, a: bv8): bv8 {
    (0 - (b & 1)) & a
  }

  function Sum8(p: bv8, q: bv8, r: bv8, s: bv8, t: bv8, u: bv8, v: bv8, w: bv8): bv8 {
    p ^ (q ^ (r ^ (s ^ (t ^ (u ^ (v ^ w))))))
  }

  /** One bit of a product. */
  lemma GfBit(a: bv8, b: bv8, n: nat)
    requires n > 0
    ensures Gf(a, b, n) == Xor(Sel(b, a), Gf(Spread(a), b >> 1, n - 1))
  {
    assert Sel(b, a) == if b & 1 == 1 then a else 0;
    hide Gf, Xor, Xtime, Spread, Sel;
    GfHalf(a, b, b >> 1, n);
    XtimeSpread(a);
  }

  lemma SumIs(p: bv8, q: bv8, r: bv8, s: bv8, t: bv8, u: bv8, v: bv8, w: bv8)
    ensures Sum8(p, q, r, s, t, u, v, w) == Xor(p, Xor(q, Xor(r, Xor(s, Xor(t, Xor(u, Xor(v, w)))))))
  {
  }

  /** A product as the sum of eight doublings. */
  lemma GfSum(a: bv8, b: bv8)
    ensures var a1 := Spread(a); var a2 := Spread(a1); var a3 := Spread(a2); var a4 := Spread(a3);
      var a5 := Spread(a4); var a6 := Spread(a5); var a7 := Spread(a6);
      var b1 := b >> 1; var b2 := b1 >> 1; var b3 := b2 >> 1; var b4 := b3 >> 1; var b5 := b4 >> 1; var b6 := b5 >> 1;
      Gf(a, b, 8) == Sum8(Sel(b, a), Sel(b1, a1), Sel(b2, a2), Sel(b3, a3), Sel(b4, a4), Sel(b5, a5), Sel(b6, a6), Sel(b6 >> 1, a7))
  {
    hide Gf, Xor, Spread, Sel, Sum8;
    var a1 := Spread(a);
    var a2 := Spread(a1);
    var a3 := Spread(a2);
    var a4 := Spread(a3);
    var a5 := Spread(a4);
    var a6 := Spread(a5);
    var a7 := Spread(a6);
    var b1 := b >> 1;
    var b2 := b1 >> 1;
    var b3 := b2 >> 1;
    var b4 := b3 >> 1;
    var b5 := b4 >> 1;
    var b6 := b5 >> 1;
    var b7 := b6 >> 1;
    GfBit(a, b, 8);
    GfBit(a1, b1, 7);
    GfBit(a2, b2, 6);
    GfBit(a3, b3, 5);
    GfBit(a4, b4, 4);
    GfBit(a5, b5, 3);
    GfBit(a6, b6, 2);
    GfBit(a7, b7, 1);
    GfNone(Spread(a7), b7 >> 1);
    XorZero(Sel(b7, a7));
    SumIs(Sel(b, a), Sel(b1, a1), Sel(b2, a2), Sel(b3, a3), Sel(b4, a4), Sel(b5, a5), Sel(b6, a6), Sel(b7, a7));
  }

  lemma InverseSum(x: bv8)
    requires x != 0
    ensures var b := FieldInverse(x);
      var a1 := Spread(x); var a2 := Spread(a1); var a3 := Spread(a2); var a4 := Spread(a3);
      var a5 := Spread(a4); var a6 := Spread(a5); var a7 := Spread(a6);
      var b1 := b >> 1; var b2 := b1 >> 1; var b3 := b2 >> 1; var b4 := b3 >> 1; var b5 := b4 >> 1; var b6 := b5 >> 1;
      Sum8(Sel(b, x), Sel(b1, a1), Sel(b2, a2), Sel(b3, a3), Sel(b4, a4), Sel(b5, a5), Sel(b6, a6), Sel(b6 >> 1, a7)) == 1
  {
  }

  /** The third table holds the inverses of the field: the product of a byte other than 0 with its entry is 1. */
  lemma InverseIs(x: bv8)
    requires x != 0
    ensures Gf(x, FieldInverse(x), 8) == 1
  {
    hide Gf, Spread, Sel, Sum8, FieldInverse;
    GfSum(x, FieldInverse(x));
    InverseSum(x);
  }

  /** The S-box is the affine map of the field inverse, 0 standing for its own. */
  lemma SboxMeaning(x: bv8)
    ensures Sbox(x) == Affine(FieldInverse(x))
    ensures if x == 0 then FieldInverse(x) == 0 else Gf(x, FieldInverse(x), 8) == 1
  {
    hide Gf, Sbox, Affine;
    SboxIsAffine(x);
    if x != 0 { InverseIs(x); }
  }
}
