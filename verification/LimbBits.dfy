/** Bits of limb numbers. */
module LimbBits {
  import opened Words
  import opened Modular
  import opened Limbs
  import opened ModArith

  lemma {:induction false} BaseTwo(j: nat)
    ensures Base(j) == Two(32 * j) && Base(j) > 0
  {
    if j > 0 {
      BaseTwo(j - 1);
      assert Two(8) == 0x100;
      TwoPlus(8, 8);
      TwoPlus(16, 16);
      TwoPlus(32, 32 * (j - 1));
    }
  }

  lemma {:induction false} ValSplit(x: seq<u32>, j: nat)
    requires j <= |x|
    ensures Val(x) == Val(x[..j]) + Base(j) * Val(x[j..])
    decreases |x|
  {
    var n := |x| - 1;
    if j == |x| {
      assert x[..j] == x;
      assert Val(x[j..]) == 0;
    } else {
      ValSplit(x[..n], j);
      assert x[..n][..j] == x[..j] && x[..n][j..] == x[j..][..n - j];
      BasePlus(j, n - j);
      SplitTop(Base(j), Val(x[j..n]), x[n], Base(n - j));
    }
  }

  lemma {:induction false} BasePlus(i: nat, j: nat)
    ensures Base(i + j) == Base(i) * Base(j)
  {
    if i > 0 {
      BasePlus(i - 1, j);
      assert Base(i + j) == TWO32 * Base(i - 1 + j);
      assert TWO32 * (Base(i - 1) * Base(j)) == TWO32 * Base(i - 1) * Base(j);
    }
  }

  lemma SplitTop(b: nat, v: nat, x: nat, c: nat)
    ensures b * (v + x * c) == b * v + x * (b * c)
  {
    assert b * (v + x * c) == b * v + b * (x * c);
    assert b * (x * c) == x * (b * c);
  }

  /** The limbs from `j` on are the quotient by 2^(32 j). */
  lemma ValShift(x: seq<u32>, j: nat)
    requires j < |x|
    ensures Val(x) / Two(32 * j) == x[j] + TWO32 * Val(x[j + 1..])
  {
    BaseTwo(j);
    ValSplit(x, j);
    ValBound(x[..j]);
    DivIs(Val(x), Val(x[j..]), Base(j), Val(x[..j]));
    ValSplit(x[j..], 1);
    assert x[j..][..1] == [x[j]] && x[j..][1..] == x[j + 1..];
    assert Val([x[j]]) == x[j] by { assert [x[j]][..0] == []; assert Val([]) == 0; }
    assert Base(1) == TWO32;
  }

  lemma DivDiv(v: nat, a: nat, b: nat)
    requires a > 0 && b > 0
    ensures a * b > 0 && v / (a * b) == v / a / b
  {
    Euclid(v, a);
    Euclid(v / a, b);
    DivCore(v, a, b, v / a / b, v / a % b, v % a);
  }

  lemma DivCore(v: nat, a: nat, b: nat, p: nat, s: nat, r: nat)
    requires v == a * (b * p + s) + r && r < a && s < b
    ensures a * b > 0 && v / (a * b) == p
  {
    Distribute(b * p, s, a);
    assert (b * p) * a == (a * b) * p by { Swap(a, b, p); }
    TimesLess(s, b, a);
    MulBound(a, b);
    DivIs(v, p, a * b, s * a + r);
  }

  lemma Swap(a: nat, b: nat, p: nat)
    ensures (b * p) * a == (a * b) * p
  {
  }

  lemma TwoWord()
    ensures Two(32) == TWO32
  {
    BaseTwo(1);
    assert Base(1) == TWO32 * Base(0);
  }

  /** Bit `k` of `w` is not touched by what stands above 32 bits. */
  lemma HighIrrelevant(w: u32, h: nat, k: nat)
    requires k < 32
    ensures Bit(w + TWO32 * h, k) == Bit(w, k)
  {
    hide Two;
    HighSplit(h, k);
    Euclid(w, Two(k));
    HighCore(w, Two(k), w / Two(k), w % Two(k), Two(31 - k) * h);
  }

  lemma HighSplit(h: nat, k: nat)
    requires k < 32
    ensures TWO32 * h == Two(k) * (2 * (Two(31 - k) * h))
  {
    TwoPlus(k, 32 - k);
    TwoWord();
    assert Two(32 - k) == 2 * Two(31 - k);
    Regroup(Two(k), Two(31 - k), h);
  }

  lemma HighCore(w: nat, t: nat, q: nat, r: nat, k: nat)
    requires w == t * q + r && r < t
    ensures (w + t * (2 * k)) / t % 2 == q % 2
  {
    Spread(t, q, 2 * k, 0);
    DivIs(w + t * (2 * k), q + 2 * k, t, r);
    Even(q, k);
  }

  lemma Even(q: nat, k: nat)
    ensures (q + 2 * k) % 2 == q % 2
  {
  }

  lemma Regroup(t: nat, u: nat, h: nat)
    ensures t * (2 * u) * h == t * (2 * (u * h))
  {
    assert (2 * u) * h == 2 * (u * h);
    assert t * (2 * u) * h == t * ((2 * u) * h);
  }

  /** `bn_getbit`. */
  method GetBit(a: array<u32>, i: nat) returns (b: nat)
    ensures b == Bit(Val(a[..]), i)
  {
    var wi, bo := i / 32, i % 32;
    if wi >= a.Length {
      AboveTop(a[..], i);
      return 0;
    }
    b := a[wi] / Two(bo) % 2;
    BitOf(a[..], i);
  }

  lemma BitOf(x: seq<u32>, i: nat)
    requires i / 32 < |x|
    ensures Bit(Val(x), i) == Bit(x[i / 32], i % 32)
  {
    var j, k := i / 32, i % 32;
    TwoPlus(32 * j, k);
    DivDiv(Val(x), Two(32 * j), Two(k));
    ValShift(x, j);
    HighIrrelevant(x[j], Val(x[j + 1..]), k);
  }

  lemma AboveTop(x: seq<u32>, i: nat)
    requires i / 32 >= |x|
    ensures Bit(Val(x), i) == 0
  {
    ValBound(x);
    BaseTwo(|x|);
    TwoPlus(32 * |x|, i - 32 * |x|);
    assert Two(32 * |x|) * Two(i - 32 * |x|) >= Two(32 * |x|) by { MulBound(Two(32 * |x|), Two(i - 32 * |x|)); }
    DivIs(Val(x), 0, Two(i), Val(x));
  }

  lemma {:induction false} TopZero(x: seq<u32>, j: nat)
    requires j <= |x| && forall k :: j <= k < |x| ==> x[k] == 0
    ensures Val(x) == Val(x[..j])
    decreases |x|
  {
    if j < |x| {
      TopZero(x[..|x| - 1], j);
      assert x[..|x| - 1][..j] == x[..j];
    } else {
      assert x[..j] == x;
    }
  }

  /** Position of the highest bit of a nonzero word, by shifting left. */
  method TopBit(w: u32) returns (pos: nat)
    requires w > 0
    ensures pos <= 31 && Two(pos) <= w < Two(pos + 1)
  {
    var x: nat := w;
    pos := 31;
    while x / 0x8000_0000 % 2 == 0
      invariant pos <= 31 && x == w * Two(31 - pos) && 0 < x < TWO32
      decreases pos
    {
      ShiftOnce(w, pos, x);
      x := (2 * x) % TWO32;
      pos := pos - 1;
    }
    ShiftBound(w, pos, x);
  }

  lemma ShiftOnce(w: u32, pos: nat, x: nat)
    requires 0 < w && pos <= 31 && x == w * Two(31 - pos) && x < TWO32 && x / 0x8000_0000 % 2 == 0
    ensures x < 0x8000_0000 && pos > 0 && (2 * x) % TWO32 == 2 * x == w * Two(31 - (pos - 1))
  {
    assert x < 0x8000_0000;
    TwoWord();
    assert Two(32) == 2 * Two(31);
    if pos == 0 { MulBound(Two(31), w); }
    assert Two(32 - pos) == 2 * Two(31 - pos);
    Double(w, Two(31 - pos));
  }

  lemma Double(a: nat, b: nat)
    ensures a * (2 * b) == 2 * (a * b)
  {
  }

  lemma ShiftBound(w: u32, pos: nat, x: nat)
    requires pos <= 31 && x == w * Two(31 - pos) && 0x8000_0000 <= x < TWO32
    ensures Two(pos) <= w < Two(pos + 1)
  {
    hide Two;
    TwoPlus(pos + 1, 31 - pos);
    TwoPlus(pos, 31 - pos);
    TwoWord();
    assert Two(32) == 2 * Two(31) by { TwoDouble(31); }
    if w >= Two(pos + 1) { TimesMono(Two(pos + 1), w, Two(31 - pos)); }
    if w < Two(pos) { TimesLess(w, Two(pos), Two(31 - pos)); }
  }

  lemma TwoDouble(i: nat)
    ensures Two(i + 1) == 2 * Two(i)
  {
  }

  lemma TimesMono(a: nat, b: nat, c: nat)
    requires a <= b
    ensures a * c <= b * c
  {
    if a < b { TimesLess(a, b, c); }
  }

  /** `bn_bitlen`: the least number of bits that hold the value. */
  method BitLen(a: array<u32>) returns (bits: nat)
    ensures Val(a[..]) < Two(bits) && bits <= 32 * a.Length && (bits > 0 ==> Two(bits - 1) <= Val(a[..]))
  {
    var i := 0;
    while i < a.Length
      invariant i <= a.Length && forall k :: a.Length - i <= k < a.Length ==> a[k] == 0
    {
      var j := a.Length - 1 - i;
      if a[j] != 0 {
        var pos := TopBit(a[j]);
        TopZero(a[..], j + 1);
        ValNext(a[..], j);
        ValBound(a[..j]);
        assert a[..][..j] == a[..j] && a[..][..j + 1] == a[..j + 1];
        BaseTwo(j);
        TimesLess(a[j], Two(pos + 1), Base(j));
        TimesMono(Two(pos), a[j], Base(j));
        TwoPlus(pos + 1, 32 * j);
        TwoPlus(pos, 32 * j);
        return j * 32 + pos + 1;
      }
      i := i + 1;
    }
    TopZero(a[..], 0);
    assert a[..][..0] == [];
    bits := 0;
  }
}
