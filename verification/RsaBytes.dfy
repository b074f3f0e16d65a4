/** Big-endian byte strings and limbs, as `src/encryption/rsa.cpp` converts between them. */
module RsaBytes {
  import opened Words
  import opened Modular
  import opened Limbs
  import opened ModArith
  import opened LimbBits

  /** A byte string read backwards. */
  function Rev(s: seq<byte>): (r: seq<byte>)
    ensures |r| == |s| && forall k :: 0 <= k < |s| ==> r[k] == s[|s| - 1 - k]
  {
    seq(|s|, k requires 0 <= k < |s| => s[|s| - 1 - k])
  }

  /** The number with these base-256 digits, least significant first. */
  ghost function Le(d: seq<byte>): nat {
    if d == [] then 0 else Le(d[..|d| - 1]) + d[|d| - 1] as nat * Two(8 * (|d| - 1))
  }

  /** The number a big-endian byte string stands for (section 4.2 of RFC 8017). */
  ghost function Num(be: seq<byte>): nat {
    Le(Rev(be))
  }

  lemma LeNext(d: seq<byte>, i: nat)
    requires i < |d|
    ensures Le(d[..i + 1]) == Le(d[..i]) + d[i] as nat * Two(8 * i)
  {
    assert d[..i + 1][..i] == d[..i];
  }

  lemma TwoByte(i: nat)
    ensures Two(8 * (i + 1)) == 0x100 * Two(8 * i)
  {
    assert Two(8) == 0x100;
    TwoPlus(8, 8 * i);
  }

  lemma {:induction false} LeBound(d: seq<byte>)
    ensures Le(d) < Two(8 * |d|)
  {
    if d != [] {
      var i := |d| - 1;
      LeBound(d[..i]);
      TwoByte(i);
      TimesLess(d[i] as nat, 0x100, Two(8 * i));
    }
  }

  lemma {:induction false} LeShift(x: byte, d: seq<byte>)
    ensures Le([x] + d) == x as nat + 0x100 * Le(d)
  {
    var e := [x] + d;
    if d == [] {
      assert e[..0] == [];
    } else {
      var i := |d| - 1;
      LeShift(x, d[..i]);
      assert e[..i + 1] == [x] + d[..i] && e[i + 1] == d[i];
      TwoByte(i);
      assert d[i] as nat * (0x100 * Two(8 * i)) == 0x100 * (d[i] as nat * Two(8 * i));
    }
  }

  /** One byte more at the end: the base-256 digits of section 4.2 of RFC 8017, most significant first. */
  lemma NumHorner(be: seq<byte>, x: byte)
    ensures Num(be + [x]) == 0x100 * Num(be) + x as nat && Num([]) == 0
  {
    hide Two;
    assert Rev(be + [x]) == [x] + Rev(be);
    LeShift(x, Rev(be));
  }

  // ---------------------------------------------------------------- digits of a number

  /** Base-256 digit `i`. */
  ghost function Digit(v: nat, i: nat): nat {
    v / Two(8 * i) % 0x100
  }

  lemma LowByte(v: nat, i: nat)
    ensures v % Two(8 * (i + 1)) == v % Two(8 * i) + Digit(v, i) * Two(8 * i)
  {
    TwoByte(i);
    Euclid(v, Two(8 * i));
    var q := v / Two(8 * i);
    Euclid(q, 0x100);
    LowByteCore(v, Two(8 * i), q / 0x100, q % 0x100, v % Two(8 * i));
  }

  lemma LowByteCore(v: nat, t: nat, h: nat, b: nat, r: nat)
    requires v == t * (0x100 * h + b) + r && r < t && b < 0x100
    ensures v % (0x100 * t) == r + b * t
  {
    assert t * (0x100 * h + b) == (0x100 * t) * h + b * t;
    TimesLess(b, 0x100, t);
    DivIs(v, h, 0x100 * t, r + b * t);
  }

  /** The digits of `v` in order are `v` again, as far as they go. */
  lemma {:induction false} DigitsSum(d: seq<byte>, v: nat)
    requires forall k :: 0 <= k < |d| ==> d[k] as nat == Digit(v, k)
    ensures Le(d) == v % Two(8 * |d|)
  {
    if d == [] {
      assert Two(0) == 1;
    } else {
      DigitsSum(d[..|d| - 1], v);
      LowByte(v, |d| - 1);
    }
  }

  /** Digit `4j + k` of a limb number is byte `k` of limb `j`. */
  lemma DigitOf(x: seq<u32>, i: nat)
    requires i / 4 < |x|
    ensures Digit(Val(x), i) == x[i / 4] / Two(8 * (i % 4)) % 0x100
  {
    hide Two, Val;
    var j, k := i / 4, i % 4;
    assert 8 * i == 32 * j + 8 * k;
    TwoPlus(32 * j, 8 * k);
    DivDiv(Val(x), Two(32 * j), Two(8 * k));
    ValShift(x, j);
    HighByte(x[j], Val(x[j + 1..]), k);
  }

  lemma HighByte(w: u32, h: nat, k: nat)
    requires k < 4
    ensures (w + TWO32 * h) / Two(8 * k) % 0x100 == w / Two(8 * k) % 0x100
  {
    hide Two;
    WordSplit(h, k);
    Euclid(w, Two(8 * k));
    HighByteCore(w, Two(8 * k), w / Two(8 * k), w % Two(8 * k), Two(24 - 8 * k) * h);
  }

  lemma WordSplit(h: nat, k: nat)
    requires k < 4
    ensures TWO32 * h == Two(8 * k) * (0x100 * (Two(24 - 8 * k) * h))
  {
    TwoWord();
    TwoPlus(8 * k, 32 - 8 * k);
    TwoByte(3 - k);
    assert 8 * (3 - k + 1) == 32 - 8 * k && 8 * (3 - k) == 24 - 8 * k;
    Group3(Two(8 * k), Two(24 - 8 * k), h);
  }

  lemma Group3(t: nat, u: nat, h: nat)
    ensures t * (0x100 * u) * h == t * (0x100 * (u * h))
  {
    assert (0x100 * u) * h == 0x100 * (u * h);
    assert t * (0x100 * u) * h == t * ((0x100 * u) * h);
  }

  lemma HighByteCore(w: nat, t: nat, q: nat, r: nat, k: nat)
    requires w == t * q + r && r < t
    ensures (w + t * (0x100 * k)) / t % 0x100 == q % 0x100
  {
    Spread(t, q, 0x100 * k, 0);
    DivIs(w + t * (0x100 * k), q + 0x100 * k, t, r);
  }

  lemma DigitAbove(x: seq<u32>, i: nat)
    requires i / 4 >= |x|
    ensures Digit(Val(x), i) == 0
  {
    ValBound(x);
    BaseTwo(|x|);
    TwoPlus(32 * |x|, 8 * i - 32 * |x|);
    MulBound(Two(32 * |x|), Two(8 * i - 32 * |x|));
    DivIs(Val(x), 0, Two(8 * i), Val(x));
  }

  // ---------------------------------------------------------------- conversions

  lemma {:induction false} ValUpdate(x: seq<u32>, w: nat, v: u32)
    requires w < |x| && v >= x[w]
    ensures Val(x[w := v]) == Val(x) + (v - x[w]) * Base(w)
    decreases |x|
  {
    var n := |x| - 1;
    var y := x[w := v];
    if w < n {
      assert y[..n] == x[..n][w := v];
      ValUpdate(x[..n], w, v);
    } else {
      assert y[..n] == x[..n];
      Distribute(v - x[w], x[w], Base(w));
    }
  }

  /** Limbs hold the first `i` digits and nothing else. */
  ghost predicate Holds(x: seq<u32>, d: seq<byte>, i: nat) {
    && i <= |d| && i <= 4 * |x| && Val(x) == Le(d[..i])
    && (forall k :: (i + 3) / 4 <= k < |x| ==> x[k] == 0)
    && (i % 4 != 0 ==> x[i / 4] < Two(8 * (i % 4)))
  }

  lemma PutDigit(x: seq<u32>, d: seq<byte>, i: nat, v: nat)
    requires i < |d| && i < 4 * |x| && Holds(x, d, i) && v == x[i / 4] + d[i] as nat * Two(8 * (i % 4))
    ensures v < TWO32 && Holds(x[i / 4 := v], d, i + 1)
  {
    hide Val, Le, Two;
    var j, k := i / 4, i % 4;
    var b := d[i] as nat;
    assert x[j] < Two(8 * k) by { if k == 0 { TwoNone(); } }
    DigitRoom(x[j], b, k);
    ValUpdate(x, j, v);
    LeNext(d, i);
    BaseTwo(j);
    assert 8 * i == 8 * k + 32 * j;
    TwoPlus(8 * k, 32 * j);
    Assoc(b, Two(8 * k), Two(32 * j));
  }

  lemma TwoNone()
    ensures Two(0) == 1
  {
  }

  lemma DigitRoom(x: nat, b: nat, k: nat)
    requires k < 4 && b < 0x100 && x < Two(8 * k)
    ensures x + b * Two(8 * k) < Two(8 * (k + 1)) <= TWO32
  {
    hide Two;
    TwoByte(k);
    TimesLess(b, 0x100, Two(8 * k));
    TwoBytes();
  }

  lemma TwoBytes()
    ensures Two(8) == 0x100 && Two(16) == 0x1_0000 && Two(24) == 0x100_0000 && Two(32) == TWO32
  {
    assert Two(8) == 0x100;
    TwoPlus(8, 8);
    TwoPlus(16, 8);
    TwoPlus(24, 8);
  }

  /** `bn_from_be_bytes`: bytes beyond the limbs are dropped. The OR of a byte into its free place is a sum. */
  method FromBytes(x: array<u32>, be: seq<byte>)
    modifies x
    ensures Val(x[..]) == Num(be) % Two(32 * x.Length)
  {
    hide Val, Le, Two, Holds;
    Zero(x);
    ghost var d := Rev(be);
    HoldsNothing(x[..], d);
    for i := 0 to |be|
      invariant Holds(x[..], d, if i <= 4 * x.Length then i else 4 * x.Length)
    {
      var bi := |be| - 1 - i;
      var wi, bo := i / 4, i % 4;
      if wi < x.Length {
        PutDigit(x[..], d, i, x[wi] + be[bi] as nat * Two(8 * bo));
        ghost var y := x[..];
        x[wi] := x[wi] + be[bi] as nat * Two(8 * bo);
        assert x[..] == y[wi := y[wi] + d[i] as nat * Two(8 * bo)];
      }
    }
    HoldsAll(x[..], d);
  }

  lemma HoldsNothing(x: seq<u32>, d: seq<byte>)
    requires Val(x) == 0 && forall k :: 0 <= k < |x| ==> x[k] == 0
    ensures Holds(x, d, 0)
  {
    assert d[..0] == [];
  }

  lemma HoldsAll(x: seq<u32>, d: seq<byte>)
    requires Holds(x, d, if |d| <= 4 * |x| then |d| else 4 * |x|)
    ensures Val(x) == Le(d) % Two(32 * |x|)
  {
    hide Val, Two, Le;
    if |d| <= 4 * |x| {
      assert d[..|d|] == d;
      LeFits(d, |x|);
    } else {
      LePrefix(d, 4 * |x|);
      assert 8 * (4 * |x|) == 32 * |x|;
    }
  }

  lemma LeFits(d: seq<byte>, l: nat)
    requires |d| <= 4 * l
    ensures Le(d) % Two(32 * l) == Le(d)
  {
    hide Two;
    LeBound(d);
    TwoPlus(8 * |d|, 32 * l - 8 * |d|);
    MulBound(Two(8 * |d|), Two(32 * l - 8 * |d|));
    ModSmall(Le(d), Two(32 * l));
  }

  lemma {:induction false} LePrefix(d: seq<byte>, i: nat)
    requires i <= |d|
    ensures Le(d) % Two(8 * i) == Le(d[..i])
    decreases |d|
  {
    hide Two;
    if i == |d| {
      assert d[..i] == d;
      LeBound(d);
      ModSmall(Le(d), Two(8 * i));
    } else {
      var n := |d| - 1;
      LePrefix(d[..n], i);
      assert d[..n][..i] == d[..i];
      TwoPlus(8 * i, 8 * n - 8 * i);
      DropMultiple(Le(d[..n]), d[n] as nat, Two(8 * n - 8 * i), Two(8 * i));
    }
  }

  lemma DropMultiple(v: nat, b: nat, u: nat, t: nat)
    requires t > 0
    ensures (v + b * (t * u)) % t == v % t
  {
    Euclid(v, t);
    assert b * (t * u) == t * (b * u);
    Spread(t, v / t, b * u, 0);
    DivIs(v + b * (t * u), v / t + b * u, t, v % t);
  }

  /** `bn_to_be_bytes`. */
  method ToBytes(x: array<u32>, len: nat) returns (out: seq<byte>)
    ensures |out| == len && Num(out) == Val(x[..]) % Two(8 * len)
  {
    hide Val, Le, Two, Digit;
    var buf := new byte[len];
    for i := 0 to len
      invariant x[..] == old(x[..])
      invariant forall k :: 0 <= k < i ==> buf[len - 1 - k] as nat == Digit(Val(x[..]), k)
    {
      var wi, bo := i / 4, i % 4;
      var v: nat := 0;
      if wi < x.Length {
        v := x[wi] / Two(8 * bo) % 0x100;
        DigitOf(x[..], i);
      } else {
        DigitAbove(x[..], i);
      }
      buf[len - 1 - i] := v as byte;
    }
    out := buf[..];
    DigitsSum(Rev(out), Val(x[..]));
  }

  // ---------------------------------------------------------------- minimal byte strings

  /** No leading zero byte. */
  predicate Minimal(be: seq<byte>) {
    |be| > 0 && be[0] != 0
  }

  lemma LeTop(d: seq<byte>)
    requires |d| > 0 && d[|d| - 1] != 0
    ensures Le(d) >= Two(8 * (|d| - 1))
  {
    MulBound(Two(8 * (|d| - 1)), d[|d| - 1] as int);
  }

  lemma {:induction false} LeUnique(c: seq<byte>, d: seq<byte>)
    requires |c| == |d| && Le(c) == Le(d)
    ensures c == d
  {
    hide Two;
    if c != [] {
      var n := |c| - 1;
      LeBound(c[..n]);
      LeBound(d[..n]);
      var t := Two(8 * n);
      if c[n] < d[n] { TimesLess(c[n] as nat, d[n] as nat, t); }
      if d[n] < c[n] { TimesLess(d[n] as nat, c[n] as nat, t); }
      LeUnique(c[..n], d[..n]);
      assert c == c[..n] + [c[n]] && d == d[..n] + [d[n]];
    }
  }

  lemma ShorterSmaller(c: seq<byte>, d: seq<byte>)
    requires |c| < |d| && d[|d| - 1] != 0
    ensures Le(c) < Le(d)
  {
    hide Two;
    LeBound(c);
    LeTop(d);
    var k := 8 * (|d| - 1) - 8 * |c|;
    TwoPlus(8 * |c|, k);
    MulBound(Two(8 * |c|), Two(k));
  }

  /** A number has one minimal byte string. */
  lemma MinimalUnique(p: seq<byte>, q: seq<byte>)
    requires Minimal(p) && Minimal(q) && Num(p) == Num(q)
    ensures p == q
  {
    hide Le;
    if |p| < |q| { ShorterSmaller(Rev(p), Rev(q)); }
    if |q| < |p| { ShorterSmaller(Rev(q), Rev(p)); }
    LeUnique(Rev(p), Rev(q));
    forall k | 0 <= k < |p| ensures p[k] == q[k] {
      assert Rev(p)[|p| - 1 - k] == p[k] && Rev(q)[|p| - 1 - k] == q[k];
    }
  }

  lemma {:induction false} ZerosOnTop(d: seq<byte>, i: nat)
    requires i <= |d| && forall k :: i <= k < |d| ==> d[k] == 0
    ensures Le(d) == Le(d[..i])
    decreases |d|
  {
    if i < |d| {
      ZerosOnTop(d[..|d| - 1], i);
      assert d[..|d| - 1][..i] == d[..i];
    } else {
      assert d[..i] == d;
    }
  }

  /** `fixed_limbs_to_min_be` of a nonzero number. */
  method ToMinBytes(x: array<u32>) returns (out: seq<byte>)
    requires Val(x[..]) > 0
    ensures Minimal(out) && Num(out) == Val(x[..])
  {
    hide Val, Le, Two;
    var k := x.Length * 4;
    var tmp := ToBytes(x, k);
    assert Val(x[..]) < Two(8 * k) by { ValBound(x[..]); BaseTwo(x.Length); }
    ModSmall(Val(x[..]), Two(8 * k));
    var i := 0;
    while i < k && tmp[i] == 0
      invariant i <= k && forall j :: 0 <= j < i ==> tmp[j] == 0
    {
      i := i + 1;
    }
    ZerosOnTop(Rev(tmp), k - i);
    assert i < k by { if i == k { assert Rev(tmp)[..0] == []; LeNothing(); } }
    out := tmp[i..];
    assert Rev(tmp)[..k - i] == Rev(out);
  }

  lemma LeNothing()
    ensures Le([]) == 0
  {
  }
}
