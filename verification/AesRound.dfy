/** The round transformations of `src/encryption/aes.cpp` and their inverses (sections 5.1 and 5.3 of FIPS 197). */
module AesRound {
  import opened AesTables
  import opened XorBytes
  import opened AesField

  type Block = s: seq<bv8> | |s| == 16 witness seq(16, i => 0)

  // ---------------------------------------------------------------- specification

  function SubBytes(s: Block): Block {
    seq(16, i requires 0 <= i < 16 => Sbox(s[i]))
  }

  function InvSubBytes(s: Block): Block {
    seq(16, i requires 0 <= i < 16 => InvSbox(s[i]))
  }

  /** Row `r` of the four-by-four state, byte `4 c + r` in column `c`, moves left by `r` columns. */
  function ShiftRows(s: Block): Block {
    [s[0], s[5], s[10], s[15], s[4], s[9], s[14], s[3], s[8], s[13], s[2], s[7], s[12], s[1], s[6], s[11]]
  }

  function InvShiftRows(s: Block): Block {
    [s[0], s[13], s[10], s[7], s[4], s[1], s[14], s[11], s[8], s[5], s[2], s[15], s[12], s[9], s[6], s[3]]
  }

  function AddKey(s: Block, k: Block): Block {
    seq(16, i requires 0 <= i < 16 => Xor(s[i], k[i]))
  }

  /** One column. */
  datatype Column = Column(a0: bv8, a1: bv8, a2: bv8, a3: bv8)

  function Quad(p: bv8, q: bv8, r: bv8, s: bv8): bv8 {
    p ^ q ^ r ^ s
  }

  function Triple(p: bv8, q: bv8, r: bv8): bv8 {
    p ^ (q ^ r)
  }

  /** One byte of `mix_columns`: `a`, its column's sum, and twice the sum of `a` and `b`. */
  function MixByte(a: bv8, b: bv8, c: bv8, d: bv8, u: bv8): bv8 {
    Triple(a, Quad(a, b, c, d), u)
  }

  /** `mix_columns` on one column. */
  function Mix(c: Column): Column {
    Column(MixByte(c.a0, c.a1, c.a2, c.a3, Xtime(Xor(c.a0, c.a1))), MixByte(c.a1, c.a2, c.a3, c.a0, Xtime(Xor(c.a1, c.a2))),
           MixByte(c.a2, c.a3, c.a0, c.a1, Xtime(Xor(c.a2, c.a3))), MixByte(c.a3, c.a0, c.a1, c.a2, Xtime(Xor(c.a3, c.a0))))
  }

  /** `inv_mix_columns` on one column. */
  function InvMix(c: Column): Column {
    Column(Quad(Gf(c.a0, 0x0e, 8), Gf(c.a1, 0x0b, 8), Gf(c.a2, 0x0d, 8), Gf(c.a3, 0x09, 8)),
           Quad(Gf(c.a0, 0x09, 8), Gf(c.a1, 0x0e, 8), Gf(c.a2, 0x0b, 8), Gf(c.a3, 0x0d, 8)),
           Quad(Gf(c.a0, 0x0d, 8), Gf(c.a1, 0x09, 8), Gf(c.a2, 0x0e, 8), Gf(c.a3, 0x0b, 8)),
           Quad(Gf(c.a0, 0x0b, 8), Gf(c.a1, 0x0d, 8), Gf(c.a2, 0x09, 8), Gf(c.a3, 0x0e, 8)))
  }

  function ColumnOf(s: Block, c: nat): Column
    requires c < 4
  {
    Column(s[4 * c], s[4 * c + 1], s[4 * c + 2], s[4 * c + 3])
  }

  function ByteOf(c: Column, i: nat): bv8 {
    if i == 0 then c.a0 else if i == 1 then c.a1 else if i == 2 then c.a2 else c.a3
  }

  function MixColumns(s: Block): Block {
    seq(16, i requires 0 <= i < 16 => ByteOf(Mix(ColumnOf(s, i / 4)), i % 4))
  }

  function InvMixColumns(s: Block): Block {
    seq(16, i requires 0 <= i < 16 => ByteOf(InvMix(ColumnOf(s, i / 4)), i % 4))
  }

  // ---------------------------------------------------------------- inverses

  lemma SubInverse(s: Block)
    ensures InvSubBytes(SubBytes(s)) == s
  {
    hide Sbox, InvSbox;
    forall i | 0 <= i < 16 ensures InvSubBytes(SubBytes(s))[i] == s[i] { SboxInverse(s[i]); }
  }

  lemma ShiftInverse(s: Block)
    ensures InvShiftRows(ShiftRows(s)) == s
  {
  }

  lemma KeyInverse(s: Block, k: Block)
    ensures AddKey(AddKey(s, k), k) == s
  {
    hide Xor;
    forall i | 0 <= i < 16 ensures AddKey(AddKey(s, k), k)[i] == s[i] { XorTwice(s[i], k[i]); }
  }

  lemma XorIs(a: bv8, b: bv8)
    ensures Xor(a, b) == a ^ b
  {
  }

  lemma TripleIs(p: bv8, q: bv8, r: bv8)
    ensures Triple(p, q, r) == Xor(p, Xor(q, r))
  {
  }

  lemma QuadIs(p: bv8, q: bv8, r: bv8, s: bv8)
    ensures Quad(p, q, r, s) == Xor(Xor(Xor(p, q), r), s)
  {
    assert Xor(Xor(p, q), r) == p ^ q ^ r;
    hide Xor, Quad;
    XorIs(p ^ q ^ r, s);
    QuadRaw(p, q, r, s);
  }

  /** Doubling commutes with mixing. */
  lemma MixByteDoubled(a: bv8, b: bv8, c: bv8, d: bv8, u: bv8)
    ensures Xtime(MixByte(a, b, c, d, u)) == MixByte(Xtime(a), Xtime(b), Xtime(c), Xtime(d), Xtime(u))
  {
    hide Xor, Xtime, Quad, Triple;
    QuadIs(a, b, c, d);
    QuadIs(Xtime(a), Xtime(b), Xtime(c), Xtime(d));
    XtimeLinear(Xor(Xor(a, b), c), d);
    XtimeLinear(Xor(a, b), c);
    XtimeLinear(a, b);
    var t := Quad(a, b, c, d);
    TripleIs(a, t, u);
    TripleIs(Xtime(a), Xtime(t), Xtime(u));
    XtimeLinear(a, Xor(t, u));
    XtimeLinear(t, u);
  }

  lemma MixByteRaw(a: bv8, b: bv8, c: bv8, d: bv8, x: bv8, y: bv8)
    ensures MixByte(a, b, c, d, Xor(x, y)) == a ^ ((a ^ b ^ c ^ d) ^ (x ^ y))
  {
    hide Xor, Triple, Quad;
    XorIs(x, y);
    QuadRaw(a, b, c, d);
    TripleRaw(a, a ^ b ^ c ^ d, x ^ y);
  }

  lemma QuadRaw(p: bv8, q: bv8, r: bv8, s: bv8)
    ensures Quad(p, q, r, s) == p ^ q ^ r ^ s
  {
  }

  lemma TripleRaw(p: bv8, q: bv8, r: bv8)
    ensures Triple(p, q, r) == p ^ (q ^ r)
  {
  }

  /** 14 p + 11 q + 13 r + 9 s, from the doubles of the four bytes. */
  function Weighted(p2: bv8, p4: bv8, p8: bv8, q1: bv8, q2: bv8, q8: bv8, r1: bv8, r4: bv8, r8: bv8, s1: bv8, s8: bv8): bv8 {
    p2 ^ p4 ^ p8 ^ q1 ^ q2 ^ q8 ^ r1 ^ r4 ^ r8 ^ s1 ^ s8
  }

  lemma WeightedQuad(p: bv8, q: bv8, r: bv8, s: bv8)
    ensures var p2, q2, r2, s2 := Xtime(p), Xtime(q), Xtime(r), Xtime(s);
      var p4, q4, r4, s4 := Xtime(p2), Xtime(q2), Xtime(r2), Xtime(s2);
      var p8, q8, r8, s8 := Xtime(p4), Xtime(q4), Xtime(r4), Xtime(s4);
      Quad(Gf(p, 0x0e, 8), Gf(q, 0x0b, 8), Gf(r, 0x0d, 8), Gf(s, 0x09, 8))
      == Weighted(p2, p4, p8, q, q2, q8, r, r4, r8, s, s8)
  {
    hide Gf, Xtime, Xor, Quad, Weighted;
    var p2, q2, r2, s2 := Xtime(p), Xtime(q), Xtime(r), Xtime(s);
    var p4, q4, r4, s4 := Xtime(p2), Xtime(q2), Xtime(r2), Xtime(s2);
    var p8, q8, r8, s8 := Xtime(p4), Xtime(q4), Xtime(r4), Xtime(s4);
    GfConstants(p);
    GfConstants(q);
    GfConstants(r);
    GfConstants(s);
    Flatten(p2, p4, p8, q, q2, q8, r, r4, r8, s, s8);
  }

  lemma Flatten(p2: bv8, p4: bv8, p8: bv8, q1: bv8, q2: bv8, q8: bv8, r1: bv8, r4: bv8, r8: bv8, s1: bv8, s8: bv8)
    ensures Quad(Xor(p2, Xor(p4, p8)), Xor(q1, Xor(q2, q8)), Xor(r1, Xor(r4, r8)), Xor(s1, s8))
            == Weighted(p2, p4, p8, q1, q2, q8, r1, r4, r8, s1, s8)
  {
    assert Quad(p2 ^ (p4 ^ p8), q1 ^ (q2 ^ q8), r1 ^ (r4 ^ r8), s1 ^ s8) == Weighted(p2, p4, p8, q1, q2, q8, r1, r4, r8, s1, s8);
    hide Xor, Quad, Weighted;
    XorIs(p4, p8);
    XorIs(p2, p4 ^ p8);
    XorIs(q2, q8);
    XorIs(q1, q2 ^ q8);
    XorIs(r4, r8);
    XorIs(r1, r4 ^ r8);
    XorIs(s1, s8);
  }

  /** In the weighted sum of a mixed column everything cancels but its first byte, whatever the doubles are. */
  lemma Cancels(a0: bv8, a1: bv8, a2: bv8, a3: bv8, x0: bv8, x1: bv8, x2: bv8, x3: bv8, y0: bv8, y1: bv8, y2: bv8, y3: bv8,
                z0: bv8, z1: bv8, z2: bv8, z3: bv8, w0: bv8, w1: bv8, w2: bv8, w3: bv8)
    ensures Weighted(x0 ^ ((x0 ^ x1 ^ x2 ^ x3) ^ (y0 ^ y1)), y0 ^ ((y0 ^ y1 ^ y2 ^ y3) ^ (z0 ^ z1)), z0 ^ ((z0 ^ z1 ^ z2 ^ z3) ^ (w0 ^ w1)),
                     a1 ^ ((a1 ^ a2 ^ a3 ^ a0) ^ (x1 ^ x2)), x1 ^ ((x1 ^ x2 ^ x3 ^ x0) ^ (y1 ^ y2)), z1 ^ ((z1 ^ z2 ^ z3 ^ z0) ^ (w1 ^ w2)),
                     a2 ^ ((a2 ^ a3 ^ a0 ^ a1) ^ (x2 ^ x3)), y2 ^ ((y2 ^ y3 ^ y0 ^ y1) ^ (z2 ^ z3)), z2 ^ ((z2 ^ z3 ^ z0 ^ z1) ^ (w2 ^ w3)),
                     a3 ^ ((a3 ^ a0 ^ a1 ^ a2) ^ (x3 ^ x0)), z3 ^ ((z3 ^ z0 ^ z1 ^ z2) ^ (w3 ^ w0))) == a0
  {
  }

  lemma CancelsMix(a0: bv8, a1: bv8, a2: bv8, a3: bv8, x0: bv8, x1: bv8, x2: bv8, x3: bv8, y0: bv8, y1: bv8, y2: bv8, y3: bv8,
                   z0: bv8, z1: bv8, z2: bv8, z3: bv8, w0: bv8, w1: bv8, w2: bv8, w3: bv8)
    ensures Weighted(MixByte(x0, x1, x2, x3, Xor(y0, y1)), MixByte(y0, y1, y2, y3, Xor(z0, z1)), MixByte(z0, z1, z2, z3, Xor(w0, w1)),
                     MixByte(a1, a2, a3, a0, Xor(x1, x2)), MixByte(x1, x2, x3, x0, Xor(y1, y2)), MixByte(z1, z2, z3, z0, Xor(w1, w2)),
                     MixByte(a2, a3, a0, a1, Xor(x2, x3)), MixByte(y2, y3, y0, y1, Xor(z2, z3)), MixByte(z2, z3, z0, z1, Xor(w2, w3)),
                     MixByte(a3, a0, a1, a2, Xor(x3, x0)), MixByte(z3, z0, z1, z2, Xor(w3, w0))) == a0
  {
    hide MixByte, Weighted, Xor;
    MixByteRaw(x0, x1, x2, x3, y0, y1);
    MixByteRaw(y0, y1, y2, y3, z0, z1);
    MixByteRaw(z0, z1, z2, z3, w0, w1);
    MixByteRaw(a1, a2, a3, a0, x1, x2);
    MixByteRaw(x1, x2, x3, x0, y1, y2);
    MixByteRaw(z1, z2, z3, z0, w1, w2);
    MixByteRaw(a2, a3, a0, a1, x2, x3);
    MixByteRaw(y2, y3, y0, y1, z2, z3);
    MixByteRaw(z2, z3, z0, z1, w2, w3);
    MixByteRaw(a3, a0, a1, a2, x3, x0);
    MixByteRaw(z3, z0, z1, z2, w3, w0);
    Cancels(a0, a1, a2, a3, x0, x1, x2, x3, y0, y1, y2, y3, z0, z1, z2, z3, w0, w1, w2, w3);
  }

  /** A mixed byte and its doubles. */
  lemma Doubles(a: bv8, b: bv8, c: bv8, d: bv8)
    ensures var m := MixByte(a, b, c, d, Xtime(Xor(a, b)));
      var a2, b2, c2, d2 := Xtime(a), Xtime(b), Xtime(c), Xtime(d);
      var a4, b4, c4, d4 := Xtime(a2), Xtime(b2), Xtime(c2), Xtime(d2);
      var a8, b8, c8, d8 := Xtime(a4), Xtime(b4), Xtime(c4), Xtime(d4);
      && m == MixByte(a, b, c, d, Xor(a2, b2)) && Xtime(m) == MixByte(a2, b2, c2, d2, Xor(a4, b4))
      && Xtime(Xtime(m)) == MixByte(a4, b4, c4, d4, Xor(a8, b8))
      && Xtime(Xtime(Xtime(m))) == MixByte(a8, b8, c8, d8, Xor(Xtime(a8), Xtime(b8)))
  {
    hide MixByte, Xor, Xtime;
    var a2, b2, c2, d2 := Xtime(a), Xtime(b), Xtime(c), Xtime(d);
    var a4, b4, c4, d4 := Xtime(a2), Xtime(b2), Xtime(c2), Xtime(d2);
    var a8, b8 := Xtime(a4), Xtime(b4);
    XtimeLinear(a, b);
    XtimeLinear(a2, b2);
    XtimeLinear(a4, b4);
    XtimeLinear(a8, b8);
    MixByteDoubled(a, b, c, d, Xor(a2, b2));
    MixByteDoubled(a2, b2, c2, d2, Xor(a4, b4));
    MixByteDoubled(a4, b4, c4, d4, Xor(a8, b8));
  }

  /** The inverse mix finds the first byte of a mixed column again. */
  lemma UnmixByte(a0: bv8, a1: bv8, a2: bv8, a3: bv8)
    ensures Quad(Gf(MixByte(a0, a1, a2, a3, Xtime(Xor(a0, a1))), 0x0e, 8), Gf(MixByte(a1, a2, a3, a0, Xtime(Xor(a1, a2))), 0x0b, 8),
                 Gf(MixByte(a2, a3, a0, a1, Xtime(Xor(a2, a3))), 0x0d, 8), Gf(MixByte(a3, a0, a1, a2, Xtime(Xor(a3, a0))), 0x09, 8)) == a0
  {
    hide MixByte, Xor, Xtime, Gf, Quad, Weighted;
    var x0, x1, x2, x3 := Xtime(a0), Xtime(a1), Xtime(a2), Xtime(a3);
    var y0, y1, y2, y3 := Xtime(x0), Xtime(x1), Xtime(x2), Xtime(x3);
    var z0, z1, z2, z3 := Xtime(y0), Xtime(y1), Xtime(y2), Xtime(y3);
    WeightedQuad(MixByte(a0, a1, a2, a3, Xtime(Xor(a0, a1))), MixByte(a1, a2, a3, a0, Xtime(Xor(a1, a2))),
                 MixByte(a2, a3, a0, a1, Xtime(Xor(a2, a3))), MixByte(a3, a0, a1, a2, Xtime(Xor(a3, a0))));
    Doubles(a0, a1, a2, a3);
    Doubles(a1, a2, a3, a0);
    Doubles(a2, a3, a0, a1);
    Doubles(a3, a0, a1, a2);
    CancelsMix(a0, a1, a2, a3, x0, x1, x2, x3, y0, y1, y2, y3, z0, z1, z2, z3, Xtime(z0), Xtime(z1), Xtime(z2), Xtime(z3));
  }

  lemma QuadTurns(p: bv8, q: bv8, r: bv8, s: bv8)
    ensures Quad(p, q, r, s) == Quad(q, r, s, p)
  {
  }

  /** The inverse mix undoes the mix on every column. */
  lemma MixInverse(c: Column)
    ensures InvMix(Mix(c)) == c
  {
    hide MixByte, Xor, Xtime, Gf, Quad;
    var m := Mix(c);
    UnmixByte(c.a0, c.a1, c.a2, c.a3);
    UnmixByte(c.a1, c.a2, c.a3, c.a0);
    QuadTurns(Gf(m.a0, 0x09, 8), Gf(m.a1, 0x0e, 8), Gf(m.a2, 0x0b, 8), Gf(m.a3, 0x0d, 8));
    UnmixByte(c.a2, c.a3, c.a0, c.a1);
    QuadTurns(Gf(m.a0, 0x0d, 8), Gf(m.a1, 0x09, 8), Gf(m.a2, 0x0e, 8), Gf(m.a3, 0x0b, 8));
    QuadTurns(Gf(m.a1, 0x09, 8), Gf(m.a2, 0x0e, 8), Gf(m.a3, 0x0b, 8), Gf(m.a0, 0x0d, 8));
    UnmixByte(c.a3, c.a0, c.a1, c.a2);
    QuadTurns(Gf(m.a3, 0x0e, 8), Gf(m.a0, 0x0b, 8), Gf(m.a1, 0x0d, 8), Gf(m.a2, 0x09, 8));
  }

  lemma MatrixRow(a: bv8, b: bv8, c: bv8, d: bv8, x: bv8, y: bv8)
    ensures MixByte(a, b, c, d, Xor(x, y)) == Quad(x, Xor(b, y), c, d)
  {
    hide Xor, Quad, MixByte;
    MixByteRaw(a, b, c, d, x, y);
    XorIs(b, y);
    QuadRaw(x, b ^ y, c, d);
  }

  lemma MixRow(a: bv8, b: bv8, c: bv8, d: bv8)
    ensures MixByte(a, b, c, d, Xtime(Xor(a, b))) == Quad(Gf(a, 2, 8), Gf(b, 3, 8), c, d)
  {
    hide Xor, Quad, MixByte, Xtime, Gf;
    XtimeLinear(a, b);
    MatrixRow(a, b, c, d, Xtime(a), Xtime(b));
    GfTwoThree(a);
    GfTwoThree(b);
  }

  /** The mix is the matrix of section 5.1.3 of FIPS 197, row by row. */
  lemma MixIsMatrix(c: Column)
    ensures Mix(c) == Column(Quad(Gf(c.a0, 2, 8), Gf(c.a1, 3, 8), c.a2, c.a3), Quad(c.a0, Gf(c.a1, 2, 8), Gf(c.a2, 3, 8), c.a3),
                             Quad(c.a0, c.a1, Gf(c.a2, 2, 8), Gf(c.a3, 3, 8)), Quad(Gf(c.a0, 3, 8), c.a1, c.a2, Gf(c.a3, 2, 8)))
  {
    hide Xor, Quad, MixByte, Xtime, Gf;
    MixRow(c.a0, c.a1, c.a2, c.a3);
    MixRow(c.a1, c.a2, c.a3, c.a0);
    QuadTurns(c.a0, Gf(c.a1, 2, 8), Gf(c.a2, 3, 8), c.a3);
    MixRow(c.a2, c.a3, c.a0, c.a1);
    QuadTurns(c.a0, c.a1, Gf(c.a2, 2, 8), Gf(c.a3, 3, 8));
    QuadTurns(c.a1, Gf(c.a2, 2, 8), Gf(c.a3, 3, 8), c.a0);
    MixRow(c.a3, c.a0, c.a1, c.a2);
    QuadTurns(Gf(c.a3, 2, 8), Gf(c.a0, 3, 8), c.a1, c.a2);
  }

  lemma MixColumnsInverse(s: Block)
    ensures InvMixColumns(MixColumns(s)) == s
  {
    forall i | 0 <= i < 16 ensures InvMixColumns(MixColumns(s))[i] == s[i] {
      hide Mix, InvMix, ColumnOf, ByteOf, MixColumns, InvMixColumns;
      MixInverse(ColumnOf(s, i / 4));
      MixedColumn(s, i / 4);
      assert InvMixColumns(MixColumns(s))[i] == ByteOf(InvMix(ColumnOf(MixColumns(s), i / 4)), i % 4);
      ColumnByte(s, i);
    }
  }

  lemma ColumnByte(s: Block, i: nat)
    requires i < 16
    ensures ByteOf(ColumnOf(s, i / 4), i % 4) == s[i]
  {
    assert i == 4 * (i / 4) + i % 4;
  }

  lemma MixedColumn(s: Block, c: nat)
    requires c < 4
    ensures ColumnOf(MixColumns(s), c) == Mix(ColumnOf(s, c))
  {
    hide Mix, ColumnOf;
    Quarters(c);
    ColumnIs(MixColumns(s), c);
  }

  lemma Quarters(c: nat)
    ensures (4 * c) / 4 == c && (4 * c + 1) / 4 == c && (4 * c + 2) / 4 == c && (4 * c + 3) / 4 == c
    ensures (4 * c) % 4 == 0 && (4 * c + 1) % 4 == 1 && (4 * c + 2) % 4 == 2 && (4 * c + 3) % 4 == 3
  {
  }

  lemma ColumnIs(s: Block, c: nat)
    requires c < 4
    ensures ColumnOf(s, c) == Column(s[4 * c], s[4 * c + 1], s[4 * c + 2], s[4 * c + 3])
  {
  }
}
