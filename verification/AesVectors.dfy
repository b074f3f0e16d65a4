/**
 The examples of appendix C of FIPS 197: key bytes 00, 01, 02, ..., plaintext 00112233445566778899aabbccddeeff, for each of the
 three key sizes. `A`, `B` and `C` are the states at the start of each round.
 */
module AesVectors {
  import opened AesTables
  import opened XorBytes
  import opened AesField
  import opened AesRound
  import opened AesCipher
  import opened AesCbc
  import opened AesStandard

  const PLAIN: Block :=
    Flat(Column(0x00, 0x11, 0x22, 0x33), Column(0x44, 0x55, 0x66, 0x77), Column(0x88, 0x99, 0xaa, 0xbb), Column(0xcc, 0xdd, 0xee, 0xff))

  lemma Constants()
    ensures Rcon(1) == 0x01 && Rcon(2) == 0x02 && Rcon(3) == 0x04 && Rcon(4) == 0x08 && Rcon(5) == 0x10
    ensures Rcon(6) == 0x20 && Rcon(7) == 0x40 && Rcon(8) == 0x80 && Rcon(9) == 0x1b && Rcon(10) == 0x36
  {
    assert Rcon(2) == Xtime(Rcon(1)) && Rcon(3) == Xtime(Rcon(2)) && Rcon(4) == Xtime(Rcon(3)) && Rcon(5) == Xtime(Rcon(4));
    assert Rcon(6) == Xtime(Rcon(5)) && Rcon(7) == Xtime(Rcon(6)) && Rcon(8) == Xtime(Rcon(7)) && Rcon(9) == Xtime(Rcon(8));
  }

  /** One column of a full round, from the four bytes that reach it. */
  function Step(a: Column, b: Column, c: Column, d: Column, k: Column): Column {
    XorWord(Mix(Column(Sbox(a.a0), Sbox(b.a1), Sbox(c.a2), Sbox(d.a3))), k)
  }

  function LastStep(a: Column, b: Column, c: Column, d: Column, k: Column): Column {
    XorWord(Column(Sbox(a.a0), Sbox(b.a1), Sbox(c.a2), Sbox(d.a3)), k)
  }

  lemma ShiftedFlat(a: Column, b: Column, c: Column, d: Column)
    ensures var f := Flat(a, b, c, d);
      && Shifted(f, 0) == Column(Sbox(a.a0), Sbox(b.a1), Sbox(c.a2), Sbox(d.a3))
      && Shifted(f, 1) == Column(Sbox(b.a0), Sbox(c.a1), Sbox(d.a2), Sbox(a.a3))
      && Shifted(f, 2) == Column(Sbox(c.a0), Sbox(d.a1), Sbox(a.a2), Sbox(b.a3))
      && Shifted(f, 3) == Column(Sbox(d.a0), Sbox(a.a1), Sbox(b.a2), Sbox(c.a3))
  {
    hide Sbox, Flat;
    Columns(a, b, c, d);
  }

  lemma RoundOf(a: Column, b: Column, c: Column, d: Column, k0: Column, k1: Column, k2: Column, k3: Column)
    ensures var f := Flat(a, b, c, d);
      && FullRound(f, k0, k1, k2, k3) == Flat(Step(a, b, c, d, k0), Step(b, c, d, a, k1), Step(c, d, a, b, k2), Step(d, a, b, c, k3))
      && LastRound(f, k0, k1, k2, k3) ==
           Flat(LastStep(a, b, c, d, k0), LastStep(b, c, d, a, k1), LastStep(c, d, a, b, k2), LastStep(d, a, b, c, k3))
  {
    hide Sbox, Mix, XorWord, Flat, Shifted;
    ShiftedFlat(a, b, c, d);
  }

  lemma FirstOf(a: Column, b: Column, c: Column, d: Column, k0: Column, k1: Column, k2: Column, k3: Column)
    ensures FirstKey(Flat(a, b, c, d), k0, k1, k2, k3) == Flat(XorWord(a, k0), XorWord(b, k1), XorWord(c, k2), XorWord(d, k3))
  {
    hide XorWord, Flat, ColumnOf;
    Columns(a, b, c, d);
  }

  /** One more word of the schedule. */
  lemma NextWord(key: seq<bv8>, i: nat, a: Column, b: Column)
    requires |key| > 0 && |key| % 4 == 0 && i >= |key| / 4 && Word(key, i - |key| / 4) == a && Word(key, i - 1) == b
    ensures Word(key, i) == XorWord(a, Temp(b, |key| / 4, i))
  {
  }

  // ---------------------------------------------------------------- 128 bits

  const KEY128: seq<bv8> := seq(16, i requires 0 <= i < 16 => i as bv8)
  const A0: Block :=
    Flat(Column(0x00, 0x10, 0x20, 0x30), Column(0x40, 0x50, 0x60, 0x70), Column(0x80, 0x90, 0xa0, 0xb0), Column(0xc0, 0xd0, 0xe0, 0xf0))
  const A1: Block :=
    Flat(Column(0x89, 0xd8, 0x10, 0xe8), Column(0x85, 0x5a, 0xce, 0x68), Column(0x2d, 0x18, 0x43, 0xd8), Column(0xcb, 0x12, 0x8f, 0xe4))
  const A2: Block :=
    Flat(Column(0x49, 0x15, 0x59, 0x8f), Column(0x55, 0xe5, 0xd7, 0xa0), Column(0xda, 0xca, 0x94, 0xfa), Column(0x1f, 0x0a, 0x63, 0xf7))
  const A3: Block :=
    Flat(Column(0xfa, 0x63, 0x6a, 0x28), Column(0x25, 0xb3, 0x39, 0xc9), Column(0x40, 0x66, 0x8a, 0x31), Column(0x57, 0x24, 0x4d, 0x17))
  const A4: Block :=
    Flat(Column(0x24, 0x72, 0x40, 0x23), Column(0x69, 0x66, 0xb3, 0xfa), Column(0x6e, 0xd2, 0x75, 0x32), Column(0x88, 0x42, 0x5b, 0x6c))
  const A5: Block :=
    Flat(Column(0xc8, 0x16, 0x77, 0xbc), Column(0x9b, 0x7a, 0xc9, 0x3b), Column(0x25, 0x02, 0x79, 0x92), Column(0xb0, 0x26, 0x19, 0x96))
  const A6: Block :=
    Flat(Column(0xc6, 0x2f, 0xe1, 0x09), Column(0xf7, 0x5e, 0xed, 0xc3), Column(0xcc, 0x79, 0x39, 0x5d), Column(0x84, 0xf9, 0xcf, 0x5d))
  const A7: Block :=
    Flat(Column(0xd1, 0x87, 0x6c, 0x0f), Column(0x79, 0xc4, 0x30, 0x0a), Column(0xb4, 0x55, 0x94, 0xad), Column(0xd6, 0x6f, 0xf4, 0x1f))
  const A8: Block :=
    Flat(Column(0xfd, 0xe3, 0xba, 0xd2), Column(0x05, 0xe5, 0xd0, 0xd7), Column(0x35, 0x47, 0x96, 0x4e), Column(0xf1, 0xfe, 0x37, 0xf1))
  const A9: Block :=
    Flat(Column(0xbd, 0x6e, 0x7c, 0x3d), Column(0xf2, 0xb5, 0x77, 0x9e), Column(0x0b, 0x61, 0x21, 0x6e), Column(0x8b, 0x10, 0xb6, 0x89))
  const A10: Block :=
    Flat(Column(0x69, 0xc4, 0xe0, 0xd8), Column(0x6a, 0x7b, 0x04, 0x30), Column(0xd8, 0xcd, 0xb7, 0x80), Column(0x70, 0xb4, 0xc5, 0x5a))

  lemma Words128a()
    ensures Word(KEY128, 0) == Column(0x00, 0x01, 0x02, 0x03) && Word(KEY128, 1) == Column(0x04, 0x05, 0x06, 0x07)
    ensures Word(KEY128, 2) == Column(0x08, 0x09, 0x0a, 0x0b) && Word(KEY128, 3) == Column(0x0c, 0x0d, 0x0e, 0x0f)
  {
    hide Temp, XorWord;
  }

  lemma Words128b()
    ensures Word(KEY128, 4) == Column(0xd6, 0xaa, 0x74, 0xfd) && Word(KEY128, 5) == Column(0xd2, 0xaf, 0x72, 0xfa)
    ensures Word(KEY128, 6) == Column(0xda, 0xa6, 0x78, 0xf1) && Word(KEY128, 7) == Column(0xd6, 0xab, 0x76, 0xfe)
    ensures Word(KEY128, 8) == Column(0xb6, 0x92, 0xcf, 0x0b) && Word(KEY128, 9) == Column(0x64, 0x3d, 0xbd, 0xf1)
    ensures Word(KEY128, 10) == Column(0xbe, 0x9b, 0xc5, 0x00) && Word(KEY128, 11) == Column(0x68, 0x30, 0xb3, 0xfe)
    ensures Word(KEY128, 12) == Column(0xb6, 0xff, 0x74, 0x4e) && Word(KEY128, 13) == Column(0xd2, 0xc2, 0xc9, 0xbf)
    ensures Word(KEY128, 14) == Column(0x6c, 0x59, 0x0c, 0xbf) && Word(KEY128, 15) == Column(0x04, 0x69, 0xbf, 0x41)
    ensures Word(KEY128, 16) == Column(0x47, 0xf7, 0xf7, 0xbc) && Word(KEY128, 17) == Column(0x95, 0x35, 0x3e, 0x03)
    ensures Word(KEY128, 18) == Column(0xf9, 0x6c, 0x32, 0xbc) && Word(KEY128, 19) == Column(0xfd, 0x05, 0x8d, 0xfd)
    ensures Word(KEY128, 20) == Column(0x3c, 0xaa, 0xa3, 0xe8) && Word(KEY128, 21) == Column(0xa9, 0x9f, 0x9d, 0xeb)
    ensures Word(KEY128, 22) == Column(0x50, 0xf3, 0xaf, 0x57) && Word(KEY128, 23) == Column(0xad, 0xf6, 0x22, 0xaa)
    ensures Word(KEY128, 24) == Column(0x5e, 0x39, 0x0f, 0x7d) && Word(KEY128, 25) == Column(0xf7, 0xa6, 0x92, 0x96)
    ensures Word(KEY128, 26) == Column(0xa7, 0x55, 0x3d, 0xc1) && Word(KEY128, 27) == Column(0x0a, 0xa3, 0x1f, 0x6b)
  {
    Words128a();
    hide Word, Rcon;
    Constants();
    NextWord(KEY128, 4, Column(0x00, 0x01, 0x02, 0x03), Column(0x0c, 0x0d, 0x0e, 0x0f));
    NextWord(KEY128, 5, Column(0x04, 0x05, 0x06, 0x07), Column(0xd6, 0xaa, 0x74, 0xfd));
    NextWord(KEY128, 6, Column(0x08, 0x09, 0x0a, 0x0b), Column(0xd2, 0xaf, 0x72, 0xfa));
    NextWord(KEY128, 7, Column(0x0c, 0x0d, 0x0e, 0x0f), Column(0xda, 0xa6, 0x78, 0xf1));
    NextWord(KEY128, 8, Column(0xd6, 0xaa, 0x74, 0xfd), Column(0xd6, 0xab, 0x76, 0xfe));
    NextWord(KEY128, 9, Column(0xd2, 0xaf, 0x72, 0xfa), Column(0xb6, 0x92, 0xcf, 0x0b));
    NextWord(KEY128, 10, Column(0xda, 0xa6, 0x78, 0xf1), Column(0x64, 0x3d, 0xbd, 0xf1));
    NextWord(KEY128, 11, Column(0xd6, 0xab, 0x76, 0xfe), Column(0xbe, 0x9b, 0xc5, 0x00));
    NextWord(KEY128, 12, Column(0xb6, 0x92, 0xcf, 0x0b), Column(0x68, 0x30, 0xb3, 0xfe));
    NextWord(KEY128, 13, Column(0x64, 0x3d, 0xbd, 0xf1), Column(0xb6, 0xff, 0x74, 0x4e));
    NextWord(KEY128, 14, Column(0xbe, 0x9b, 0xc5, 0x00), Column(0xd2, 0xc2, 0xc9, 0xbf));
    NextWord(KEY128, 15, Column(0x68, 0x30, 0xb3, 0xfe), Column(0x6c, 0x59, 0x0c, 0xbf));
    NextWord(KEY128, 16, Column(0xb6, 0xff, 0x74, 0x4e), Column(0x04, 0x69, 0xbf, 0x41));
    NextWord(KEY128, 17, Column(0xd2, 0xc2, 0xc9, 0xbf), Column(0x47, 0xf7, 0xf7, 0xbc));
    NextWord(KEY128, 18, Column(0x6c, 0x59, 0x0c, 0xbf), Column(0x95, 0x35, 0x3e, 0x03));
    NextWord(KEY128, 19, Column(0x04, 0x69, 0xbf, 0x41), Column(0xf9, 0x6c, 0x32, 0xbc));
    NextWord(KEY128, 20, Column(0x47, 0xf7, 0xf7, 0xbc), Column(0xfd, 0x05, 0x8d, 0xfd));
    NextWord(KEY128, 21, Column(0x95, 0x35, 0x3e, 0x03), Column(0x3c, 0xaa, 0xa3, 0xe8));
    NextWord(KEY128, 22, Column(0xf9, 0x6c, 0x32, 0xbc), Column(0xa9, 0x9f, 0x9d, 0xeb));
    NextWord(KEY128, 23, Column(0xfd, 0x05, 0x8d, 0xfd), Column(0x50, 0xf3, 0xaf, 0x57));
    NextWord(KEY128, 24, Column(0x3c, 0xaa, 0xa3, 0xe8), Column(0xad, 0xf6, 0x22, 0xaa));
    NextWord(KEY128, 25, Column(0xa9, 0x9f, 0x9d, 0xeb), Column(0x5e, 0x39, 0x0f, 0x7d));
    NextWord(KEY128, 26, Column(0x50, 0xf3, 0xaf, 0x57), Column(0xf7, 0xa6, 0x92, 0x96));
    NextWord(KEY128, 27, Column(0xad, 0xf6, 0x22, 0xaa), Column(0xa7, 0x55, 0x3d, 0xc1));
  }

  lemma Words128c()
    ensures Word(KEY128, 28) == Column(0x14, 0xf9, 0x70, 0x1a) && Word(KEY128, 29) == Column(0xe3, 0x5f, 0xe2, 0x8c)
    ensures Word(KEY128, 30) == Column(0x44, 0x0a, 0xdf, 0x4d) && Word(KEY128, 31) == Column(0x4e, 0xa9, 0xc0, 0x26)
    ensures Word(KEY128, 32) == Column(0x47, 0x43, 0x87, 0x35) && Word(KEY128, 33) == Column(0xa4, 0x1c, 0x65, 0xb9)
    ensures Word(KEY128, 34) == Column(0xe0, 0x16, 0xba, 0xf4) && Word(KEY128, 35) == Column(0xae, 0xbf, 0x7a, 0xd2)
    ensures Word(KEY128, 36) == Column(0x54, 0x99, 0x32, 0xd1) && Word(KEY128, 37) == Column(0xf0, 0x85, 0x57, 0x68)
    ensures Word(KEY128, 38) == Column(0x10, 0x93, 0xed, 0x9c) && Word(KEY128, 39) == Column(0xbe, 0x2c, 0x97, 0x4e)
    ensures Word(KEY128, 40) == Column(0x13, 0x11, 0x1d, 0x7f) && Word(KEY128, 41) == Column(0xe3, 0x94, 0x4a, 0x17)
    ensures Word(KEY128, 42) == Column(0xf3, 0x07, 0xa7, 0x8b) && Word(KEY128, 43) == Column(0x4d, 0x2b, 0x30, 0xc5)
  {
    Words128b();
    hide Word, Rcon;
    Constants();
    NextWord(KEY128, 28, Column(0x5e, 0x39, 0x0f, 0x7d), Column(0x0a, 0xa3, 0x1f, 0x6b));
    NextWord(KEY128, 29, Column(0xf7, 0xa6, 0x92, 0x96), Column(0x14, 0xf9, 0x70, 0x1a));
    NextWord(KEY128, 30, Column(0xa7, 0x55, 0x3d, 0xc1), Column(0xe3, 0x5f, 0xe2, 0x8c));
    NextWord(KEY128, 31, Column(0x0a, 0xa3, 0x1f, 0x6b), Column(0x44, 0x0a, 0xdf, 0x4d));
    NextWord(KEY128, 32, Column(0x14, 0xf9, 0x70, 0x1a), Column(0x4e, 0xa9, 0xc0, 0x26));
    NextWord(KEY128, 33, Column(0xe3, 0x5f, 0xe2, 0x8c), Column(0x47, 0x43, 0x87, 0x35));
    NextWord(KEY128, 34, Column(0x44, 0x0a, 0xdf, 0x4d), Column(0xa4, 0x1c, 0x65, 0xb9));
    NextWord(KEY128, 35, Column(0x4e, 0xa9, 0xc0, 0x26), Column(0xe0, 0x16, 0xba, 0xf4));
    NextWord(KEY128, 36, Column(0x47, 0x43, 0x87, 0x35), Column(0xae, 0xbf, 0x7a, 0xd2));
    NextWord(KEY128, 37, Column(0xa4, 0x1c, 0x65, 0xb9), Column(0x54, 0x99, 0x32, 0xd1));
    NextWord(KEY128, 38, Column(0xe0, 0x16, 0xba, 0xf4), Column(0xf0, 0x85, 0x57, 0x68));
    NextWord(KEY128, 39, Column(0xae, 0xbf, 0x7a, 0xd2), Column(0x10, 0x93, 0xed, 0x9c));
    NextWord(KEY128, 40, Column(0x54, 0x99, 0x32, 0xd1), Column(0xbe, 0x2c, 0x97, 0x4e));
    NextWord(KEY128, 41, Column(0xf0, 0x85, 0x57, 0x68), Column(0x13, 0x11, 0x1d, 0x7f));
    NextWord(KEY128, 42, Column(0x10, 0x93, 0xed, 0x9c), Column(0xe3, 0x94, 0x4a, 0x17));
    NextWord(KEY128, 43, Column(0xbe, 0x2c, 0x97, 0x4e), Column(0xf3, 0x07, 0xa7, 0x8b));
  }

  lemma Reach128a(rk: seq<bv8>)
    requires IsExpansion(rk, KEY128) && Keys(rk, 10)
    ensures Rounds(PLAIN, rk, 10, 2) == A2
  {
    hide IsExpansion, Rounds, Word, FullRound, LastRound, FirstKey, Cipher, RoundKey, Keys, Flat;
    Words128a();
    Words128b();
    FirstOf(Column(0x00, 0x11, 0x22, 0x33), Column(0x44, 0x55, 0x66, 0x77), Column(0x88, 0x99, 0xaa, 0xbb), Column(0xcc, 0xdd, 0xee, 0xff),
            Column(0x00, 0x01, 0x02, 0x03), Column(0x04, 0x05, 0x06, 0x07), Column(0x08, 0x09, 0x0a, 0x0b), Column(0x0c, 0x0d, 0x0e, 0x0f));
    RoundOf(Column(0x00, 0x10, 0x20, 0x30), Column(0x40, 0x50, 0x60, 0x70), Column(0x80, 0x90, 0xa0, 0xb0), Column(0xc0, 0xd0, 0xe0, 0xf0),
            Column(0xd6, 0xaa, 0x74, 0xfd), Column(0xd2, 0xaf, 0x72, 0xfa), Column(0xda, 0xa6, 0x78, 0xf1), Column(0xd6, 0xab, 0x76, 0xfe));
    RoundOf(Column(0x89, 0xd8, 0x10, 0xe8), Column(0x85, 0x5a, 0xce, 0x68), Column(0x2d, 0x18, 0x43, 0xd8), Column(0xcb, 0x12, 0x8f, 0xe4),
            Column(0xb6, 0x92, 0xcf, 0x0b), Column(0x64, 0x3d, 0xbd, 0xf1), Column(0xbe, 0x9b, 0xc5, 0x00), Column(0x68, 0x30, 0xb3, 0xfe));
    EndsAre(PLAIN, rk, KEY128, 10);
    RoundIs(PLAIN, rk, KEY128, 10, 1);
    RoundIs(PLAIN, rk, KEY128, 10, 2);
  }

  lemma Reach128b(rk: seq<bv8>)
    requires IsExpansion(rk, KEY128) && Keys(rk, 10)
    ensures Rounds(PLAIN, rk, 10, 4) == A4
  {
    hide IsExpansion, Rounds, Word, FullRound, LastRound, FirstKey, Cipher, RoundKey, Keys, Flat;
    Reach128a(rk);
    Words128b();
    RoundOf(Column(0x49, 0x15, 0x59, 0x8f), Column(0x55, 0xe5, 0xd7, 0xa0), Column(0xda, 0xca, 0x94, 0xfa), Column(0x1f, 0x0a, 0x63, 0xf7),
            Column(0xb6, 0xff, 0x74, 0x4e), Column(0xd2, 0xc2, 0xc9, 0xbf), Column(0x6c, 0x59, 0x0c, 0xbf), Column(0x04, 0x69, 0xbf, 0x41));
    RoundOf(Column(0xfa, 0x63, 0x6a, 0x28), Column(0x25, 0xb3, 0x39, 0xc9), Column(0x40, 0x66, 0x8a, 0x31), Column(0x57, 0x24, 0x4d, 0x17),
            Column(0x47, 0xf7, 0xf7, 0xbc), Column(0x95, 0x35, 0x3e, 0x03), Column(0xf9, 0x6c, 0x32, 0xbc), Column(0xfd, 0x05, 0x8d, 0xfd));
    RoundIs(PLAIN, rk, KEY128, 10, 3);
    RoundIs(PLAIN, rk, KEY128, 10, 4);
  }

  lemma Reach128c(rk: seq<bv8>)
    requires IsExpansion(rk, KEY128) && Keys(rk, 10)
    ensures Rounds(PLAIN, rk, 10, 6) == A6
  {
    hide IsExpansion, Rounds, Word, FullRound, LastRound, FirstKey, Cipher, RoundKey, Keys, Flat;
    Reach128b(rk);
    Words128b();
    RoundOf(Column(0x24, 0x72, 0x40, 0x23), Column(0x69, 0x66, 0xb3, 0xfa), Column(0x6e, 0xd2, 0x75, 0x32), Column(0x88, 0x42, 0x5b, 0x6c),
            Column(0x3c, 0xaa, 0xa3, 0xe8), Column(0xa9, 0x9f, 0x9d, 0xeb), Column(0x50, 0xf3, 0xaf, 0x57), Column(0xad, 0xf6, 0x22, 0xaa));
    RoundOf(Column(0xc8, 0x16, 0x77, 0xbc), Column(0x9b, 0x7a, 0xc9, 0x3b), Column(0x25, 0x02, 0x79, 0x92), Column(0xb0, 0x26, 0x19, 0x96),
            Column(0x5e, 0x39, 0x0f, 0x7d), Column(0xf7, 0xa6, 0x92, 0x96), Column(0xa7, 0x55, 0x3d, 0xc1), Column(0x0a, 0xa3, 0x1f, 0x6b));
    RoundIs(PLAIN, rk, KEY128, 10, 5);
    RoundIs(PLAIN, rk, KEY128, 10, 6);
  }

  lemma Reach128d(rk: seq<bv8>)
    requires IsExpansion(rk, KEY128) && Keys(rk, 10)
    ensures Rounds(PLAIN, rk, 10, 8) == A8
  {
    hide IsExpansion, Rounds, Word, FullRound, LastRound, FirstKey, Cipher, RoundKey, Keys, Flat;
    Reach128c(rk);
    Words128c();
    RoundOf(Column(0xc6, 0x2f, 0xe1, 0x09), Column(0xf7, 0x5e, 0xed, 0xc3), Column(0xcc, 0x79, 0x39, 0x5d), Column(0x84, 0xf9, 0xcf, 0x5d),
            Column(0x14, 0xf9, 0x70, 0x1a), Column(0xe3, 0x5f, 0xe2, 0x8c), Column(0x44, 0x0a, 0xdf, 0x4d), Column(0x4e, 0xa9, 0xc0, 0x26));
    RoundOf(Column(0xd1, 0x87, 0x6c, 0x0f), Column(0x79, 0xc4, 0x30, 0x0a), Column(0xb4, 0x55, 0x94, 0xad), Column(0xd6, 0x6f, 0xf4, 0x1f),
            Column(0x47, 0x43, 0x87, 0x35), Column(0xa4, 0x1c, 0x65, 0xb9), Column(0xe0, 0x16, 0xba, 0xf4), Column(0xae, 0xbf, 0x7a, 0xd2));
    RoundIs(PLAIN, rk, KEY128, 10, 7);
    RoundIs(PLAIN, rk, KEY128, 10, 8);
  }

  lemma Reach128e(rk: seq<bv8>)
    requires IsExpansion(rk, KEY128) && Keys(rk, 10)
    ensures Cipher(PLAIN, rk, 10) == A10
  {
    hide IsExpansion, Rounds, Word, FullRound, LastRound, FirstKey, Cipher, RoundKey, Keys, Flat;
    Reach128d(rk);
    Words128c();
    RoundOf(Column(0xfd, 0xe3, 0xba, 0xd2), Column(0x05, 0xe5, 0xd0, 0xd7), Column(0x35, 0x47, 0x96, 0x4e), Column(0xf1, 0xfe, 0x37, 0xf1),
            Column(0x54, 0x99, 0x32, 0xd1), Column(0xf0, 0x85, 0x57, 0x68), Column(0x10, 0x93, 0xed, 0x9c), Column(0xbe, 0x2c, 0x97, 0x4e));
    RoundOf(Column(0xbd, 0x6e, 0x7c, 0x3d), Column(0xf2, 0xb5, 0x77, 0x9e), Column(0x0b, 0x61, 0x21, 0x6e), Column(0x8b, 0x10, 0xb6, 0x89),
            Column(0x13, 0x11, 0x1d, 0x7f), Column(0xe3, 0x94, 0x4a, 0x17), Column(0xf3, 0x07, 0xa7, 0x8b), Column(0x4d, 0x2b, 0x30, 0xc5));
    EndsAre(PLAIN, rk, KEY128, 10);
    RoundIs(PLAIN, rk, KEY128, 10, 9);
  }

  /** Appendix C of FIPS 197, 128-bit key. */
  lemma Fips128(rk: seq<bv8>)
    requires IsExpansion(rk, KEY128) && Keys(rk, 10)
    ensures Cipher(PLAIN, rk, 10) ==
              [0x69, 0xc4, 0xe0, 0xd8, 0x6a, 0x7b, 0x04, 0x30, 0xd8, 0xcd, 0xb7, 0x80, 0x70, 0xb4, 0xc5, 0x5a]
  {
    hide IsExpansion, Cipher;
    Reach128e(rk);
  }

  // ---------------------------------------------------------------- 192 bits

  const KEY192: seq<bv8> := seq(24, i requires 0 <= i < 24 => i as bv8)
  const B0: Block :=
    Flat(Column(0x00, 0x10, 0x20, 0x30), Column(0x40, 0x50, 0x60, 0x70), Column(0x80, 0x90, 0xa0, 0xb0), Column(0xc0, 0xd0, 0xe0, 0xf0))
  const B1: Block :=
    Flat(Column(0x4f, 0x63, 0x76, 0x06), Column(0x43, 0xe0, 0xaa, 0x85), Column(0xaf, 0xf8, 0xc9, 0xd0), Column(0x41, 0xfa, 0x0d, 0xe4))
  const B2: Block :=
    Flat(Column(0xcb, 0x02, 0x81, 0x8c), Column(0x17, 0xd2, 0xaf, 0x9c), Column(0x62, 0xaa, 0x64, 0x42), Column(0x8b, 0xb2, 0x5f, 0xd7))
  const B3: Block :=
    Flat(Column(0xf7, 0x5c, 0x77, 0x78), Column(0xa3, 0x27, 0xc8, 0xed), Column(0x8c, 0xfe, 0xbf, 0xc1), Column(0xa6, 0xc3, 0x7f, 0x53))
  const B4: Block :=
    Flat(Column(0x22, 0xff, 0xc9, 0x16), Column(0xa8, 0x14, 0x74, 0x41), Column(0x64, 0x96, 0xf1, 0x9c), Column(0x64, 0xae, 0x25, 0x32))
  const B5: Block :=
    Flat(Column(0x80, 0x12, 0x1e, 0x07), Column(0x76, 0xfd, 0x1d, 0x8a), Column(0x8d, 0x8c, 0x31, 0xbc), Column(0x96, 0x5d, 0x1f, 0xee))
  const B6: Block :=
    Flat(Column(0x67, 0x1e, 0xf1, 0xfd), Column(0x4e, 0x2a, 0x1e, 0x03), Column(0xdf, 0xdc, 0xb1, 0xef), Column(0x3d, 0x78, 0x9b, 0x30))
  const B7: Block :=
    Flat(Column(0x0c, 0x03, 0x70, 0xd0), Column(0x0c, 0x01, 0xe6, 0x22), Column(0x16, 0x6b, 0x8a, 0xcc), Column(0xd6, 0xdb, 0x3a, 0x2c))
  const B8: Block :=
    Flat(Column(0x72, 0x55, 0xda, 0xd3), Column(0x0f, 0xb8, 0x03, 0x10), Column(0xe0, 0x0d, 0x6c, 0x6b), Column(0x40, 0xd0, 0x52, 0x7c))
  const B9: Block :=
    Flat(Column(0xa9, 0x06, 0xb2, 0x54), Column(0x96, 0x8a, 0xf4, 0xe9), Column(0xb4, 0xbd, 0xb2, 0xd2), Column(0xf0, 0xc4, 0x43, 0x36))
  const B10: Block :=
    Flat(Column(0x88, 0xec, 0x93, 0x0e), Column(0xf5, 0xe7, 0xe4, 0xb6), Column(0xcc, 0x32, 0xf4, 0xc9), Column(0x06, 0xd2, 0x94, 0x14))
  const B11: Block :=
    Flat(Column(0xaf, 0xb7, 0x3e, 0xeb), Column(0x1c, 0xd1, 0xb8, 0x51), Column(0x62, 0x28, 0x0f, 0x27), Column(0xfb, 0x20, 0xd5, 0x85))
  const B12: Block :=
    Flat(Column(0xdd, 0xa9, 0x7c, 0xa4), Column(0x86, 0x4c, 0xdf, 0xe0), Column(0x6e, 0xaf, 0x70, 0xa0), Column(0xec, 0x0d, 0x71, 0x91))

  lemma Words192a()
    ensures Word(KEY192, 0) == Column(0x00, 0x01, 0x02, 0x03) && Word(KEY192, 1) == Column(0x04, 0x05, 0x06, 0x07)
    ensures Word(KEY192, 2) == Column(0x08, 0x09, 0x0a, 0x0b) && Word(KEY192, 3) == Column(0x0c, 0x0d, 0x0e, 0x0f)
    ensures Word(KEY192, 4) == Column(0x10, 0x11, 0x12, 0x13) && Word(KEY192, 5) == Column(0x14, 0x15, 0x16, 0x17)
  {
    hide Temp, XorWord;
  }

  lemma Words192b()
    ensures Word(KEY192, 6) == Column(0x58, 0x46, 0xf2, 0xf9) && Word(KEY192, 7) == Column(0x5c, 0x43, 0xf4, 0xfe)
    ensures Word(KEY192, 8) == Column(0x54, 0x4a, 0xfe, 0xf5) && Word(KEY192, 9) == Column(0x58, 0x47, 0xf0, 0xfa)
    ensures Word(KEY192, 10) == Column(0x48, 0x56, 0xe2, 0xe9) && Word(KEY192, 11) == Column(0x5c, 0x43, 0xf4, 0xfe)
    ensures Word(KEY192, 12) == Column(0x40, 0xf9, 0x49, 0xb3) && Word(KEY192, 13) == Column(0x1c, 0xba, 0xbd, 0x4d)
    ensures Word(KEY192, 14) == Column(0x48, 0xf0, 0x43, 0xb8) && Word(KEY192, 15) == Column(0x10, 0xb7, 0xb3, 0x42)
    ensures Word(KEY192, 16) == Column(0x58, 0xe1, 0x51, 0xab) && Word(KEY192, 17) == Column(0x04, 0xa2, 0xa5, 0x55)
    ensures Word(KEY192, 18) == Column(0x7e, 0xff, 0xb5, 0x41) && Word(KEY192, 19) == Column(0x62, 0x45, 0x08, 0x0c)
    ensures Word(KEY192, 20) == Column(0x2a, 0xb5, 0x4b, 0xb4) && Word(KEY192, 21) == Column(0x3a, 0x02, 0xf8, 0xf6)
    ensures Word(KEY192, 22) == Column(0x62, 0xe3, 0xa9, 0x5d) && Word(KEY192, 23) == Column(0x66, 0x41, 0x0c, 0x08)
    ensures Word(KEY192, 24) == Column(0xf5, 0x01, 0x85, 0x72) && Word(KEY192, 25) == Column(0x97, 0x44, 0x8d, 0x7e)
    ensures Word(KEY192, 26) == Column(0xbd, 0xf1, 0xc6, 0xca) && Word(KEY192, 27) == Column(0x87, 0xf3, 0x3e, 0x3c)
    ensures Word(KEY192, 28) == Column(0xe5, 0x10, 0x97, 0x61) && Word(KEY192, 29) == Column(0x83, 0x51, 0x9b, 0x69)
  {
    Words192a();
    hide Word, Rcon;
    Constants();
    NextWord(KEY192, 6, Column(0x00, 0x01, 0x02, 0x03), Column(0x14, 0x15, 0x16, 0x17));
    NextWord(KEY192, 7, Column(0x04, 0x05, 0x06, 0x07), Column(0x58, 0x46, 0xf2, 0xf9));
    NextWord(KEY192, 8, Column(0x08, 0x09, 0x0a, 0x0b), Column(0x5c, 0x43, 0xf4, 0xfe));
    NextWord(KEY192, 9, Column(0x0c, 0x0d, 0x0e, 0x0f), Column(0x54, 0x4a, 0xfe, 0xf5));
    NextWord(KEY192, 10, Column(0x10, 0x11, 0x12, 0x13), Column(0x58, 0x47, 0xf0, 0xfa));
    NextWord(KEY192, 11, Column(0x14, 0x15, 0x16, 0x17), Column(0x48, 0x56, 0xe2, 0xe9));
    NextWord(KEY192, 12, Column(0x58, 0x46, 0xf2, 0xf9), Column(0x5c, 0x43, 0xf4, 0xfe));
    NextWord(KEY192, 13, Column(0x5c, 0x43, 0xf4, 0xfe), Column(0x40, 0xf9, 0x49, 0xb3));
    NextWord(KEY192, 14, Column(0x54, 0x4a, 0xfe, 0xf5), Column(0x1c, 0xba, 0xbd, 0x4d));
    NextWord(KEY192, 15, Column(0x58, 0x47, 0xf0, 0xfa), Column(0x48, 0xf0, 0x43, 0xb8));
    NextWord(KEY192, 16, Column(0x48, 0x56, 0xe2, 0xe9), Column(0x10, 0xb7, 0xb3, 0x42));
    NextWord(KEY192, 17, Column(0x5c, 0x43, 0xf4, 0xfe), Column(0x58, 0xe1, 0x51, 0xab));
    NextWord(KEY192, 18, Column(0x40, 0xf9, 0x49, 0xb3), Column(0x04, 0xa2, 0xa5, 0x55));
    NextWord(KEY192, 19, Column(0x1c, 0xba, 0xbd, 0x4d), Column(0x7e, 0xff, 0xb5, 0x41));
    NextWord(KEY192, 20, Column(0x48, 0xf0, 0x43, 0xb8), Column(0x62, 0x45, 0x08, 0x0c));
    NextWord(KEY192, 21, Column(0x10, 0xb7, 0xb3, 0x42), Column(0x2a, 0xb5, 0x4b, 0xb4));
    NextWord(KEY192, 22, Column(0x58, 0xe1, 0x51, 0xab), Column(0x3a, 0x02, 0xf8, 0xf6));
    NextWord(KEY192, 23, Column(0x04, 0xa2, 0xa5, 0x55), Column(0x62, 0xe3, 0xa9, 0x5d));
    NextWord(KEY192, 24, Column(0x7e, 0xff, 0xb5, 0x41), Column(0x66, 0x41, 0x0c, 0x08));
    NextWord(KEY192, 25, Column(0x62, 0x45, 0x08, 0x0c), Column(0xf5, 0x01, 0x85, 0x72));
    NextWord(KEY192, 26, Column(0x2a, 0xb5, 0x4b, 0xb4), Column(0x97, 0x44, 0x8d, 0x7e));
    NextWord(KEY192, 27, Column(0x3a, 0x02, 0xf8, 0xf6), Column(0xbd, 0xf1, 0xc6, 0xca));
    NextWord(KEY192, 28, Column(0x62, 0xe3, 0xa9, 0x5d), Column(0x87, 0xf3, 0x3e, 0x3c));
    NextWord(KEY192, 29, Column(0x66, 0x41, 0x0c, 0x08), Column(0xe5, 0x10, 0x97, 0x61));
  }

  lemma Words192c()
    ensures Word(KEY192, 30) == Column(0x34, 0x15, 0x7c, 0x9e) && Word(KEY192, 31) == Column(0xa3, 0x51, 0xf1, 0xe0)
    ensures Word(KEY192, 32) == Column(0x1e, 0xa0, 0x37, 0x2a) && Word(KEY192, 33) == Column(0x99, 0x53, 0x09, 0x16)
    ensures Word(KEY192, 34) == Column(0x7c, 0x43, 0x9e, 0x77) && Word(KEY192, 35) == Column(0xff, 0x12, 0x05, 0x1e)
    ensures Word(KEY192, 36) == Column(0xdd, 0x7e, 0x0e, 0x88) && Word(KEY192, 37) == Column(0x7e, 0x2f, 0xff, 0x68)
    ensures Word(KEY192, 38) == Column(0x60, 0x8f, 0xc8, 0x42) && Word(KEY192, 39) == Column(0xf9, 0xdc, 0xc1, 0x54)
    ensures Word(KEY192, 40) == Column(0x85, 0x9f, 0x5f, 0x23) && Word(KEY192, 41) == Column(0x7a, 0x8d, 0x5a, 0x3d)
    ensures Word(KEY192, 42) == Column(0xc0, 0xc0, 0x29, 0x52) && Word(KEY192, 43) == Column(0xbe, 0xef, 0xd6, 0x3a)
    ensures Word(KEY192, 44) == Column(0xde, 0x60, 0x1e, 0x78) && Word(KEY192, 45) == Column(0x27, 0xbc, 0xdf, 0x2c)
    ensures Word(KEY192, 46) == Column(0xa2, 0x23, 0x80, 0x0f) && Word(KEY192, 47) == Column(0xd8, 0xae, 0xda, 0x32)
    ensures Word(KEY192, 48) == Column(0xa4, 0x97, 0x0a, 0x33) && Word(KEY192, 49) == Column(0x1a, 0x78, 0xdc, 0x09)
    ensures Word(KEY192, 50) == Column(0xc4, 0x18, 0xc2, 0x71) && Word(KEY192, 51) == Column(0xe3, 0xa4, 0x1d, 0x5d)
  {
    Words192b();
    hide Word, Rcon;
    Constants();
    NextWord(KEY192, 30, Column(0xf5, 0x01, 0x85, 0x72), Column(0x83, 0x51, 0x9b, 0x69));
    NextWord(KEY192, 31, Column(0x97, 0x44, 0x8d, 0x7e), Column(0x34, 0x15, 0x7c, 0x9e));
    NextWord(KEY192, 32, Column(0xbd, 0xf1, 0xc6, 0xca), Column(0xa3, 0x51, 0xf1, 0xe0));
    NextWord(KEY192, 33, Column(0x87, 0xf3, 0x3e, 0x3c), Column(0x1e, 0xa0, 0x37, 0x2a));
    NextWord(KEY192, 34, Column(0xe5, 0x10, 0x97, 0x61), Column(0x99, 0x53, 0x09, 0x16));
    NextWord(KEY192, 35, Column(0x83, 0x51, 0x9b, 0x69), Column(0x7c, 0x43, 0x9e, 0x77));
    NextWord(KEY192, 36, Column(0x34, 0x15, 0x7c, 0x9e), Column(0xff, 0x12, 0x05, 0x1e));
    NextWord(KEY192, 37, Column(0xa3, 0x51, 0xf1, 0xe0), Column(0xdd, 0x7e, 0x0e, 0x88));
    NextWord(KEY192, 38, Column(0x1e, 0xa0, 0x37, 0x2a), Column(0x7e, 0x2f, 0xff, 0x68));
    NextWord(KEY192, 39, Column(0x99, 0x53, 0x09, 0x16), Column(0x60, 0x8f, 0xc8, 0x42));
    NextWord(KEY192, 40, Column(0x7c, 0x43, 0x9e, 0x77), Column(0xf9, 0xdc, 0xc1, 0x54));
    NextWord(KEY192, 41, Column(0xff, 0x12, 0x05, 0x1e), Column(0x85, 0x9f, 0x5f, 0x23));
    NextWord(KEY192, 42, Column(0xdd, 0x7e, 0x0e, 0x88), Column(0x7a, 0x8d, 0x5a, 0x3d));
    NextWord(KEY192, 43, Column(0x7e, 0x2f, 0xff, 0x68), Column(0xc0, 0xc0, 0x29, 0x52));
    NextWord(KEY192, 44, Column(0x60, 0x8f, 0xc8, 0x42), Column(0xbe, 0xef, 0xd6, 0x3a));
    NextWord(KEY192, 45, Column(0xf9, 0xdc, 0xc1, 0x54), Column(0xde, 0x60, 0x1e, 0x78));
    NextWord(KEY192, 46, Column(0x85, 0x9f, 0x5f, 0x23), Column(0x27, 0xbc, 0xdf, 0x2c));
    NextWord(KEY192, 47, Column(0x7a, 0x8d, 0x5a, 0x3d), Column(0xa2, 0x23, 0x80, 0x0f));
    NextWord(KEY192, 48, Column(0xc0, 0xc0, 0x29, 0x52), Column(0xd8, 0xae, 0xda, 0x32));
    NextWord(KEY192, 49, Column(0xbe, 0xef, 0xd6, 0x3a), Column(0xa4, 0x97, 0x0a, 0x33));
    NextWord(KEY192, 50, Column(0xde, 0x60, 0x1e, 0x78), Column(0x1a, 0x78, 0xdc, 0x09));
    NextWord(KEY192, 51, Column(0x27, 0xbc, 0xdf, 0x2c), Column(0xc4, 0x18, 0xc2, 0x71));
  }

  lemma Reach192a(rk: seq<bv8>)
    requires IsExpansion(rk, KEY192) && Keys(rk, 12)
    ensures Rounds(PLAIN, rk, 12, 2) == B2
  {
    hide IsExpansion, Rounds, Word, FullRound, LastRound, FirstKey, Cipher, RoundKey, Keys, Flat;
    Words192a();
    Words192b();
    FirstOf(Column(0x00, 0x11, 0x22, 0x33), Column(0x44, 0x55, 0x66, 0x77), Column(0x88, 0x99, 0xaa, 0xbb), Column(0xcc, 0xdd, 0xee, 0xff),
            Column(0x00, 0x01, 0x02, 0x03), Column(0x04, 0x05, 0x06, 0x07), Column(0x08, 0x09, 0x0a, 0x0b), Column(0x0c, 0x0d, 0x0e, 0x0f));
    RoundOf(Column(0x00, 0x10, 0x20, 0x30), Column(0x40, 0x50, 0x60, 0x70), Column(0x80, 0x90, 0xa0, 0xb0), Column(0xc0, 0xd0, 0xe0, 0xf0),
            Column(0x10, 0x11, 0x12, 0x13), Column(0x14, 0x15, 0x16, 0x17), Column(0x58, 0x46, 0xf2, 0xf9), Column(0x5c, 0x43, 0xf4, 0xfe));
    RoundOf(Column(0x4f, 0x63, 0x76, 0x06), Column(0x43, 0xe0, 0xaa, 0x85), Column(0xaf, 0xf8, 0xc9, 0xd0), Column(0x41, 0xfa, 0x0d, 0xe4),
            Column(0x54, 0x4a, 0xfe, 0xf5), Column(0x58, 0x47, 0xf0, 0xfa), Column(0x48, 0x56, 0xe2, 0xe9), Column(0x5c, 0x43, 0xf4, 0xfe));
    EndsAre(PLAIN, rk, KEY192, 12);
    RoundIs(PLAIN, rk, KEY192, 12, 1);
    RoundIs(PLAIN, rk, KEY192, 12, 2);
  }

  lemma Reach192b(rk: seq<bv8>)
    requires IsExpansion(rk, KEY192) && Keys(rk, 12)
    ensures Rounds(PLAIN, rk, 12, 4) == B4
  {
    hide IsExpansion, Rounds, Word, FullRound, LastRound, FirstKey, Cipher, RoundKey, Keys, Flat;
    Reach192a(rk);
    Words192b();
    RoundOf(Column(0xcb, 0x02, 0x81, 0x8c), Column(0x17, 0xd2, 0xaf, 0x9c), Column(0x62, 0xaa, 0x64, 0x42), Column(0x8b, 0xb2, 0x5f, 0xd7),
            Column(0x40, 0xf9, 0x49, 0xb3), Column(0x1c, 0xba, 0xbd, 0x4d), Column(0x48, 0xf0, 0x43, 0xb8), Column(0x10, 0xb7, 0xb3, 0x42));
    RoundOf(Column(0xf7, 0x5c, 0x77, 0x78), Column(0xa3, 0x27, 0xc8, 0xed), Column(0x8c, 0xfe, 0xbf, 0xc1), Column(0xa6, 0xc3, 0x7f, 0x53),
            Column(0x58, 0xe1, 0x51, 0xab), Column(0x04, 0xa2, 0xa5, 0x55), Column(0x7e, 0xff, 0xb5, 0x41), Column(0x62, 0x45, 0x08, 0x0c));
    RoundIs(PLAIN, rk, KEY192, 12, 3);
    RoundIs(PLAIN, rk, KEY192, 12, 4);
  }

  lemma Reach192c(rk: seq<bv8>)
    requires IsExpansion(rk, KEY192) && Keys(rk, 12)
    ensures Rounds(PLAIN, rk, 12, 6) == B6
  {
    hide IsExpansion, Rounds, Word, FullRound, LastRound, FirstKey, Cipher, RoundKey, Keys, Flat;
    Reach192b(rk);
    Words192b();
    RoundOf(Column(0x22, 0xff, 0xc9, 0x16), Column(0xa8, 0x14, 0x74, 0x41), Column(0x64, 0x96, 0xf1, 0x9c), Column(0x64, 0xae, 0x25, 0x32),
            Column(0x2a, 0xb5, 0x4b, 0xb4), Column(0x3a, 0x02, 0xf8, 0xf6), Column(0x62, 0xe3, 0xa9, 0x5d), Column(0x66, 0x41, 0x0c, 0x08));
    RoundOf(Column(0x80, 0x12, 0x1e, 0x07), Column(0x76, 0xfd, 0x1d, 0x8a), Column(0x8d, 0x8c, 0x31, 0xbc), Column(0x96, 0x5d, 0x1f, 0xee),
            Column(0xf5, 0x01, 0x85, 0x72), Column(0x97, 0x44, 0x8d, 0x7e), Column(0xbd, 0xf1, 0xc6, 0xca), Column(0x87, 0xf3, 0x3e, 0x3c));
    RoundIs(PLAIN, rk, KEY192, 12, 5);
    RoundIs(PLAIN, rk, KEY192, 12, 6);
  }

  lemma Reach192d(rk: seq<bv8>)
    requires IsExpansion(rk, KEY192) && Keys(rk, 12)
    ensures Rounds(PLAIN, rk, 12, 8) == B8
  {
    hide IsExpansion, Rounds, Word, FullRound, LastRound, FirstKey, Cipher, RoundKey, Keys, Flat;
    Reach192c(rk);
    Words192b();
    Words192c();
    RoundOf(Column(0x67, 0x1e, 0xf1, 0xfd), Column(0x4e, 0x2a, 0x1e, 0x03), Column(0xdf, 0xdc, 0xb1, 0xef), Column(0x3d, 0x78, 0x9b, 0x30),
            Column(0xe5, 0x10, 0x97, 0x61), Column(0x83, 0x51, 0x9b, 0x69), Column(0x34, 0x15, 0x7c, 0x9e), Column(0xa3, 0x51, 0xf1, 0xe0));
    RoundOf(Column(0x0c, 0x03, 0x70, 0xd0), Column(0x0c, 0x01, 0xe6, 0x22), Column(0x16, 0x6b, 0x8a, 0xcc), Column(0xd6, 0xdb, 0x3a, 0x2c),
            Column(0x1e, 0xa0, 0x37, 0x2a), Column(0x99, 0x53, 0x09, 0x16), Column(0x7c, 0x43, 0x9e, 0x77), Column(0xff, 0x12, 0x05, 0x1e));
    RoundIs(PLAIN, rk, KEY192, 12, 7);
    RoundIs(PLAIN, rk, KEY192, 12, 8);
  }

  lemma Reach192e(rk: seq<bv8>)
    requires IsExpansion(rk, KEY192) && Keys(rk, 12)
    ensures Rounds(PLAIN, rk, 12, 10) == B10
  {
    hide IsExpansion, Rounds, Word, FullRound, LastRound, FirstKey, Cipher, RoundKey, Keys, Flat;
    Reach192d(rk);
    Words192c();
    RoundOf(Column(0x72, 0x55, 0xda, 0xd3), Column(0x0f, 0xb8, 0x03, 0x10), Column(0xe0, 0x0d, 0x6c, 0x6b), Column(0x40, 0xd0, 0x52, 0x7c),
            Column(0xdd, 0x7e, 0x0e, 0x88), Column(0x7e, 0x2f, 0xff, 0x68), Column(0x60, 0x8f, 0xc8, 0x42), Column(0xf9, 0xdc, 0xc1, 0x54));
    RoundOf(Column(0xa9, 0x06, 0xb2, 0x54), Column(0x96, 0x8a, 0xf4, 0xe9), Column(0xb4, 0xbd, 0xb2, 0xd2), Column(0xf0, 0xc4, 0x43, 0x36),
            Column(0x85, 0x9f, 0x5f, 0x23), Column(0x7a, 0x8d, 0x5a, 0x3d), Column(0xc0, 0xc0, 0x29, 0x52), Column(0xbe, 0xef, 0xd6, 0x3a));
    RoundIs(PLAIN, rk, KEY192, 12, 9);
    RoundIs(PLAIN, rk, KEY192, 12, 10);
  }

  lemma Reach192f(rk: seq<bv8>)
    requires IsExpansion(rk, KEY192) && Keys(rk, 12)
    ensures Cipher(PLAIN, rk, 12) == B12
  {
    hide IsExpansion, Rounds, Word, FullRound, LastRound, FirstKey, Cipher, RoundKey, Keys, Flat;
    Reach192e(rk);
    Words192c();
    RoundOf(Column(0x88, 0xec, 0x93, 0x0e), Column(0xf5, 0xe7, 0xe4, 0xb6), Column(0xcc, 0x32, 0xf4, 0xc9), Column(0x06, 0xd2, 0x94, 0x14),
            Column(0xde, 0x60, 0x1e, 0x78), Column(0x27, 0xbc, 0xdf, 0x2c), Column(0xa2, 0x23, 0x80, 0x0f), Column(0xd8, 0xae, 0xda, 0x32));
    RoundOf(Column(0xaf, 0xb7, 0x3e, 0xeb), Column(0x1c, 0xd1, 0xb8, 0x51), Column(0x62, 0x28, 0x0f, 0x27), Column(0xfb, 0x20, 0xd5, 0x85),
            Column(0xa4, 0x97, 0x0a, 0x33), Column(0x1a, 0x78, 0xdc, 0x09), Column(0xc4, 0x18, 0xc2, 0x71), Column(0xe3, 0xa4, 0x1d, 0x5d));
    EndsAre(PLAIN, rk, KEY192, 12);
    RoundIs(PLAIN, rk, KEY192, 12, 11);
  }

  /** Appendix C of FIPS 197, 192-bit key. */
  lemma Fips192(rk: seq<bv8>)
    requires IsExpansion(rk, KEY192) && Keys(rk, 12)
    ensures Cipher(PLAIN, rk, 12) ==
              [0xdd, 0xa9, 0x7c, 0xa4, 0x86, 0x4c, 0xdf, 0xe0, 0x6e, 0xaf, 0x70, 0xa0, 0xec, 0x0d, 0x71, 0x91]
  {
    hide IsExpansion, Cipher;
    Reach192f(rk);
  }

  // ---------------------------------------------------------------- 256 bits

  const KEY256: seq<bv8> := seq(32, i requires 0 <= i < 32 => i as bv8)
  const C0: Block :=
    Flat(Column(0x00, 0x10, 0x20, 0x30), Column(0x40, 0x50, 0x60, 0x70), Column(0x80, 0x90, 0xa0, 0xb0), Column(0xc0, 0xd0, 0xe0, 0xf0))
  const C1: Block :=
    Flat(Column(0x4f, 0x63, 0x76, 0x06), Column(0x43, 0xe0, 0xaa, 0x85), Column(0xef, 0xa7, 0x21, 0x32), Column(0x01, 0xa4, 0xe7, 0x05))
  const C2: Block :=
    Flat(Column(0x18, 0x59, 0xfb, 0xc2), Column(0x8a, 0x1c, 0x00, 0xa0), Column(0x78, 0xed, 0x8a, 0xad), Column(0xc4, 0x2f, 0x61, 0x09))
  const C3: Block :=
    Flat(Column(0x97, 0x5c, 0x66, 0xc1), Column(0xcb, 0x9f, 0x3f, 0xa8), Column(0xa9, 0x3a, 0x28, 0xdf), Column(0x8e, 0xe1, 0x0f, 0x63))
  const C4: Block :=
    Flat(Column(0x1c, 0x05, 0xf2, 0x71), Column(0xa4, 0x17, 0xe0, 0x4f), Column(0xf9, 0x21, 0xc5, 0xc1), Column(0x04, 0x70, 0x15, 0x54))
  const C5: Block :=
    Flat(Column(0xc3, 0x57, 0xaa, 0xe1), Column(0x1b, 0x45, 0xb7, 0xb0), Column(0xa2, 0xc7, 0xbd, 0x28), Column(0xa8, 0xdc, 0x99, 0xfa))
  const C6: Block :=
    Flat(Column(0x7f, 0x07, 0x41, 0x43), Column(0xcb, 0x4e, 0x24, 0x3e), Column(0xc1, 0x0c, 0x81, 0x5d), Column(0x83, 0x75, 0xd5, 0x4c))
  const C7: Block :=
    Flat(Column(0xd6, 0x53, 0xa4, 0x69), Column(0x6c, 0xa0, 0xbc, 0x0f), Column(0x5a, 0xca, 0xab, 0x5d), Column(0xb9, 0x6c, 0x5e, 0x7d))
  const C8: Block :=
    Flat(Column(0x5a, 0xa8, 0x58, 0x39), Column(0x5f, 0xd2, 0x8d, 0x7d), Column(0x05, 0xe1, 0xa3, 0x88), Column(0x68, 0xf3, 0xb9, 0xc5))
  const C9: Block :=
    Flat(Column(0x4a, 0x82, 0x48, 0x51), Column(0xc5, 0x7e, 0x7e, 0x47), Column(0x64, 0x3d, 0xe5, 0x0c), Column(0x2a, 0xf3, 0xe8, 0xc9))
  const C10: Block :=
    Flat(Column(0xc1, 0x49, 0x07, 0xf6), Column(0xca, 0x3b, 0x3a, 0xa0), Column(0x70, 0xe9, 0xaa, 0x31), Column(0x3b, 0x52, 0xb5, 0xec))
  const C11: Block :=
    Flat(Column(0x5f, 0x9c, 0x6a, 0xbf), Column(0xba, 0xc6, 0x34, 0xaa), Column(0x50, 0x40, 0x9f, 0xa7), Column(0x66, 0x67, 0x76, 0x53))
  const C12: Block :=
    Flat(Column(0x51, 0x66, 0x04, 0x95), Column(0x43, 0x53, 0x95, 0x03), Column(0x14, 0xfb, 0x86, 0xe4), Column(0x01, 0x92, 0x25, 0x21))
  const C13: Block :=
    Flat(Column(0x62, 0x7b, 0xce, 0xb9), Column(0x99, 0x9d, 0x5a, 0xaa), Column(0xc9, 0x45, 0xec, 0xf4), Column(0x23, 0xf5, 0x6d, 0xa5))
  const C14: Block :=
    Flat(Column(0x8e, 0xa2, 0xb7, 0xca), Column(0x51, 0x67, 0x45, 0xbf), Column(0xea, 0xfc, 0x49, 0x90), Column(0x4b, 0x49, 0x60, 0x89))

  lemma Words256a()
    ensures Word(KEY256, 0) == Column(0x00, 0x01, 0x02, 0x03) && Word(KEY256, 1) == Column(0x04, 0x05, 0x06, 0x07)
    ensures Word(KEY256, 2) == Column(0x08, 0x09, 0x0a, 0x0b) && Word(KEY256, 3) == Column(0x0c, 0x0d, 0x0e, 0x0f)
    ensures Word(KEY256, 4) == Column(0x10, 0x11, 0x12, 0x13) && Word(KEY256, 5) == Column(0x14, 0x15, 0x16, 0x17)
    ensures Word(KEY256, 6) == Column(0x18, 0x19, 0x1a, 0x1b) && Word(KEY256, 7) == Column(0x1c, 0x1d, 0x1e, 0x1f)
  {
    hide Temp, XorWord;
  }

  lemma Words256b()
    ensures Word(KEY256, 8) == Column(0xa5, 0x73, 0xc2, 0x9f) && Word(KEY256, 9) == Column(0xa1, 0x76, 0xc4, 0x98)
    ensures Word(KEY256, 10) == Column(0xa9, 0x7f, 0xce, 0x93) && Word(KEY256, 11) == Column(0xa5, 0x72, 0xc0, 0x9c)
    ensures Word(KEY256, 12) == Column(0x16, 0x51, 0xa8, 0xcd) && Word(KEY256, 13) == Column(0x02, 0x44, 0xbe, 0xda)
    ensures Word(KEY256, 14) == Column(0x1a, 0x5d, 0xa4, 0xc1) && Word(KEY256, 15) == Column(0x06, 0x40, 0xba, 0xde)
    ensures Word(KEY256, 16) == Column(0xae, 0x87, 0xdf, 0xf0) && Word(KEY256, 17) == Column(0x0f, 0xf1, 0x1b, 0x68)
    ensures Word(KEY256, 18) == Column(0xa6, 0x8e, 0xd5, 0xfb) && Word(KEY256, 19) == Column(0x03, 0xfc, 0x15, 0x67)
    ensures Word(KEY256, 20) == Column(0x6d, 0xe1, 0xf1, 0x48) && Word(KEY256, 21) == Column(0x6f, 0xa5, 0x4f, 0x92)
    ensures Word(KEY256, 22) == Column(0x75, 0xf8, 0xeb, 0x53) && Word(KEY256, 23) == Column(0x73, 0xb8, 0x51, 0x8d)
    ensures Word(KEY256, 24) == Column(0xc6, 0x56, 0x82, 0x7f) && Word(KEY256, 25) == Column(0xc9, 0xa7, 0x99, 0x17)
    ensures Word(KEY256, 26) == Column(0x6f, 0x29, 0x4c, 0xec) && Word(KEY256, 27) == Column(0x6c, 0xd5, 0x59, 0x8b)
    ensures Word(KEY256, 28) == Column(0x3d, 0xe2, 0x3a, 0x75) && Word(KEY256, 29) == Column(0x52, 0x47, 0x75, 0xe7)
    ensures Word(KEY256, 30) == Column(0x27, 0xbf, 0x9e, 0xb4) && Word(KEY256, 31) == Column(0x54, 0x07, 0xcf, 0x39)
  {
    Words256a();
    hide Word, Rcon;
    Constants();
    NextWord(KEY256, 8, Column(0x00, 0x01, 0x02, 0x03), Column(0x1c, 0x1d, 0x1e, 0x1f));
    NextWord(KEY256, 9, Column(0x04, 0x05, 0x06, 0x07), Column(0xa5, 0x73, 0xc2, 0x9f));
    NextWord(KEY256, 10, Column(0x08, 0x09, 0x0a, 0x0b), Column(0xa1, 0x76, 0xc4, 0x98));
    NextWord(KEY256, 11, Column(0x0c, 0x0d, 0x0e, 0x0f), Column(0xa9, 0x7f, 0xce, 0x93));
    NextWord(KEY256, 12, Column(0x10, 0x11, 0x12, 0x13), Column(0xa5, 0x72, 0xc0, 0x9c));
    NextWord(KEY256, 13, Column(0x14, 0x15, 0x16, 0x17), Column(0x16, 0x51, 0xa8, 0xcd));
    NextWord(KEY256, 14, Column(0x18, 0x19, 0x1a, 0x1b), Column(0x02, 0x44, 0xbe, 0xda));
    NextWord(KEY256, 15, Column(0x1c, 0x1d, 0x1e, 0x1f), Column(0x1a, 0x5d, 0xa4, 0xc1));
    NextWord(KEY256, 16, Column(0xa5, 0x73, 0xc2, 0x9f), Column(0x06, 0x40, 0xba, 0xde));
    NextWord(KEY256, 17, Column(0xa1, 0x76, 0xc4, 0x98), Column(0xae, 0x87, 0xdf, 0xf0));
    NextWord(KEY256, 18, Column(0xa9, 0x7f, 0xce, 0x93), Column(0x0f, 0xf1, 0x1b, 0x68));
    NextWord(KEY256, 19, Column(0xa5, 0x72, 0xc0, 0x9c), Column(0xa6, 0x8e, 0xd5, 0xfb));
    NextWord(KEY256, 20, Column(0x16, 0x51, 0xa8, 0xcd), Column(0x03, 0xfc, 0x15, 0x67));
    NextWord(KEY256, 21, Column(0x02, 0x44, 0xbe, 0xda), Column(0x6d, 0xe1, 0xf1, 0x48));
    NextWord(KEY256, 22, Column(0x1a, 0x5d, 0xa4, 0xc1), Column(0x6f, 0xa5, 0x4f, 0x92));
    NextWord(KEY256, 23, Column(0x06, 0x40, 0xba, 0xde), Column(0x75, 0xf8, 0xeb, 0x53));
    NextWord(KEY256, 24, Column(0xae, 0x87, 0xdf, 0xf0), Column(0x73, 0xb8, 0x51, 0x8d));
    NextWord(KEY256, 25, Column(0x0f, 0xf1, 0x1b, 0x68), Column(0xc6, 0x56, 0x82, 0x7f));
    NextWord(KEY256, 26, Column(0xa6, 0x8e, 0xd5, 0xfb), Column(0xc9, 0xa7, 0x99, 0x17));
    NextWord(KEY256, 27, Column(0x03, 0xfc, 0x15, 0x67), Column(0x6f, 0x29, 0x4c, 0xec));
    NextWord(KEY256, 28, Column(0x6d, 0xe1, 0xf1, 0x48), Column(0x6c, 0xd5, 0x59, 0x8b));
    NextWord(KEY256, 29, Column(0x6f, 0xa5, 0x4f, 0x92), Column(0x3d, 0xe2, 0x3a, 0x75));
    NextWord(KEY256, 30, Column(0x75, 0xf8, 0xeb, 0x53), Column(0x52, 0x47, 0x75, 0xe7));
    NextWord(KEY256, 31, Column(0x73, 0xb8, 0x51, 0x8d), Column(0x27, 0xbf, 0x9e, 0xb4));
  }

  lemma Words256c()
    ensures Word(KEY256, 32) == Column(0x0b, 0xdc, 0x90, 0x5f) && Word(KEY256, 33) == Column(0xc2, 0x7b, 0x09, 0x48)
    ensures Word(KEY256, 34) == Column(0xad, 0x52, 0x45, 0xa4) && Word(KEY256, 35) == Column(0xc1, 0x87, 0x1c, 0x2f)
    ensures Word(KEY256, 36) == Column(0x45, 0xf5, 0xa6, 0x60) && Word(KEY256, 37) == Column(0x17, 0xb2, 0xd3, 0x87)
    ensures Word(KEY256, 38) == Column(0x30, 0x0d, 0x4d, 0x33) && Word(KEY256, 39) == Column(0x64, 0x0a, 0x82, 0x0a)
    ensures Word(KEY256, 40) == Column(0x7c, 0xcf, 0xf7, 0x1c) && Word(KEY256, 41) == Column(0xbe, 0xb4, 0xfe, 0x54)
    ensures Word(KEY256, 42) == Column(0x13, 0xe6, 0xbb, 0xf0) && Word(KEY256, 43) == Column(0xd2, 0x61, 0xa7, 0xdf)
    ensures Word(KEY256, 44) == Column(0xf0, 0x1a, 0xfa, 0xfe) && Word(KEY256, 45) == Column(0xe7, 0xa8, 0x29, 0x79)
    ensures Word(KEY256, 46) == Column(0xd7, 0xa5, 0x64, 0x4a) && Word(KEY256, 47) == Column(0xb3, 0xaf, 0xe6, 0x40)
    ensures Word(KEY256, 48) == Column(0x25, 0x41, 0xfe, 0x71) && Word(KEY256, 49) == Column(0x9b, 0xf5, 0x00, 0x25)
    ensures Word(KEY256, 50) == Column(0x88, 0x13, 0xbb, 0xd5) && Word(KEY256, 51) == Column(0x5a, 0x72, 0x1c, 0x0a)
    ensures Word(KEY256, 52) == Column(0x4e, 0x5a, 0x66, 0x99) && Word(KEY256, 53) == Column(0xa9, 0xf2, 0x4f, 0xe0)
    ensures Word(KEY256, 54) == Column(0x7e, 0x57, 0x2b, 0xaa) && Word(KEY256, 55) == Column(0xcd, 0xf8, 0xcd, 0xea)
  {
    Words256b();
    hide Word, Rcon;
    Constants();
    NextWord(KEY256, 32, Column(0xc6, 0x56, 0x82, 0x7f), Column(0x54, 0x07, 0xcf, 0x39));
    NextWord(KEY256, 33, Column(0xc9, 0xa7, 0x99, 0x17), Column(0x0b, 0xdc, 0x90, 0x5f));
    NextWord(KEY256, 34, Column(0x6f, 0x29, 0x4c, 0xec), Column(0xc2, 0x7b, 0x09, 0x48));
    NextWord(KEY256, 35, Column(0x6c, 0xd5, 0x59, 0x8b), Column(0xad, 0x52, 0x45, 0xa4));
    NextWord(KEY256, 36, Column(0x3d, 0xe2, 0x3a, 0x75), Column(0xc1, 0x87, 0x1c, 0x2f));
    NextWord(KEY256, 37, Column(0x52, 0x47, 0x75, 0xe7), Column(0x45, 0xf5, 0xa6, 0x60));
    NextWord(KEY256, 38, Column(0x27, 0xbf, 0x9e, 0xb4), Column(0x17, 0xb2, 0xd3, 0x87));
    NextWord(KEY256, 39, Column(0x54, 0x07, 0xcf, 0x39), Column(0x30, 0x0d, 0x4d, 0x33));
    NextWord(KEY256, 40, Column(0x0b, 0xdc, 0x90, 0x5f), Column(0x64, 0x0a, 0x82, 0x0a));
    NextWord(KEY256, 41, Column(0xc2, 0x7b, 0x09, 0x48), Column(0x7c, 0xcf, 0xf7, 0x1c));
    NextWord(KEY256, 42, Column(0xad, 0x52, 0x45, 0xa4), Column(0xbe, 0xb4, 0xfe, 0x54));
    NextWord(KEY256, 43, Column(0xc1, 0x87, 0x1c, 0x2f), Column(0x13, 0xe6, 0xbb, 0xf0));
    NextWord(KEY256, 44, Column(0x45, 0xf5, 0xa6, 0x60), Column(0xd2, 0x61, 0xa7, 0xdf));
    NextWord(KEY256, 45, Column(0x17, 0xb2, 0xd3, 0x87), Column(0xf0, 0x1a, 0xfa, 0xfe));
    NextWord(KEY256, 46, Column(0x30, 0x0d, 0x4d, 0x33), Column(0xe7, 0xa8, 0x29, 0x79));
    NextWord(KEY256, 47, Column(0x64, 0x0a, 0x82, 0x0a), Column(0xd7, 0xa5, 0x64, 0x4a));
    NextWord(KEY256, 48, Column(0x7c, 0xcf, 0xf7, 0x1c), Column(0xb3, 0xaf, 0xe6, 0x40));
    NextWord(KEY256, 49, Column(0xbe, 0xb4, 0xfe, 0x54), Column(0x25, 0x41, 0xfe, 0x71));
    NextWord(KEY256, 50, Column(0x13, 0xe6, 0xbb, 0xf0), Column(0x9b, 0xf5, 0x00, 0x25));
    NextWord(KEY256, 51, Column(0xd2, 0x61, 0xa7, 0xdf), Column(0x88, 0x13, 0xbb, 0xd5));
    NextWord(KEY256, 52, Column(0xf0, 0x1a, 0xfa, 0xfe), Column(0x5a, 0x72, 0x1c, 0x0a));
    NextWord(KEY256, 53, Column(0xe7, 0xa8, 0x29, 0x79), Column(0x4e, 0x5a, 0x66, 0x99));
    NextWord(KEY256, 54, Column(0xd7, 0xa5, 0x64, 0x4a), Column(0xa9, 0xf2, 0x4f, 0xe0));
    NextWord(KEY256, 55, Column(0xb3, 0xaf, 0xe6, 0x40), Column(0x7e, 0x57, 0x2b, 0xaa));
  }

  lemma Words256d()
    ensures Word(KEY256, 56) == Column(0x24, 0xfc, 0x79, 0xcc) && Word(KEY256, 57) == Column(0xbf, 0x09, 0x79, 0xe9)
    ensures Word(KEY256, 58) == Column(0x37, 0x1a, 0xc2, 0x3c) && Word(KEY256, 59) == Column(0x6d, 0x68, 0xde, 0x36)
  {
    Words256c();
    hide Word, Rcon;
    Constants();
    NextWord(KEY256, 56, Column(0x25, 0x41, 0xfe, 0x71), Column(0xcd, 0xf8, 0xcd, 0xea));
    NextWord(KEY256, 57, Column(0x9b, 0xf5, 0x00, 0x25), Column(0x24, 0xfc, 0x79, 0xcc));
    NextWord(KEY256, 58, Column(0x88, 0x13, 0xbb, 0xd5), Column(0xbf, 0x09, 0x79, 0xe9));
    NextWord(KEY256, 59, Column(0x5a, 0x72, 0x1c, 0x0a), Column(0x37, 0x1a, 0xc2, 0x3c));
  }

  lemma Reach256a(rk: seq<bv8>)
    requires IsExpansion(rk, KEY256) && Keys(rk, 14)
    ensures Rounds(PLAIN, rk, 14, 2) == C2
  {
    hide IsExpansion, Rounds, Word, FullRound, LastRound, FirstKey, Cipher, RoundKey, Keys, Flat;
    Words256a();
    Words256b();
    FirstOf(Column(0x00, 0x11, 0x22, 0x33), Column(0x44, 0x55, 0x66, 0x77), Column(0x88, 0x99, 0xaa, 0xbb), Column(0xcc, 0xdd, 0xee, 0xff),
            Column(0x00, 0x01, 0x02, 0x03), Column(0x04, 0x05, 0x06, 0x07), Column(0x08, 0x09, 0x0a, 0x0b), Column(0x0c, 0x0d, 0x0e, 0x0f));
    RoundOf(Column(0x00, 0x10, 0x20, 0x30), Column(0x40, 0x50, 0x60, 0x70), Column(0x80, 0x90, 0xa0, 0xb0), Column(0xc0, 0xd0, 0xe0, 0xf0),
            Column(0x10, 0x11, 0x12, 0x13), Column(0x14, 0x15, 0x16, 0x17), Column(0x18, 0x19, 0x1a, 0x1b), Column(0x1c, 0x1d, 0x1e, 0x1f));
    RoundOf(Column(0x4f, 0x63, 0x76, 0x06), Column(0x43, 0xe0, 0xaa, 0x85), Column(0xef, 0xa7, 0x21, 0x32), Column(0x01, 0xa4, 0xe7, 0x05),
            Column(0xa5, 0x73, 0xc2, 0x9f), Column(0xa1, 0x76, 0xc4, 0x98), Column(0xa9, 0x7f, 0xce, 0x93), Column(0xa5, 0x72, 0xc0, 0x9c));
    EndsAre(PLAIN, rk, KEY256, 14);
    RoundIs(PLAIN, rk, KEY256, 14, 1);
    RoundIs(PLAIN, rk, KEY256, 14, 2);
  }

  lemma Reach256b(rk: seq<bv8>)
    requires IsExpansion(rk, KEY256) && Keys(rk, 14)
    ensures Rounds(PLAIN, rk, 14, 4) == C4
  {
    hide IsExpansion, Rounds, Word, FullRound, LastRound, FirstKey, Cipher, RoundKey, Keys, Flat;
    Reach256a(rk);
    Words256b();
    RoundOf(Column(0x18, 0x59, 0xfb, 0xc2), Column(0x8a, 0x1c, 0x00, 0xa0), Column(0x78, 0xed, 0x8a, 0xad), Column(0xc4, 0x2f, 0x61, 0x09),
            Column(0x16, 0x51, 0xa8, 0xcd), Column(0x02, 0x44, 0xbe, 0xda), Column(0x1a, 0x5d, 0xa4, 0xc1), Column(0x06, 0x40, 0xba, 0xde));
    RoundOf(Column(0x97, 0x5c, 0x66, 0xc1), Column(0xcb, 0x9f, 0x3f, 0xa8), Column(0xa9, 0x3a, 0x28, 0xdf), Column(0x8e, 0xe1, 0x0f, 0x63),
            Column(0xae, 0x87, 0xdf, 0xf0), Column(0x0f, 0xf1, 0x1b, 0x68), Column(0xa6, 0x8e, 0xd5, 0xfb), Column(0x03, 0xfc, 0x15, 0x67));
    RoundIs(PLAIN, rk, KEY256, 14, 3);
    RoundIs(PLAIN, rk, KEY256, 14, 4);
  }

  lemma Reach256c(rk: seq<bv8>)
    requires IsExpansion(rk, KEY256) && Keys(rk, 14)
    ensures Rounds(PLAIN, rk, 14, 6) == C6
  {
    hide IsExpansion, Rounds, Word, FullRound, LastRound, FirstKey, Cipher, RoundKey, Keys, Flat;
    Reach256b(rk);
    Words256b();
    RoundOf(Column(0x1c, 0x05, 0xf2, 0x71), Column(0xa4, 0x17, 0xe0, 0x4f), Column(0xf9, 0x21, 0xc5, 0xc1), Column(0x04, 0x70, 0x15, 0x54),
            Column(0x6d, 0xe1, 0xf1, 0x48), Column(0x6f, 0xa5, 0x4f, 0x92), Column(0x75, 0xf8, 0xeb, 0x53), Column(0x73, 0xb8, 0x51, 0x8d));
    RoundOf(Column(0xc3, 0x57, 0xaa, 0xe1), Column(0x1b, 0x45, 0xb7, 0xb0), Column(0xa2, 0xc7, 0xbd, 0x28), Column(0xa8, 0xdc, 0x99, 0xfa),
            Column(0xc6, 0x56, 0x82, 0x7f), Column(0xc9, 0xa7, 0x99, 0x17), Column(0x6f, 0x29, 0x4c, 0xec), Column(0x6c, 0xd5, 0x59, 0x8b));
    RoundIs(PLAIN, rk, KEY256, 14, 5);
    RoundIs(PLAIN, rk, KEY256, 14, 6);
  }

  lemma Reach256d(rk: seq<bv8>)
    requires IsExpansion(rk, KEY256) && Keys(rk, 14)
    ensures Rounds(PLAIN, rk, 14, 8) == C8
  {
    hide IsExpansion, Rounds, Word, FullRound, LastRound, FirstKey, Cipher, RoundKey, Keys, Flat;
    Reach256c(rk);
    Words256b();
    Words256c();
    RoundOf(Column(0x7f, 0x07, 0x41, 0x43), Column(0xcb, 0x4e, 0x24, 0x3e), Column(0xc1, 0x0c, 0x81, 0x5d), Column(0x83, 0x75, 0xd5, 0x4c),
            Column(0x3d, 0xe2, 0x3a, 0x75), Column(0x52, 0x47, 0x75, 0xe7), Column(0x27, 0xbf, 0x9e, 0xb4), Column(0x54, 0x07, 0xcf, 0x39));
    RoundOf(Column(0xd6, 0x53, 0xa4, 0x69), Column(0x6c, 0xa0, 0xbc, 0x0f), Column(0x5a, 0xca, 0xab, 0x5d), Column(0xb9, 0x6c, 0x5e, 0x7d),
            Column(0x0b, 0xdc, 0x90, 0x5f), Column(0xc2, 0x7b, 0x09, 0x48), Column(0xad, 0x52, 0x45, 0xa4), Column(0xc1, 0x87, 0x1c, 0x2f));
    RoundIs(PLAIN, rk, KEY256, 14, 7);
    RoundIs(PLAIN, rk, KEY256, 14, 8);
  }

  lemma Reach256e(rk: seq<bv8>)
    requires IsExpansion(rk, KEY256) && Keys(rk, 14)
    ensures Rounds(PLAIN, rk, 14, 10) == C10
  {
    hide IsExpansion, Rounds, Word, FullRound, LastRound, FirstKey, Cipher, RoundKey, Keys, Flat;
    Reach256d(rk);
    Words256c();
    RoundOf(Column(0x5a, 0xa8, 0x58, 0x39), Column(0x5f, 0xd2, 0x8d, 0x7d), Column(0x05, 0xe1, 0xa3, 0x88), Column(0x68, 0xf3, 0xb9, 0xc5),
            Column(0x45, 0xf5, 0xa6, 0x60), Column(0x17, 0xb2, 0xd3, 0x87), Column(0x30, 0x0d, 0x4d, 0x33), Column(0x64, 0x0a, 0x82, 0x0a));
    RoundOf(Column(0x4a, 0x82, 0x48, 0x51), Column(0xc5, 0x7e, 0x7e, 0x47), Column(0x64, 0x3d, 0xe5, 0x0c), Column(0x2a, 0xf3, 0xe8, 0xc9),
            Column(0x7c, 0xcf, 0xf7, 0x1c), Column(0xbe, 0xb4, 0xfe, 0x54), Column(0x13, 0xe6, 0xbb, 0xf0), Column(0xd2, 0x61, 0xa7, 0xdf));
    RoundIs(PLAIN, rk, KEY256, 14, 9);
    RoundIs(PLAIN, rk, KEY256, 14, 10);
  }

  lemma Reach256f(rk: seq<bv8>)
    requires IsExpansion(rk, KEY256) && Keys(rk, 14)
    ensures Rounds(PLAIN, rk, 14, 12) == C12
  {
    hide IsExpansion, Rounds, Word, FullRound, LastRound, FirstKey, Cipher, RoundKey, Keys, Flat;
    Reach256e(rk);
    Words256c();
    RoundOf(Column(0xc1, 0x49, 0x07, 0xf6), Column(0xca, 0x3b, 0x3a, 0xa0), Column(0x70, 0xe9, 0xaa, 0x31), Column(0x3b, 0x52, 0xb5, 0xec),
            Column(0xf0, 0x1a, 0xfa, 0xfe), Column(0xe7, 0xa8, 0x29, 0x79), Column(0xd7, 0xa5, 0x64, 0x4a), Column(0xb3, 0xaf, 0xe6, 0x40));
    RoundOf(Column(0x5f, 0x9c, 0x6a, 0xbf), Column(0xba, 0xc6, 0x34, 0xaa), Column(0x50, 0x40, 0x9f, 0xa7), Column(0x66, 0x67, 0x76, 0x53),
            Column(0x25, 0x41, 0xfe, 0x71), Column(0x9b, 0xf5, 0x00, 0x25), Column(0x88, 0x13, 0xbb, 0xd5), Column(0x5a, 0x72, 0x1c, 0x0a));
    RoundIs(PLAIN, rk, KEY256, 14, 11);
    RoundIs(PLAIN, rk, KEY256, 14, 12);
  }

  lemma Reach256g(rk: seq<bv8>)
    requires IsExpansion(rk, KEY256) && Keys(rk, 14)
    ensures Cipher(PLAIN, rk, 14) == C14
  {
    hide IsExpansion, Rounds, Word, FullRound, LastRound, FirstKey, Cipher, RoundKey, Keys, Flat;
    Reach256f(rk);
    Words256c();
    Words256d();
    RoundOf(Column(0x51, 0x66, 0x04, 0x95), Column(0x43, 0x53, 0x95, 0x03), Column(0x14, 0xfb, 0x86, 0xe4), Column(0x01, 0x92, 0x25, 0x21),
            Column(0x4e, 0x5a, 0x66, 0x99), Column(0xa9, 0xf2, 0x4f, 0xe0), Column(0x7e, 0x57, 0x2b, 0xaa), Column(0xcd, 0xf8, 0xcd, 0xea));
    RoundOf(Column(0x62, 0x7b, 0xce, 0xb9), Column(0x99, 0x9d, 0x5a, 0xaa), Column(0xc9, 0x45, 0xec, 0xf4), Column(0x23, 0xf5, 0x6d, 0xa5),
            Column(0x24, 0xfc, 0x79, 0xcc), Column(0xbf, 0x09, 0x79, 0xe9), Column(0x37, 0x1a, 0xc2, 0x3c), Column(0x6d, 0x68, 0xde, 0x36));
    EndsAre(PLAIN, rk, KEY256, 14);
    RoundIs(PLAIN, rk, KEY256, 14, 13);
  }

  /** Appendix C of FIPS 197, 256-bit key. */
  lemma Fips256(rk: seq<bv8>)
    requires IsExpansion(rk, KEY256) && Keys(rk, 14)
    ensures Cipher(PLAIN, rk, 14) ==
              [0x8e, 0xa2, 0xb7, 0xca, 0x51, 0x67, 0x45, 0xbf, 0xea, 0xfc, 0x49, 0x90, 0x4b, 0x49, 0x60, 0x89]
  {
    hide IsExpansion, Cipher;
    Reach256g(rk);
  }
}
