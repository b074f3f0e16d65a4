/** AES blocks, key expansion and CBC of `src/encryption/aes.cpp`, in place on byte arrays. */
module AesCipher {
  import opened AesTables
  import opened XorBytes
  import opened AesField
  import opened AesRound

  // ---------------------------------------------------------------- specification

  /** Round keys for `nr` rounds. */
  predicate Keys(rk: seq<bv8>, nr: nat) {
    nr > 0 && |rk| == 16 * (nr + 1)
  }

  function RoundKey(rk: seq<bv8>, nr: nat, r: nat): Block
    requires Keys(rk, nr) && r <= nr
  {
    rk[16 * r..16 * r + 16]
  }

  /** The state after `r` full rounds. */
  function Rounds(s: Block, rk: seq<bv8>, nr: nat, r: nat): Block
    requires Keys(rk, nr) && r < nr
  {
    if r == 0 then AddKey(s, RoundKey(rk, nr, 0))
    else AddKey(MixColumns(ShiftRows(SubBytes(Rounds(s, rk, nr, r - 1)))), RoundKey(rk, nr, r))
  }

  function Cipher(s: Block, rk: seq<bv8>, nr: nat): Block
    requires Keys(rk, nr)
  {
    AddKey(ShiftRows(SubBytes(Rounds(s, rk, nr, nr - 1))), RoundKey(rk, nr, nr))
  }

  /** The state before inverse round `r`: rounds `nr - 1` down to `r + 1` undone. */
  function InvRounds(s: Block, rk: seq<bv8>, nr: nat, r: nat): Block
    requires Keys(rk, nr) && r < nr
    decreases nr - r
  {
    if r == nr - 1 then AddKey(s, RoundKey(rk, nr, nr))
    else InvMixColumns(AddKey(InvSubBytes(InvShiftRows(InvRounds(s, rk, nr, r + 1))), RoundKey(rk, nr, r + 1)))
  }

  function InvCipher(s: Block, rk: seq<bv8>, nr: nat): Block
    requires Keys(rk, nr)
  {
    AddKey(InvSubBytes(InvShiftRows(InvRounds(s, rk, nr, 0))), RoundKey(rk, nr, 0))
  }

  /** Each inverse round meets the state its round started from. */
  lemma {:induction false} RoundsMeet(s: Block, rk: seq<bv8>, nr: nat, r: nat)
    requires Keys(rk, nr) && r < nr
    ensures InvRounds(Cipher(s, rk, nr), rk, nr, r) == ShiftRows(SubBytes(Rounds(s, rk, nr, r)))
    decreases nr - r
  {
    hide AddKey, MixColumns, InvMixColumns, ShiftRows, InvShiftRows, SubBytes, InvSubBytes, RoundKey, Keys;
    if r == nr - 1 {
      KeyInverse(ShiftRows(SubBytes(Rounds(s, rk, nr, nr - 1))), RoundKey(rk, nr, nr));
    } else {
      RoundsMeet(s, rk, nr, r + 1);
      var t := Rounds(s, rk, nr, r + 1);
      ShiftInverse(SubBytes(t));
      SubInverse(t);
      var u := ShiftRows(SubBytes(Rounds(s, rk, nr, r)));
      KeyInverse(MixColumns(u), RoundKey(rk, nr, r + 1));
      MixColumnsInverse(u);
    }
  }

  /** Block decryption undoes block encryption, for any round keys. */
  lemma CipherInverse(s: Block, rk: seq<bv8>, nr: nat)
    requires Keys(rk, nr)
    ensures InvCipher(Cipher(s, rk, nr), rk, nr) == s
  {
    hide AddKey, MixColumns, InvMixColumns, ShiftRows, InvShiftRows, SubBytes, InvSubBytes, RoundKey, Cipher;
    RoundsMeet(s, rk, nr, 0);
    var t := Rounds(s, rk, nr, 0);
    ShiftInverse(SubBytes(t));
    SubInverse(t);
    KeyInverse(s, RoundKey(rk, nr, 0));
  }

  // ---------------------------------------------------------------- cipher block chaining

  /** The block chained into the next one. */
  function Last(c: seq<bv8>, iv: Block): Block {
    if |c| < 16 then iv else c[|c| - 16..]
  }

  /** Section 6.2 of NIST SP 800-38A. */
  function CbcEncrypt(p: seq<bv8>, iv: Block, rk: seq<bv8>, nr: nat): (c: seq<bv8>)
    requires Keys(rk, nr) && |p| % 16 == 0
    ensures |c| == |p|
  {
    if p == [] then []
    else
      var k := |p| - 16;
      var q := CbcEncrypt(p[..k], iv, rk, nr);
      q + Cipher(AddKey(p[k..], Last(q, iv)), rk, nr)
  }

  function CbcDecrypt(c: seq<bv8>, iv: Block, rk: seq<bv8>, nr: nat): (p: seq<bv8>)
    requires Keys(rk, nr) && |c| % 16 == 0
    ensures |p| == |c|
  {
    if c == [] then []
    else
      var k := |c| - 16;
      CbcDecrypt(c[..k], iv, rk, nr) + AddKey(InvCipher(c[k..], rk, nr), Last(c[..k], iv))
  }

  /** CBC decryption undoes CBC encryption for every IV and every length that is a multiple of 16. */
  lemma {:induction false} CbcInverse(p: seq<bv8>, iv: Block, rk: seq<bv8>, nr: nat)
    requires Keys(rk, nr) && |p| % 16 == 0
    ensures CbcDecrypt(CbcEncrypt(p, iv, rk, nr), iv, rk, nr) == p
    decreases |p|
  {
    hide Cipher, InvCipher, AddKey, Keys;
    if p != [] {
      var k := |p| - 16;
      CbcInverse(p[..k], iv, rk, nr);
      var q := CbcEncrypt(p[..k], iv, rk, nr);
      var c := Cipher(AddKey(p[k..], Last(q, iv)), rk, nr);
      assert (q + c)[..k] == q && (q + c)[k..] == c;
      CipherInverse(AddKey(p[k..], Last(q, iv)), rk, nr);
      KeyInverse(p[k..], Last(q, iv));
      assert p == p[..k] + p[k..];
    }
  }

  // ---------------------------------------------------------------- the state in place

  method SubBytesIn(s: array<bv8>)
    requires s.Length == 16
    modifies s
    ensures s[..] == SubBytes(old(s[..]))
  {
    hide Sbox;
    for i := 0 to 16
      invariant forall k :: 0 <= k < i ==> s[k] == Sbox(old(s[k]))
      invariant forall k :: i <= k < 16 ==> s[k] == old(s[k])
    {
      s[i] := Sbox(s[i]);
    }
  }

  method InvSubBytesIn(s: array<bv8>)
    requires s.Length == 16
    modifies s
    ensures s[..] == InvSubBytes(old(s[..]))
  {
    hide InvSbox;
    for i := 0 to 16
      invariant forall k :: 0 <= k < i ==> s[k] == InvSbox(old(s[k]))
      invariant forall k :: i <= k < 16 ==> s[k] == old(s[k])
    {
      s[i] := InvSbox(s[i]);
    }
  }

  /** `add_round_key` and `xor_block`. */
  method AddKeyIn(s: array<bv8>, k: Block)
    requires s.Length == 16
    modifies s
    ensures s[..] == AddKey(old(s[..]), k)
  {
    hide Xor;
    for i := 0 to 16
      invariant forall j :: 0 <= j < i ==> s[j] == Xor(old(s[j]), k[j])
      invariant forall j :: i <= j < 16 ==> s[j] == old(s[j])
    {
      s[i] := Xor(s[i], k[i]);
    }
  }

  /** Four bytes each take the place of the one before. */
  method Rotate(s: array<bv8>, a: nat, b: nat, c: nat, d: nat)
    requires s.Length == 16 && a < 16 && b < 16 && c < 16 && d < 16
    requires a != b && a != c && a != d && b != c && b != d && c != d
    modifies s
    ensures s[..] == old(s[..])[a := old(s[b])][b := old(s[c])][c := old(s[d])][d := old(s[a])]
  {
    var t := s[a];
    s[a] := s[b];
    s[b] := s[c];
    s[c] := s[d];
    s[d] := t;
  }

  method Swap(s: array<bv8>, a: nat, b: nat)
    requires s.Length == 16 && a < 16 && b < 16 && a != b
    modifies s
    ensures s[..] == old(s[..])[a := old(s[b])][b := old(s[a])]
  {
    var t := s[a];
    s[a] := s[b];
    s[b] := t;
  }

  method ShiftRowsIn(s: array<bv8>)
    requires s.Length == 16
    modifies s
    ensures s[..] == ShiftRows(old(s[..]))
  {
    Rotate(s, 1, 5, 9, 13);
    Swap(s, 2, 10);
    Swap(s, 6, 14);
    Rotate(s, 15, 11, 7, 3);
  }

  method InvShiftRowsIn(s: array<bv8>)
    requires s.Length == 16
    modifies s
    ensures s[..] == InvShiftRows(old(s[..]))
  {
    Rotate(s, 13, 9, 5, 1);
    Swap(s, 2, 10);
    Swap(s, 6, 14);
    Rotate(s, 3, 7, 11, 15);
  }

  /** Columns before `c` are done, the others untouched. */
  ghost predicate Done(s: seq<bv8>, from: Block, to: Block, c: nat) {
    |s| == 16 && forall k :: 0 <= k < 16 ==> s[k] == if k < 4 * c then to[k] else from[k]
  }

  lemma DoneNext(s: seq<bv8>, s': seq<bv8>, from: Block, to: Block, c: nat)
    requires c < 4 && Done(s, from, to, c)
    requires s' == s[4 * c := to[4 * c]][4 * c + 1 := to[4 * c + 1]][4 * c + 2 := to[4 * c + 2]][4 * c + 3 := to[4 * c + 3]]
    ensures Done(s', from, to, c + 1)
  {
  }

  lemma DoneAll(s: seq<bv8>, from: Block, to: Block)
    requires Done(s, from, to, 4)
    ensures s == to
  {
  }

  lemma DoneColumn(s: seq<bv8>, from: Block, to: Block, c: nat)
    requires c < 4 && Done(s, from, to, c)
    ensures ColumnOf(from, c) == Column(s[4 * c], s[4 * c + 1], s[4 * c + 2], s[4 * c + 3])
  {
  }

  lemma ColumnBytes(s: Block, m: Column, c: nat)
    requires c < 4 && ColumnOf(s, c) == m
    ensures s[4 * c] == m.a0 && s[4 * c + 1] == m.a1 && s[4 * c + 2] == m.a2 && s[4 * c + 3] == m.a3
  {
  }

  /** The bytes of a mixed column with its sum computed once, as the code has it. */
  method MixColumn(a0: bv8, a1: bv8, a2: bv8, a3: bv8) returns (b0: bv8, b1: bv8, b2: bv8, b3: bv8)
    ensures Column(b0, b1, b2, b3) == Mix(Column(a0, a1, a2, a3))
  {
    hide Quad, Triple, Xtime, Xor;
    var t := Quad(a0, a1, a2, a3);
    QuadTurns(a0, a1, a2, a3);
    QuadTurns(a1, a2, a3, a0);
    QuadTurns(a2, a3, a0, a1);
    b0 := Triple(a0, t, Xtime(Xor(a0, a1)));
    b1 := Triple(a1, t, Xtime(Xor(a1, a2)));
    b2 := Triple(a2, t, Xtime(Xor(a2, a3)));
    b3 := Triple(a3, t, Xtime(Xor(a3, a0)));
  }

  method InvMixColumn(a0: bv8, a1: bv8, a2: bv8, a3: bv8) returns (b0: bv8, b1: bv8, b2: bv8, b3: bv8)
    ensures Column(b0, b1, b2, b3) == InvMix(Column(a0, a1, a2, a3))
  {
    hide Quad, Gf;
    b0 := Weigh(a0, 0x0e, a1, 0x0b, a2, 0x0d, a3, 0x09);
    b1 := Weigh(a0, 0x09, a1, 0x0e, a2, 0x0b, a3, 0x0d);
    b2 := Weigh(a0, 0x0d, a1, 0x09, a2, 0x0e, a3, 0x0b);
    b3 := Weigh(a0, 0x0b, a1, 0x0d, a2, 0x09, a3, 0x0e);
  }

  method Weigh(a0: bv8, k0: bv8, a1: bv8, k1: bv8, a2: bv8, k2: bv8, a3: bv8, k3: bv8) returns (b: bv8)
    ensures b == Quad(Gf(a0, k0, 8), Gf(a1, k1, 8), Gf(a2, k2, 8), Gf(a3, k3, 8))
  {
    hide Quad, Gf;
    var p := GfMul(a0, k0);
    var q := GfMul(a1, k1);
    var r := GfMul(a2, k2);
    var s := GfMul(a3, k3);
    b := Quad(p, q, r, s);
  }

  method MixColumnsIn(s: array<bv8>)
    requires s.Length == 16
    modifies s
    ensures s[..] == MixColumns(old(s[..]))
  {
    hide Mix, MixColumns, Done;
    ghost var from: Block := s[..];
    DoneNone(from, MixColumns(from));
    for c := 0 to 4
      invariant Done(s[..], from, MixColumns(from), c)
    {
      ghost var before := s[..];
      var i := 4 * c;
      DoneColumn(before, from, MixColumns(from), c);
      var b0, b1, b2, b3 := MixColumn(s[i], s[i + 1], s[i + 2], s[i + 3]);
      s[i], s[i + 1], s[i + 2], s[i + 3] := b0, b1, b2, b3;
      MixedColumn(from, c);
      ColumnBytes(MixColumns(from), Column(b0, b1, b2, b3), c);
      DoneNext(before, s[..], from, MixColumns(from), c);
    }
    DoneAll(s[..], from, MixColumns(from));
  }

  lemma DoneNone(from: Block, to: Block)
    ensures Done(from, from, to, 0)
  {
  }

  lemma InvMixedColumn(s: Block, c: nat)
    requires c < 4
    ensures ColumnOf(InvMixColumns(s), c) == InvMix(ColumnOf(s, c))
  {
    hide InvMix, ColumnOf;
    Quarters(c);
    ColumnIs(InvMixColumns(s), c);
  }

  method InvMixColumnsIn(s: array<bv8>)
    requires s.Length == 16
    modifies s
    ensures s[..] == InvMixColumns(old(s[..]))
  {
    hide InvMix, InvMixColumns, Done;
    ghost var from: Block := s[..];
    DoneNone(from, InvMixColumns(from));
    for c := 0 to 4
      invariant Done(s[..], from, InvMixColumns(from), c)
    {
      ghost var before := s[..];
      var i := 4 * c;
      DoneColumn(before, from, InvMixColumns(from), c);
      var b0, b1, b2, b3 := InvMixColumn(s[i], s[i + 1], s[i + 2], s[i + 3]);
      s[i], s[i + 1], s[i + 2], s[i + 3] := b0, b1, b2, b3;
      InvMixedColumn(from, c);
      ColumnBytes(InvMixColumns(from), Column(b0, b1, b2, b3), c);
      DoneNext(before, s[..], from, InvMixColumns(from), c);
    }
    DoneAll(s[..], from, InvMixColumns(from));
  }

  // ---------------------------------------------------------------- blocks of a buffer

  /** `buf` with the block at `i` replaced. */
  function Spliced(buf: seq<bv8>, i: nat, b: Block): seq<bv8>
    requires i + 16 <= |buf|
  {
    buf[..i] + b + buf[i + 16..]
  }

  method LoadBlock(buf: array<bv8>, i: nat) returns (s: array<bv8>)
    requires i + 16 <= buf.Length
    ensures fresh(s) && s.Length == 16 && s[..] == buf[i..i + 16]
  {
    s := new bv8[16];
    for k := 0 to 16
      invariant forall j :: 0 <= j < k ==> s[j] == buf[i + j]
    {
      s[k] := buf[i + k];
    }
  }

  method StoreBlock(buf: array<bv8>, i: nat, s: array<bv8>)
    requires i + 16 <= buf.Length && s.Length == 16 && s != buf
    modifies buf
    ensures buf[..] == Spliced(old(buf[..]), i, s[..])
  {
    for k := 0 to 16
      invariant forall j :: 0 <= j < buf.Length ==> buf[j] == if i <= j < i + k then s[j - i] else old(buf[j])
      invariant s[..] == old(s[..])
    {
      buf[i + k] := s[k];
    }
  }

  /** `encrypt_block`. */
  method EncryptBlock(buf: array<bv8>, i: nat, rk: seq<bv8>, nr: nat)
    requires i + 16 <= buf.Length && Keys(rk, nr)
    modifies buf
    ensures buf[..] == Spliced(old(buf[..]), i, Cipher(old(buf[i..i + 16]), rk, nr))
  {
    hide AddKey, MixColumns, ShiftRows, SubBytes, RoundKey;
    ghost var b: Block := buf[i..i + 16];
    var s := LoadBlock(buf, i);
    AddKeyIn(s, RoundKey(rk, nr, 0));
    for r := 1 to nr
      invariant s[..] == Rounds(b, rk, nr, r - 1) && buf[..] == old(buf[..])
    {
      SubBytesIn(s);
      ShiftRowsIn(s);
      MixColumnsIn(s);
      AddKeyIn(s, RoundKey(rk, nr, r));
    }
    SubBytesIn(s);
    ShiftRowsIn(s);
    AddKeyIn(s, RoundKey(rk, nr, nr));
    StoreBlock(buf, i, s);
  }

  /** `decrypt_block`. */
  method DecryptBlock(buf: array<bv8>, i: nat, rk: seq<bv8>, nr: nat)
    requires i + 16 <= buf.Length && Keys(rk, nr)
    modifies buf
    ensures buf[..] == Spliced(old(buf[..]), i, InvCipher(old(buf[i..i + 16]), rk, nr))
  {
    hide AddKey, InvMixColumns, InvShiftRows, InvSubBytes, RoundKey;
    ghost var b: Block := buf[i..i + 16];
    var s := LoadBlock(buf, i);
    AddKeyIn(s, RoundKey(rk, nr, nr));
    var round := nr;
    while round > 1
      invariant 1 <= round <= nr && s[..] == InvRounds(b, rk, nr, round - 1) && buf[..] == old(buf[..])
    {
      round := round - 1;
      InvShiftRowsIn(s);
      InvSubBytesIn(s);
      AddKeyIn(s, RoundKey(rk, nr, round));
      InvMixColumnsIn(s);
    }
    InvShiftRowsIn(s);
    InvSubBytesIn(s);
    AddKeyIn(s, RoundKey(rk, nr, 0));
    StoreBlock(buf, i, s);
  }
}
