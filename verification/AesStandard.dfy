/**
 The cipher and its chaining by position, as the standards state them: which byte goes where, which word of the expanded key
 is added when, and which block is chained into which.
 */
module AesStandard {
  import opened AesTables
  import opened XorBytes
  import opened AesField
  import opened AesRound
  import opened AesCipher
  import opened AesCbc

  /** A block from its four columns. */
  function Flat(a: Column, b: Column, c: Column, d: Column): Block {
    [a.a0, a.a1, a.a2, a.a3, b.a0, b.a1, b.a2, b.a3, c.a0, c.a1, c.a2, c.a3, d.a0, d.a1, d.a2, d.a3]
  }

  /** Column `c` after substitution and row shift: row `i` of it comes from column `c + i` modulo 4. */
  function Shifted(t: Block, c: nat): Column
    requires c < 4
  {
    Column(Sbox(t[4 * c]), Sbox(t[4 * ((c + 1) % 4) + 1]), Sbox(t[4 * ((c + 2) % 4) + 2]), Sbox(t[4 * ((c + 3) % 4) + 3]))
  }

  /** A full round of section 5.1 of FIPS 197 with these four words of the key schedule. */
  function FullRound(t: Block, k0: Column, k1: Column, k2: Column, k3: Column): Block {
    Flat(XorWord(Mix(Shifted(t, 0)), k0), XorWord(Mix(Shifted(t, 1)), k1),
         XorWord(Mix(Shifted(t, 2)), k2), XorWord(Mix(Shifted(t, 3)), k3))
  }

  /** The last round, which has no mix. */
  function LastRound(t: Block, k0: Column, k1: Column, k2: Column, k3: Column): Block {
    Flat(XorWord(Shifted(t, 0), k0), XorWord(Shifted(t, 1), k1), XorWord(Shifted(t, 2), k2), XorWord(Shifted(t, 3), k3))
  }

  /** The key added before the first round. */
  function FirstKey(s: Block, k0: Column, k1: Column, k2: Column, k3: Column): Block {
    Flat(XorWord(ColumnOf(s, 0), k0), XorWord(ColumnOf(s, 1), k1), XorWord(ColumnOf(s, 2), k2), XorWord(ColumnOf(s, 3), k3))
  }

  /** Word `i` of the key schedule. */
  function Word(key: seq<bv8>, i: nat): Column {
    if |key| % 4 == 0 && |key| > 0 then Schedule(key, |key| / 4, i) else Column(0, 0, 0, 0)
  }

  /** The states of section 5.1 of FIPS 197 one by one: `nr` rounds, round `r` with words `4 r` to `4 r + 3`. */
  ghost predicate IsTrace(s: Block, key: seq<bv8>, nr: nat, st: seq<Block>) {
    && nr > 0 && |st| == nr + 1
    && st[0] == FirstKey(s, Word(key, 0), Word(key, 1), Word(key, 2), Word(key, 3))
    && (forall r :: 0 < r < nr ==>
          st[r] == FullRound(st[r - 1], Word(key, 4 * r), Word(key, 4 * r + 1), Word(key, 4 * r + 2), Word(key, 4 * r + 3)))
    && st[nr] == LastRound(st[nr - 1], Word(key, 4 * nr), Word(key, 4 * nr + 1), Word(key, 4 * nr + 2), Word(key, 4 * nr + 3))
  }

  // ---------------------------------------------------------------- the code's rounds are these

  /** The key bytes added in round `r` are those of four consecutive words. */
  lemma KeyWords(rk: seq<bv8>, key: seq<bv8>, nr: nat, r: nat)
    requires IsExpansion(rk, key) && Keys(rk, nr) && r <= nr
    ensures RoundKey(rk, nr, r) == Flat(Word(key, 4 * r), Word(key, 4 * r + 1), Word(key, 4 * r + 2), Word(key, 4 * r + 3))
  {
    hide Schedule;
    var k := RoundKey(rk, nr, r);
    assert WordAt(rk, 4 * r) == Word(key, 4 * r) && WordAt(rk, 4 * r + 1) == Word(key, 4 * r + 1);
    assert WordAt(rk, 4 * r + 2) == Word(key, 4 * r + 2) && WordAt(rk, 4 * r + 3) == Word(key, 4 * r + 3);
  }

  lemma AddedColumn(s: Block, k: Block, c: nat)
    requires c < 4
    ensures ColumnOf(AddKey(s, k), c) == XorWord(ColumnOf(s, c), ColumnOf(k, c))
  {
    hide Xor;
  }

  lemma AddsWords(t: Block, k0: Column, k1: Column, k2: Column, k3: Column)
    ensures AddKey(t, Flat(k0, k1, k2, k3)) == FirstKey(t, k0, k1, k2, k3)
  {
    hide Xor, XorWord, AddKey, Flat, ColumnOf;
    var k := Flat(k0, k1, k2, k3);
    Columns(k0, k1, k2, k3);
    AddedColumn(t, k, 0);
    AddedColumn(t, k, 1);
    AddedColumn(t, k, 2);
    AddedColumn(t, k, 3);
    FlatColumns(AddKey(t, k));
  }

  lemma ShiftedBytes(t: Block)
    ensures ShiftRows(SubBytes(t)) == Flat(Shifted(t, 0), Shifted(t, 1), Shifted(t, 2), Shifted(t, 3))
  {
    hide Sbox;
  }

  /** A block is its columns. */
  lemma FlatColumns(s: Block)
    ensures s == Flat(ColumnOf(s, 0), ColumnOf(s, 1), ColumnOf(s, 2), ColumnOf(s, 3))
  {
  }

  lemma MixedWords(a: Column, b: Column, c: Column, d: Column)
    ensures MixColumns(Flat(a, b, c, d)) == Flat(Mix(a), Mix(b), Mix(c), Mix(d))
  {
    hide Mix, MixColumns, Flat, ColumnOf;
    var f := Flat(a, b, c, d);
    Columns(a, b, c, d);
    MixedColumn(f, 0);
    MixedColumn(f, 1);
    MixedColumn(f, 2);
    MixedColumn(f, 3);
    FlatColumns(MixColumns(f));
  }

  lemma Columns(a: Column, b: Column, c: Column, d: Column)
    ensures var f := Flat(a, b, c, d); ColumnOf(f, 0) == a && ColumnOf(f, 1) == b && ColumnOf(f, 2) == c && ColumnOf(f, 3) == d
  {
  }

  lemma RoundIs(s: Block, rk: seq<bv8>, key: seq<bv8>, nr: nat, r: nat)
    requires IsExpansion(rk, key) && Keys(rk, nr) && 0 < r < nr
    ensures Rounds(s, rk, nr, r) ==
              FullRound(Rounds(s, rk, nr, r - 1), Word(key, 4 * r), Word(key, 4 * r + 1), Word(key, 4 * r + 2), Word(key, 4 * r + 3))
  {
    hide IsExpansion, RoundKey, AddKey, MixColumns, ShiftRows, SubBytes, Word, Flat, Shifted, Mix, XorWord, ColumnOf;
    var t := Rounds(s, rk, nr, r - 1);
    KeyWords(rk, key, nr, r);
    ShiftedBytes(t);
    MixedWords(Shifted(t, 0), Shifted(t, 1), Shifted(t, 2), Shifted(t, 3));
    AddsWords(Flat(Mix(Shifted(t, 0)), Mix(Shifted(t, 1)), Mix(Shifted(t, 2)), Mix(Shifted(t, 3))),
              Word(key, 4 * r), Word(key, 4 * r + 1), Word(key, 4 * r + 2), Word(key, 4 * r + 3));
    Columns(Mix(Shifted(t, 0)), Mix(Shifted(t, 1)), Mix(Shifted(t, 2)), Mix(Shifted(t, 3)));
  }

  lemma EndsAre(s: Block, rk: seq<bv8>, key: seq<bv8>, nr: nat)
    requires IsExpansion(rk, key) && Keys(rk, nr)
    ensures Rounds(s, rk, nr, 0) == FirstKey(s, Word(key, 0), Word(key, 1), Word(key, 2), Word(key, 3))
    ensures Cipher(s, rk, nr) ==
              LastRound(Rounds(s, rk, nr, nr - 1), Word(key, 4 * nr), Word(key, 4 * nr + 1), Word(key, 4 * nr + 2), Word(key, 4 * nr + 3))
  {
    hide IsExpansion, RoundKey, AddKey, ShiftRows, SubBytes, MixColumns, Word, Flat, Shifted, XorWord, ColumnOf;
    KeyWords(rk, key, nr, 0);
    AddsWords(s, Word(key, 0), Word(key, 1), Word(key, 2), Word(key, 3));
    var t := Rounds(s, rk, nr, nr - 1);
    KeyWords(rk, key, nr, nr);
    ShiftedBytes(t);
    AddsWords(Flat(Shifted(t, 0), Shifted(t, 1), Shifted(t, 2), Shifted(t, 3)),
              Word(key, 4 * nr), Word(key, 4 * nr + 1), Word(key, 4 * nr + 2), Word(key, 4 * nr + 3));
    Columns(Shifted(t, 0), Shifted(t, 1), Shifted(t, 2), Shifted(t, 3));
  }

  lemma {:induction false} TraceRounds(s: Block, rk: seq<bv8>, key: seq<bv8>, nr: nat, st: seq<Block>, r: nat)
    requires IsExpansion(rk, key) && Keys(rk, nr) && IsTrace(s, key, nr, st) && r < nr
    ensures st[r] == Rounds(s, rk, nr, r)
  {
    hide IsExpansion, Rounds, Word, FullRound, FirstKey, LastRound;
    if r == 0 {
      EndsAre(s, rk, key, nr);
    } else {
      TraceRounds(s, rk, key, nr, st, r - 1);
      RoundIs(s, rk, key, nr, r);
    }
  }

  /** Under the expansion of a key the code's cipher is the standard's, state by state. */
  lemma CipherIsStandard(s: Block, rk: seq<bv8>, key: seq<bv8>, nr: nat, st: seq<Block>)
    requires IsExpansion(rk, key) && Keys(rk, nr) && IsTrace(s, key, nr, st)
    ensures Cipher(s, rk, nr) == st[nr]
  {
    hide IsExpansion, Rounds, Word, FullRound, FirstKey, LastRound, Cipher;
    TraceRounds(s, rk, key, nr, st, nr - 1);
    EndsAre(s, rk, key, nr);
  }

  // ---------------------------------------------------------------- chaining by position

  /** Block `j` of a text. */
  function BlockAt(p: seq<bv8>, j: nat): Block
    requires 16 * j + 16 <= |p|
  {
    p[16 * j..16 * j + 16]
  }

  /**
   Section 6.2 of NIST SP 800-38A: each ciphertext block is the cipher of the plaintext block combined with the ciphertext
   block before it, and with the initialisation vector for the first.
   */
  lemma {:induction false} CbcByBlock(p: seq<bv8>, iv: Block, rk: seq<bv8>, nr: nat, j: nat)
    requires Keys(rk, nr) && |p| % 16 == 0 && 16 * j + 16 <= |p|
    ensures var c := CbcEncrypt(p, iv, rk, nr);
      BlockAt(c, j) == Cipher(AddKey(BlockAt(p, j), if j == 0 then iv else BlockAt(c, j - 1)), rk, nr)
    decreases |p|
  {
    hide Cipher, AddKey, Keys;
    var k := |p| - 16;
    var q := CbcEncrypt(p[..k], iv, rk, nr);
    var c := CbcEncrypt(p, iv, rk, nr);
    assert c[..k] == q;
    if 16 * j == k {
      assert p[k..] == BlockAt(p, j) && c[k..] == BlockAt(c, j);
      if j > 0 { assert Last(q, iv) == BlockAt(c, j - 1); }
    } else {
      CbcByBlock(p[..k], iv, rk, nr, j);
      assert BlockAt(q, j) == BlockAt(c, j) && BlockAt(p[..k], j) == BlockAt(p, j);
      if j > 0 { assert BlockAt(q, j - 1) == BlockAt(c, j - 1); }
    }
  }
}
