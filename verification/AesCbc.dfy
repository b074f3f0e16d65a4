/** Key expansion and the CBC interface of `src/encryption/aes.cpp`. */
module AesCbc {
  import opened AesTables
  import opened XorBytes
  import opened AesField
  import opened AesRound
  import opened AesCipher

  // ---------------------------------------------------------------- key expansion

  /** Round constant: x^(i-1). */
  function Rcon(i: nat): bv8 {
    if i == 0 then 0 else if i == 1 then 1 else Xtime(Rcon(i - 1))
  }

  method RconOf(i: nat) returns (c: bv8)
    ensures c == Rcon(i)
  {
    hide Xtime;
    c := 1;
    if i == 0 {
      return 0;
    }
    var k := i;
    ghost var d := 1;
    while k > 1
      invariant 1 <= k <= i && d == i - k + 1 && c == Rcon(d)
    {
      c := Xtime(c);
      k := k - 1;
      d := d + 1;
    }
  }

  function SubWord(w: Column): Column {
    Column(Sbox(w.a0), Sbox(w.a1), Sbox(w.a2), Sbox(w.a3))
  }

  function RotWord(w: Column): Column {
    Column(w.a1, w.a2, w.a3, w.a0)
  }

  function XorWord(v: Column, w: Column): Column {
    Column(Xor(v.a0, w.a0), Xor(v.a1, w.a1), Xor(v.a2, w.a2), Xor(v.a3, w.a3))
  }

  /** What word `i` adds to the word `nk` places before it. */
  function Temp(w: Column, nk: nat, i: nat): Column
    requires nk > 0
  {
    if i % nk == 0 then var t := SubWord(RotWord(w)); t.(a0 := Xor(t.a0, Rcon(i / nk)))
    else if nk > 6 && i % nk == 4 then SubWord(w)
    else w
  }

  function WordAt(s: seq<bv8>, i: nat): Column
    requires 4 * i + 4 <= |s|
  {
    Column(s[4 * i], s[4 * i + 1], s[4 * i + 2], s[4 * i + 3])
  }

  /** Word `i` of the key schedule (section 5.2 of FIPS 197). */
  function Schedule(key: seq<bv8>, nk: nat, i: nat): Column
    requires nk > 0 && |key| == 4 * nk
  {
    if i < nk then WordAt(key, i)
    else XorWord(Schedule(key, nk, i - nk), Temp(Schedule(key, nk, i - 1), nk, i))
  }

  /** The words before `i` are the schedule's. */
  ghost predicate Expanded(rk: seq<bv8>, key: seq<bv8>, nk: nat, i: nat) {
    nk > 0 && |key| == 4 * nk && 4 * i <= |rk| && forall k :: 0 <= k < i ==> WordAt(rk, k) == Schedule(key, nk, k)
  }

  lemma ExpandedNext(rk: seq<bv8>, rk': seq<bv8>, key: seq<bv8>, nk: nat, i: nat)
    requires Expanded(rk, key, nk, i) && 4 * i + 4 <= |rk| && |rk'| == |rk|
    requires rk'[..4 * i] == rk[..4 * i] && WordAt(rk', i) == Schedule(key, nk, i)
    ensures Expanded(rk', key, nk, i + 1)
  {
    hide Schedule;
    forall k | 0 <= k < i ensures WordAt(rk', k) == WordAt(rk, k) {
      assert forall j :: 0 <= j < 4 * i ==> rk'[..4 * i][j] == rk[..4 * i][j];
    }
  }

  method StoreWord(rk: array<bv8>, i: nat, w: Column)
    requires 4 * i + 4 <= rk.Length
    modifies rk
    ensures rk[..4 * i] == old(rk[..4 * i]) && WordAt(rk[..], i) == w
  {
    rk[4 * i], rk[4 * i + 1], rk[4 * i + 2], rk[4 * i + 3] := w.a0, w.a1, w.a2, w.a3;
  }

  /** `key_expansion`. */
  method KeyExpansion(key: seq<bv8>, nk: nat) returns (rk: array<bv8>)
    requires nk > 0 && |key| == 4 * nk
    ensures fresh(rk) && rk.Length == 16 * (nk + 7)
    ensures forall i :: 0 <= i < 4 * (nk + 7) ==> WordAt(rk[..], i) == Schedule(key, nk, i)
  {
    hide Schedule, SubWord, RotWord, XorWord, Expanded;
    var words := 4 * (nk + 7);
    rk := new bv8[4 * words];
    ExpandedNone(rk[..], key, nk);
    for i := 0 to nk
      invariant Expanded(rk[..], key, nk, i)
    {
      ghost var before := rk[..];
      ScheduleKey(key, nk, i);
      assert rk[..4 * i] == before[..4 * i];
      StoreWord(rk, i, WordAt(key, i));
      assert rk[..][..4 * i] == rk[..4 * i];
      ExpandedNext(before, rk[..], key, nk, i);
    }
    for i := nk to words
      invariant Expanded(rk[..], key, nk, i)
    {
      ghost var before := rk[..];
      ExpandedAt(before, key, nk, i, i - 1);
      ExpandedAt(before, key, nk, i, i - nk);
      var temp := WordAt(rk[..], i - 1);
      if i % nk == 0 {
        temp := SubWord(RotWord(temp));
        var c := RconOf(i / nk);
        temp := temp.(a0 := Xor(temp.a0, c));
      } else if nk > 6 && i % nk == 4 {
        temp := SubWord(temp);
      }
      ScheduleStep(key, nk, i);
      assert rk[..4 * i] == before[..4 * i];
      StoreWord(rk, i, XorWord(WordAt(rk[..], i - nk), temp));
      assert rk[..][..4 * i] == rk[..4 * i];
      ExpandedNext(before, rk[..], key, nk, i);
    }
    forall i | 0 <= i < words ensures WordAt(rk[..], i) == Schedule(key, nk, i) {
      ExpandedAt(rk[..], key, nk, words, i);
    }
  }

  lemma ExpandedNone(rk: seq<bv8>, key: seq<bv8>, nk: nat)
    requires nk > 0 && |key| == 4 * nk
    ensures Expanded(rk, key, nk, 0)
  {
  }

  lemma ExpandedAt(rk: seq<bv8>, key: seq<bv8>, nk: nat, i: nat, k: nat)
    requires Expanded(rk, key, nk, i) && k < i
    ensures 4 * k + 4 <= |rk| && WordAt(rk, k) == Schedule(key, nk, k)
  {
  }

  lemma ScheduleKey(key: seq<bv8>, nk: nat, i: nat)
    requires nk > 0 && |key| == 4 * nk && i < nk
    ensures Schedule(key, nk, i) == WordAt(key, i)
  {
  }

  lemma ScheduleStep(key: seq<bv8>, nk: nat, i: nat)
    requires nk > 0 && |key| == 4 * nk && i >= nk
    ensures Schedule(key, nk, i) == XorWord(Schedule(key, nk, i - nk), Temp(Schedule(key, nk, i - 1), nk, i))
  {
  }

  /** The expanded key, as bytes. */
  ghost predicate IsExpansion(rk: seq<bv8>, key: seq<bv8>) {
    && |key| % 4 == 0 && |key| > 0 && |rk| == 16 * (|key| / 4 + 7)
    && forall i :: 0 <= i < 4 * (|key| / 4 + 7) ==> WordAt(rk, i) == Schedule(key, |key| / 4, i)
  }

  lemma WordByte(s: seq<bv8>, j: nat)
    requires j < |s| && 4 * (j / 4) + 4 <= |s|
    ensures s[j] == ByteOf(WordAt(s, j / 4), j % 4)
  {
    assert j == 4 * (j / 4) + j % 4;
  }

  lemma ExpansionUnique(a: seq<bv8>, b: seq<bv8>, key: seq<bv8>)
    requires IsExpansion(a, key) && IsExpansion(b, key)
    ensures a == b
  {
    hide Schedule, WordAt;
    forall j | 0 <= j < |a| ensures a[j] == b[j] {
      var k := j / 4;
      assert 0 <= k < 4 * (|key| / 4 + 7);
      assert WordAt(a, k) == WordAt(b, k);
      WordByte(a, j);
      WordByte(b, j);
    }
  }

  // ---------------------------------------------------------------- encrypt and decrypt

  /** Keys of 128, 192 or 256 bits. */
  predicate KeySize(size: nat) {
    size == 16 || size == 24 || size == 32
  }

  /** What both directions demand of their arguments. */
  predicate Accepted(keySize: nat, key: seq<bv8>, iv: seq<bv8>, input: seq<bv8>, room: nat) {
    |key| == keySize && |iv| == 16 && |input| <= room && |input| % 16 == 0
  }

  method CopyIn(buf: array<bv8>, input: seq<bv8>)
    requires |input| <= buf.Length
    modifies buf
    ensures buf[..|input|] == input && buf[|input|..] == old(buf[|input|..])
  {
    for k := 0 to |input|
      invariant forall j :: 0 <= j < buf.Length ==> buf[j] == if j < k then input[j] else old(buf[j])
    {
      buf[k] := input[k];
    }
  }

  method XorBlock(buf: array<bv8>, i: nat, k: Block)
    requires i + 16 <= buf.Length
    modifies buf
    ensures buf[..] == Spliced(old(buf[..]), i, AddKey(old(buf[i..i + 16]), k))
  {
    hide AddKey;
    var s := LoadBlock(buf, i);
    AddKeyIn(s, k);
    StoreBlock(buf, i, s);
  }

  /** A buffer half way: `done` up to `i`, `rest` from there on. */
  ghost predicate Half(buf: seq<bv8>, done: seq<bv8>, rest: seq<bv8>, i: nat) {
    |done| == i <= |rest| == |buf| && buf[..i] == done && buf[i..] == rest[i..]
  }

  lemma HalfBlock(buf: seq<bv8>, done: seq<bv8>, rest: seq<bv8>, i: nat, y: Block)
    requires Half(buf, done, rest, i) && i + 16 <= |buf|
    ensures |done + y| == i + 16 && Half(Spliced(buf, i, y), done + y, rest, i + 16)
  {
    assert buf[i..i + 16] == buf[i..][..16] == rest[i..][..16];
    assert buf[i + 16..] == buf[i..][16..] == rest[i..][16..];
  }

  lemma EncryptNext(a: seq<bv8>, b: Block, iv: Block, rk: seq<bv8>, nr: nat, q: seq<bv8>, c: Block)
    requires |a| % 16 == 0 && |a + b| % 16 == 0 && Keys(rk, nr) && q == CbcEncrypt(a, iv, rk, nr)
    requires c == Cipher(AddKey(b, Last(q, iv)), rk, nr)
    ensures CbcEncrypt(a + b, iv, rk, nr) == q + c
  {
    hide Cipher, AddKey;
    assert (a + b)[..|a|] == a && (a + b)[|a|..] == b;
  }

  /** One block of each loop. */
  method EncryptOne(buf: array<bv8>, i: nat, chain: Block, rk: seq<bv8>, nr: nat)
    requires i + 16 <= buf.Length && Keys(rk, nr)
    modifies buf
    ensures buf[..] == Spliced(old(buf[..]), i, Cipher(AddKey(old(buf[..])[i..i + 16], chain), rk, nr))
  {
    hide Cipher, AddKey, Spliced, Keys;
    ghost var was := buf[..];
    assert buf[i..i + 16] == was[i..i + 16];
    XorBlock(buf, i, chain);
    SplicedAt(was, i, AddKey(was[i..i + 16], chain));
    assert buf[i..i + 16] == buf[..][i..i + 16];
    EncryptBlock(buf, i, rk, nr);
    SplicedTwice(was, i, AddKey(was[i..i + 16], chain), Cipher(AddKey(was[i..i + 16], chain), rk, nr));
  }

  method DecryptOne(buf: array<bv8>, i: nat, prev: Block, rk: seq<bv8>, nr: nat)
    requires i + 16 <= buf.Length && Keys(rk, nr)
    modifies buf
    ensures buf[..] == Spliced(old(buf[..]), i, AddKey(InvCipher(old(buf[..])[i..i + 16], rk, nr), prev))
  {
    hide InvCipher, AddKey, Spliced, Keys;
    ghost var was := buf[..];
    assert buf[i..i + 16] == was[i..i + 16];
    DecryptBlock(buf, i, rk, nr);
    ghost var x := InvCipher(was[i..i + 16], rk, nr);
    SplicedAt(was, i, x);
    assert buf[i..i + 16] == buf[..][i..i + 16];
    XorBlock(buf, i, prev);
    SplicedTwice(was, i, x, AddKey(x, prev));
  }

  lemma SplicedTwice(buf: seq<bv8>, i: nat, x: Block, y: Block)
    requires i + 16 <= |buf|
    ensures |Spliced(buf, i, x)| == |buf| && Spliced(Spliced(buf, i, x), i, y) == Spliced(buf, i, y)
  {
  }

  /** The encryption loop has done the first `i` bytes of `p` and will chain `chain` into the next block. */
  ghost predicate Encrypted(buf: seq<bv8>, p: seq<bv8>, i: nat, chain: Block, iv: Block, rk: seq<bv8>, nr: nat) {
    && Keys(rk, nr) && i <= |p| && i % 16 == 0 && Half(buf, CbcEncrypt(p[..i], iv, rk, nr), p, i)
    && chain == Last(CbcEncrypt(p[..i], iv, rk, nr), iv)
  }

  lemma EncryptedNone(p: seq<bv8>, iv: Block, rk: seq<bv8>, nr: nat)
    requires Keys(rk, nr)
    ensures Encrypted(p, p, 0, iv, iv, rk, nr)
  {
    assert p[..0] == [];
    HalfNone(p);
  }

  lemma EncryptedNext(buf: seq<bv8>, p: seq<bv8>, i: nat, chain: Block, iv: Block, rk: seq<bv8>, nr: nat, c: Block)
    requires Keys(rk, nr) && i + 16 <= |p| == |buf| && c == Cipher(AddKey(buf[i..i + 16], chain), rk, nr)
    requires Encrypted(buf, p, i, chain, iv, rk, nr)
    ensures Encrypted(Spliced(buf, i, c), p, i + 16, c, iv, rk, nr)
  {
    hide Cipher, AddKey, Half, Spliced, CbcEncrypt;
    var q := CbcEncrypt(p[..i], iv, rk, nr);
    assert buf[i..i + 16] == p[i..i + 16] by { HalfRest(buf, q, p, i); }
    HalfBlock(buf, q, p, i, c);
    assert p[..i + 16] == p[..i] + p[i..i + 16];
    EncryptNext(p[..i], p[i..i + 16], iv, rk, nr, q, c);
    assert Last(q + c, iv) == c;
  }

  lemma HalfRest(buf: seq<bv8>, done: seq<bv8>, rest: seq<bv8>, i: nat)
    requires Half(buf, done, rest, i) && i + 16 <= |buf|
    ensures buf[i..i + 16] == rest[i..i + 16]
  {
    assert buf[i..i + 16] == buf[i..][..16] == rest[i..][..16];
  }

  lemma EncryptedAll(buf: seq<bv8>, p: seq<bv8>, n: nat, chain: Block, iv: Block, rk: seq<bv8>, nr: nat)
    requires Encrypted(buf, p, n, chain, iv, rk, nr)
    ensures n <= |buf| == |p| && n % 16 == 0 && buf[..n] == CbcEncrypt(p[..n], iv, rk, nr) && buf[n..] == p[n..]
  {
    hide CbcEncrypt;
  }

  /** The encryption loop over the first `n` bytes of the buffer. */
  method EncryptLoop(buf: array<bv8>, n: nat, iv: Block, rk: seq<bv8>, nr: nat)
    requires n <= buf.Length && n % 16 == 0 && Keys(rk, nr)
    modifies buf
    ensures buf[..n] == CbcEncrypt(old(buf[..n]), iv, rk, nr) && buf[n..] == old(buf[n..])
  {
    hide Cipher, AddKey, Spliced, CbcEncrypt, Keys, Encrypted;
    ghost var p := buf[..];
    var chain: Block := iv;
    var i := 0;
    EncryptedNone(p, iv, rk, nr);
    while i < n
      invariant i <= n && i % 16 == 0 && Encrypted(buf[..], p, i, chain, iv, rk, nr)
    {
      ghost var was := buf[..];
      EncryptedNext(was, p, i, chain, iv, rk, nr, Cipher(AddKey(was[i..i + 16], chain), rk, nr));
      EncryptOne(buf, i, chain, rk, nr);
      SplicedAt(was, i, Cipher(AddKey(was[i..i + 16], chain), rk, nr));
      assert buf[i..i + 16] == buf[..][i..i + 16];
      chain := buf[i..i + 16];
      i := i + 16;
    }
    EncryptedAll(buf[..], p, n, chain, iv, rk, nr);
    assert buf[..][..n] == buf[..n] && buf[..][n..] == buf[n..] && p[..n] == old(buf[..n]) && p[n..] == old(buf[n..]);
  }

  lemma HalfNone(p: seq<bv8>)
    ensures Half(p, [], p, 0)
  {
  }

  lemma SplicedAt(buf: seq<bv8>, i: nat, b: Block)
    requires i + 16 <= |buf|
    ensures |Spliced(buf, i, b)| == |buf| && Spliced(buf, i, b)[i..i + 16] == b
  {
  }

  /** The decryption loop has done the first `i` bytes of `c`; `prev` is the ciphertext block before the next. */
  ghost predicate Decrypted(buf: seq<bv8>, c: seq<bv8>, i: nat, prev: Block, iv: Block, rk: seq<bv8>, nr: nat) {
    && Keys(rk, nr) && i <= |c| && i % 16 == 0 && Half(buf, CbcDecrypt(c[..i], iv, rk, nr), c, i) && prev == Last(c[..i], iv)
  }

  lemma DecryptedNone(c: seq<bv8>, iv: Block, rk: seq<bv8>, nr: nat)
    requires Keys(rk, nr)
    ensures Decrypted(c, c, 0, iv, iv, rk, nr)
  {
    assert c[..0] == [];
    HalfNone(c);
  }

  lemma DecryptedNext(buf: seq<bv8>, c: seq<bv8>, i: nat, prev: Block, iv: Block, rk: seq<bv8>, nr: nat, b: Block, x: Block)
    requires Keys(rk, nr) && i + 16 <= |c| == |buf| && b == buf[i..i + 16] && x == AddKey(InvCipher(b, rk, nr), prev)
    requires Decrypted(buf, c, i, prev, iv, rk, nr)
    ensures Decrypted(Spliced(buf, i, x), c, i + 16, b, iv, rk, nr)
  {
    assert CbcDecrypt(c[..i + 16], iv, rk, nr) == CbcDecrypt(c[..i], iv, rk, nr) + AddKey(InvCipher(c[i..i + 16], rk, nr), Last(c[..i], iv))
      && Last(c[..i + 16], iv) == c[i..i + 16] by {
      hide InvCipher, AddKey;
      assert c[..i + 16][..i] == c[..i] && c[..i + 16][i..] == c[i..i + 16];
    }
    hide InvCipher, AddKey, Half, Spliced, CbcDecrypt;
    var q := CbcDecrypt(c[..i], iv, rk, nr);
    assert b == c[i..i + 16] by { HalfRest(buf, q, c, i); }
    HalfBlock(buf, q, c, i, x);
  }

  lemma DecryptedAll(buf: seq<bv8>, c: seq<bv8>, n: nat, prev: Block, iv: Block, rk: seq<bv8>, nr: nat)
    requires Decrypted(buf, c, n, prev, iv, rk, nr)
    ensures n <= |buf| == |c| && n % 16 == 0 && buf[..n] == CbcDecrypt(c[..n], iv, rk, nr) && buf[n..] == c[n..]
  {
    hide CbcDecrypt;
  }

  method DecryptLoop(buf: array<bv8>, n: nat, iv: Block, rk: seq<bv8>, nr: nat)
    requires n <= buf.Length && n % 16 == 0 && Keys(rk, nr)
    modifies buf
    ensures buf[..n] == CbcDecrypt(old(buf[..n]), iv, rk, nr) && buf[n..] == old(buf[n..])
  {
    hide InvCipher, AddKey, Spliced, CbcDecrypt, Keys, Decrypted;
    ghost var c := buf[..];
    var prev: Block := iv;
    var i := 0;
    DecryptedNone(c, iv, rk, nr);
    while i < n
      invariant i <= n && i % 16 == 0 && Decrypted(buf[..], c, i, prev, iv, rk, nr)
    {
      ghost var was := buf[..];
      DecryptedNext(was, c, i, prev, iv, rk, nr, was[i..i + 16], AddKey(InvCipher(was[i..i + 16], rk, nr), prev));
      assert buf[i..i + 16] == was[i..i + 16];
      var cur: Block := buf[i..i + 16];
      DecryptOne(buf, i, prev, rk, nr);
      prev := cur;
      i := i + 16;
    }
    DecryptedAll(buf[..], c, n, prev, iv, rk, nr);
    assert buf[..][..n] == buf[..n] && buf[..][n..] == buf[n..] && c[..n] == old(buf[..n]) && c[n..] == old(buf[n..]);
  }

  /** `aes::encrypt`. */
  method Encrypt(keySize: nat, key: seq<bv8>, iv: seq<bv8>, plain: seq<bv8>, out: array<bv8>) returns (ok: bool, ghost rk: seq<bv8>)
    requires KeySize(keySize)
    modifies out
    ensures ok <==> Accepted(keySize, key, iv, plain, out.Length)
    ensures !ok ==> out[..] == old(out[..])
    ensures ok ==> IsExpansion(rk, key) && Keys(rk, keySize / 4 + 6)
    ensures ok ==> out[..|plain|] == CbcEncrypt(plain, iv, rk, keySize / 4 + 6) && out[|plain|..] == old(out[|plain|..])
  {
    hide Schedule, CbcEncrypt;
    ok, rk := false, [];
    if |key| != keySize || |iv| != 16 || out.Length < |plain| || |plain| % 16 != 0 {
      return;
    }
    CopyIn(out, plain);
    var keys := KeyExpansion(key, keySize / 4);
    rk := keys[..];
    EncryptLoop(out, |plain|, iv, keys[..], keySize / 4 + 6);
    ok := true;
  }

  /** `aes::decrypt`. */
  method Decrypt(keySize: nat, key: seq<bv8>, iv: seq<bv8>, cipher: seq<bv8>, out: array<bv8>) returns (ok: bool, ghost rk: seq<bv8>)
    requires KeySize(keySize)
    modifies out
    ensures ok <==> Accepted(keySize, key, iv, cipher, out.Length)
    ensures !ok ==> out[..] == old(out[..])
    ensures ok ==> IsExpansion(rk, key) && Keys(rk, keySize / 4 + 6)
    ensures ok ==> out[..|cipher|] == CbcDecrypt(cipher, iv, rk, keySize / 4 + 6) && out[|cipher|..] == old(out[|cipher|..])
  {
    hide Schedule, CbcDecrypt;
    ok, rk := false, [];
    if |key| != keySize || |iv| != 16 || out.Length < |cipher| || |cipher| % 16 != 0 {
      return;
    }
    CopyIn(out, cipher);
    var keys := KeyExpansion(key, keySize / 4);
    rk := keys[..];
    DecryptLoop(out, |cipher|, iv, keys[..], keySize / 4 + 6);
    ok := true;
  }

  /** Encrypting and then decrypting with the same key and IV gives the plaintext back, for every accepted input. */
  method RoundTrip(keySize: nat, key: seq<bv8>, iv: seq<bv8>, plain: seq<bv8>) returns (ok: bool, back: seq<bv8>)
    requires KeySize(keySize)
    ensures ok <==> |key| == keySize && |iv| == 16 && |plain| % 16 == 0
    ensures ok ==> back == plain
  {
    hide CbcEncrypt, CbcDecrypt, Schedule, IsExpansion;
    var first, second := new bv8[|plain|], new bv8[|plain|];
    ghost var rk, rk';
    back := [];
    ok, rk := Encrypt(keySize, key, iv, plain, first);
    if ok {
      assert first[..|plain|] == first[..];
      ok, rk' := Decrypt(keySize, key, iv, first[..], second);
      assert second[..|plain|] == second[..];
      ExpansionUnique(rk, rk', key);
      CbcInverse(plain, iv, rk, keySize / 4 + 6);
      back := second[..];
    }
  }
}
