/** Unpadded RSA of `src/encryption/rsa.cpp` (sections 5.1.1 and 5.1.2 of RFC 8017). */
module Rsa {
  import opened Words
  import opened Limbs
  import opened ModArith
  import opened LimbBits
  import opened RsaMod
  import opened RsaBytes

  function LimbsFor(bytes: nat): nat {
    (bytes + 3) / 4
  }

  /** An exponent as the limbs of an `n`-byte modulus hold it. */
  ghost function Exponent(e: seq<byte>, n: nat): nat {
    Num(e) % Two(32 * LimbsFor(n))
  }

  /** Both directions run the same computation: base^exponent mod n on freshly made limbs. */
  method Power(n: seq<byte>, e: seq<byte>, a: seq<byte>) returns (below: bool, r: array<u32>)
    requires 0 < |n| && |a| <= |n| && (Num(n) == 1 ==> Num(a) > 0)
    ensures fresh(r) && r.Length == LimbsFor(|n|)
    ensures below <==> Num(a) < Num(n)
    ensures below ==> Val(r[..]) == Pow(Num(a), Exponent(e, |n|)) % Num(n)
  {
    hide Num, Val, Two, Pow;
    var l := LimbsFor(|n|);
    var nl, el, al := new u32[l], new u32[l], new u32[l];
    r := new u32[l];
    FromBytes(nl, n);
    FromBytes(el, e);
    FromBytes(al, a);
    FitsLimbs(n, l);
    FitsLimbs(a, l);
    var c := Compare(al, nl);
    below := c < 0;
    if below {
      var t0, t1, t2, t3 := new u32[l], new u32[l], new u32[l], new u32[l];
      ModPow(r, al, el, nl, t0, t1, t2, t3);
    }
  }

  lemma FitsLimbs(a: seq<byte>, l: nat)
    requires |a| <= 4 * l
    ensures Num(a) % Two(32 * l) == Num(a)
  {
    LeFits(Rev(a), l);
  }

  /** `rsa::encrypt` of a nonempty plaintext. */
  method Encrypt(n: seq<byte>, e: seq<byte>, plain: seq<byte>) returns (ok: bool, cipher: seq<byte>)
    requires |plain| > 0
    ensures ok <==> plain[0] != 0 && |n| > 0 && |e| > 0 && |plain| <= |n| && Num(plain) < Num(n)
    ensures ok ==> |cipher| == |n| && Num(cipher) == Pow(Num(plain), Exponent(e, |n|)) % Num(n)
  {
    hide Num, Two, Pow, Val;
    if plain[0] == 0 || |n| == 0 || |e| == 0 || |plain| > |n| {
      return false, [];
    }
    MinimalPositive(plain);
    var below, r := Power(n, e, plain);
    ok, cipher := below, [];
    if below {
      cipher := ToBytes(r, |n|);
      BelowFits(n, Val(r[..]));
    }
  }

  lemma MinimalPositive(p: seq<byte>)
    requires Minimal(p)
    ensures Num(p) > 0
  {
    hide Two;
    LeTop(Rev(p));
  }

  lemma BelowFits(n: seq<byte>, v: nat)
    requires v < Num(n)
    ensures v % Two(8 * |n|) == v
  {
    hide Two;
    LeBound(Rev(n));
    ModSmall(v, Two(8 * |n|));
  }

  /** `rsa::decrypt`, for a modulus other than 1 and a result other than 0. */
  method Decrypt(n: seq<byte>, d: seq<byte>, cipher: seq<byte>) returns (ok: bool, plain: seq<byte>)
    requires Num(n) != 1
    requires |cipher| == |n| && Num(cipher) < Num(n) ==> Pow(Num(cipher), Exponent(d, |n|)) % Num(n) != 0
    ensures ok <==> |n| > 0 && |d| > 0 && |cipher| == |n| && Num(cipher) < Num(n)
    ensures ok ==> Minimal(plain) && Num(plain) == Pow(Num(cipher), Exponent(d, |n|)) % Num(n)
  {
    hide Num, Two, Pow, Val;
    if |n| == 0 || |d| == 0 || |cipher| != |n| {
      return false, [];
    }
    var below, r := Power(n, d, cipher);
    ok, plain := below, [];
    if below {
      plain := ToMinBytes(r);
    }
  }

  /** The exponents undo each other on this number: m^(e d) = m modulo n. */
  ghost predicate Inverse(m: nat, e: nat, d: nat, n: nat) {
    && n > 0
    && Pow(m, e * d) % n == m
  }

  /** (m^e mod n)^d mod n is m^(e d) mod n. */
  lemma PowPow(m: nat, e: nat, d: nat, n: nat)
    requires n > 0
    ensures Pow(Pow(m, e) % n, d) % n == Pow(m, e * d) % n
  {
    PowMod(Pow(m, e), d, n);
    PowTimes(m, e, d);
  }

  /** What decryption returns for an accepted message is that message, byte for byte. */
  lemma DecryptUndoesEncrypt(n: seq<byte>, e: seq<byte>, d: seq<byte>, plain: seq<byte>, cipher: seq<byte>, back: seq<byte>)
    requires Num(n) > 0 && Minimal(plain) && Inverse(Num(plain), Exponent(e, |n|), Exponent(d, |n|), Num(n))
    requires Num(cipher) == Pow(Num(plain), Exponent(e, |n|)) % Num(n)
    requires Minimal(back) && Num(back) == Pow(Num(cipher), Exponent(d, |n|)) % Num(n)
    ensures back == plain
  {
    hide Num, Pow, Minimal, Exponent;
    PowPow(Num(plain), Exponent(e, |n|), Exponent(d, |n|), Num(n));
    MinimalUnique(plain, back);
  }

  /**
   decrypt(encrypt(p)) = p for every message that encrypt accepts and the key pair undoes. An exponent no longer
   than the modulus's limbs is used whole (`WholeExponent`).
   */
  method RoundTrip(n: seq<byte>, e: seq<byte>, d: seq<byte>, plain: seq<byte>) returns (ok: bool, back: seq<byte>)
    requires |plain| > 0 && |d| > 0 && (Num(plain) < Num(n) ==> Inverse(Num(plain), Exponent(e, |n|), Exponent(d, |n|), Num(n)))
    ensures ok <==> plain[0] != 0 && |n| > 0 && |e| > 0 && |plain| <= |n| && Num(plain) < Num(n)
    ensures ok ==> back == plain
  {
    hide Num, Two, Pow, Exponent;
    var cipher;
    ok, cipher := Encrypt(n, e, plain);
    back := [];
    if ok {
      MinimalPositive(plain);
      PowPow(Num(plain), Exponent(e, |n|), Exponent(d, |n|), Num(n));
      ok, back := Decrypt(n, d, cipher);
      DecryptUndoesEncrypt(n, e, d, plain, cipher, back);
    }
  }

  lemma WholeExponent(e: seq<byte>, n: nat)
    requires |e| <= 4 * LimbsFor(n)
    ensures Exponent(e, n) == Num(e) && n <= 4 * LimbsFor(n) < n + 4
  {
    FitsLimbs(e, LimbsFor(n));
  }
}
