/** Exclusive or of bytes. */
module XorBytes {

  function Xor(a: bv8, b: bv8): bv8 {
    a ^ b
  }

  lemma XorZero(x: bv8)
    ensures Xor(0, x) == x && Xor(x, 0) == x
  {
  }

  lemma XorMove(p: bv8, a: bv8, r: bv8)
    ensures Xor(p, Xor(a, r)) == Xor(Xor(p, a), r)
  {
  }

  lemma XorTwice(a: bv8, k: bv8)
    ensures Xor(Xor(a, k), k) == a
  {
  }
}
