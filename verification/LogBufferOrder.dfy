/**
 The array of side buffers under recycling. Erasing a buffer moves the last one into its place, so a buffer can come to
 stand in front of one it stood behind.
 */
module LogBufferOrder {
  import opened LogBufferModel

  predicate Distinct(o: seq<nat>) {
    forall i, j :: 0 <= i < j < |o| ==> o[i] != o[j]
  }

  /** `d` is searched before `e`. */
  ghost predicate Before(o: seq<nat>, d: nat, e: nat) {
    exists j, k :: 0 <= j < k < |o| && o[j] == d && o[k] == e
  }

  lemma ErasedElements(o: seq<nat>, k: nat)
    requires Distinct(o) && k < |o|
    ensures Distinct(Erased(o, k)) && forall x :: x in Erased(o, k) <==> x in o && x != o[k]
  {
    var n, p := |o| - 1, Erased(o, k);
    assert forall i :: 0 <= i < n ==> p[i] == if i == k then o[n] else o[i];
    forall x | x in o && x != o[k] ensures x in p {
      var i :| 0 <= i <= n && o[i] == x;
      assert p[if i == n then k else i] == x;
    }
  }

  /** One pass from place `n - 1` down to the first that erases every buffer in `gone`. */
  ghost function Swept(o: seq<nat>, n: nat, gone: iset<nat>): seq<nat>
    decreases n
  {
    if n == 0 || n > |o| then o
    else Swept(if o[n - 1] in gone then Erased(o, n - 1) else o, n - 1, gone)
  }

  /**
   A pass can bring a buffer in front of one it stood behind, and the other way round: with 0 idle, buffer 3 comes in
   front of buffer 2 of four, and of three buffers 1 comes behind 2.
   */
  lemma SweepTurns()
    ensures !Before([0, 1, 2, 3], 3, 2) && Before(Swept([0, 1, 2, 3], 4, iset{0}), 3, 2)
    ensures Before([0, 1, 2], 1, 2) && !Before(Swept([0, 1, 2], 3, iset{0}), 1, 2)
  {
    var g := iset{0};
    var o, p := [0, 1, 2, 3], [0, 1, 2];
    assert Swept(o, 4, g) == Swept(o, 3, g) == Swept(o, 2, g) == Swept(o, 1, g) == Swept(Erased(o, 0), 0, g) == [3, 1, 2];
    assert [3, 1, 2][0] == 3 && [3, 1, 2][2] == 2;
    assert Swept(p, 3, g) == Swept(p, 2, g) == Swept(p, 1, g) == Swept(Erased(p, 0), 0, g) == [2, 1];
    assert p[1] == 1 && p[2] == 2;
  }
}
