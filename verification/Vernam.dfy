/** The XOR key stream of `src/encryption/vernam.cpp` in its scalar, SSE and AVX2 forms. */
module Vernam {
  import opened Modular
  import opened XorBytes

  /** The byte loop: every byte with the key byte at its place of the stream. */
  function Stream(s: seq<bv8>, key: seq<bv8>, offset: nat): (r: seq<bv8>)
    requires |key| > 0
    ensures |r| == |s|
  {
    seq(|s|, i requires 0 <= i < |s| => Xor(s[i], key[(offset + i) % |key|]))
  }

  /** Applied twice, the stream restores its input. */
  lemma StreamInvolution(s: seq<bv8>, key: seq<bv8>, offset: nat)
    requires |key| > 0
    ensures Stream(Stream(s, key, offset), key, offset) == s
  {
    hide Xor;
    forall i | 0 <= i < |s| ensures Stream(Stream(s, key, offset), key, offset)[i] == s[i] {
      XorTwice(s[i], key[(offset + i) % |key|]);
    }
  }

  /** Text encrypted piece by piece, each at its own offset, is the text encrypted whole. */
  lemma StreamPieces(s: seq<bv8>, t: seq<bv8>, key: seq<bv8>, offset: nat)
    requires |key| > 0
    ensures Stream(s + t, key, offset) == Stream(s, key, offset) + Stream(t, key, offset + |s|)
  {
    hide Xor;
    var whole, parts := Stream(s + t, key, offset), Stream(s, key, offset) + Stream(t, key, offset + |s|);
    forall i | 0 <= i < |s + t| ensures whole[i] == parts[i] {
      if i >= |s| { assert offset + |s| + (i - |s|) == offset + i; }
    }
  }

  function Zeros(n: nat): seq<bv8> {
    seq(n, i => 0)
  }

  /** The key once, then over and over. */
  function Repeated(key: seq<bv8>, n: nat): seq<bv8> {
    if n == 0 then [] else key + Repeated(key, n - 1)
  }

  lemma ZerosOnce(key: seq<bv8>, m: nat)
    requires |key| > 0
    ensures Stream(Zeros(|key|), key, |key| * m) == key
  {
    hide Xor;
    var r := Stream(Zeros(|key|), key, |key| * m);
    forall i | 0 <= i < |key| ensures r[i] == key[i] {
      ModUnique(|key|, m, i);
      XorZero(key[i]);
    }
  }

  lemma ZerosMore(a: nat, b: nat)
    ensures Zeros(a + b) == Zeros(a) + Zeros(b)
  {
  }

  /** What a text of zeros turns into is the key over and over, from wherever the key starts anew. */
  lemma {:induction false} StreamOfZeros(key: seq<bv8>, n: nat, m: nat)
    requires |key| > 0
    ensures Stream(Zeros(|key| * n), key, |key| * m) == Repeated(key, n)
  {
    hide Stream, Zeros;
    var k := |key|;
    if n == 0 {
      ZerosLength(0);
      assert k * 0 == 0;
    } else {
      assert k * n == k + k * (n - 1) && k * m + k == k * (m + 1);
      ZerosMore(k, k * (n - 1));
      ZerosLength(k);
      StreamPieces(Zeros(k), Zeros(k * (n - 1)), key, k * m);
      ZerosOnce(key, m);
      StreamOfZeros(key, n - 1, m + 1);
    }
  }

  lemma ZerosLength(n: nat)
    ensures |Zeros(n)| == n
  {
  }

  // ---------------------------------------------------------------- progress

  /** The first `p` bytes are done. */
  ghost predicate Done(buf: seq<bv8>, was: seq<bv8>, key: seq<bv8>, offset: nat, p: nat) {
    && |key| > 0 && |buf| == |was| && p <= |was|
    && forall i :: 0 <= i < |was| ==> buf[i] == if i < p then Xor(was[i], key[(offset + i) % |key|]) else was[i]
  }

  lemma DoneByte(buf: seq<bv8>, was: seq<bv8>, key: seq<bv8>, offset: nat, p: nat)
    requires Done(buf, was, key, offset, p) && p < |was|
    ensures Done(buf[p := Xor(buf[p], key[(offset + p) % |key|])], was, key, offset, p + 1)
  {
    hide Xor;
  }

  lemma DoneAll(buf: seq<bv8>, was: seq<bv8>, key: seq<bv8>, offset: nat)
    requires Done(buf, was, key, offset, |was|)
    ensures buf == Stream(was, key, offset)
  {
    hide Xor;
  }

  lemma DoneNone(buf: seq<bv8>, key: seq<bv8>, offset: nat)
    requires |key| > 0
    ensures Done(buf, buf, key, offset, 0)
  {
  }

  lemma NextPos(x: nat, k: nat)
    requires k > 0
    ensures (x + 1) % k == if x % k + 1 == k then 0 else x % k + 1
  {
    if x % k + 1 == k {
      assert x + 1 == k * (x / k) + k;
      assert k * (x / k) + k == k * (x / k + 1);
      ModUnique(k, x / k + 1, 0);
    } else {
      Offset(k, x, 1);
    }
  }

  /** The byte loop with the key position masked at every step. */
  method Bytes(buf: array<bv8>, ghost was: seq<bv8>, key: seq<bv8>, ghost offset: nat, p: nat, n: nat, pos: nat) returns (pos': nat)
    requires Done(buf[..], was, key, offset, p) && p + n <= buf.Length && pos == (offset + p) % |key|
    modifies buf
    ensures Done(buf[..], was, key, offset, p + n) && pos' == (offset + p + n) % |key|
  {
    hide Xor, Done;
    DoneKey(buf[..], was, key, offset, p);
    pos' := pos;
    for j := 0 to n
      invariant Done(buf[..], was, key, offset, p + j) && pos' == (offset + p + j) % |key|
    {
      ghost var b := buf[..];
      DoneByte(b, was, key, offset, p + j);
      buf[p + j] := Xor(buf[p + j], key[pos']);
      assert buf[..] == b[p + j := Xor(b[p + j], key[pos'])];
      NextPos(offset + p + j, |key|);
      pos' := if pos' + 1 == |key| then 0 else pos' + 1;
    }
  }

  lemma DoneKey(buf: seq<bv8>, was: seq<bv8>, key: seq<bv8>, offset: nat, p: nat)
    requires Done(buf, was, key, offset, p)
    ensures |key| > 0 && |buf| == |was| && p <= |was|
  {
  }

  /** A run of `n` bytes against contiguous key bytes: the 64-bit, 128-bit or 256-bit words, byte by byte. */
  method Contiguous(buf: array<bv8>, ghost was: seq<bv8>, key: seq<bv8>, ghost offset: nat, p: nat, n: nat, pos: nat)
    requires Done(buf[..], was, key, offset, p) && p + n <= buf.Length && pos + n <= |key|
    requires n > 0 ==> pos == (offset + p) % |key|
    modifies buf
    ensures Done(buf[..], was, key, offset, p + n)
  {
    hide Xor, Done;
    DoneKey(buf[..], was, key, offset, p);
    for j := 0 to n
      invariant Done(buf[..], was, key, offset, p + j)
    {
      ghost var b := buf[..];
      DoneByte(b, was, key, offset, p + j);
      Offset(|key|, offset + p, j);
      buf[p + j] := Xor(buf[p + j], key[pos + j]);
      assert buf[..] == b[p + j := Xor(b[p + j], key[pos + j])];
    }
  }

  // ---------------------------------------------------------------- the vector loop

  /** The key position stands for the stream's place, or has run to the key's end where the stream starts over. */
  ghost predicate Stands(pos: nat, at: nat, k: nat) {
    && k > 0
    && (pos == at % k || (pos == k && at % k == 0))
  }

  lemma Advance(pos: nat, at: nat, k: nat, n: nat)
    requires k > 0 && pos == at % k && pos + n <= k
    ensures Stands(pos + n, at + n, k)
  {
    if pos + n < k {
      Offset(k, at, n);
    } else {
      assert at + n == k * (at / k) + k == k * (at / k + 1);
      ModUnique(k, at / k + 1, 0);
    }
  }

  lemma Aligned(x: nat, n: nat, w: nat)
    requires w > 0 && x % w == 0 && n % w == 0
    ensures (x + n) % w == 0 && (n <= x ==> (x - n) % w == 0)
  {
    var a, b := x / w, n / w;
    assert x == w * a && n == w * b;
    assert w * (a + b) == w * a + w * b;
    ModUnique(w, a + b, 0);
    if n <= x {
      assert w * (a - b) == w * a - w * b;
      if a < b { MulBound(w, b - a); }
      ModUnique(w, a - b, 0);
    }
  }

  /** Rounding down to the vector width. */
  lemma RoundDown(c: nat, w: nat)
    requires w > 0
    ensures (c - c % w) % w == 0 && (c >= w ==> c - c % w >= w)
  {
    assert c - c % w == w * (c / w);
    ModUnique(w, c / w, 0);
    if c / w >= 1 { MulBound(w, c / w); }
  }

  /** How far one turn of the vector loop gets. */
  function TurnLen(k: nat, pos: nat, remaining: nat, w: nat): nat
    requires w > 0 && pos <= k
  {
    var chunk := if k - pos < remaining then k - pos else remaining;
    chunk - chunk % w
  }

  /** Key position and bytes left after one turn of the loop. */
  function Turn(k: nat, pos: nat, remaining: nat, w: nat): (r: (nat, nat))
    requires w > 0 && pos <= k
    ensures r.0 <= k && r.1 <= remaining
  {
    if remaining < w then (pos, remaining)
    else
      var n := TurnLen(k, pos, remaining, w);
      (if pos + n == k then 0 else pos + n, remaining - n)
  }

  function Turns(k: nat, pos: nat, remaining: nat, w: nat, n: nat): (r: (nat, nat))
    requires w > 0 && pos <= k
    ensures r.0 <= k
    decreases n
  {
    if n == 0 then (pos, remaining)
    else var t := Turn(k, pos, remaining, w); Turns(k, t.0, t.1, w, n - 1)
  }

  /**
   The loop ends from this key position: it is at a vector's start, or the bytes left do not reach the key's end from
   the vector's start before it.
   */
  predicate WillEnd(k: nat, pos: nat, remaining: nat, w: nat) {
    && w > 0
    && (pos % w == 0 || remaining < k - (pos - pos % w))
  }

  lemma Misaligned(k: nat, pos: nat, w: nat)
    requires w > 0 && k % w == 0 && pos < k && pos % w != 0
    ensures k - pos - (w - pos % w) >= 0 && (k - pos - (w - pos % w)) % w == 0
    ensures (k - pos) % w == w - pos % w && k - (pos - pos % w) == (k - pos - (w - pos % w)) + w
  {
    var m := pos % w;
    FitCore(pos, k, pos / w, k / w, m, w);
    var d := k / w - pos / w - 1;
    assert k == w * (k / w) && pos == w * (pos / w) + m;
    assert w * d == w * (k / w) - w * (pos / w) - w;
    var l := k - pos - (w - m);
    assert l == w * d;
    if d < 0 { MulBound(w, d); }
    ModUnique(w, d, 0);
    ModUnique(w, d, w - m);
  }

  /** One turn from the middle of a vector: it goes to the last vector boundary before the key's end, or is the last. */
  lemma MisalignedTurn(k: nat, pos: nat, remaining: nat, w: nat)
    requires w > 0 && k % w == 0 && pos < k && pos % w != 0 && remaining >= w
    ensures var l := k - pos - (w - pos % w); l >= 0
    ensures var l := k - pos - (w - pos % w);
      if remaining < l + w then TurnLen(k, pos, remaining, w) > remaining - w && Turn(k, pos, remaining, w).1 < w
      else TurnLen(k, pos, remaining, w) == l && Turn(k, pos, remaining, w) == (pos + l, remaining - l)
  {
    Misaligned(k, pos, w);
    var m, l := pos % w, k - pos - (w - pos % w);
    if k - pos < remaining {
      assert TurnLen(k, pos, remaining, w) == l;
    } else {
      RoundDown(remaining, w);
    }
  }

  /** At the last boundary the loop stands still. */
  lemma {:induction false} Stuck(k: nat, pos: nat, remaining: nat, w: nat, n: nat)
    requires w > 0 && k % w == 0 && pos < k && 0 < k - pos < w && remaining >= w
    ensures Turns(k, pos, remaining, w, n) == (pos, remaining)
    decreases n
  {
    if n > 0 {
      ModUnique(w, 0, k - pos);
      assert TurnLen(k, pos, remaining, w) == 0;
      Stuck(k, pos, remaining, w, n - 1);
    }
  }

  lemma {:induction false} AlignedEnds(k: nat, pos: nat, remaining: nat, w: nat) returns (n: nat)
    requires w > 0 && k > 0 && k % w == 0 && pos <= k && pos % w == 0
    ensures Turns(k, pos, remaining, w, n).1 < w
    decreases remaining, pos
  {
    if remaining < w {
      n := 0;
    } else if pos == k {
      ModUnique(w, 0, 0);
      assert Turn(k, pos, remaining, w) == (0, remaining);
      var m := AlignedEnds(k, 0, remaining, w);
      n := m + 1;
    } else {
      Aligned(k, pos, w);
      WholeVector(k - pos, w);
      var chunk := if k - pos < remaining then k - pos else remaining;
      RoundDown(chunk, w);
      var l := TurnLen(k, pos, remaining, w);
      Aligned(pos, l, w);
      var t := Turn(k, pos, remaining, w);
      assert t.0 < k && t.0 % w == 0 by { ModUnique(w, 0, 0); }
      var m := AlignedEnds(k, t.0, t.1, w);
      n := m + 1;
    }
  }

  /** The vector loop ends if and only if the condition holds where it starts. */
  lemma EndsExactly(k: nat, pos: nat, remaining: nat, w: nat)
    requires w > 0 && k > 0 && k % w == 0 && pos <= k
    ensures (exists n :: Turns(k, pos, remaining, w, n).1 < w) <==> WillEnd(k, pos, remaining, w)
  {
    if pos % w == 0 {
      var n := AlignedEnds(k, pos, remaining, w);
    } else {
      Misaligned(k, pos, w);
      if remaining < w {
        assert Turns(k, pos, remaining, w, 0).1 < w;
      } else {
        if WillEnd(k, pos, remaining, w) {
          MisalignedTurn(k, pos, remaining, w);
          var t := Turn(k, pos, remaining, w);
          assert Turns(k, t.0, t.1, w, 0) == t;
          assert Turns(k, pos, remaining, w, 1).1 < w;
        } else {
          forall n: nat ensures Turns(k, pos, remaining, w, n).1 >= w {
            Misaligned(k, pos, w);
            MisalignedTurn(k, pos, remaining, w);
            if n > 0 {
              var t := Turn(k, pos, remaining, w);
              Stuck(k, t.0, t.1, w, n - 1);
            }
          }
        }
      }
    }
  }

  /**
   The vector loop at width `w`. A turn that finds the key position at the key's end makes no progress but brings
   it back to 0, and the next one does.
   */
  method Vectors(buf: array<bv8>, ghost was: seq<bv8>, key: seq<bv8>, ghost offset: nat, w: nat, p0: nat, pos0: nat)
    returns (p: nat, pos: nat)
    requires w > 0 && Done(buf[..], was, key, offset, p0) && |key| % w == 0
    requires Stands(pos0, offset + p0, |key|) && WillEnd(|key|, pos0, buf.Length - p0, w)
    modifies buf
    ensures Done(buf[..], was, key, offset, p) && buf.Length - p < w && Stands(pos, offset + p, |key|)
  {
    hide Xor, Done;
    DoneKey(buf[..], was, key, offset, p0);
    p, pos := p0, pos0;
    while buf.Length - p >= w
      invariant Done(buf[..], was, key, offset, p) && p <= buf.Length
      invariant pos <= |key| && Stands(pos, offset + p, |key|) && WillEnd(|key|, pos, buf.Length - p, w)
      decreases buf.Length - p, pos
    {
      var remaining := buf.Length - p;
      var loopLen := TurnLen(|key|, pos, remaining, w);
      TurnGoesOn(|key|, pos, remaining, w);
      Contiguous(buf, was, key, offset, p, loopLen, pos);
      if loopLen > 0 { Advance(pos, offset + p, |key|, loopLen); }
      p := p + loopLen;
      pos := pos + loopLen;
      if pos == |key| {
        pos := 0;
        KeyEnd(|key|, offset + p, w);
      }
    }
  }

  /** A turn gets on, or stands at the key's end; and the loop will still end. */
  lemma TurnGoesOn(k: nat, pos: nat, remaining: nat, w: nat)
    requires w > 0 && k > 0 && k % w == 0 && pos <= k && remaining >= w && WillEnd(k, pos, remaining, w)
    ensures var l := TurnLen(k, pos, remaining, w);
      && l <= remaining && pos + l <= k && (l > 0 || pos == k)
      && (pos + l == k || WillEnd(k, pos + l, remaining - l, w))
  {
    var chunk := if k - pos < remaining then k - pos else remaining;
    RoundDown(chunk, w);
    var l := TurnLen(k, pos, remaining, w);
    if pos % w == 0 {
      Aligned(k, pos, w);
      if k > pos { WholeVector(k - pos, w); }
      Aligned(pos, l, w);
    } else {
      Misaligned(k, pos, w);
      MisalignedTurn(k, pos, remaining, w);
      EndNear(k, pos + l, remaining - l, w);
    }
  }

  lemma EndNear(k: nat, pos: nat, remaining: nat, w: nat)
    requires w > 0 && k % w == 0 && pos <= k && remaining < w
    ensures pos == k || WillEnd(k, pos, remaining, w)
  {
    if pos < k && pos % w != 0 { Misaligned(k, pos, w); }
  }

  lemma WholeVector(c: nat, w: nat)
    requires w > 0 && c > 0 && c % w == 0
    ensures c >= w
  {
  }

  lemma KeyEnd(k: nat, at: nat, w: nat)
    requires k > 0 && w > 0 && Stands(k, at, k)
    ensures Stands(0, at, k) && 0 % w == 0
  {
  }

  // ---------------------------------------------------------------- the three forms

  /** What the callers promise: the key is whole vectors, and buffer address and stream offset agree modulo the width. */
  predicate Congruent(addr: nat, offset: nat, key: seq<bv8>, w: nat) {
    && w > 0
    && |key| > 0 && |key| % w == 0 && addr % w == offset % w
  }

  /** Bytes before the first aligned address, or all there are. */
  function HeadLen(addr: nat, len: nat, w: nat): nat
    requires w > 0
  {
    var diff := (w - addr % w) % w;
    if diff < len then diff else len
  }

  lemma ModMod(x: nat, k: nat, w: nat)
    requires w > 0 && k > 0 && k % w == 0
    ensures x % k % w == x % w
  {
    var r := x % k;
    ModCore(w, k / w, x / k, r / w, r % w, x);
  }

  lemma ModCore(w: nat, d: nat, a: nat, q: nat, m: nat, x: nat)
    requires m < w && x == (w * d) * a + (w * q + m)
    ensures x % w == m
  {
    Regroup(w, d, a, q);
    ModUnique(w, d * a + q, m);
  }

  lemma Regroup(w: nat, d: nat, a: nat, q: nat)
    ensures (w * d) * a + w * q == w * (d * a + q)
  {
  }

  /** After a full head the stream stands at a multiple of the width. */
  lemma HeadAligns(addr: nat, offset: nat, w: nat)
    requires w > 0 && addr % w == offset % w
    ensures (offset + (w - addr % w) % w) % w == 0
  {
    var r := offset % w;
    assert offset == w * (offset / w) + r;
    if r == 0 {
      assert w % w == 0 by { ModUnique(w, 1, 0); }
      ModUnique(w, offset / w, 0);
    } else {
      assert (w - r) % w == w - r by { ModUnique(w, 0, w - r); }
      assert offset + (w - r) == w * (offset / w) + w == w * (offset / w + 1);
      ModUnique(w, offset / w + 1, 0);
    }
  }

  lemma FitCore(pos: nat, k: nat, a: nat, b: nat, r: nat, w: nat)
    requires pos == w * a + r && k == w * b && r < w && pos < k
    ensures pos + (w - r) <= k
  {
    assert w * (b - a) == w * b - w * a;
    MulBound(w, b - a);
  }

  /** The rest byte by byte, from wherever the vector loop stopped. */
  method Tail(buf: array<bv8>, ghost was: seq<bv8>, key: seq<bv8>, ghost offset: nat, p: nat, pos: nat)
    requires Done(buf[..], was, key, offset, p) && Stands(pos, offset + p, |key|)
    modifies buf
    ensures buf[..] == Stream(was, key, offset)
  {
    hide Xor, Done;
    DoneKey(buf[..], was, key, offset, p);
    Masked(pos, offset + p, |key|);
    var end := Bytes(buf, was, key, offset, p, buf.Length - p, pos % |key|);
    DoneAll(buf[..], was, key, offset);
  }

  lemma Masked(pos: nat, at: nat, k: nat)
    requires k > 0 && Stands(pos, at, k)
    ensures pos % k == at % k
  {
    if pos == k { ModUnique(k, 1, 0); } else { ModUnique(k, 0, pos); }
  }

  /** A call on `len` bytes at `addr` ends; `EndsExactly` says that no other call does. */
  predicate CallEnds(addr: nat, offset: nat, k: nat, len: nat, w: nat) {
    && w > 0 && k > 0
    && var head := HeadLen(addr, len, w);
    WillEnd(k, (offset + head) % k, len - head, w)
  }

  /** The same for AVX2, whose head must also find all its key bytes before the key's end. */
  predicate UnmaskedCallEnds(addr: nat, offset: nat, k: nat, len: nat, w: nat) {
    && w > 0 && k > 0
    && var head := HeadLen(addr, len, w);
    offset % k + head <= k && WillEnd(k, offset % k + head, len - head, w)
  }

  /** The alignment the callers are told to ensure is enough for all three. */
  lemma CongruentEnds(addr: nat, offset: nat, key: seq<bv8>, len: nat, w: nat)
    requires w > 0 && Congruent(addr, offset, key, w)
    ensures CallEnds(addr, offset, |key|, len, w) && UnmaskedCallEnds(addr, offset, |key|, len, w)
  {
    var head := HeadLen(addr, len, w);
    var k := |key|;
    assert offset % |key| + (w - addr % w) % w <= |key| by {
      var k := |key|;
      ModMod(offset, k, w);
      var pos := offset % k;
      FitCore(pos, k, pos / w, k / w, addr % w, w);
      if addr % w == 0 { ModUnique(w, 1, 0); } else { ModUnique(w, 0, w - addr % w); }
    }
    if head < len {
      HeadAligns(addr, offset, w);
      ModMod(offset + head, k, w);
      AlignedPos(offset, head, k, w);
    } else {
      EndNear(k, (offset + head) % k, 0, w);
      EndNear(k, offset % k + head, 0, w);
    }
  }

  /** Scalar (`w` = 8) and SSE (`w` = 16): the key position is masked after every head byte. */
  method EncryptMasked(buf: array<bv8>, addr: nat, key: seq<bv8>, offset: nat, w: nat)
    requires (w == 8 || w == 16) && |key| > 0 && |key| % w == 0 && CallEnds(addr, offset, |key|, buf.Length, w)
    modifies buf
    ensures buf[..] == Stream(old(buf[..]), key, offset)
  {
    hide Xor, Done, Stream;
    ghost var was := buf[..];
    DoneNone(was, key, offset);
    var head := HeadLen(addr, buf.Length, w);
    var pos := Bytes(buf, was, key, offset, 0, head, offset % |key|);
    var p := head;
    if buf.Length - p >= w {
      p, pos := Vectors(buf, was, key, offset, w, p, pos);
    }
    Tail(buf, was, key, offset, p, pos);
  }

  /** AVX2: the key position is not masked in the head, so it may run to the key's end. */
  method EncryptAvx2(buf: array<bv8>, addr: nat, key: seq<bv8>, offset: nat)
    requires |key| > 0 && |key| % 32 == 0 && UnmaskedCallEnds(addr, offset, |key|, buf.Length, 32)
    modifies buf
    ensures buf[..] == Stream(old(buf[..]), key, offset)
  {
    hide Xor, Done, Stream;
    var w := 32;
    ghost var was := buf[..];
    DoneNone(was, key, offset);
    var head := HeadLen(addr, buf.Length, w);
    var pos := offset % |key|;
    Contiguous(buf, was, key, offset, 0, head, pos);
    Advance(pos, offset, |key|, head);
    pos := pos + head;
    var p := head;
    if buf.Length - p >= w {
      p, pos := Vectors(buf, was, key, offset, w, p, pos);
    }
    Tail(buf, was, key, offset, p, pos);
  }

  lemma AlignedPos(offset: nat, head: nat, k: nat, w: nat)
    requires w > 0 && k > 0 && k % w == 0 && (offset + head) % w == 0
    ensures (offset % k + head) % w == 0
  {
    var s := offset + head;
    AlignCore(w, k / w, offset / k, s / w, offset % k + head);
  }

  lemma AlignCore(w: nat, d: nat, q: nat, t: nat, x: nat)
    requires w > 0 && x == w * t - (w * d) * q
    ensures x % w == 0
  {
    var c := t - d * q;
    assert (w * d) * q == w * (d * q) by { Regroup(w, d, q, 0); }
    assert w * c == w * t - w * (d * q) by { Minus(w, t, d * q); }
    if c < 0 { MulBound(w, c); }
    ModUnique(w, c, 0);
  }

  lemma Minus(w: int, a: int, b: int)
    ensures w * (a - b) == w * a - w * b
  {
  }
}
