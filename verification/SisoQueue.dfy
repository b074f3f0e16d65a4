/** What every operation of the single-producer ring does to the queue of byte strings it stands for. */
module SisoQueue {
  import opened Words
  import opened Modular
  import opened SisoModel

  // ---------------------------------------------------------------- geometry

  /** Writer and reader compute the same payload address; it lies in the chunk's own blocks behind its head. */
  lemma SameAddress(n: nat, i: nat, size: nat)
    requires i < n
    ensures DataAt(n, i, size) == if Normal(size) > n - i then 0 else i * 8 + 8
  {
  }

  /** Block that holds payload byte `k`, counted from the chunk's head. */
  function BlockOf(n: nat, i: nat, size: nat, k: nat): nat
    requires i < n && k < size
  {
    if Normal(size) > n - i then n - i + k / 8 else 1 + k / 8
  }

  lemma PayloadBlock(n: nat, i: nat, size: nat, k: nat)
    requires i < n && Placeable(n, i, size) && k < size
    ensures 0 < BlockOf(n, i, size, k) < Blocks(n, i, size) <= n
    ensures (DataAt(n, i, size) + k) / 8 == At(n, i, BlockOf(n, i, size, k))
    ensures DataAt(n, i, size) + size <= 8 * n
  {
    SameAddress(n, i, size);
  }

  lemma BlocksFit(n: nat, i: nat, size: nat)
    requires i < n && Placeable(n, i, size)
    ensures 0 < Blocks(n, i, size) <= n && DataAt(n, i, size) + size <= 8 * n
  {
    SameAddress(n, i, size);
  }

  /** Blocks less than `n` apart are different blocks. */
  lemma AtInjective(n: nat, i: nat, j: nat, k: nat)
    requires i < n && j < k < n
    ensures At(n, i, j) != At(n, i, k)
  {
  }

  // ---------------------------------------------------------------- frames

  predicate BlockSame(mem: seq<byte>, mem': seq<byte>, b: nat) {
    && |mem| == |mem'|
    && (8 * b + 8 <= |mem| ==> mem[8 * b..8 * b + 8] == mem'[8 * b..8 * b + 8])
  }

  /** The `k` blocks from block `i` on are unchanged. */
  ghost predicate Same(mem: seq<byte>, mem': seq<byte>, n: nat, i: nat, k: nat)
  {
    |mem| == |mem'| == 8 * n && i < n && k <= n && forall j :: 0 <= j < k ==> BlockSame(mem, mem', At(n, i, j))
  }

  lemma ByteSame(mem: seq<byte>, mem': seq<byte>, a: nat)
    requires |mem| == |mem'| && a / 8 * 8 + 8 <= |mem| && BlockSame(mem, mem', a / 8)
    ensures a < |mem| && mem[a] == mem'[a]
  {
    var b := a / 8;
    assert mem[8 * b..8 * b + 8][a % 8] == mem'[8 * b..8 * b + 8][a % 8];
  }

  lemma HeadSame(mem: seq<byte>, mem': seq<byte>, n: nat, i: nat)
    requires Sized(mem, n, i) && |mem'| == |mem| && BlockSame(mem, mem', i)
    ensures HeadBlocks(mem, n, i) == HeadBlocks(mem', n, i) && HeadSize(mem, n, i) == HeadSize(mem', n, i)
  {
    forall t | 8 * i <= t < 8 * i + 8 ensures mem[t] == mem'[t] { ByteSame(mem, mem', t); }
  }

  lemma PayloadSame(mem: seq<byte>, mem': seq<byte>, n: nat, i: nat)
    requires Sized(mem, n, i) && Placeable(n, i, HeadSize(mem, n, i))
    requires Same(mem, mem', n, i, Blocks(n, i, HeadSize(mem, n, i)))
    ensures Payload(mem, n, i) == Payload(mem', n, i)
  {
    hide Load, Placeable, Normal, DataAt, Blocks, BlockOf;
    var z := HeadSize(mem, n, i);
    BlocksFit(n, i, z);
    assert At(n, i, 0) == i;
    HeadSame(mem, mem', n, i);
    var a := DataAt(n, i, z);
    forall t | a <= t < a + z ensures mem[t] == mem'[t] {
      PayloadBlock(n, i, z, t - a);
      assert BlockSame(mem, mem', At(n, i, BlockOf(n, i, z, t - a)));
      ByteSame(mem, mem', t);
    }
  }

  lemma SameOn(mem: seq<byte>, mem': seq<byte>, n: nat, i: nat, a: nat, b: nat)
    requires a + b <= n && Same(mem, mem', n, i, a + b)
    ensures Same(mem, mem', n, i, a) && Same(mem, mem', n, At(n, i, a), b)
  {
    hide BlockSame;
    forall j | 0 <= j < b ensures BlockSame(mem, mem', At(n, At(n, i, a), j)) {
      assert At(n, At(n, i, a), j) == At(n, i, a + j);
    }
  }

  lemma {:induction false} ParseFrame(mem: seq<byte>, mem': seq<byte>, n: nat, i: nat, rem: nat)
    requires Sized(mem, n, i) && Same(mem, mem', n, i, rem)
    ensures Parse(mem, n, i, rem) == Parse(mem', n, i, rem)
    decreases rem
  {
    hide Load, Placeable, Payload, Blocks, BlockSame;
    if rem > 0 {
      assert At(n, i, 0) == i;
      HeadSame(mem, mem', n, i);
      if HeadOk(mem, n, i, rem) {
        var b := HeadBlocks(mem, n, i);
        SameOn(mem, mem', n, i, b, rem - b);
        PayloadSame(mem, mem', n, i);
        ParseFrame(mem, mem', n, At(n, i, b), rem - b);
      }
    }
  }

  /** Chunks that follow chunks. */
  lemma {:induction false} ParseJoin(mem: seq<byte>, n: nat, i: nat, a: nat, b: nat)
    requires Sized(mem, n, i) && a + b <= n && Parse(mem, n, i, a).Some? && Parse(mem, n, At(n, i, a), b).Some?
    ensures Parse(mem, n, i, a + b) == Some(Parse(mem, n, i, a).value + Parse(mem, n, At(n, i, a), b).value)
    decreases a
  {
    hide Load, Placeable, Payload, Blocks;
    if a > 0 {
      var c := HeadBlocks(mem, n, i);
      assert At(n, At(n, i, c), a - c) == At(n, i, a);
      ParseJoin(mem, n, At(n, i, c), a - c, b);
      var x, y := Parse(mem, n, At(n, i, c), a - c).value, Parse(mem, n, At(n, i, a), b).value;
      assert [Payload(mem, n, i)] + (x + y) == ([Payload(mem, n, i)] + x) + y;
    } else {
      assert At(n, i, 0) == i;
      var y := Parse(mem, n, i, b).value;
      assert [] + y == y;
    }
  }

  /** The slot's bytes are the ones now at its address. */
  predicate Intact(mem: seq<byte>, c: Slot) {
    c.addr + |c.data| <= |mem| && mem[c.addr..c.addr + |c.data|] == c.data
  }

  lemma PayloadIntact(mem: seq<byte>, n: nat, i: nat, rem: nat)
    requires Sized(mem, n, i) && rem <= n && HeadOk(mem, n, i, rem)
    ensures Intact(mem, Payload(mem, n, i))
  {
    hide Load, Normal, Blocks, DataAt;
    BlocksFit(n, i, HeadSize(mem, n, i));
  }

  lemma {:induction false} ParseIntact(mem: seq<byte>, n: nat, i: nat, rem: nat)
    requires Sized(mem, n, i) && rem <= n && Parse(mem, n, i, rem).Some?
    ensures forall c :: c in Parse(mem, n, i, rem).value ==> Intact(mem, c)
    decreases rem
  {
    hide Load, Blocks, Payload, Intact, Placeable;
    if rem > 0 {
      PayloadIntact(mem, n, i, rem);
      ParseIntact(mem, n, At(n, i, HeadBlocks(mem, n, i)), rem - HeadBlocks(mem, n, i));
    }
  }

  // ---------------------------------------------------------------- cursors

  /** The block `k` past a 32-bit cursor. */
  lemma IndexPlus(n: nat, a: u32, k: nat)
    requires CountOk(n) && k <= n
    ensures Plus(a, k) % n == At(n, a % n, k)
  {
    var q, m := a / n, a % n;
    var d := TWO32 / n;
    assert a == n * q + m && TWO32 == n * d;
    assert n * (q + 1) == n * q + n;
    var t := At(n, m, k);
    var q' := if m + k < n then q else q + 1;
    if a + k < TWO32 { ModUnique(n, q', t); } else { IndexCore(n, q', t, d, a + k - TWO32); }
  }

  lemma IndexCore(n: nat, q: nat, t: nat, d: nat, x: nat)
    requires t < n && x == n * q + t - n * d
    ensures x % n == t
  {
    assert n * (q - d) == n * q - n * d;
    if q < d { MulBound(n, q - d); }
    ModUnique(n, q - d, t);
  }

  lemma IndexDist(n: nat, a: u32, b: u32)
    requires CountOk(n) && Dist(a, b) <= n
    ensures b % n == At(n, a % n, Dist(a, b))
  {
    IndexPlus(n, a, Dist(a, b));
  }

  /** Cursors in order are in order pairwise. */
  lemma OrderFacts(s: Ring)
    requires Ordered(s) && Shaped(s)
    ensures Dist(s.reading, s.writing) <= Dist(s.wtR, s.writing) && Dist(s.reading, s.writing) <= s.n && Dist(s.rtR, s.writing) <= s.n && Dist(s.rtW, s.writing) <= s.n
    ensures Dist(s.reading, s.rtR) <= s.n && Dist(s.rtR, s.rtW) <= s.n
    ensures Between(s.reading, s.reading, s.writing) && Between(s.reading, s.rtW, s.writing)
    ensures Between(s.rtW, s.writing, s.writing) && Between(s.rtR, s.writing, s.writing)
    ensures Between(s.reading, s.rtR, s.rtW)
  {
  }

  /** Chunks up to `b`, then chunks up to `c`. */
  lemma SpanJoin(s: Ring, a: u32, b: u32, c: u32)
    requires Shaped(s) && Dist(a, b) + Dist(b, c) <= s.n && Dist(a, b) + Dist(b, c) == Dist(a, c)
    requires Span(s, a, b).Some? && Span(s, b, c).Some?
    ensures Span(s, a, c) == Some(Span(s, a, b).value + Span(s, b, c).value)
  {
    hide Parse;
    IndexDist(s.n, a, b);
    ParseJoin(s.mem, s.n, a % s.n, Dist(a, b), Dist(b, c));
  }

  /** The chunk at cursor `a`, alone. */
  lemma SpanOne(s: Ring, a: u32)
    requires Shaped(s) && HeadOk(s.mem, s.n, a % s.n, s.n)
    ensures var b := HeadBlocks(s.mem, s.n, a % s.n);
      && Dist(a, Plus(a, b)) == b && Span(s, a, Plus(a, b)) == Some([Payload(s.mem, s.n, a % s.n)])
  {
    hide Payload, Load, Placeable, Blocks;
    var i := a % s.n;
    var b := HeadBlocks(s.mem, s.n, i);
    assert Parse(s.mem, s.n, At(s.n, i, b), 0) == Some([]);
    assert [Payload(s.mem, s.n, i)] + [] == [Payload(s.mem, s.n, i)];
    assert Parse(s.mem, s.n, i, b) == Some([Payload(s.mem, s.n, i)]);
  }

  /** The first chunk of a nonempty span, and the rest. */
  lemma SpanSplit(s: Ring, a: u32, c: u32)
    requires Shaped(s) && 0 < Dist(a, c) <= s.n && Span(s, a, c).Some?
    ensures HeadOk(s.mem, s.n, a % s.n, Dist(a, c))
    ensures var b := Plus(a, HeadBlocks(s.mem, s.n, a % s.n));
      && Dist(a, b) + Dist(b, c) == Dist(a, c) && Dist(a, b) == HeadBlocks(s.mem, s.n, a % s.n)
      && Span(s, b, c).Some? && Span(s, a, c).value == [Payload(s.mem, s.n, a % s.n)] + Span(s, b, c).value
  {
    hide Payload, Load, Placeable, Blocks;
    IndexPlus(s.n, a, HeadBlocks(s.mem, s.n, a % s.n));
  }

  // ---------------------------------------------------------------- the writer

  /** Memory that agrees outside the blocks of an open allocation. */
  ghost predicate Outside(s: Ring, mem': seq<byte>, blocks: nat) {
    && Shaped(s)
    && |mem'| == |s.mem|
    && forall a :: 0 <= a < |s.mem| && s.mem[a] != mem'[a] ==>
         exists j :: 0 <= j < blocks && a / 8 == At(s.n, s.wtW % s.n, j)
  }

  /** A store into free blocks changes no chunk between two cursors of the live window. */
  lemma SpanOutside(s: Ring, s': Ring, blocks: nat, a: u32, b: u32)
    requires Inv(s) && s' == s.(mem := s'.mem, wtR := s'.wtR) && Outside(s, s'.mem, blocks)
    requires Dist(s.reading, s.wtW) + blocks <= s.n
    requires Between(s.reading, a, s.writing) && Between(a, b, s.writing)
    ensures Dist(a, b) <= s.n && Span(s', a, b) == Span(s, a, b)
  {
    hide Parse;
    var n, i, d := s.n, a % s.n, Dist(a, b);
    IndexDist(n, a, s.writing);
    forall j | 0 <= j < d ensures BlockSame(s.mem, s'.mem, At(n, i, j)) {
      forall k | 0 <= k < blocks ensures At(n, s.wtW % n, k) != At(n, i, j) {
        assert At(n, At(n, i, Dist(a, s.writing)), k) == At(n, i, Dist(a, s.writing) + k);
        AtInjective(n, i, j, Dist(a, s.writing) + k);
      }
      assert forall t :: 8 * At(n, i, j) <= t < 8 * At(n, i, j) + 8 && t < |s.mem| ==> s.mem[t] == s'.mem[t];
    }
    ParseFrame(s.mem, s'.mem, n, i, d);
  }

  /** So the writer's stores leave the queue and every handed-out chunk alone. */
  lemma WriterStores(s: Ring, s': Ring, blocks: nat)
    requires Inv(s) && s' == s.(mem := s'.mem, wtR := s'.wtR) && Outside(s, s'.mem, blocks)
    requires Dist(s.reading, s.wtW) + blocks <= s.n
    requires |s'.mem| == |s.mem| && Dist(s'.wtR, s.writing) <= s.n && Between(s'.wtR, s.reading, s.writing)
    ensures Inv(s') && Unread(s') == Unread(s) && Held(s') == Held(s)
  {
    hide Span, Outside, Dist, CountOk;
    OrderFacts(s);
    SpanOutside(s, s', blocks, s.reading, s.rtR);
    SpanOutside(s, s', blocks, s.rtR, s.rtW);
    SpanOutside(s, s', blocks, s.rtW, s.writing);
    SpanOutside(s, s', blocks, s.rtR, s.writing);
  }

  /** Blocks in use, as the published cursors have it. */
  function Used(s: Ring): nat {
    Dist(s.reading, s.writing)
  }

  lemma FreeExact(s: Ring)
    requires Inv(s)
    ensures Free(s) == s.n - Dist(s.wtR, s.writing) <= s.n - Used(s)
    ensures Free(s.(wtR := s.reading)) == s.n - Used(s)
  {
    hide Span;
  }

  /** Stale cursors never change the verdict: it is the one the published cursors give. */
  lemma AllocExact(s: Ring, size: u32)
    requires Inv(s)
    ensures Alloc(s, size).1 ==
            var i := s.wtW % s.n;
            if !Placeable(s.n, i, size) then SizeInvalid
            else if Used(s) + Blocks(s.n, i, size) > s.n then NoSpace
            else Granted(DataAt(s.n, i, size))
  {
    hide Span;
    FreeExact(s);
    var i := s.wtW % s.n;
    SameAddress(s.n, i, size);
  }

  /**
   `b` is the least count of 8-byte blocks that holds an 8-byte head and `size` bytes contiguously from block `i` on: behind
   the head where they fit before the ring's end, else the blocks to the end and the least count from block 0 on.
   */
  predicate LeastFor(n: nat, i: nat, size: nat, b: nat) {
    if 8 * i + 8 + size <= 8 * n then 8 * b - 8 < 8 + size <= 8 * b
    else n - i <= b && 8 * (b - (n - i)) - 8 < size <= 8 * (b - (n - i))
  }

  lemma BlocksLeast(n: nat, i: nat, size: nat, b: nat)
    requires i < n
    ensures LeastFor(n, i, size, b) <==> b == Blocks(n, i, size)
    ensures LeastFor(n, i, size, b) ==> (Placeable(n, i, size) <==> b <= n)
  {
  }

  /**
   The verdict in bytes. With `b` the least count that holds the chunk where the writer stands: refused for its size when it
   does not fit the ring, for space when it does not fit what is not in use, and otherwise granted with that count in its
   head, at the byte behind the head or at the ring's start.
   */
  lemma AllocLeast(s: Ring, size: u32, b: nat)
    requires Inv(s) && LeastFor(s.n, s.wtW % s.n, size, b)
    ensures var (s', r) := Alloc(s, size); var i := s.wtW % s.n;
      && (r == SizeInvalid <==> b > s.n)
      && (r == NoSpace <==> b <= s.n < Used(s) + b)
      && (r.Granted? <==> Used(s) + b <= s.n)
      && (r.Granted? ==>
            && Shaped(s') && HeadBlocks(s'.mem, s.n, i) == b && HeadSize(s'.mem, s.n, i) == size
            && r.addr == if 8 * i + 8 + size <= 8 * s.n then 8 * i + 8 else 0)
  {
    hide Blocks, Placeable, Inv, LeastFor;
    assert s.n > 0 && Shaped(s) by { Positive(s); }
    BlocksLeast(s.n, s.wtW % s.n, size, b);
    AllocExact(s, size);
    if Alloc(s, size).1.Granted? { AllocHead(s, size); }
  }

  lemma Positive(s: Ring)
    requires Inv(s)
    ensures s.n > 0 && Shaped(s)
  {
    hide Span, Ordered;
  }

  /** The low-space report as the allocated ring has it. */
  predicate LowNow(s: Ring, b: nat) {
    && Shaped(s)
    && 2 * (s.n - Free(s)) < s.n <= 2 * (s.n - Free(s) + b) && s.n <= 2 * (s.n - Free(Refresh(s)) + b)
  }

  lemma ReportExact(s: Ring, size: u32)
    requires Inv(s)
    ensures var t := Alloc(s, size).0;
      && Shaped(t) && (Alloc(s, size).1.Granted? ==> LowNow(t, Blocks(s.n, s.wtW % s.n, size)) == CrossesHalf(s, size))
  {
    hide Span, Dist, Plus, Blocks, Placeable;
  }

  /** Storing the two words of a head. */
  lemma HeadStored(mem: seq<byte>, n: nat, i: nat, b: u32, size: u32)
    requires Sized(mem, n, i)
    ensures var m := Store(Store(mem, 8 * i, b), 8 * i + 4, size);
      && |m| == |mem| && HeadBlocks(m, n, i) == b && HeadSize(m, n, i) == size
      && forall a :: 0 <= a < |mem| && mem[a] != m[a] ==> a / 8 == i
  {
    hide Load, Store;
    var m := Store(mem, 8 * i, b);
    LoadStore(mem, 8 * i, b);
    LoadStore(m, 8 * i + 4, size);
    assert forall t :: 8 * i <= t < 8 * i + 4 ==> Store(m, 8 * i + 4, size)[t] == m[t];
    LoadSame(m, Store(m, 8 * i + 4, size), 8 * i);
  }

  lemma AllocHead(s: Ring, size: u32)
    requires Inv(s) && Alloc(s, size).1.Granted?
    ensures var s' := Alloc(s, size).0; var i := s.wtW % s.n;
      && Shaped(s') && HeadBlocks(s'.mem, s.n, i) == Blocks(s.n, i, size) && HeadSize(s'.mem, s.n, i) == size
      && Outside(s, s'.mem, Blocks(s.n, i, size)) && s' == s.(mem := s'.mem, wtR := s'.wtR)
  {
    hide Span, Load, Store, HeadBlocks, HeadSize, Dist, Plus, Ordered;
    var i := s.wtW % s.n;
    BlocksFit(s.n, i, size);
    HeadStored(s.mem, s.n, i, Blocks(s.n, i, size), size);
    assert At(s.n, i, 0) == i;
  }

  /** `alloc_write_chunk` leaves the queue alone; a granted chunk has a head that parses and room that is free. */
  lemma AllocKeeps(s: Ring, size: u32)
    requires Inv(s)
    ensures var s' := Alloc(s, size).0;
      && Inv(s') && Unread(s') == Unread(s) && Held(s') == Held(s) && Used(s') == Used(s)
      && (Alloc(s, size).1.Granted? ==> Pending(s', size))
  {
    hide Span, Load, Store, Outside, Placeable, Blocks;
    var i := s.wtW % s.n;
    var s' := Alloc(s, size).0;
    FreeExact(s);
    AllocExact(s, size);
    if Alloc(s, size).1.Granted? {
      AllocHead(s, size);
      BlocksFit(s.n, i, size);
      WriterStores(s, s', Blocks(s.n, i, size));
    } else {
      assert Outside(s, s.mem, 0) by { OutsideSelf(s); }
      WriterStores(s, s', 0);
    }
  }

  lemma OutsideSelf(s: Ring)
    requires Shaped(s)
    ensures Outside(s, s.mem, 0)
  {
  }

  lemma RefreshKeeps(s: Ring)
    requires Inv(s)
    ensures Inv(Refresh(s)) && Unread(Refresh(s)) == Unread(s) && Held(Refresh(s)) == Held(s)
    ensures forall size :: Pending(s, size) ==> Pending(Refresh(s), size)
  {
    hide Span, Parse;
    OutsideSelf(s);
    WriterStores(s, Refresh(s), 0);
  }

  /** No payload byte falls on a head or in an unread or handed-out chunk: its block is one past the head's. */
  lemma PayloadApart(s: Ring, size: nat, k: nat)
    requires Inv(s) && Pending(s, size) && k < size
    ensures var i := s.wtW % s.n; var a := DataAt(s.n, i, size) + k;
      && a < |s.mem| && a / 8 != i
      && (forall j :: 0 <= j < Used(s) ==> a / 8 != At(s.n, s.reading % s.n, j))
      && (exists j :: 0 < j < HeadBlocks(s.mem, s.n, i) && a / 8 == At(s.n, i, j))
  {
    hide Span, Load, Placeable, Blocks;
    var n, i := s.n, s.wtW % s.n;
    PayloadBlock(n, i, size, k);
    var b := BlockOf(n, i, size, k);
    assert At(n, i, 0) == i;
    AtInjective(n, i, 0, b);
    var r, d := s.reading % n, Used(s);
    IndexDist(n, s.reading, s.writing);
    assert At(n, At(n, r, d), b) == At(n, r, d + b);
    forall j | 0 <= j < d ensures At(n, i, b) != At(n, r, j) { AtInjective(n, r, j, d + b); }
  }

  /** What the open allocation will deliver when committed now. */
  function Draft(s: Ring): Slot
    requires Shaped(s)
  {
    Payload(s.mem, s.n, s.wtW % s.n)
  }

  /** A payload store at the granted address changes that byte of the draft and nothing else. */
  lemma FillKeeps(s: Ring, size: nat, k: nat, x: byte)
    requires Inv(s) && Pending(s, size) && k < size && DataAt(s.n, s.wtW % s.n, size) + size <= |s.mem|
    ensures var s' := Fill(s, DataAt(s.n, s.wtW % s.n, size), k, x);
      && Inv(s') && Pending(s', size) && Unread(s') == Unread(s) && Held(s') == Held(s)
      && |Draft(s).data| == size && Draft(s') == Draft(s).(data := Draft(s).data[k := x])
  {
    hide Span, Load, Placeable, Blocks, DataAt;
    var n, i := s.n, s.wtW % s.n;
    var b := HeadBlocks(s.mem, n, i);
    var a := DataAt(n, i, size);
    var s' := Fill(s, a, k, x);
    PayloadApart(s, size, k);
    assert Outside(s, s'.mem, b);
    WriterStores(s, s', b);
    assert BlockSame(s.mem, s'.mem, i) by {
      forall t | 8 * i <= t < 8 * i + 8 ensures s.mem[t] == s'.mem[t] { }
    }
    HeadSame(s.mem, s'.mem, n, i);
  }

  lemma PendingFits(s: Ring, size: nat)
    requires Shaped(s) && Pending(s, size)
    ensures var a := DataAt(s.n, s.wtW % s.n, size); a + size <= |s.mem| && Draft(s) == Slot(a, s.mem[a..a + size])
  {
    hide Load;
    BlocksFit(s.n, s.wtW % s.n, size);
  }

  /** Stores into the open allocation only: cursors, queue and held chunks as in `s0`. */
  ghost predicate Drafting(s0: Ring, s: Ring, addr: nat, size: nat) {
    && Inv(s0) && Inv(s) && Unread(s) == Unread(s0) && Held(s) == Held(s0) && s == s0.(mem := s.mem)
    && Pending(s, size) && addr == DataAt(s.n, s.wtW % s.n, size) && addr + size <= |s.mem|
  }

  /** What the open allocation holds: the first `k` bytes of `payload`. */
  ghost predicate Copied(s0: Ring, s: Ring, addr: nat, payload: seq<byte>, k: nat) {
    && Drafting(s0, s, addr, |payload|) && k <= |payload|
    && |Draft(s).data| == |payload| && Draft(s).data[..k] == payload[..k]
  }

  lemma DraftingFill(s0: Ring, s: Ring, addr: nat, size: nat, k: nat, x: byte)
    requires k < size && addr + size <= |s.mem| && Drafting(s0, s, addr, size)
    ensures Shaped(s) && Shaped(Fill(s, addr, k, x)) && Drafting(s0, Fill(s, addr, k, x), addr, size)
    ensures Draft(Fill(s, addr, k, x)) == Draft(s).(data := Draft(s).data[k := x])
  {
    hide Payload, Load, DataAt, HeadOk, Span, Ordered, CountOk;
    FillKeeps(s, size, k, x);
  }

  lemma CopyStep(s0: Ring, s: Ring, addr: nat, payload: seq<byte>, k: nat)
    requires k < |payload| && addr + |payload| <= |s.mem| && Copied(s0, s, addr, payload, k)
    ensures Copied(s0, Fill(s, addr, k, payload[k]), addr, payload, k + 1)
  {
    hide Drafting, Shaped, Payload, Draft;
    DraftingFill(s0, s, addr, |payload|, k, payload[k]);
    var d, d' := Draft(s).data, Draft(Fill(s, addr, k, payload[k])).data;
    assert d'[..k + 1] == d[..k] + [payload[k]] == payload[..k + 1];
  }

  lemma CopyStart(s: Ring, payload: seq<byte>)
    requires Inv(s) && Pending(s, |payload|)
    ensures Copied(s, s, DataAt(s.n, s.wtW % s.n, |payload|), payload, 0)
  {
    hide Payload, Load, DataAt, HeadOk, Span, Ordered;
    PendingFits(s, |payload|);
  }

  lemma CopyFits(s: Ring, addr: nat, payload: seq<byte>)
    requires Copied(s, s, addr, payload, 0)
    ensures addr + |payload| <= |s.mem|
  {
    hide Inv, Pending, DataAt, Payload;
  }

  lemma CopyDone(s0: Ring, s: Ring, addr: nat, payload: seq<byte>)
    requires Copied(s0, s, addr, payload, |payload|)
    ensures Inv(s0) && Inv(s) && Pending(s, |payload|) && Draft(s) == Slot(addr, payload)
    ensures Unread(s) == Unread(s0) && Held(s) == Held(s0) && s == s0.(mem := s.mem)
  {
    hide Load, HeadOk, Span, Ordered, CountOk, DataAt;
    assert payload[..|payload|] == payload && Draft(s).data[..|payload|] == Draft(s).data;
  }

  /** `commit_write_chunk` appends the payload to the queue. */
  lemma CommitKeeps(s: Ring, size: nat)
    requires Inv(s) && Pending(s, size)
    ensures var s' := Commit(s); Inv(s') && Unread(s') == Unread(s) + [Draft(s)] && Held(s') == Held(s)
  {
    hide Span, Load, Placeable, Blocks, Payload, CountOk, Dist;
    var s' := Commit(s);
    OrderFacts(s);
    SpanOne(s, s.wtW);
    SpanMem(s, s');
    CommitOrder(s, s');
    SpanJoin(s, s.rtR, s.writing, s'.writing);
    SpanJoin(s, s.rtW, s.writing, s'.writing);
  }

  /** The write cursor moves on over free blocks. */
  lemma CommitOrder(s: Ring, s': Ring)
    requires Ordered(s) && Shaped(s) && s' == s.(wtW := s'.writing, writing := s'.writing)
    requires Dist(s.wtR, s.writing) + Dist(s.writing, s'.writing) <= s.n
    ensures Ordered(s')
    ensures Between(s.rtR, s.writing, s'.writing) && Between(s.rtW, s.writing, s'.writing)
    ensures Dist(s.rtR, s'.writing) <= s.n && Dist(s.rtW, s'.writing) <= s.n
  {
  }

  lemma SpanMem(s: Ring, s': Ring)
    requires Shaped(s) && s'.n == s.n && s'.mem == s.mem
    ensures forall a: u32, b: u32 :: Dist(a, b) <= s.n ==> Span(s', a, b) == Span(s, a, b)
  {
  }

  // ---------------------------------------------------------------- the reader

  /** `read_chunk` reports empty exactly when nothing is unread, and otherwise hands out the oldest chunk. */
  lemma ReadKeeps(s: Ring)
    requires Inv(s)
    ensures var s' := Read(s).0; Inv(s') && Unread(s') == Unread(s) && Held(s') == Held(s)
    ensures Read(s).1.Empty? <==> Unread(s) == []
    ensures Read(s).1.Chunk? ==> var c := Read(s).1;
      && c.addr + c.size <= |s.mem| && Unread(s)[0] == Slot(c.addr, s.mem[c.addr..c.addr + c.size])
      && Read(s).0.rtR != Read(s).0.rtW
  {
    hide Span, Load, Placeable, Blocks, DataAt;
    var s' := Read(s).0;
    SpanMem(s, s');
    assert Span(s, s.writing, s.writing) == Some([]) by { SpanEmpty(s, s.writing); }
    assert Span(s, s.rtR, s.rtR) == Some([]) by { SpanEmpty(s, s.rtR); }
    if s.rtR != s.writing {
      SpanSplit(s, s.rtR, s.writing);
      BlocksFit(s.n, s.rtR % s.n, HeadSize(s.mem, s.n, s.rtR % s.n));
    }
  }

  lemma SpanEmpty(s: Ring, a: u32)
    requires Shaped(s)
    ensures Span(s, a, a) == Some([])
  {
  }

  /** Past one chunk of a batch: the oldest unread chunk becomes the last one held. */
  lemma NextKeeps(s: Ring)
    requires Inv(s) && s.rtR != s.rtW
    ensures var s' := BatchNext(s);
      && Inv(s') && Unread(s) == [Payload(s.mem, s.n, s.rtR % s.n)] + Unread(s')
      && Held(s') == Held(s) + [Payload(s.mem, s.n, s.rtR % s.n)]
  {
    hide Span, Load, Placeable, Blocks, Payload;
    var s' := BatchNext(s);
    SpanMem(s, s');
    SpanSplit(s, s.rtR, s.rtW);
    SpanSplit(s, s.rtR, s.writing);
    SpanOne(s, s.rtR);
    SpanJoin(s, s.reading, s.rtR, s'.rtR);
  }

  /** Returning a batch gives up what is held and nothing else. */
  lemma BatchReturnKeeps(s: Ring)
    requires Inv(s)
    ensures Inv(BatchReturn(s)) && Unread(BatchReturn(s)) == Unread(s) && Held(BatchReturn(s)) == []
  {
    hide Span;
    SpanMem(s, BatchReturn(s));
    SpanEmpty(s, s.rtR);
  }

  /** Returning a chunk removes the oldest one. */
  lemma ReturnKeeps(s: Ring)
    requires Inv(s) && s.rtR != s.rtW
    ensures Inv(Return(s)) && Unread(s) == [Payload(s.mem, s.n, s.rtR % s.n)] + Unread(Return(s)) && Held(Return(s)) == []
  {
    hide Span, Load, Payload, Ordered;
    NextKeeps(s);
    assert Return(s) == BatchReturn(BatchNext(s));
    BatchReturnKeeps(BatchNext(s));
  }

  /** With all cursors equal the ring is empty, whatever its bytes. */
  lemma EmptyRing(s: Ring, c: u32)
    requires Shaped(s) && s == Ring(s.n, s.mem, c, c, c, c, c, c)
    ensures Inv(s)
    ensures Unread(s) == [] && Held(s) == []
  {
    hide Span, CountOk, Dist;
    DistSelf(c);
    SpanEmpty(s, c);
  }

  lemma DistSelf(a: u32)
    ensures Dist(a, a) == 0
  {
  }
}
