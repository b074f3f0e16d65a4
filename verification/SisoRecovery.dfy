/** Rebuilding the single-producer ring from the bytes of a memory map, whatever they are. */
module SisoRecovery {
  import opened Words
  import opened Modular
  import opened SisoModel
  import opened SisoQueue

  /** `sizeof(head)`: four cache lines. */
  const HEAD: nat := 256

  function Pow(k: nat): nat {
    if k == 0 then 1 else 2 * Pow(k - 1)
  }

  /** Powers of two up to 2^32 divide it. */
  lemma {:induction false} PowDivides(k: nat)
    requires k <= 32
    ensures Pow(k) > 0 && TWO32 % Pow(k) == 0 && Pow(k) * Pow(32 - k) == TWO32
  {
    if k == 0 {
      assert Pow(8) == 0x100;
      assert Pow(16) == 0x1_0000;
      assert Pow(24) == 0x100_0000;
      assert Pow(32) == TWO32;
    } else {
      PowDivides(k - 1);
      assert Pow(32 - (k - 1)) == 2 * Pow(32 - k);
      assert (2 * Pow(k - 1)) * Pow(32 - k) == Pow(k - 1) * (2 * Pow(32 - k));
      Multiple(Pow(k), Pow(32 - k));
    }
  }

  lemma Multiple(a: nat, b: nat)
    requires a * b == TWO32
    ensures a > 0 && TWO32 % a == 0
  {
    ModUnique(a, b, 0);
  }

  lemma {:induction false} PowGrows(j: nat, k: nat)
    requires j <= k
    ensures Pow(j) <= Pow(k) && (j < k ==> 2 * Pow(j) <= Pow(k))
    decreases k
  {
    if j < k { PowGrows(j, k - 1); }
  }

  /** The block count a buffer of `max` blocks is used with: the largest power of two in it. */
  ghost predicate IsCount(max: nat, count: nat) {
    count <= max < 2 * count && exists k: nat :: count == Pow(k)
  }

  lemma CountValid(max: nat, count: nat)
    requires IsCount(max, count) && count < 0x1000_0000
    ensures CountOk(count)
  {
    var k: nat :| count == Pow(k);
    if k >= 32 {
      PowGrows(32, k);
      PowDivides(0);
    } else {
      PowDivides(k);
    }
  }

  /** The rounding loop. */
  method CountBlocks(max: nat) returns (count: nat)
    requires max >= 1
    ensures IsCount(max, count)
  {
    count := 1;
    ghost var k: nat := 0;
    assert Pow(0) == 1;
    while count <= max / 2
      invariant 1 <= count <= max && count == Pow(k)
      decreases max - count
    {
      count := count * 2;
      k := k + 1;
    }
  }

  /** The three saved words and the blocks of a storage. */
  ghost predicate Holds(storage: seq<byte>, n: nat, r: u32, w: u32, mem: seq<byte>) {
    && HEAD + 8 * n <= |storage| && mem == storage[HEAD..HEAD + 8 * n]
    && Load(storage, 0) == n && Load(storage, 4) == r && Load(storage, 68) == w
  }

  /** The ring that comes up from saved cursors. */
  function Revived(n: nat, mem: seq<byte>, r: u32, w: u32): Ring {
    Ring(n, mem, r, w, r, w, r, w)
  }

  /** The storage is one recovery must accept: the saved count is right and the cursors delimit chunks. */
  ghost predicate Acceptable(storage: seq<byte>, n: nat) {
    && HEAD + 8 * n <= |storage| && 0 < n
    && var r, w := Load(storage, 4), Load(storage, 68);
    Load(storage, 0) == n && Dist(r, w) <= n && Parse(storage[HEAD..HEAD + 8 * n], n, r % n, Dist(r, w)).Some?
  }

  /** `try_recover_from_exist_memory_map`, on any bytes. */
  method TryRecover(storage: array<byte>) returns (ok: bool, n: nat, r: u32, w: u32)
    requires storage.Length >= HEAD + 16
    requires storage.Length < HEAD + 8 * 0x1000_0000
    ensures IsCount((storage.Length - HEAD) / 8, n) && HEAD + 8 * n <= storage.Length && 0 < n
    ensures ok <==> Acceptable(storage[..], n)
    ensures r == Load(storage[..], 4) && w == Load(storage[..], 68)
  {
    hide Load, Parse, IsCount, CountOk;
    n := CountBlocks((storage.Length - HEAD) / 8);
    CountFits((storage.Length - HEAD) / 8, n);
    CountValid((storage.Length - HEAD) / 8, n);
    var savedCount := Load(storage[..], 0);
    r := Load(storage[..], 4);
    w := Load(storage[..], 68);
    if savedCount != n || Dist(r, w) > n {
      ok := false;
    } else {
      ok := WalkChunks(storage, n, r, w);
    }
  }

  lemma CountFits(max: nat, n: nat)
    requires IsCount(max, n)
    ensures 0 < n <= max
  {
  }

  /**
   The heads the walk accepts, in bytes: the count is within what is left, and the least that holds a head and the size next
   to it from that block on.
   */
  lemma HeadExactly(mem: seq<byte>, n: nat, i: nat, rem: nat)
    requires Sized(mem, n, i) && rem <= n
    ensures HeadOk(mem, n, i, rem) <==>
            0 < HeadBlocks(mem, n, i) <= rem && LeastFor(n, i, HeadSize(mem, n, i), HeadBlocks(mem, n, i))
  {
    hide HeadBlocks, HeadSize, Blocks, Placeable, LeastFor;
    BlocksLeast(n, i, HeadSize(mem, n, i), HeadBlocks(mem, n, i));
  }

  /** The validation walk from the saved read cursor to the saved write cursor. */
  method WalkChunks(storage: array<byte>, n: nat, r: u32, w: u32) returns (ok: bool)
    requires CountOk(n) && HEAD + 8 * n <= storage.Length && Dist(r, w) <= n
    ensures ok <==> Parse(storage[HEAD..HEAD + 8 * n], n, r % n, Dist(r, w)).Some?
  {
    hide Load, Parse, Dist, Plus;
    ghost var mem := storage[HEAD..HEAD + 8 * n];
    ok := false;
    var remaining := Dist(r, w);
    var cursor: u32 := r;
    while remaining != 0
      invariant remaining <= n && Dist(cursor, w) == remaining
      invariant Parse(mem, n, r % n, Dist(r, w)).Some? <==> Parse(mem, n, cursor % n, remaining).Some?
      decreases remaining
    {
      var index := cursor % n;
      var chunkBlocks := Load(storage[..], HEAD + 8 * index);
      var dataSize: nat := Load(storage[..], HEAD + 8 * index + 4);
      HeadInData(storage[..], n, index);
      assert storage[..][HEAD..HEAD + 8 * n] == mem;
      ParseUnfold(mem, n, index, remaining);
      if chunkBlocks == 0 || chunkBlocks > remaining {
        return;
      }
      var tail := n - index;
      var normal: nat := (dataSize + 8 + 7) / 8;
      if normal > n || (normal > tail && normal + tail - 1 > n) {
        return;
      }
      var expected: nat := if normal > tail then tail + (dataSize + 7) / 8 else normal;
      if expected != chunkBlocks {
        return;
      }
      IndexPlus(n, cursor, chunkBlocks);
      DistPlus(cursor, chunkBlocks, w);
      cursor := Plus(cursor, chunkBlocks);
      remaining := remaining - chunkBlocks;
    }
    ParseNone(mem, n, cursor % n);
    DistZero(cursor, w);
    ok := cursor == w;
  }

  lemma DistPlus(a: u32, b: u32, c: u32)
    requires b <= Dist(a, c)
    ensures Dist(Plus(a, b), c) == Dist(a, c) - b
  {
  }

  lemma DistZero(a: u32, b: u32)
    ensures Dist(a, b) == 0 <==> a == b
  {
  }

  lemma ParseNone(mem: seq<byte>, n: nat, i: nat)
    requires Sized(mem, n, i)
    ensures Parse(mem, n, i, 0) == Some([])
  {
  }

  lemma ParseUnfold(mem: seq<byte>, n: nat, i: nat, rem: nat)
    requires Sized(mem, n, i) && 0 < rem <= n
    ensures var b, z := HeadBlocks(mem, n, i), HeadSize(mem, n, i);
      Parse(mem, n, i, rem).Some? <==>
      && 0 < b <= rem && Placeable(n, i, z) && Blocks(n, i, z) == b && Parse(mem, n, At(n, i, b), rem - b).Some?
  {
  }

  lemma HeadInData(storage: seq<byte>, n: nat, i: nat)
    requires i < n && HEAD + 8 * n <= |storage|
    ensures var mem := storage[HEAD..HEAD + 8 * n];
      HeadBlocks(mem, n, i) == Load(storage, HEAD + 8 * i) && HeadSize(mem, n, i) == Load(storage, HEAD + 8 * i + 4)
  {
  }

  /** Whatever bytes are accepted, the ring that comes up satisfies the whole invariant. */
  lemma AcceptedIsValid(storage: seq<byte>, n: nat)
    requires HEAD + 8 * n <= |storage| && CountOk(n) && Acceptable(storage, n)
    ensures var s := Revived(n, storage[HEAD..HEAD + 8 * n], Load(storage, 4), Load(storage, 68));
      Inv(s) && Held(s) == [] && Span(s, s.reading, s.writing) == Some(Unread(s))
  {
    var s := Revived(n, storage[HEAD..HEAD + 8 * n], Load(storage, 4), Load(storage, 68));
    RevivedValid(s);
  }

  lemma RevivedValid(s: Ring)
    requires Shaped(s) && s == Revived(s.n, s.mem, s.reading, s.writing)
    requires Dist(s.reading, s.writing) <= s.n && Span(s, s.reading, s.writing).Some?
    ensures Inv(s)
    ensures Held(s) == []
  {
    hide Span, CountOk, Dist;
    DistSelf(s.reading);
    DistSelf(s.writing);
    SpanEmpty(s, s.reading);
    SpanEmpty(s, s.writing);
  }

  /** The image of any valid ring is accepted, with exactly its unread chunks; an open allocation is forgotten. */
  lemma ImageIsAccepted(s: Ring, storage: seq<byte>)
    requires Inv(s) && Holds(storage, s.n, s.rtR, s.wtW, s.mem)
    ensures Acceptable(storage, s.n)
    ensures var s' := Revived(s.n, s.mem, s.rtR, s.wtW); Inv(s') && Unread(s') == Unread(s) && Held(s') == []
  {
    hide Load, Parse;
    RevivedValid(Revived(s.n, s.mem, s.rtR, s.wtW));
  }
}
