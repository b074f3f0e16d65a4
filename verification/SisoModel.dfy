/**
 The single-producer ring of `src/buffer/siso_ring_buffer.cpp` as values: 8-byte blocks in byte memory, six
 32-bit cursors, and each operation as a function of the whole ring.

 A chunk is an 8-byte head (block count, size) and its payload. The payload is contiguous: behind the head, or
 from byte 0 on when it does not fit before the ring's end.
 */
module SisoModel {
  import opened Words

  /** `n` blocks; `rt`/`wt` are the cursors cached by the reading and the writing thread. */
  datatype Ring = Ring(
    n: nat,
    mem: seq<byte>,
    rtR: u32, rtW: u32,
    wtR: u32, wtW: u32,
    reading: u32, writing: u32)

  // ---------------------------------------------------------------- geometry

  /** Block index `k` blocks past index `i`. */
  function At(n: nat, i: nat, k: nat): nat {
    if i + k < n then i + k else i + k - n
  }

  function Normal(size: nat): nat {
    (size + 8 + 7) / 8
  }

  /** The size is one the writer accepts at block `i`. */
  predicate Placeable(n: nat, i: nat, size: nat) {
    && i < n
    && (Normal(size) <= n && (Normal(size) <= n - i || Normal(size) + (n - i) - 1 <= n))
  }

  /** Blocks a chunk takes from block `i` on; the unused tail counts when the payload starts over at block 0. */
  function Blocks(n: nat, i: nat, size: nat): nat
    requires i < n
  {
    if Normal(size) > n - i then n - i + (size + 7) / 8 else Normal(size)
  }

  /** `get_block_data_addr`: where the reader looks for the payload. */
  function DataAt(n: nat, i: nat, size: nat): nat
    requires i < n
  {
    if size + 8 > (n - i) * 8 then 0 else i * 8 + 8
  }

  predicate Sized(mem: seq<byte>, n: nat, i: nat) {
    i < n && |mem| == 8 * n
  }

  function HeadBlocks(mem: seq<byte>, n: nat, i: nat): u32
    requires Sized(mem, n, i)
  {
    Load(mem, 8 * i)
  }

  function HeadSize(mem: seq<byte>, n: nat, i: nat): u32
    requires Sized(mem, n, i)
  {
    Load(mem, 8 * i + 4)
  }

  /** The head at block `i` is one the writer could have put there, within `rem` blocks. */
  predicate HeadOk(mem: seq<byte>, n: nat, i: nat, rem: nat) {
    && Sized(mem, n, i)
    && 0 < HeadBlocks(mem, n, i) <= rem
    && Placeable(n, i, HeadSize(mem, n, i)) && Blocks(n, i, HeadSize(mem, n, i)) == HeadBlocks(mem, n, i)
  }

  /** A payload and the address it is handed out at. */
  datatype Slot = Slot(addr: nat, data: seq<byte>)

  /** What a reader is handed for the chunk at block `i`. */
  function Payload(mem: seq<byte>, n: nat, i: nat): Slot
    requires Sized(mem, n, i)
  {
    var a, z := DataAt(n, i, HeadSize(mem, n, i)), HeadSize(mem, n, i);
    Slot(a, if a + z <= |mem| then mem[a..a + z] else [])
  }

  /** Payloads of the chunks that fill the `rem` blocks from block `i` on; None when they are not chunks. */
  function Parse(mem: seq<byte>, n: nat, i: nat, rem: nat): Option<seq<Slot>>
    requires Sized(mem, n, i) && rem <= n
    decreases rem
  {
    if rem == 0 then Some([])
    else if !HeadOk(mem, n, i, rem) then None
    else
      var b := HeadBlocks(mem, n, i);
      match Parse(mem, n, At(n, i, b), rem - b)
      case None => None
      case Some(q) => Some([Payload(mem, n, i)] + q)
  }

  // ---------------------------------------------------------------- operations

  /** A count of blocks the ring can have. */
  predicate CountOk(n: nat) {
    0 < n < 0x1000_0000 && TWO32 % n == 0
  }

  datatype AllocResult = SizeInvalid | NoSpace | Granted(addr: nat)

  datatype ReadResult = Empty | Chunk(addr: nat, size: nat)

  predicate Shaped(s: Ring) {
    CountOk(s.n) && |s.mem| == 8 * s.n
  }

  function Free(s: Ring): u32
    requires Shaped(s)
  {
    Dist(s.wtW, Plus(s.wtR, s.n))
  }

  /** The read cursor is loaded only when the cached one leaves too little room. */
  function Loaded(s: Ring, blocks: nat): Ring
    requires Shaped(s)
  {
    if Free(s) < blocks then s.(wtR := s.reading) else s
  }

  /** `alloc_write_chunk` up to its low-space report. */
  function Alloc(s: Ring, size: u32): (Ring, AllocResult)
    requires Shaped(s)
  {
    var i := s.wtW % s.n;
    if !Placeable(s.n, i, size) then (s, SizeInvalid)
    else
      var b := Blocks(s.n, i, size);
      var t := Loaded(s, b);
      if Free(t) < b then (t, NoSpace)
      else
        (t.(mem := Store(Store(s.mem, 8 * i, b), 8 * i + 4, size)),
         Granted(if Normal(size) > s.n - i then 0 else i * 8 + 8))
  }

  /**
   The low-space report: by the cached read cursor the allocation takes the ring from below half-full to half-full or
   more, and by the published one it is half-full with it too.
   */
  predicate CrossesHalf(s: Ring, size: u32) {
    && Shaped(s)
    && var b := Blocks(s.n, s.wtW % s.n, size);
    var known, used := s.n - Free(Loaded(s, b)), s.n - Free(s.(wtR := s.reading));
    2 * known < s.n <= 2 * (known + b) && s.n <= 2 * (used + b)
  }

  /** The load made when an allocation crosses half-full. */
  function Refresh(s: Ring): Ring {
    s.(wtR := s.reading)
  }

  /** `commit_write_chunk`. */
  function Commit(s: Ring): Ring
    requires Shaped(s)
  {
    var w := Plus(s.wtW, HeadBlocks(s.mem, s.n, s.wtW % s.n));
    s.(wtW := w, writing := w)
  }

  function LoadedWrite(s: Ring): Ring {
    if s.rtW == s.rtR then s.(rtW := s.writing) else s
  }

  /** `read_chunk`. */
  function Read(s: Ring): (Ring, ReadResult)
    requires Shaped(s)
  {
    var t := LoadedWrite(s);
    if t.rtW == t.rtR then (t, Empty)
    else
      var i := s.rtR % s.n;
      (t, Chunk(DataAt(s.n, i, HeadSize(s.mem, s.n, i)), HeadSize(s.mem, s.n, i)))
  }

  /** The reader's cursor past the chunk it stands at. */
  function Advanced(s: Ring): u32
    requires Shaped(s)
  {
    Plus(s.rtR, HeadBlocks(s.mem, s.n, s.rtR % s.n))
  }

  /** `return_read_chunk` of a chunk. */
  function Return(s: Ring): Ring
    requires Shaped(s)
  {
    s.(rtR := Advanced(s), reading := Advanced(s))
  }

  /** `next` of a batch. */
  function BatchNext(s: Ring): Ring
    requires Shaped(s)
  {
    s.(rtR := Advanced(s))
  }

  /** `return_batch_read_chunks`. */
  function BatchReturn(s: Ring): Ring {
    s.(reading := s.rtR)
  }

  // ---------------------------------------------------------------- the invariant and what the ring holds

  /** Going from `a` to `c` passes `b`. */
  predicate Between(a: u32, b: u32, c: u32) {
    Dist(a, b) + Dist(b, c) == Dist(a, c)
  }

  /** The chunks from cursor `a` to cursor `b`. */
  function Span(s: Ring, a: u32, b: u32): Option<seq<Slot>>
    requires Shaped(s) && Dist(a, b) <= s.n
  {
    Parse(s.mem, s.n, a % s.n, Dist(a, b))
  }

  /** Cursors in order: `wtR`, `reading`, `rtR`, `rtW`, `writing`, at most `n` blocks in all. */
  predicate Ordered(s: Ring) {
    && s.wtW == s.writing && Dist(s.wtR, s.writing) <= s.n
    && Between(s.wtR, s.reading, s.writing) && Between(s.reading, s.rtR, s.writing) && Between(s.rtR, s.rtW, s.writing)
  }

  predicate Inv(s: Ring) {
    && Shaped(s) && Ordered(s)
    && Span(s, s.reading, s.rtR).Some? && Span(s, s.rtR, s.rtW).Some? && Span(s, s.rtW, s.writing).Some?
    && Span(s, s.rtR, s.writing).Some?
  }

  /** Chunks committed and not yet handed to the reader; the queue the ring stands for. */
  function Unread(s: Ring): seq<Slot>
    requires Inv(s)
  {
    Span(s, s.rtR, s.writing).value
  }

  /** Chunks handed out in a batch and not yet returned. */
  function Held(s: Ring): seq<Slot>
    requires Inv(s)
  {
    Span(s, s.reading, s.rtR).value
  }

  /** An allocation of `size` bytes is open. */
  predicate Pending(s: Ring, size: nat) {
    && Shaped(s)
    && HeadOk(s.mem, s.n, s.wtW % s.n, s.n) && HeadSize(s.mem, s.n, s.wtW % s.n) == size
    && Dist(s.wtR, s.wtW) + HeadBlocks(s.mem, s.n, s.wtW % s.n) <= s.n
  }

  /** The client's store of payload byte `k` at the address it was given. */
  function Fill(s: Ring, addr: nat, k: nat, x: byte): Ring
    requires addr + k < |s.mem|
  {
    s.(mem := s.mem[addr + k := x])
  }
}
