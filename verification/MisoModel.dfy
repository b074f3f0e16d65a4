/**
 The multi-producer ring of `src/buffer/miso_ring_buffer.cpp`, one atomic access per step.

 Cursors are unbounded naturals; the code sees them modulo 2^32, and every test below is made on the 32-bit
 difference as the code makes it. `n` is the number of 64-byte blocks. A block is its 8-byte head (chunk
 length, status, data size) and its remaining 56 bytes. A payload longer than 56 bytes runs over the heads of
 the blocks that follow, so those status words hold arbitrary bytes.
 */
module MisoModel {
  import opened Words

  datatype Cell = Cell(num: nat, status: nat, size: nat, body: seq<byte>)

  const UNUSED: nat := 0
  const USED: nat := 1
  const INVALID: nat := 2

  const MAX_BLOCK_NUM: nat := 0xFFFFFF

  /** What a committed chunk holds: its size, and its bytes as the tail of one block and whole blocks. */
  datatype Chunk = Chunk(size: nat, first: seq<byte>, rest: seq<Cell>)

  datatype Phase =
    | Tentative       // added to the write cursor, not yet known to fit
    | Owned           // known to fit, head not written
    | Numbered        // length written
    | Skip            // published as a wrap chunk
    | Passing         // a wrap chunk whose status the reader has cleared, with its cursor still to move
    | Writing         // size written, payload under way
    | Done            // committed

  /** One reservation: the blocks `[start, start + len)`. */
  datatype Resv = Resv(start: nat, len: nat, size: nat, owner: nat, phase: Phase, chunk: Chunk)

  datatype Pc =
    | Out
    | Pre(cw: nat, size: nat)      // about to make the capacity test with this write cursor
    | Go(size: nat)                // about to fetch_add
    | Busy(j: nat, late: bool)    // holds reservation j; late: read cursor just reloaded, still too full

  /** A producer and its cached read cursor. */
  datatype Producer = Producer(ref: nat, pc: Pc)

  datatype ReaderPc =
    | Idle
    | Got(chunk: Chunk)
    | Empty
    | Skipping(num: nat)           // between the two stores that skip a wrap chunk
    | Clearing(i: nat)

  /**
   `res` keeps every reservation that was not rolled back, from cursor `base` on; the reader stands at
   reservation `k`. `r` is the published read cursor, which `read_cursor_start_cache_` always equals.
   */
  datatype State = State(
    n: nat,
    mem: seq<Cell>,
    w: nat,                        // write_cursor_
    r: nat,                        // read_cursor_
    rc: nat,                       // read_cursor_cache_
    prods: map<nat, Producer>,
    reader: ReaderPc,
    base: nat,
    res: seq<Resv>,
    k: nat,
    delivered: seq<Chunk>)

  // ---------------------------------------------------------------- geometry

  /** Blocks for a payload of this size behind an 8-byte head. */
  function Need(size: nat): nat {
    (size + 8 + 63) / 64
  }

  predicate SizeOk(n: nat, size: nat) {
    size + 8 < TWO32 && Need(size) <= n && Need(size) <= MAX_BLOCK_NUM
  }

  /** A block count the ring can have: a power of two, seen as a divisor of 2^32. */
  predicate CountOk(n: nat) {
    n > 0 && TWO32 % n == 0
  }

  function End(x: Resv): nat {
    x.start + x.len
  }

  /** The chunk that starts at block index `i`, as its reader sees it. */
  function ChunkAt(mem: seq<Cell>, i: nat, len: nat): Chunk
    requires 0 < len && i + len <= |mem|
  {
    Chunk(mem[i].size, mem[i].body, mem[i + 1..i + len])
  }

  // ---------------------------------------------------------------- producer steps

  predicate Blank(c: Cell) {
    c.status == UNUSED
  }

  ghost predicate Init(s: State) {
    && CountOk(s.n) && |s.mem| == s.n && (forall i :: 0 <= i < s.n ==> Blank(s.mem[i]))
    && s == State(s.n, s.mem, 0, 0, 0, map[], Idle, 0, [], 0, [])
  }

  /** First use by a producer: cache the read cursor. */
  ghost predicate Enlist(s: State, s': State, p: nat) {
    p !in s.prods && s' == s.(prods := s.prods[p := Producer(s.r, Out)])
  }

  ghost predicate Start(s: State, s': State, p: nat, size: nat) {
    && p in s.prods && s.prods[p].pc == Out && SizeOk(s.n, size)
    && s' == s.(prods := s.prods[p := s.prods[p].(pc := Pre(s.w, size))])
  }

  /** The capacity test before the reservation, first against the cached read cursor, then the published one. */
  ghost predicate Pass(s: State, s': State, p: nat) {
    && p in s.prods && s.prods[p].pc.Pre?
    && var q := s.prods[p]; var want := q.pc.cw + Need(q.pc.size);
    if U32(want - q.ref) <= s.n then
      s' == s.(prods := s.prods[p := q.(pc := Go(q.pc.size))])
    else
      U32(want - s.r) <= s.n && s' == s.(prods := s.prods[p := Producer(s.r, Go(q.pc.size))])
  }

  ghost predicate Refuse(s: State, s': State, p: nat) {
    && p in s.prods && s.prods[p].pc.Pre?
    && var q := s.prods[p]; var want := q.pc.cw + Need(q.pc.size);
    && U32(want - q.ref) > s.n && U32(want - s.r) > s.n
    && s' == s.(prods := s.prods[p := Producer(s.r, Out)])
  }

  ghost predicate FetchAdd(s: State, s': State, p: nat) {
    && p in s.prods && s.prods[p].pc.Go?
    && var q := s.prods[p]; var need := Need(q.pc.size);
    s' == s.(w := s.w + need,
             res := s.res + [Resv(s.w, need, q.pc.size, p, Tentative, Chunk(0, [], []))],
             prods := s.prods[p := q.(pc := Busy(|s.res|, false))])
  }

  /** Producer `p` holds reservation `j` in this phase. */
  ghost predicate Holds(s: State, p: nat, phase: Phase) {
    && p in s.prods && s.prods[p].pc.Busy? && s.prods[p].pc.j < |s.res|
    && s.res[s.prods[p].pc.j].phase == phase
  }

  function Mine(s: State, p: nat): Resv
    requires p in s.prods && s.prods[p].pc.Busy? && s.prods[p].pc.j < |s.res|
  {
    s.res[s.prods[p].pc.j]
  }

  function SetMine(s: State, p: nat, x: Resv): State
    requires p in s.prods && s.prods[p].pc.Busy? && s.prods[p].pc.j < |s.res|
  {
    s.(res := s.res[s.prods[p].pc.j := x])
  }

  ghost predicate Accept(s: State, s': State, p: nat) {
    && Holds(s, p, Tentative) && U32(End(Mine(s, p)) - s.prods[p].ref) < s.n
    && s' == SetMine(s, p, Mine(s, p).(phase := Owned))
  }

  ghost predicate Reload(s: State, s': State, p: nat) {
    && Holds(s, p, Tentative) && !s.prods[p].pc.late && U32(End(Mine(s, p)) - s.prods[p].ref) >= s.n
    && s' == s.(prods := s.prods[p := Producer(s.r, s.prods[p].pc.(late := U32(End(Mine(s, p)) - s.r) >= s.n))])
  }

  /** The compare-and-swap that takes the reservation back; it looks only at the write cursor's 32 bits. */
  ghost predicate Rollback(s: State, s': State, p: nat) {
    && Holds(s, p, Tentative) && s.prods[p].pc.late && U32(s.w) == U32(End(Mine(s, p)))
    && s.w >= Mine(s, p).len && |s.res| > 0
    && s' == s.(w := s.w - Mine(s, p).len, res := s.res[..|s.res| - 1],
                prods := s.prods[p := s.prods[p].(pc := Out)])
  }

  ghost predicate RollbackFails(s: State, s': State, p: nat) {
    && Holds(s, p, Tentative) && s.prods[p].pc.late && U32(s.w) != U32(End(Mine(s, p)))
    && s' == s.(prods := s.prods[p := s.prods[p].(pc := s.prods[p].pc.(late := false))])
  }

  /** Store to the block at cursor `c`. */
  function Put(s: State, c: nat, x: Cell): State
    requires s.n == |s.mem| > 0
  {
    s.(mem := s.mem[c % s.n := x])
  }

  function Get(s: State, c: nat): Cell
    requires s.n == |s.mem| > 0
  {
    s.mem[c % s.n]
  }

  /** `set_block_num` stores a whole 32-bit word, so it also writes the status byte: 0. */
  ghost predicate PutNum(s: State, s': State, p: nat) {
    && s.n == |s.mem| > 0 && Holds(s, p, Owned)
    && var x := Mine(s, p);
    s' == SetMine(Put(s, x.start, Get(s, x.start).(num := x.len, status := UNUSED)), p, x.(phase := Numbered))
  }

  predicate Contiguous(n: nat, x: Resv) {
    && n > 0
    && x.start % n + x.len <= n
  }

  /** A reservation across the ring's end is published as a wrap chunk and the producer tries again. */
  ghost predicate Wrap(s: State, s': State, p: nat) {
    && s.n == |s.mem| > 0 && Holds(s, p, Numbered)
    && var x := Mine(s, p);
    && !Contiguous(s.n, x)
    && s' == SetMine(Put(s, x.start, Get(s, x.start).(status := INVALID)), p, x.(phase := Skip))
             .(prods := s.prods[p := s.prods[p].(pc := Pre(x.start, x.size))])
  }

  ghost predicate PutSize(s: State, s': State, p: nat) {
    && s.n == |s.mem| > 0 && Holds(s, p, Numbered)
    && var x := Mine(s, p);
    && Contiguous(s.n, x)
    && s' == SetMine(Put(s, x.start, Get(s, x.start).(size := x.size)), p, x.(phase := Writing))
  }

  /** The low-space path reloads the cached read cursor once more. */
  ghost predicate Refresh(s: State, s': State, p: nat) {
    && Holds(s, p, Writing)
    && s' == s.(prods := s.prods[p := s.prods[p].(ref := s.r)])
  }

  /** Payload into the rest of the first block, or over the whole of a later one, head included. */
  ghost predicate Fill(s: State, s': State, p: nat, i: nat, x: Cell) {
    && s.n == |s.mem| > 0 && Holds(s, p, Writing) && i < Mine(s, p).len && Contiguous(s.n, Mine(s, p))
    && var at := Mine(s, p).start % s.n + i;
    && (i == 0 ==> x == s.mem[at].(body := x.body))
    && s' == s.(mem := s.mem[at := x])
  }

  ghost predicate Commit(s: State, s': State, p: nat) {
    && s.n == |s.mem| > 0 && Holds(s, p, Writing) && Contiguous(s.n, Mine(s, p)) && Mine(s, p).len > 0
    && var x := Mine(s, p);
    s' == SetMine(Put(s, x.start, Get(s, x.start).(status := USED)), p,
                  x.(phase := Done, chunk := ChunkAt(s.mem, x.start % s.n, x.len)))
          .(prods := s.prods[p := s.prods[p].(pc := Out)])
  }

  // ---------------------------------------------------------------- reader steps

  /** A wrap chunk is skipped by two stores: first its status, then the cached cursor. */
  ghost predicate SkipClear(s: State, s': State) {
    && s.n == |s.mem| > 0 && s.reader == Idle && Get(s, s.rc).status == INVALID && s.k < |s.res|
    && s' == Put(s, s.rc, Get(s, s.rc).(status := UNUSED))
             .(reader := Skipping(Get(s, s.rc).num), res := s.res[s.k := s.res[s.k].(phase := Passing)])
  }

  ghost predicate SkipMove(s: State, s': State) {
    && s.reader.Skipping? && s.k < |s.res|
    && s' == s.(rc := s.rc + s.reader.num, k := s.k + 1, reader := Idle, res := s.res[s.k := s.res[s.k].(phase := Skip)])
  }

  ghost predicate SeeEmpty(s: State, s': State) {
    && s.n == |s.mem| > 0 && s.reader == Idle && Get(s, s.rc).status == UNUSED
    && s' == s.(reader := Empty)
  }

  /** `read_an_empty_chunk`: empty without a look at the ring. */
  ghost predicate TakeEmpty(s: State, s': State) {
    s.reader == Idle && s' == s.(reader := Empty)
  }

  ghost predicate SeeUsed(s: State, s': State) {
    && s.n == |s.mem| > 0 && s.reader == Idle && Get(s, s.rc).status == USED
    && 0 < Get(s, s.rc).num && s.rc % s.n + Get(s, s.rc).num <= s.n
    && s' == s.(reader := Got(ChunkAt(s.mem, s.rc % s.n, Get(s, s.rc).num)))
  }

  /** `discard_read_chunk`: leave the chunk where it is. */
  ghost predicate Discard(s: State, s': State) {
    s.reader.Got? && s' == s.(reader := Idle)
  }

  ghost predicate Return(s: State, s': State) {
    && s.n == |s.mem| > 0 && s.reader.Got?
    && var rc' := s.rc + Get(s, s.rc).num;
    s' == s.(rc := rc', k := s.k + 1, delivered := s.delivered + [s.reader.chunk],
             reader := if U32(rc' - s.r) >= s.n / 4 && U32(rc' - s.r) > 0 then Clearing(0) else Idle)
  }

  ghost predicate ReturnEmpty(s: State, s': State) {
    && s.reader == Empty
    && s' == s.(reader := if U32(s.rc - s.r) > 0 then Clearing(0) else Idle)
  }

  ghost predicate ClearOne(s: State, s': State) {
    && s.n == |s.mem| > 0 && s.reader.Clearing? && s.reader.i < U32(s.rc - s.r)
    && s' == Put(s, s.r + s.reader.i, Get(s, s.r + s.reader.i).(status := UNUSED))
             .(reader := Clearing(s.reader.i + 1))
  }

  ghost predicate Publish(s: State, s': State) {
    && s.reader.Clearing? && s.reader.i == U32(s.rc - s.r)
    && s' == s.(r := s.rc, reader := Idle)
  }

  // ---------------------------------------------------------------- runs

  datatype Step =
    | PEnlist(p: nat) | PStart(p: nat, size: nat) | PPass(p: nat) | PRefuse(p: nat) | PFetchAdd(p: nat)
    | PAccept(p: nat) | PReload(p: nat) | PRollback(p: nat) | PRollbackFails(p: nat) | PPutNum(p: nat)
    | PWrap(p: nat) | PPutSize(p: nat) | PRefresh(p: nat) | PFill(p: nat, i: nat, x: Cell) | PCommit(p: nat)
    | RSkipClear | RSkipMove | RSeeEmpty | RTakeEmpty | RSeeUsed | RDiscard | RReturn | RReturnEmpty | RClearOne | RPublish

  ghost predicate Next(s: State, s': State, step: Step) {
    match step
    case PEnlist(p) => Enlist(s, s', p)
    case PStart(p, size) => Start(s, s', p, size)
    case PPass(p) => Pass(s, s', p)
    case PRefuse(p) => Refuse(s, s', p)
    case PFetchAdd(p) => FetchAdd(s, s', p)
    case PAccept(p) => Accept(s, s', p)
    case PReload(p) => Reload(s, s', p)
    case PRollback(p) => Rollback(s, s', p)
    case PRollbackFails(p) => RollbackFails(s, s', p)
    case PPutNum(p) => PutNum(s, s', p)
    case PWrap(p) => Wrap(s, s', p)
    case PPutSize(p) => PutSize(s, s', p)
    case PRefresh(p) => Refresh(s, s', p)
    case PFill(p, i, x) => Fill(s, s', p, i, x)
    case PCommit(p) => Commit(s, s', p)
    case RSkipClear => SkipClear(s, s')
    case RSkipMove => SkipMove(s, s')
    case RSeeEmpty => SeeEmpty(s, s')
    case RTakeEmpty => TakeEmpty(s, s')
    case RSeeUsed => SeeUsed(s, s')
    case RDiscard => Discard(s, s')
    case RReturn => Return(s, s')
    case RReturnEmpty => ReturnEmpty(s, s')
    case RClearOne => ClearOne(s, s')
    case RPublish => Publish(s, s')
  }

  /** The hypothesis on 32-bit cursors: no cached read cursor lags the write cursor by 2^32 blocks or more. */
  ghost predicate Window(s: State) {
    forall p :: p in s.prods ==> s.w - s.prods[p].ref < TWO32
  }

  ghost predicate IsRun(run: seq<State>, steps: seq<Step>) {
    && |run| == |steps| + 1
    && Init(run[0])
    && (forall i :: 0 <= i < |steps| ==> Window(run[i]))
    && (forall i :: 0 <= i < |steps| ==> Next(run[i], run[i + 1], steps[i]))
  }
}
