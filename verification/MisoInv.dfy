/** The invariant of the multi-producer ring, and that every step keeps it. */
module MisoInv {
  import opened Words
  import opened MisoModel

  // ---------------------------------------------------------------- the invariant

  /** Cursor at which reservation `i` starts, or the write cursor. */
  function Bound(s: State, i: nat): nat
    requires i <= |s.res|
  {
    if i < |s.res| then s.res[i].start else s.w
  }

  /** The reservations tile the cursors from `base` to the write cursor. */
  ghost predicate Tiled(s: State) {
    && Bound(s, 0) == s.base
    && (forall i :: 0 <= i < |s.res| ==> s.res[i].len > 0 && End(s.res[i]) == Bound(s, i + 1))
  }

  ghost predicate Shape(s: State) {
    && CountOk(s.n) && |s.mem| == s.n
    && Tiled(s)
    && s.k <= |s.res| && s.rc == Bound(s, s.k)
    && s.base <= s.r <= s.rc < s.r + s.n
    && (s.reader.Clearing? ==> s.reader.i <= s.rc - s.r)
  }

  predicate Live(x: Resv) {
    x.phase.Tentative? || x.phase.Owned? || x.phase.Numbered? || x.phase.Writing?
  }

  /** The status byte at cursor `c` reads unused. */
  ghost predicate Clean(s: State, c: nat) {
    && s.n == |s.mem| > 0
    && Get(s, c).status == UNUSED
  }

  /** What memory holds of an unread reservation. */
  ghost predicate MemOk(s: State, x: Resv) {
    && s.n == |s.mem| > 0
    && (match x.phase
       case Tentative => forall c :: x.start <= c < End(x) && c < s.r + s.n ==> Clean(s, c)
       case Owned => forall c :: x.start <= c < End(x) ==> Clean(s, c)
       case Numbered => Get(s, x.start).num == x.len && forall c :: x.start <= c < End(x) ==> Clean(s, c)
       case Skip =>
         && Get(s, x.start).num == x.len && Get(s, x.start).status == INVALID && !Contiguous(s.n, x)
         && forall c :: x.start < c < End(x) ==> Clean(s, c)
       case Passing =>
         && Get(s, x.start).num == x.len && !Contiguous(s.n, x) && forall c :: x.start <= c < End(x) ==> Clean(s, c)
       case Writing =>
         && Get(s, x.start).num == x.len && Get(s, x.start).size == x.size && Clean(s, x.start) && Contiguous(s.n, x)
       case Done =>
         && Get(s, x.start).num == x.len && Get(s, x.start).status == USED && Contiguous(s.n, x) && x.len > 0
         && ChunkAt(s.mem, x.start % s.n, x.len) == x.chunk && x.chunk.size == x.size)
  }

  ghost predicate ResvOk(s: State, j: nat) {
    && j < |s.res| && s.n == |s.mem| > 0
    && var x := s.res[j];
    && x.len == Need(x.size) && SizeOk(s.n, x.size)
    && (x.phase != Tentative ==> End(x) < s.r + s.n)
    && (Live(x) ==> x.owner in s.prods && s.prods[x.owner].pc.Busy? && s.prods[x.owner].pc.j == j)
    && MemOk(s, x)
  }

  ghost predicate ProdOk(s: State, p: nat) {
    && p in s.prods
    && var q := s.prods[p];
    && q.ref <= s.r
    && (q.pc.Pre? ==> SizeOk(s.n, q.pc.size))
    && (q.pc.Go? ==> SizeOk(s.n, q.pc.size))
    && (q.pc.Busy? ==> s.k <= q.pc.j < |s.res| && s.res[q.pc.j].owner == p && Live(s.res[q.pc.j]))
  }

  /** Chunks of a run of consumed reservations, wrap chunks left out. */
  function Chunks(rs: seq<Resv>): seq<Chunk> {
    if |rs| == 0 then []
    else Chunks(rs[..|rs| - 1]) + if rs[|rs| - 1].phase == Done then [rs[|rs| - 1].chunk] else []
  }

  ghost predicate ReadOk(s: State) {
    && (forall j :: 0 <= j < s.k && j < |s.res| ==> s.res[j].phase == Skip || s.res[j].phase == Done)
    && s.k <= |s.res| && s.delivered == Chunks(s.res[..s.k])
    && (s.reader.Got? ==> s.k < |s.res| && s.res[s.k].phase == Done && s.reader.chunk == s.res[s.k].chunk)
    && (s.reader.Skipping? ==> s.k < |s.res| && s.res[s.k].phase == Passing && s.reader.num == s.res[s.k].len)
    && (forall j :: s.k <= j < |s.res| && s.res[j].phase == Passing ==> j == s.k && s.reader.Skipping?)
  }

  /** Free cursors of the window, and consumed ones already cleared, read unused. */
  ghost predicate FreeClean(s: State) {
    && s.n == |s.mem| > 0
    && (forall c :: s.w <= c < s.r + s.n ==> Clean(s, c))
    && (s.reader.Clearing? ==> forall c :: s.r <= c < s.r + s.reader.i ==> Clean(s, c))
  }

  ghost predicate Inv(s: State) {
    && Shape(s)
    && (forall j :: s.k <= j < |s.res| ==> ResvOk(s, j))
    && (forall p :: p in s.prods ==> ProdOk(s, p))
    && ReadOk(s)
    && FreeClean(s)
  }

  // ---------------------------------------------------------------- tiling

  lemma {:induction false} BoundsGrow(s: State, i: nat, j: nat)
    requires Tiled(s) && i < j <= |s.res|
    ensures Bound(s, i) < Bound(s, j) && End(s.res[i]) <= Bound(s, j)
    decreases j - i
  {
    if i + 1 < j { BoundsGrow(s, i + 1, j); }
  }

  lemma InitInv(s: State)
    requires Init(s)
    ensures Inv(s)
  {
  }

  // ---------------------------------------------------------------- steps that touch no memory

  /** Memory and published read cursor unchanged, so what memory holds of a reservation is too. */
  lemma Moved(s: State, s': State, x: Resv)
    requires s.n == |s.mem| > 0 && s'.n == s.n && s'.mem == s.mem && s'.r == s.r && MemOk(s, x)
    ensures MemOk(s', x)
  {
    assert forall c: nat :: Clean(s', c) == Clean(s, c);
  }

  lemma MovedFree(s: State, s': State)
    requires s.n == |s.mem| > 0 && s'.n == s.n && s'.mem == s.mem && s'.r == s.r && s'.w >= s.w && FreeClean(s)
    requires s'.reader.Clearing? ==> s.reader == s'.reader || s'.reader.i == 0
    ensures FreeClean(s')
  {
    assert forall c: nat :: Clean(s', c) == Clean(s, c);
  }

  /** Producer `p`'s record becomes `q`, which is about the same reservation, if any. */
  ghost predicate SameBusiness(s: State, p: nat, q: Producer) {
    if p in s.prods then
      q.pc == s.prods[p].pc || (!s.prods[p].pc.Busy? && !q.pc.Busy?)
      || (s.prods[p].pc.Busy? && q.pc.Busy? && q.pc.j == s.prods[p].pc.j)
    else !q.pc.Busy?
  }

  /** A reservation is none the worse for changes elsewhere that leave memory and read cursor alone. */
  lemma ResvMoved(s: State, s': State, j: nat)
    requires s.n == |s.mem| > 0 && s'.n == s.n && s'.mem == s.mem && s'.r == s.r
    requires j < |s.res| && ResvOk(s, j) && j < |s'.res| && s'.res[j] == s.res[j]
    requires var x := s.res[j];
      Live(x) ==> x.owner in s'.prods && s'.prods[x.owner].pc.Busy? && s'.prods[x.owner].pc.j == j
    ensures ResvOk(s', j)
  {
    hide MemOk;
    Moved(s, s', s.res[j]);
  }

  /** Only producer `p`'s own record changed. */
  lemma OwnRecord(s: State, s': State, p: nat, q: Producer)
    requires Inv(s) && s' == s.(prods := s.prods[p := q]) && ProdOk(s', p) && SameBusiness(s, p, q)
    ensures Inv(s')
  {
    hide MemOk, FreeClean, Chunks, CountOk;
    forall j | s.k <= j < |s.res| ensures ResvOk(s', j) {
      assert ResvOk(s, j);
      ResvMoved(s, s', j);
    }
    forall u | u in s'.prods ensures ProdOk(s', u) { if u != p { assert ProdOk(s, u); } }
    MovedFree(s, s');
  }

  /** Steps of a producer that write nothing but its own record. */
  lemma OwnKeeps(s: State, s': State, p: nat, size: nat)
    requires || Enlist(s, s', p) || Start(s, s', p, size) || Pass(s, s', p) || Refuse(s, s', p)
             || Reload(s, s', p) || RollbackFails(s, s', p) || Refresh(s, s', p)
    requires Inv(s)
    ensures Inv(s')
  {
    hide ResvOk, FreeClean, ReadOk;
    OwnRecord(s, s', p, s'.prods[p]);
  }

  lemma FetchAddTiled(s: State, s': State, p: nat)
    requires Tiled(s) && FetchAdd(s, s', p)
    ensures Tiled(s')
  {
    forall i | 0 <= i < |s'.res| ensures s'.res[i].len > 0 && End(s'.res[i]) == Bound(s', i + 1) {
      if i < |s.res| { assert End(s.res[i]) == Bound(s, i + 1); }
    }
  }

  lemma FetchAddKeeps(s: State, s': State, p: nat)
    requires Inv(s) && FetchAdd(s, s', p)
    ensures Inv(s')
  {
    hide MemOk, FreeClean, Chunks, CountOk, Tiled, SizeOk;
    assert s'.res[..s.k] == s.res[..s.k];
    FetchAddTiled(s, s', p);
    forall j | s.k <= j < |s.res| ensures ResvOk(s', j) {
      assert ResvOk(s, j);
      ResvMoved(s, s', j);
    }
    FetchAddFits(s, s', p);
    assert ProdOk(s, p);
    forall u | u in s'.prods ensures ProdOk(s', u) { if u != p { assert ProdOk(s, u); } }
    MovedFree(s, s');
  }

  lemma FetchAddFits(s: State, s': State, p: nat)
    requires s.n == |s.mem| > 0 && FreeClean(s) && FetchAdd(s, s', p)
    ensures MemOk(s', s'.res[|s.res|])
  {
    assert forall c: nat :: Clean(s', c) == Clean(s, c);
  }

  /** A reservation a producer holds lies past everything the reader has published. */
  lemma HeldPast(s: State, p: nat)
    requires Inv(s) && p in s.prods && s.prods[p].pc.Busy?
    ensures s.k <= s.prods[p].pc.j < |s.res|
    ensures s.prods[p].ref <= s.r <= s.rc <= Mine(s, p).start < End(Mine(s, p)) <= s.w
  {
    hide MemOk, FreeClean, Chunks, ReadOk;
    var j := s.prods[p].pc.j;
    assert ProdOk(s, p);
    if s.k < j { BoundsGrow(s, s.k, j); }
    BoundsGrow(s, j, |s.res|);
  }

  lemma U32Small(x: int)
    requires 0 <= x < TWO32
    ensures U32(x) == x
  {
  }

  /** The reservations left stand where they stood. */
  lemma TilesKept(s: State, s': State)
    requires Tiled(s) && s'.base == s.base && |s'.res| <= |s.res|
    requires forall i {:trigger s'.res[i]} :: 0 <= i < |s'.res| ==> s'.res[i].start == s.res[i].start && s'.res[i].len == s.res[i].len
    requires s'.w == if |s'.res| == |s.res| then s.w else s.res[|s'.res|].start
    ensures Tiled(s')
  {
    forall i | 0 <= i < |s'.res| ensures s'.res[i].len > 0 && End(s'.res[i]) == Bound(s', i + 1) {
      assert End(s.res[i]) == Bound(s, i + 1);
    }
  }

  /** Changing the phase of one's own reservation leaves the rest of the invariant alone. */
  lemma OwnPhase(s: State, s': State, p: nat, x: Resv)
    requires Inv(s) && p in s.prods && s.prods[p].pc.Busy? && s.prods[p].pc.j < |s.res| && s' == SetMine(s, p, x)
    requires x == Mine(s, p).(phase := x.phase, chunk := x.chunk) && Live(x) && End(x) < s.r + s.n && MemOk(s', x)
    ensures Inv(s')
  {
    hide MemOk, FreeClean, Chunks, CountOk, Tiled, SizeOk;
    var j0 := s.prods[p].pc.j;
    assert ProdOk(s, p);
    assert s'.res[..s.k] == s.res[..s.k];
    TilesKept(s, s');
    forall j | s.k <= j < |s.res| ensures ResvOk(s', j) {
      assert ResvOk(s, j);
      if j != j0 { ResvMoved(s, s', j); }
    }
    forall u | u in s'.prods ensures ProdOk(s', u) { assert ProdOk(s, u); }
    MovedFree(s, s');
  }

  /** Acceptance is sound: the reservation ends less than `n` blocks past the published read cursor. */
  lemma AcceptFits(s: State, s': State, p: nat)
    requires Inv(s) && Window(s) && Accept(s, s', p)
    ensures End(Mine(s, p)) < s.r + s.n
  {
    hide MemOk, FreeClean, ReadOk, Tiled, ResvOk;
    HeldPast(s, p);
    U32Small(End(Mine(s, p)) - s.prods[p].ref);
  }

  lemma AcceptKeeps(s: State, s': State, p: nat)
    requires Inv(s) && Window(s) && Accept(s, s', p)
    ensures Inv(s')
  {
    hide FreeClean, ReadOk, Tiled;
    AcceptFits(s, s', p);
    HeldPast(s, p);
    assert ResvOk(s, s.prods[p].pc.j);
    assert forall c: nat :: Clean(s', c) == Clean(s, c);
    OwnPhase(s, s', p, Mine(s', p));
  }

  /** The compare-and-swap takes back the topmost reservation and no other. */
  lemma RollbackTopmost(s: State, s': State, p: nat)
    requires Inv(s) && Window(s) && Rollback(s, s', p)
    ensures s.prods[p].pc.j == |s.res| - 1 && s.w == End(Mine(s, p)) && s'.w == Mine(s, p).start
  {
    hide MemOk, FreeClean, ReadOk, ResvOk, ProdOk, U32;
    HeldPast(s, p);
    var j := s.prods[p].pc.j;
    U32Exact(End(Mine(s, p)), s.w);
    assert End(s.res[j]) == Bound(s, j + 1);
    if j + 1 < |s.res| { BoundsGrow(s, j + 1, |s.res|); }
  }

  lemma RollbackKeeps(s: State, s': State, p: nat)
    requires Inv(s) && Window(s) && Rollback(s, s', p)
    ensures Inv(s')
  {
    hide MemOk, FreeClean, Chunks, CountOk, Tiled, SizeOk, U32, Window;
    RollbackTopmost(s, s', p);
    TilesKept(s, s');
    HeldPast(s, p);
    assert s'.res[..s.k] == s.res[..s.k];
    forall j | s.k <= j < |s'.res| ensures ResvOk(s', j) {
      assert ResvOk(s, j);
      ResvMoved(s, s', j);
    }
    forall u | u in s'.prods ensures ProdOk(s', u) { assert ProdOk(s, u) && ProdOk(s, p); }
    assert ResvOk(s, |s.res| - 1);
    RollbackFree(s, s', p);
  }

  lemma RollbackFree(s: State, s': State, p: nat)
    requires s.n == |s.mem| > 0 && Rollback(s, s', p) && FreeClean(s) && MemOk(s, Mine(s, p))
    requires s.w == End(Mine(s, p)) && s'.w == Mine(s, p).start
    ensures FreeClean(s')
  {
    hide U32;
    assert forall c: nat :: Clean(s', c) == Clean(s, c);
  }
}
