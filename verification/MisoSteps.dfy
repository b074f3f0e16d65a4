/** Steps of the multi-producer ring that write memory keep its invariant, and so do the reader's. */
module MisoSteps {
  import opened Words
  import opened Modular
  import opened MisoModel
  import opened MisoInv

  /** Memory changed at most at the block of cursor `c0`. */
  ghost predicate WroteAt(s: State, s': State, c0: nat) {
    && s.n == |s.mem| > 0 && s'.n == s.n && s'.r == s.r && |s'.mem| == s.n
    && s.r <= c0 < s.r + s.n
    && (forall i {:trigger s.mem[i]} {:trigger s'.mem[i]} :: 0 <= i < s.n && i != c0 % s.n ==> s'.mem[i] == s.mem[i])
  }

  lemma FarCell(s: State, s': State, c0: nat, c: nat)
    requires WroteAt(s, s', c0) && s.r <= c < s.r + s.n && c != c0
    ensures Get(s', c) == Get(s, c)
  {
    if c < c0 { Apart(s.n, c, c0); } else { Apart(s.n, c0, c); }
  }

  lemma FarClean(s: State, s': State, c0: nat, lo: nat, hi: nat)
    requires WroteAt(s, s', c0) && s.r <= lo && hi <= s.r + s.n && (c0 < lo || c0 >= hi)
    ensures forall c :: lo <= c < hi ==> Clean(s', c) == Clean(s, c)
  {
    forall c | lo <= c < hi ensures Clean(s', c) == Clean(s, c) { FarCell(s, s', c0, c); }
  }

  lemma FarRow(s: State, s': State, c0: nat, y: Resv, q: nat)
    requires WroteAt(s, s', c0) && s.r <= y.start && y.len > 0 && End(y) < s.r + s.n && Contiguous(s.n, y)
    requires (c0 < y.start || c0 >= End(y)) && y.start % s.n <= q < y.start % s.n + y.len
    ensures s'.mem[q] == s.mem[q]
  {
    Offset(s.n, y.start, q - y.start % s.n);
    FarCell(s, s', c0, y.start + (q - y.start % s.n));
  }

  lemma FarChunk(s: State, s': State, c0: nat, y: Resv)
    requires WroteAt(s, s', c0) && s.r <= y.start && y.len > 0 && End(y) < s.r + s.n && Contiguous(s.n, y)
    requires c0 < y.start || c0 >= End(y)
    ensures ChunkAt(s'.mem, y.start % s.n, y.len) == ChunkAt(s.mem, y.start % s.n, y.len)
  {
    var b := y.start % s.n;
    forall q | b <= q < b + y.len ensures s'.mem[q] == s.mem[q] { FarRow(s, s', c0, y, q); }
    assert s'.mem[b + 1..b + y.len] == s.mem[b + 1..b + y.len];
  }

  /** A write outside a reservation leaves alone what memory holds of it. */
  lemma FarMem(s: State, s': State, c0: nat, y: Resv)
    requires WroteAt(s, s', c0) && s.r <= y.start && y.len > 0 && MemOk(s, y)
    requires y.phase != Tentative ==> End(y) < s.r + s.n
    requires c0 < y.start || c0 >= End(y)
    ensures MemOk(s', y)
  {
    if y.phase == Tentative {
      if y.start < s.r + s.n {
        var hi := if End(y) < s.r + s.n then End(y) else s.r + s.n;
        FarClean(s, s', c0, y.start, hi);
      }
    } else {
      FarCell(s, s', c0, y.start);
      FarClean(s, s', c0, y.start, End(y));
      if y.phase == Done { FarChunk(s, s', c0, y); }
    }
  }

  lemma FarFree(s: State, s': State, c0: nat)
    requires WroteAt(s, s', c0) && FreeClean(s) && s'.w == s.w && s.rc <= c0 < s.w && s.rc < s.r + s.n
    requires s'.reader == s.reader && (s.reader.Clearing? ==> s.reader.i <= s.rc - s.r)
    ensures FreeClean(s')
  {
    if s.w < s.r + s.n { FarClean(s, s', c0, s.w, s.r + s.n); }
    if s.reader.Clearing? { FarClean(s, s', c0, s.r, s.r + s.reader.i); }
  }

  /** Where other unread reservations lie relative to one's own. */
  lemma Elsewhere(s: State, j0: nat, j: nat)
    requires Tiled(s) && s.k <= j0 < |s.res| && s.k <= j < |s.res| && j != j0 && s.rc == Bound(s, s.k)
    ensures s.rc <= s.res[j].start
    ensures End(s.res[j0]) <= s.res[j].start || End(s.res[j]) <= s.res[j0].start
  {
    hide Tiled;
    if s.k < j { BoundsGrow(s, s.k, j); }
    if j < j0 { BoundsGrow(s, j, j0); } else { BoundsGrow(s, j0, j); }
  }

  /** A producer writes one block of its own accepted reservation, perhaps changing that reservation's phase. */
  lemma OwnWrite(s: State, s': State, p: nat, i: nat, x: Resv)
    requires p in s.prods && s.prods[p].pc.Busy? && s.prods[p].pc.j < |s.res|
    requires Mine(s, p).phase != Tentative && i < Mine(s, p).len && s'.n == |s'.mem| > 0
    requires s' == s.(mem := s'.mem, prods := s'.prods, res := s.res[s.prods[p].pc.j := x])
    requires x == Mine(s, p).(phase := x.phase, chunk := x.chunk) && x.phase != Tentative && x.phase != Passing
    requires p in s'.prods && s'.prods == s.prods[p := s'.prods[p]]
    requires if Live(x) then s'.prods[p] == s.prods[p] else ProdOk(s', p) && !s'.prods[p].pc.Busy?
    requires WroteAt(s, s', Mine(s, p).start + i) && MemOk(s', x) && Inv(s)
    ensures Inv(s')
  {
    hide MemOk, FreeClean, Chunks, CountOk, Tiled, SizeOk, WroteAt;
    var j0 := s.prods[p].pc.j;
    var c0 := Mine(s, p).start + i;
    assert ProdOk(s, p);
    HeldPast(s, p);
    assert s'.res[..s.k] == s.res[..s.k];
    TilesKept(s, s');
    forall j | s.k <= j < |s.res| ensures ResvOk(s', j) {
      assert ResvOk(s, j);
      if j != j0 {
        Elsewhere(s, j0, j);
        FarMem(s, s', c0, s.res[j]);
      }
    }
    forall u | u in s'.prods ensures ProdOk(s', u) { assert ProdOk(s, u); }
    FarFree(s, s', c0);
  }

  /** Facts about an accepted reservation in its producer's hands. */
  lemma Accepted(s: State, p: nat)
    requires Inv(s) && p in s.prods && s.prods[p].pc.Busy? && s.prods[p].pc.j < |s.res|
    ensures var x := Mine(s, p);
      && MemOk(s, x) && s.r <= x.start && 0 < x.len && SizeOk(s.n, x.size) && x.owner == p && s.n == |s.mem| > 0
      && s.prods[p].ref <= s.r && (x.phase != Tentative ==> End(x) < s.r + s.n)
  {
    hide FreeClean, Chunks, Tiled, SizeOk, MemOk, ReadOk;
    HeldPast(s, p);
    assert ProdOk(s, p);
    assert ResvOk(s, s.prods[p].pc.j);
  }

  lemma PutNumKeeps(s: State, s': State, p: nat)
    requires Inv(s) && PutNum(s, s', p)
    ensures Inv(s')
  {
    hide Inv, SizeOk;
    Accepted(s, p);
    var x := Mine(s, p);
    assert WroteAt(s, s', x.start + 0);
    forall c | x.start <= c < End(x) ensures Clean(s', c) {
      assert Clean(s, c);
      if c != x.start { FarCell(s, s', x.start, c); }
    }
    OwnWrite(s, s', p, 0, x.(phase := Numbered));
  }

  lemma WrapKeeps(s: State, s': State, p: nat)
    requires Inv(s) && Wrap(s, s', p)
    ensures Inv(s')
  {
    hide Inv, SizeOk;
    Accepted(s, p);
    var x := Mine(s, p);
    assert WroteAt(s, s', x.start + 0);
    FarClean(s, s', x.start, x.start + 1, End(x));
    OwnWrite(s, s', p, 0, x.(phase := Skip));
  }

  lemma PutSizeKeeps(s: State, s': State, p: nat)
    requires Inv(s) && PutSize(s, s', p)
    ensures Inv(s')
  {
    hide Inv, SizeOk;
    Accepted(s, p);
    assert Clean(s, Mine(s, p).start);
    assert WroteAt(s, s', Mine(s, p).start + 0);
    OwnWrite(s, s', p, 0, Mine(s, p).(phase := Writing));
  }

  lemma FillKeeps(s: State, s': State, p: nat, i: nat, x: Cell)
    requires Inv(s) && Fill(s, s', p, i, x)
    ensures Inv(s')
  {
    hide Inv, SizeOk;
    Accepted(s, p);
    var y := Mine(s, p);
    Offset(s.n, y.start, i);
    assert WroteAt(s, s', y.start + i);
    if i > 0 { FarCell(s, s', y.start + i, y.start); }
    assert s'.res == s.res[s.prods[p].pc.j := y];
    OwnWrite(s, s', p, i, y);
  }

  lemma CommitKeeps(s: State, s': State, p: nat)
    requires Inv(s) && Commit(s, s', p)
    ensures Inv(s')
  {
    hide Inv, SizeOk;
    Accepted(s, p);
    var x := Mine(s, p);
    assert WroteAt(s, s', x.start + 0);
    OwnWrite(s, s', p, 0, x.(phase := Done, chunk := ChunkAt(s.mem, x.start % s.n, x.len)));
  }

  // ---------------------------------------------------------------- reader

  /**
   What the status byte under the reader says of the reservation there, except between the two stores of a skip: used
   exactly when it is committed, invalid exactly when it is a wrap chunk, unused exactly when there is none or it is
   not committed yet.
   */
  lemma StatusExact(s: State)
    requires Inv(s)
    ensures s.n == |s.mem| > 0 && s.k <= |s.res|
    ensures var st := Get(s, s.rc).status;
      && (st == USED <==> s.k < |s.res| && s.res[s.k].phase == Done)
      && (st == INVALID <==> s.k < |s.res| && s.res[s.k].phase == Skip)
      && (st == UNUSED <==> s.k == |s.res| || Live(s.res[s.k]) || s.reader.Skipping?)
    ensures s.k < |s.res| && !Live(s.res[s.k]) ==> Get(s, s.rc).num == s.res[s.k].len
  {
    hide Chunks, CountOk, SizeOk, Tiled, ProdOk;
    if s.k < |s.res| {
      assert ResvOk(s, s.k);
      assert s.res[s.k].len > 0;
      if s.res[s.k].phase != Skip && s.res[s.k].phase != Done { assert Clean(s, s.rc); }
    } else {
      assert Clean(s, s.rc);
    }
  }

  lemma ChunksStep(rs: seq<Resv>, k: nat)
    requires k < |rs|
    ensures Chunks(rs[..k + 1]) == Chunks(rs[..k]) + if rs[k].phase == Done then [rs[k].chunk] else []
  {
    assert rs[..k + 1][..k] == rs[..k];
  }

  /** Reservation `k` at most changed its phase. */
  ghost predicate Rephased(s: State, s': State) {
    && s.k < |s.res| && |s'.res| == |s.res| && s'.w == s.w && s'.base == s.base
    && s'.res == s.res[s.k := s.res[s.k].(phase := s'.res[s.k].phase)]
  }

  lemma SteppedRead(s: State, s': State)
    requires ReadOk(s) && Rephased(s, s') && s'.k == s.k + 1 && !s'.reader.Got? && !s'.reader.Skipping?
    requires s'.res[s.k].phase == Skip || s'.res[s.k].phase == Done
    requires s'.delivered == s.delivered + if s'.res[s.k].phase == Done then [s.res[s.k].chunk] else []
    ensures ReadOk(s')
  {
    ChunksStep(s'.res, s.k);
    assert s'.res[..s.k] == s.res[..s.k];
  }

  /** The reader steps over reservation `k`, which it has finished with; memory is as it was. */
  lemma StepOver(s: State, s': State)
    requires s.k < |s.res| && !Live(s.res[s.k]) && !s.reader.Clearing? && Rephased(s, s')
    requires s' == s.(rc := s.rc + s.res[s.k].len, k := s.k + 1, delivered := s'.delivered, reader := s'.reader, res := s'.res)
    requires s'.res[s.k].phase == Skip || s'.res[s.k].phase == Done
    requires s'.delivered == s.delivered + if s'.res[s.k].phase == Done then [s.res[s.k].chunk] else []
    requires (s'.reader == Idle || s'.reader == Clearing(0)) && Inv(s)
    requires s.res[s.k].phase != Tentative
    ensures Inv(s')
  {
    hide MemOk, FreeClean, CountOk, SizeOk, Tiled, ReadOk, ProdOk, Need;
    assert ResvOk(s, s.k);
    TileAt(s, s.k);
    SteppedRead(s, s');
    TilesKept(s, s');
    forall j | s'.k <= j < |s.res| ensures ResvOk(s', j) {
      assert ResvOk(s, j);
      ResvMoved(s, s', j);
    }
    ProdsKept(s, s');
    MovedFree(s, s');
  }

  lemma TileAt(s: State, j: nat)
    requires Tiled(s) && j < |s.res|
    ensures s.res[j].len > 0 && End(s.res[j]) == Bound(s, j + 1)
  {
  }

  /** Producers are none the worse for what the reader does to reservations that are not live. */
  lemma ProdsKept(s: State, s': State)
    requires s'.prods == s.prods && s.r <= s'.r && s'.n == s.n && |s'.res| == |s.res|
    requires forall j :: s.k <= j < |s.res| && Live(s.res[j]) ==> s'.k <= j && s'.res[j].owner == s.res[j].owner && Live(s'.res[j])
    ensures forall u :: ProdOk(s, u) ==> ProdOk(s', u)
  {
  }

  lemma FarFreeRead(s: State, s': State)
    requires !s'.reader.Clearing?
    requires WroteAt(s, s', s.rc) && FreeClean(s) && s'.w == s.w && s.rc < s.w && s.rc < s.r + s.n
    ensures FreeClean(s')
  {
    if s.w < s.r + s.n { FarClean(s, s', s.rc, s.w, s.r + s.n); }
  }

  lemma PassingMem(s: State, s': State)
    requires s.n == |s.mem| > 0 && SkipClear(s, s') && WroteAt(s, s', s.rc) && s.res[s.k].start == s.rc
    requires s.res[s.k].phase == Skip && MemOk(s, s.res[s.k]) && End(s.res[s.k]) < s.r + s.n && s.res[s.k].len > 0
    ensures MemOk(s', s'.res[s.k])
  {
    var x := s.res[s.k];
    FarClean(s, s', s.rc, s.rc + 1, End(x));
    assert Clean(s', s.rc);
  }

  lemma SkipClearKeeps(s: State, s': State)
    requires Inv(s) && SkipClear(s, s')
    ensures Inv(s')
  {
    hide MemOk, FreeClean, CountOk, SizeOk, WroteAt, Tiled, ProdOk, Need, Chunks;
    StatusExact(s);
    assert WroteAt(s, s', s.rc) by { ClearedHere(s, s'); }
    assert ResvOk(s, s.k);
    TileAt(s, s.k);
    TilesKept(s, s');
    assert s'.res[..s.k] == s.res[..s.k];
    forall j | s.k <= j < |s.res| ensures ResvOk(s', j) {
      assert ResvOk(s, j);
      if j == s.k {
        PassingMem(s, s');
      } else {
        Elsewhere(s, s.k, j);
        TileAt(s, j);
        FarMem(s, s', s.rc, s.res[j]);
      }
    }
    ProdsKept(s, s');
    BoundsGrow(s, s.k, |s.res|);
    FarFreeRead(s, s');
  }

  lemma ClearedHere(s: State, s': State)
    requires s.n == |s.mem| > 0 && SkipClear(s, s') && s.r <= s.rc < s.r + s.n
    ensures WroteAt(s, s', s.rc)
  {
  }

  lemma ReturnKeeps(s: State, s': State)
    requires Inv(s) && (Return(s, s') || SkipMove(s, s'))
    ensures Inv(s')
  {
    hide ResvOk, FreeClean, ProdOk, Tiled, Chunks;
    StatusExact(s);
    if Return(s, s') { assert s.res == s.res[s.k := s.res[s.k].(phase := s.res[s.k].phase)]; }
    StepOver(s, s');
  }

  /** Only the reader's own position changed. */
  lemma ReaderMoved(s: State, s': State)
    requires Inv(s) && s' == s.(reader := s'.reader) && ReadOk(s')
    requires !s.reader.Clearing? && (s'.reader.Clearing? ==> s'.reader.i == 0)
    ensures Inv(s')
  {
    hide FreeClean, ReadOk, Tiled, Chunks, ProdOk, MemOk;
    TilesKept(s, s');
    forall j | s.k <= j < |s.res| ensures ResvOk(s', j) {
      assert ResvOk(s, j);
      ResvMoved(s, s', j);
    }
    ProdsKept(s, s');
    MovedFree(s, s');
  }

  lemma SeeKeeps(s: State, s': State)
    requires Inv(s) && (SeeEmpty(s, s') || TakeEmpty(s, s') || SeeUsed(s, s') || Discard(s, s') || ReturnEmpty(s, s'))
    ensures Inv(s')
  {
    hide FreeClean, Tiled, Chunks, ProdOk, ResvOk;
    StatusExact(s);
    if SeeUsed(s, s') { HeadChunk(s); }
    ReaderMoved(s, s');
  }

  lemma HeadChunk(s: State)
    requires Inv(s) && s.k < |s.res| && s.res[s.k].phase == Done
    ensures s.n == |s.mem| > 0 && 0 < s.res[s.k].len && s.rc % s.n + s.res[s.k].len <= s.n
    ensures ChunkAt(s.mem, s.rc % s.n, s.res[s.k].len) == s.res[s.k].chunk
  {
    hide FreeClean, Tiled, Chunks, ProdOk, ReadOk;
    assert ResvOk(s, s.k);
  }

  lemma ClearWrote(s: State, s': State)
    requires Shape(s) && ClearOne(s, s')
    ensures s.reader.i < s.rc - s.r && WroteAt(s, s', s.r + s.reader.i)
  {
    hide Tiled;
    CountBound(s.n);
    U32Small(s.rc - s.r);
  }

  lemma ClearOneKeeps(s: State, s': State)
    requires Inv(s) && ClearOne(s, s')
    ensures Inv(s')
  {
    hide ResvOk, FreeClean, Chunks, Tiled, ProdOk, WroteAt, CountOk, U32, Need;
    ClearWrote(s, s');
    TilesKept(s, s');
    forall j | s.k <= j < |s.res| ensures ResvOk(s', j) { ClearResv(s, s', j); }
    ProdsKept(s, s');
    if s.k < |s.res| { BoundsGrow(s, s.k, |s.res|); }
    ClearedFree(s, s');
  }

  lemma ClearResv(s: State, s': State, j: nat)
    requires Inv(s) && ClearOne(s, s') && s.k <= j < |s.res|
    ensures ResvOk(s', j)
  {
    hide MemOk, FreeClean, ReadOk, SizeOk, Tiled, ProdOk, WroteAt, CountOk, U32, Need;
    ClearWrote(s, s');
    assert ResvOk(s, j);
    Unread(s, j);
    TileAt(s, j);
    FarMem(s, s', s.r + s.reader.i, s.res[j]);
  }

  lemma CountBound(n: nat)
    requires CountOk(n)
    ensures 0 < n <= TWO32
  {
  }

  lemma Unread(s: State, j: nat)
    requires Tiled(s) && s.k <= j < |s.res| && s.rc == Bound(s, s.k)
    ensures s.rc <= s.res[j].start
  {
    hide Tiled;
    if s.k < j { BoundsGrow(s, s.k, j); }
  }

  lemma ClearedFree(s: State, s': State)
    requires ClearOne(s, s') && FreeClean(s) && s.reader.i < s.rc - s.r && s.rc < s.r + s.n && s.rc <= s.w
    ensures FreeClean(s')
  {
    var c0 := s.r + s.reader.i;
    assert WroteAt(s, s', c0);
    if s.w < s.r + s.n { FarClean(s, s', c0, s.w, s.r + s.n); }
    FarClean(s, s', c0, s.r, c0);
    assert Clean(s', c0);
  }

  lemma PublishKeeps(s: State, s': State)
    requires Inv(s) && Publish(s, s')
    ensures Inv(s')
  {
    hide ResvOk, FreeClean, Chunks, Tiled, ProdOk;
    CountBound(s.n);
    U32Small(s.rc - s.r);
    TilesKept(s, s');
    forall j | s.k <= j < |s.res| ensures ResvOk(s', j) { PublishedResv(s, s', j); }
    ProdsKept(s, s');
    PublishedFree(s, s');
  }

  lemma PublishedResv(s: State, s': State, j: nat)
    requires s.n == |s.mem| > 0 && Publish(s, s') && FreeClean(s) && s.reader.i == s.rc - s.r && j < |s.res| && ResvOk(s, j)
    requires s.r <= s.rc
    ensures ResvOk(s', j)
  {
    assert MemOk(s', s.res[j]) by {
      assert forall c: nat :: Clean(s', c) == Clean(s, c);
      if s.res[j].phase == Tentative {
        forall c | s.res[j].start <= c < End(s.res[j]) && c < s'.r + s'.n ensures Clean(s', c) {
          if c >= s.r + s.n { Reopened(s, s', c); } else { assert Clean(s, c); }
        }
      }
    }
  }

  /** Blocks that come into the window again are those just cleared. */
  lemma Reopened(s: State, s': State, c: nat)
    requires s.n == |s.mem| > 0 && Publish(s, s') && FreeClean(s) && s.reader.i == s.rc - s.r
    requires s.r + s.n <= c < s.rc + s.n
    ensures Clean(s', c)
  {
    assert Clean(s, c - s.n);
    SameBlock(s.n, c - s.n);
  }

  lemma PublishedFree(s: State, s': State)
    requires s.n == |s.mem| > 0 && Publish(s, s') && FreeClean(s) && s.reader.i == s.rc - s.r
    ensures FreeClean(s')
  {
    assert forall c: nat :: Clean(s', c) == Clean(s, c);
    forall c | s'.w <= c < s'.r + s'.n ensures Clean(s', c) {
      if c >= s.r + s.n { Reopened(s, s', c); } else { assert Clean(s, c); }
    }
  }
}
