/** Rebuilding the multi-producer ring from the memory image left by a crash. */
module MisoRecovery {
  import opened Words
  import opened Modular
  import opened MisoModel
  import opened MisoInv
  import opened MisoSteps

  /** The parser's answer; `Stuck` when a wrap chunk of length 0 keeps it in place for ever. */
  datatype Parsing = Refused | Stuck | Parsed(w: nat)

  /**
   The chunk's size is one its block count is the least for. A count of 0 is refused: both bounds then wrap to
   the top of `std::size_t`, above every 32-bit size.
   */
  predicate SizeFits(h: Cell) {
    h.num > 0 && h.size <= h.num * 64 - 8 && h.size > if h.num == 1 then 0 else h.num * 64 - 72
  }

  /** What the parse loop does from cursor `w` on, for any image at all. */
  function ParseFrom(mem: seq<Cell>, r: nat, w: nat): Parsing
    requires |mem| > 0 && r <= w < r + |mem|
    decreases r + |mem| - w
  {
    var n := |mem|;
    var h := mem[w % n];
    if h.status == USED then
      if w % n + h.num > n || !SizeFits(h) then Refused else ParseOn(mem, r, w, h.num)
    else if h.status == INVALID then
      if (w + h.num) % n + h.num > n then Refused
      else if h.num == 0 then Stuck
      else ParseOn(mem, r, w, h.num)
    else if h.status == UNUSED then Parsed(w)
    else Refused
  }

  /** After a chunk of `num` blocks: stop at a full turn, refuse more than one. */
  function ParseOn(mem: seq<Cell>, r: nat, w: nat, num: nat): Parsing
    requires |mem| > 0 && r <= w < r + |mem| && num > 0
    decreases r + |mem| - w, 0
  {
    if w + num - r == |mem| then Parsed(w + num)
    else if w + num - r > |mem| then Refused
    else ParseFrom(mem, r, w + num)
  }

  // ---------------------------------------------------------------- when the loop ends

  /** One turn of the loop, taken literally: it ends with an answer, or goes on from a cursor. */
  datatype Turn = Ends(p: Parsing) | Goes(w: nat)

  function OneTurn(mem: seq<Cell>, r: nat, w: nat): (t: Turn)
    requires |mem| > 0 && r <= w < r + |mem|
    ensures t.Goes? ==> w <= t.w < r + |mem|
  {
    var n, h := |mem|, mem[w % |mem|];
    if h.status == UNUSED then Ends(Parsed(w))
    else if h.status != USED && h.status != INVALID then Ends(Refused)
    else if h.status == USED && (w % n + h.num > n || !SizeFits(h)) then Ends(Refused)
    else if h.status == INVALID && (w + h.num) % n + h.num > n then Ends(Refused)
    else if w + h.num - r == n then Ends(Parsed(w + h.num))
    else if w + h.num - r > n then Ends(Refused)
    else Goes(w + h.num)
  }

  /** Where `n` turns lead. */
  function Turns(mem: seq<Cell>, r: nat, w: nat, n: nat): Turn
    requires |mem| > 0 && r <= w < r + |mem|
    decreases n
  {
    if n == 0 then Goes(w)
    else match OneTurn(mem, r, w) case Ends(p) => Ends(p) case Goes(v) => Turns(mem, r, v, n - 1)
  }

  lemma {:induction false} EndsRight(mem: seq<Cell>, r: nat, w: nat, n: nat)
    requires |mem| > 0 && r <= w < r + |mem| && Turns(mem, r, w, n).Ends?
    ensures Turns(mem, r, w, n).p == ParseFrom(mem, r, w) != Stuck
    decreases n
  {
    if OneTurn(mem, r, w).Goes? { EndsRight(mem, r, OneTurn(mem, r, w).w, n - 1); }
  }

  lemma {:induction false} EndsSoon(mem: seq<Cell>, r: nat, w: nat)
    requires |mem| > 0 && r <= w < r + |mem| && ParseFrom(mem, r, w) != Stuck
    ensures Turns(mem, r, w, r + |mem| - w).Ends?
    decreases r + |mem| - w
  {
    var t := OneTurn(mem, r, w);
    if t.Goes? {
      EndsSoon(mem, r, t.w);
      TurnsMore(mem, r, t.w, r + |mem| - t.w, r + |mem| - w - 1);
    }
  }

  lemma {:induction false} TurnsMore(mem: seq<Cell>, r: nat, w: nat, n: nat, m: nat)
    requires |mem| > 0 && r <= w < r + |mem| && n <= m && Turns(mem, r, w, n).Ends?
    ensures Turns(mem, r, w, m) == Turns(mem, r, w, n)
    decreases n
  {
    if OneTurn(mem, r, w).Goes? { TurnsMore(mem, r, OneTurn(mem, r, w).w, n - 1, m - 1); }
  }

  /**
   For any image at all: the loop ends if and only if the parse is not `Stuck`, within as many turns as there are
   blocks, and its answer is the parse.
   */
  lemma ParseEndsExactly(mem: seq<Cell>, r: nat)
    requires |mem| > 0
    ensures (exists n :: Turns(mem, r, r, n).Ends?) <==> ParseFrom(mem, r, r) != Stuck
    ensures ParseFrom(mem, r, r) != Stuck ==> Turns(mem, r, r, |mem|) == Ends(ParseFrom(mem, r, r))
  {
    if n :| Turns(mem, r, r, n).Ends? { EndsRight(mem, r, r, n); }
    if ParseFrom(mem, r, r) != Stuck {
      EndsSoon(mem, r, r);
      EndsRight(mem, r, r, |mem|);
    }
  }

  /** Memory with the blocks of cursors `[lo, hi)` marked unused. */
  function Cleared(mem: seq<Cell>, lo: nat, hi: nat): (out: seq<Cell>)
    requires |mem| > 0
    ensures |out| == |mem|
    decreases hi
  {
    if hi <= lo then mem
    else
      var m := Cleared(mem, lo, hi - 1);
      m[(hi - 1) % |mem| := m[(hi - 1) % |mem|].(status := UNUSED)]
  }

  /**
   `try_recover_from_exist_memory_map`, without its checksum test, on any image that does not hold it up.
   `readCache` is the saved 32-bit read cursor.
   */
  method TryRecover(blocks: array<Cell>, readCache: nat) returns (ok: bool, r: nat, w: nat)
    requires blocks.Length > 0
    requires ParseFrom(blocks[..], readCache % blocks.Length, readCache % blocks.Length) != Stuck
    modifies blocks
    ensures r == readCache % blocks.Length
    ensures ok <==> ParseFrom(old(blocks[..]), r, r).Parsed?
    ensures ok ==> w == ParseFrom(old(blocks[..]), r, r).w
    ensures blocks[..] == if ok then Cleared(old(blocks[..]), w, r + blocks.Length) else old(blocks[..])
  {
    var n := blocks.Length;
    r := readCache % n;
    ghost var image := blocks[..];
    w := r;
    ok := false;
    var finished := false;
    while !finished
      invariant blocks[..] == image && n == |image| && r <= w <= r + n && (w == r + n ==> finished)
      invariant ParseFrom(image, r, r) == if finished then Parsed(w) else ParseFrom(image, r, w)
      decreases !finished, r + n - w
    {
      var h := blocks[w % n];
      if h.status == USED {
        if w % n + h.num > n || !SizeFits(h) {
          return;
        }
        w := w + h.num;
      } else if h.status == INVALID {
        w := w + h.num;
        if w % n + h.num > n {
          return;
        }
      } else if h.status == UNUSED {
        finished := true;
      } else {
        return;
      }
      if w - r == n {
        finished := true;
      } else if w - r > n {
        return;
      }
    }
    var i := w;
    while i < r + n
      invariant w <= i <= r + n && n == |image| && blocks.Length == n
      invariant blocks[..] == Cleared(image, w, i)
    {
      blocks[i % n] := blocks[i % n].(status := UNUSED);
      i := i + 1;
    }
    ok := true;
  }

  /** Index after the longest run of committed reservations and wrap chunks from `j` on. */
  ghost function RunEnd(s: State, j: nat): (e: nat)
    requires j <= |s.res|
    ensures j <= e <= |s.res|
    ensures forall i :: j <= i < e ==> !Live(s.res[i])
    ensures e < |s.res| ==> Live(s.res[e])
    decreases |s.res| - j
  {
    if j == |s.res| || Live(s.res[j]) then j else RunEnd(s, j + 1)
  }

  /** The parser accepts this reservation: a nonempty chunk, or a wrap chunk whose length fits behind its end. */
  predicate Parses(n: nat, x: Resv) {
    && n > 0
    && (if x.phase == Done then x.size > 0 else End(x) % n + x.len <= n)
  }

  /** Every reservation of the committed run is one the parser accepts. */
  ghost predicate Recoverable(s: State) {
    s.n > 0 && s.k <= |s.res| && forall i :: s.k <= i < RunEnd(s, s.k) ==> Parses(s.n, s.res[i])
  }

  /** Wrap chunks of at most half the ring are accepted. */
  lemma ShortWrapParses(n: nat, x: Resv)
    requires n > 0 && x.phase == Skip && x.len <= n / 2 && !Contiguous(n, x)
    ensures Parses(n, x)
  {
    assert End(x) == n * (x.start / n + 1) + (x.start % n + x.len - n);
    ModUnique(n, x.start / n + 1, x.start % n + x.len - n);
  }

  lemma U32Mod(x: nat, n: nat)
    requires CountOk(n)
    ensures U32(x) % n == x % n
  {
    var q := TWO32 / n;
    assert TWO32 == n * q;
    assert x == TWO32 * (x / TWO32) + U32(x);
    assert TWO32 * (x / TWO32) == n * (q * (x / TWO32)) by { Assoc(n, q, x / TWO32); }
    var u := U32(x);
    assert u == n * (u / n) + u % n;
    assert x == n * (q * (x / TWO32) + u / n) + u % n by { Distribute(n, q * (x / TWO32), u / n); }
    ModUnique(n, q * (x / TWO32) + u / n, u % n);
  }

  /** The same block seen from cursors a multiple of `n` lower. */
  lemma Rebased(n: nat, rc: nat, c: nat)
    requires n > 0 && rc <= c
    ensures (rc % n + (c - rc)) % n == c % n
  {
    var y := rc % n + (c - rc);
    assert c == n * (rc / n) + y;
    assert y == n * (y / n) + y % n;
    assert c == n * (rc / n + y / n) + y % n by { Distribute(n, rc / n, y / n); }
    ModUnique(n, rc / n + y / n, y % n);
  }

  /** What the parser reads at a reservation of the committed run. */
  lemma ParsedHead(s: State, j: nat)
    requires Inv(s) && s.k <= j < |s.res| && !Live(s.res[j]) && !s.reader.Skipping?
    ensures s.n == |s.mem| > 0 && Get(s, s.res[j].start).num == s.res[j].len && s.res[j].phase != Passing
    ensures if s.res[j].phase == Done then
              && Get(s, s.res[j].start).status == USED && Get(s, s.res[j].start).size == s.res[j].size
              && Contiguous(s.n, s.res[j])
            else Get(s, s.res[j].start).status == INVALID
    ensures s.res[j].len == Need(s.res[j].size) && s.res[j].size + 8 < TWO32 && End(s.res[j]) < s.r + s.n
  {
    hide FreeClean, Tiled, Chunks, ProdOk, Need;
    assert ResvOk(s, j);
  }

  lemma ParsedStop(s: State, j: nat)
    requires Inv(s) && s.k <= j <= |s.res| && (j == s.k || End(s.res[j - 1]) < s.r + s.n) && (j < |s.res| ==> Live(s.res[j]))
    ensures s.n == |s.mem| > 0 && Get(s, Bound(s, j)).status == UNUSED
  {
    hide ReadOk, ProdOk, SizeOk, Need, CountOk;
    if j > s.k { assert End(s.res[j - 1]) == Bound(s, j); }
    if j < |s.res| {
      assert ResvOk(s, j);
      TileAt(s, j);
    }
    assert Clean(s, Bound(s, j));
  }

  lemma RunStep(s: State, j: nat)
    requires s.k <= j < |s.res| && !Live(s.res[j])
    ensures RunEnd(s, j) == RunEnd(s, j + 1)
  {
  }

  /** Parse position before reservation `j` of the committed run of `s`. */
  ghost predicate At(s: State, j: nat, r: nat, w: nat) {
    && Inv(s) && !s.reader.Skipping? && s.n > 0 && s.k <= j <= |s.res| && RunEnd(s, j) == RunEnd(s, s.k)
    && r == s.rc % s.n && s.rc <= Bound(s, j) < s.r + s.n && w == r + (Bound(s, j) - s.rc) 
    && (j == s.k || End(s.res[j - 1]) < s.r + s.n)
  }

  lemma AtStart(s: State)
    requires Inv(s) && !s.reader.Skipping?
    ensures s.n == |s.mem| > 0 && s.k <= |s.res| && At(s, s.k, s.rc % s.n, s.rc % s.n)
  {
    hide ResvOk, FreeClean, ReadOk, ProdOk, Tiled;
    CountBound(s.n);
  }

  lemma AtNext(s: State, j: nat, r: nat, w: nat)
    requires At(s, j, r, w) && j < |s.res| && !Live(s.res[j])
    ensures s.res[j].len > 0 && At(s, j + 1, r, w + s.res[j].len) && w + s.res[j].len < r + s.n
  {
    hide ResvOk, FreeClean, ReadOk, ProdOk, Tiled, RunEnd;
    ParsedHead(s, j);
    TileAt(s, j);
    RunStep(s, j);
  }

  /** The block the parser looks at is the one at the reservation's start; its end is seen likewise. */
  lemma AtLook(s: State, j: nat, r: nat, w: nat)
    requires At(s, j, r, w)
    ensures s.n == |s.mem| > 0 && w % s.n == Bound(s, j) % s.n && w < r + s.n
    ensures j < |s.res| ==> (w + s.res[j].len) % s.n == End(s.res[j]) % s.n
  {
    hide ResvOk, FreeClean, ReadOk, ProdOk, Tiled, RunEnd;
    Rebased(s.n, s.rc, Bound(s, j));
    if j < |s.res| { Rebased(s.n, s.rc, End(s.res[j])); }
  }

  lemma SizeTest(h: Cell)
    requires h.size + 8 < TWO32 && h.num == Need(h.size)
    ensures SizeFits(h) <==> h.size > 0
  {
  }

  /** One turn of the parse over a reservation of the committed run: taken when accepted, refused otherwise. */
  lemma ParseTurn(s: State, j: nat, r: nat, w: nat)
    requires At(s, j, r, w) && j < |s.res| && !Live(s.res[j])
    ensures s.n == |s.mem| > 0 && w < r + s.n && s.res[j].len > 0 && w + s.res[j].len < r + s.n
    ensures ParseFrom(s.mem, r, w) == if Parses(s.n, s.res[j]) then ParseFrom(s.mem, r, w + s.res[j].len) else Refused
  {
    hide Inv, RunEnd, Need;
    AtLook(s, j, r, w);
    AtNext(s, j, r, w);
    ParsedHead(s, j);
    if s.res[j].phase == Done { SizeTest(s.mem[w % s.n]); }
  }

  /** Every reservation from `j` to the end of the committed run is accepted. */
  ghost predicate AcceptsFrom(s: State, j: nat) {
    && j <= |s.res|
    && (s.n > 0 && forall i :: j <= i < RunEnd(s, j) ==> Parses(s.n, s.res[i]))
  }

  lemma {:induction false} ParseRun(s: State, j: nat, r: nat, w: nat, e: nat, we: nat)
    requires 0 < |s.mem| && j <= |s.res| && e == RunEnd(s, j) && we == r + (Bound(s, e) - s.rc)
    requires r <= w < r + |s.mem|
    requires At(s, j, r, w)
    ensures ParseFrom(s.mem, r, w) == if AcceptsFrom(s, j) then Parsed(we) else Refused
    decreases |s.res| - j
  {
    hide Inv, Parses, SizeFits;
    AtLook(s, j, r, w);
    if j == e {
      ParsedStop(s, j);
    } else {
      ParseTurn(s, j, r, w);
      AtNext(s, j, r, w);
      RunStep(s, j);
      if Parses(s.n, s.res[j]) { ParseRun(s, j + 1, r, w + s.res[j].len, e, we); }
      assert AcceptsFrom(s, j) <==> Parses(s.n, s.res[j]) && AcceptsFrom(s, j + 1);
    }
  }

  /** What recovery makes of the image of `s`: the committed run between new cursors, every other block unused. */
  ghost predicate Restored(s: State, mem: seq<Cell>, r: nat, w: nat) {
    && s.n == |s.mem| > 0 && |mem| == s.n && s.k <= |s.res|
    && r == s.rc % s.n && s.rc <= Bound(s, RunEnd(s, s.k)) && w == r + (Bound(s, RunEnd(s, s.k)) - s.rc) && w < r + s.n
    && (forall c :: r <= c < w ==> mem[c % s.n] == s.mem[c % s.n])
    && (forall c :: w <= c < r + s.n ==> mem[c % s.n].status == UNUSED)
  }

  lemma {:induction false} ClearedExact(mem: seq<Cell>, r: nat, lo: nat, hi: nat)
    requires |mem| > 0 && r <= lo <= hi <= r + |mem|
    ensures forall c :: lo <= c < hi ==> Cleared(mem, lo, hi)[c % |mem|].status == UNUSED
    ensures forall c :: r <= c < lo ==> Cleared(mem, lo, hi)[c % |mem|] == mem[c % |mem|]
    decreases hi
  {
    if lo < hi {
      ClearedExact(mem, r, lo, hi - 1);
      forall c | r <= c < hi - 1 ensures c % |mem| != (hi - 1) % |mem| { Apart(|mem|, c, hi - 1); }
    }
  }

  lemma {:induction false} AtRunEnd(s: State, j: nat, r: nat, w: nat, e: nat, we: nat)
    requires j <= |s.res| && e == RunEnd(s, j) && we == r + (Bound(s, e) - s.rc)
    requires At(s, j, r, w)
    ensures At(s, e, r, we)
    decreases |s.res| - j
  {
    hide Inv;
    if j < e {
      AtNext(s, j, r, w);
      RunStep(s, j);
      AtRunEnd(s, j + 1, r, w + s.res[j].len, e, we);
    }
  }

  /**
   Recovery of the image of any state of the invariant never hangs. It restores exactly the committed run if and only
   if the parser accepts every reservation of that run and the reader was not between the two stores of a skip.
   */
  lemma RecoversCommittedRun(s: State)
    requires Inv(s)
    ensures s.n == |s.mem| > 0
    ensures var r := U32(s.rc) % s.n; var p := ParseFrom(s.mem, r, r);
      && p != Stuck && (p == Refused <==> !Recoverable(s) && !s.reader.Skipping?)
      && (p.Parsed? && Restored(s, Cleared(s.mem, p.w, r + s.n), r, p.w) <==> Recoverable(s) && !s.reader.Skipping?)
  {
    hide Inv, Parses, ParseFrom, Cleared, Recoverable, Restored;
    if s.reader.Skipping? {
      SkippingLosesRun(s);
    } else {
      RecoversFrom(s);
    }
  }

  lemma RecoversFrom(s: State)
    requires Inv(s) && !s.reader.Skipping?
    ensures s.n == |s.mem| > 0
    ensures var r := U32(s.rc) % s.n; var p := ParseFrom(s.mem, r, r);
      && p != Stuck && (p.Parsed? <==> Recoverable(s))
      && (p.Parsed? ==> Restored(s, Cleared(s.mem, p.w, r + s.n), r, p.w))
  {
    hide Inv, Parses, ParseFrom, Cleared;
    AtStart(s);
    CountOf(s);
    U32Mod(s.rc, s.n);
    var r, e := s.rc % s.n, RunEnd(s, s.k);
    RunFar(s, e);
    var w := r + (Bound(s, e) - s.rc);
    ParseRun(s, s.k, r, r, e, w);
    AtRunEnd(s, s.k, r, r, e, w);
    AtLook(s, e, r, w);
    ClearedExact(s.mem, r, w, r + s.n);
  }

  /**
   A crash between the two stores loses the committed run: the first block reads unused, so the parse ends there and
   every block is cleared, while the wrap chunk and whatever was committed behind it are still to be read.
   */
  lemma SkippingLosesRun(s: State)
    requires Inv(s) && s.reader.Skipping?
    ensures s.n == |s.mem| > 0
    ensures var r := U32(s.rc) % s.n; var p := ParseFrom(s.mem, r, r);
      && p == Parsed(r) && !Restored(s, Cleared(s.mem, p.w, r + s.n), r, p.w)
      && (forall c :: r <= c < r + s.n ==> Cleared(s.mem, p.w, r + s.n)[c % s.n].status == UNUSED)
  {
    hide Inv, Cleared;
    StatusExact(s);
    CountOf(s);
    U32Mod(s.rc, s.n);
    var r := s.rc % s.n;
    assert s.rc % s.n % s.n == s.rc % s.n by { ModUnique(s.n, 0, s.rc % s.n); }
    ClearedExact(s.mem, r, r, r + s.n);
    RunBeyond(s);
  }

  lemma RunBeyond(s: State)
    requires Inv(s) && s.reader.Skipping?
    ensures s.k <= |s.res| && s.rc < Bound(s, RunEnd(s, s.k))
  {
    hide ResvOk, FreeClean, ProdOk, Chunks;
    BoundsGrow(s, s.k, RunEnd(s, s.k));
  }

  lemma RunFar(s: State, e: nat)
    requires Inv(s) && s.k <= e <= |s.res|
    ensures s.rc <= Bound(s, e)
  {
    hide ResvOk, FreeClean, ReadOk, ProdOk;
    if s.k < e { BoundsGrow(s, s.k, e); }
  }

  lemma CountOf(s: State)
    requires Inv(s)
    ensures CountOk(s.n)
  {
    hide ResvOk, FreeClean, ReadOk, ProdOk, Tiled;
  }

  // ---------------------------------------------------------------- going on after the restart

  /** The ring a recovered image starts again from: the committed run, with cursors lowered to `[r, w]`. */
  ghost function Restart(s: State, e: nat, mem: seq<Cell>, r: nat, w: nat): State
    requires s.k <= e <= |s.res|
  {
    State(s.n, mem, w, r, r, map[], Idle, r, Lowered(s, e, r), 0, [])
  }

  ghost function Lowered(s: State, e: nat, r: nat): (out: seq<Resv>)
    requires s.k <= e <= |s.res|
    ensures |out| == e - s.k && forall i :: 0 <= i < e - s.k ==> out[i] == Lower(s.rc, r, s.res[s.k + i])
  {
    seq(e - s.k, i requires 0 <= i < e - s.k => Lower(s.rc, r, s.res[s.k + i]))
  }

  function Lower(rc: nat, r: nat, x: Resv): Resv {
    if x.start >= rc then x.(start := r + (x.start - rc)) else x
  }

  /** The blocks of cursors `[lo, hi)` are as they were. */
  ghost predicate Kept(mem: seq<Cell>, mem': seq<Cell>, lo: nat, hi: nat) {
    |mem| == |mem'| > 0 && forall c :: lo <= c < hi ==> mem'[c % |mem|] == mem[c % |mem|]
  }

  lemma KeptRow(mem: seq<Cell>, mem': seq<Cell>, lo: nat, hi: nat, k: nat)
    requires Kept(mem, mem', lo, hi) && lo % |mem| + (hi - lo) <= |mem| && lo % |mem| <= k < lo % |mem| + (hi - lo)
    ensures mem'[k] == mem[k]
  {
    Offset(|mem|, lo, k - lo % |mem|);
  }

  lemma LoweredDone(s: State, s': State, x: Resv, y: Resv)
    requires s.n == |s.mem| > 0 && s'.n == |s'.mem| == s.n && y == x.(start := y.start) && x.phase == Done
    requires x.start % s.n == y.start % s.n && MemOk(s, x) && Kept(s.mem, s'.mem, y.start, End(y))
    ensures MemOk(s', y)
  {
    hide Kept;
    var a := x.start % s.n;
    forall k | a <= k < a + x.len ensures s'.mem[k] == s.mem[k] { KeptRow(s.mem, s'.mem, y.start, End(y), k); }
    assert s'.mem[a + 1..a + x.len] == s.mem[a + 1..a + x.len];
  }

  lemma LoweredSkip(s: State, s': State, x: Resv, y: Resv)
    requires s.n == |s.mem| > 0 && s'.n == |s'.mem| == s.n && y == x.(start := y.start) && x.phase == Skip && x.len > 0
    requires s.rc <= x.start && s'.r == s.rc % s.n && y.start == s'.r + (x.start - s.rc)
    requires MemOk(s, x) && Kept(s.mem, s'.mem, y.start, End(y))
    ensures MemOk(s', y)
  {
    Rebased(s.n, s.rc, x.start);
    assert s'.mem[y.start % s.n] == s.mem[y.start % s.n];
    forall c | y.start < c < End(y) ensures Clean(s', c) {
      Rebased(s.n, s.rc, x.start + (c - y.start));
      assert Clean(s, x.start + (c - y.start));
      assert s'.mem[c % s.n] == s.mem[c % s.n];
    }
  }

  lemma LoweredAt(s: State, e: nat, r: nat, i: nat)
    requires s.k + i < e <= |s.res| && Tiled(s) && s.rc == Bound(s, s.k)
    ensures s.rc <= s.res[s.k + i].start < Bound(s, e)
    ensures Lowered(s, e, r)[i] == s.res[s.k + i].(start := r + (s.res[s.k + i].start - s.rc))
    ensures End(Lowered(s, e, r)[i]) == r + (Bound(s, s.k + i + 1) - s.rc) && Lowered(s, e, r)[i].len > 0
    ensures Bound(s, s.k + i + 1) <= Bound(s, e)
  {
    hide Lowered, Tiled;
    assert Lowered(s, e, r)[i] == Lower(s.rc, r, s.res[s.k + i]);
    if i > 0 { BoundsGrow(s, s.k, s.k + i); }
    BoundsGrow(s, s.k + i, e);
    if s.k + i + 1 < e { BoundsGrow(s, s.k + i + 1, e); }
    TileAt(s, s.k + i);
  }

  lemma LoweredOk(s: State, e: nat, mem: seq<Cell>, r: nat, w: nat, i: nat)
    requires s.k + i < e <= |s.res| && s.n == |s.mem| == |mem| > 0 && !Live(s.res[s.k + i]) && s.res[s.k + i].phase != Passing
    requires Tiled(s) && s.rc == Bound(s, s.k) && r == s.rc % s.n && w == r + (Bound(s, e) - s.rc)
    requires Kept(s.mem, mem, r, w) && ResvOk(s, s.k + i) && s.rc < s.r + s.n && w < r + s.n
    ensures ResvOk(Restart(s, e, mem, r, w), i)
  {
    hide Tiled, MemOk, SizeOk, Need;
    var x, s' := s.res[s.k + i], Restart(s, e, mem, r, w);
    LoweredAt(s, e, r, i);
    if x.phase == Done {
      Rebased(s.n, s.rc, x.start);
      LoweredDone(s, s', x, s'.res[i]);
    } else {
      LoweredSkip(s, s', x, s'.res[i]);
    }
  }

  lemma LoweredTiled(s: State, e: nat, mem: seq<Cell>, r: nat, w: nat)
    requires s.k <= e <= |s.res| && Tiled(s) && s.rc == Bound(s, s.k) <= Bound(s, e) && w == r + (Bound(s, e) - s.rc)
    ensures Tiled(Restart(s, e, mem, r, w))
  {
    hide Tiled, Lower;
    var s' := Restart(s, e, mem, r, w);
    forall i | 0 <= i < |s'.res| ensures s'.res[i].len > 0 && End(s'.res[i]) == Bound(s', i + 1) {
      LoweredAt(s, e, r, i);
      if i + 1 < |s'.res| { LoweredAt(s, e, r, i + 1); }
    }
    if s.k < e { LoweredAt(s, e, r, 0); }
    TiledIs(s');
  }

  lemma TiledIs(s: State)
    requires Bound(s, 0) == s.base && forall i :: 0 <= i < |s.res| ==> s.res[i].len > 0 && End(s.res[i]) == Bound(s, i + 1)
    ensures Tiled(s)
  {
  }

  lemma RestoredParts(s: State, mem: seq<Cell>, r: nat, w: nat)
    requires Restored(s, mem, r, w)
    ensures s.k <= |s.res| && s.n == |s.mem| == |mem| > 0 && Kept(s.mem, mem, r, w)
    ensures r == s.rc % s.n && s.rc <= Bound(s, RunEnd(s, s.k)) && w == r + (Bound(s, RunEnd(s, s.k)) - s.rc) && w < r + s.n
    ensures FreeClean(Restart(s, RunEnd(s, s.k), mem, r, w))
  {
    hide RunEnd;
  }

  lemma CommittedOk(s: State, j: nat)
    requires Inv(s) && s.k <= j < |s.res|
    ensures s.n == |s.mem| > 0 && ResvOk(s, j) && s.rc < s.r + s.n && (s.res[j].phase == Passing ==> s.reader.Skipping?)
  {
    hide ResvOk, FreeClean, Chunks, ProdOk, Tiled;
  }

  /** The recovered ring is one the protocol can go on from. */
  lemma RestartKeeps(s: State, mem: seq<Cell>, r: nat, w: nat)
    requires s.k <= |s.res| && Restored(s, mem, r, w) && Inv(s) && !s.reader.Skipping?
    ensures Inv(Restart(s, RunEnd(s, s.k), mem, r, w))
  {
    assert Tiled(s) && s.k <= |s.res| && s.rc == Bound(s, s.k) && s.n == |s.mem| > 0;
    hide Inv, ResvOk, ReadOk, ProdOk, CountOk, Tiled, FreeClean, Restored, Kept, Lowered;
    var e := RunEnd(s, s.k);
    var s' := Restart(s, e, mem, r, w);
    CountOf(s);
    RestoredParts(s, mem, r, w);
    LoweredTiled(s, e, mem, r, w);
    forall i | 0 <= i < |s'.res| ensures ResvOk(s', i) {
      CommittedOk(s, s.k + i);
      LoweredOk(s, e, mem, r, w, i);
    }
    forall j | s.k <= j < e ensures s.res[j].phase != Passing { CommittedOk(s, j); }
    LoweredRead(s, e, mem, r, w);
    assert Shape(s') by { CountBound(s'.n); }
    assert Inv(s');
  }

  lemma LoweredRead(s: State, e: nat, mem: seq<Cell>, r: nat, w: nat)
    requires s.k <= e <= |s.res| && forall j :: s.k <= j < e ==> s.res[j].phase != Passing
    ensures ReadOk(Restart(s, e, mem, r, w))
  {
  }

  lemma {:induction false} LoweredChunks(s: State, e: nat, r: nat, i: nat)
    requires s.k <= s.k + i <= e <= |s.res|
    ensures Chunks(Lowered(s, e, r)[..i]) == Chunks(s.res[s.k..s.k + i])
  {
    if i > 0 {
      LoweredChunks(s, e, r, i - 1);
      var a, b := Lowered(s, e, r)[..i], s.res[s.k..s.k + i];
      assert a[..i - 1] == Lowered(s, e, r)[..i - 1] && b[..i - 1] == s.res[s.k..s.k + i - 1];
      assert a[i - 1] == Lower(s.rc, r, b[i - 1]);
    }
  }

  /**
   Restart from the image of any recoverable state of the invariant: the ring that comes up satisfies the invariant again,
   and what it will deliver is exactly the committed run, in order.
   */
  lemma RestartsWithCommittedRun(s: State)
    requires s.k <= |s.res| && s.n == |s.mem| > 0
    requires Recoverable(s) && !s.reader.Skipping? && Inv(s)
    ensures var r := U32(s.rc) % s.n; var p := ParseFrom(s.mem, r, r);
      && p.Parsed?
      && var s' := Restart(s, RunEnd(s, s.k), Cleared(s.mem, p.w, r + s.n), r, p.w);
      && Inv(s') && Chunks(s'.res) == Chunks(s.res[s.k..RunEnd(s, s.k)])
      && (forall i :: 0 <= i < |s'.res| ==> !Live(s'.res[i]))
  {
    hide Inv, Recoverable, Restored, ParseFrom, Cleared;
    RecoversCommittedRun(s);
    var r, e := U32(s.rc) % s.n, RunEnd(s, s.k);
    var p := ParseFrom(s.mem, r, r);
    RestartKeeps(s, Cleared(s.mem, p.w, r + s.n), r, p.w);
    LoweredChunks(s, e, r, e - s.k);
    assert Lowered(s, e, r)[..e - s.k] == Lowered(s, e, r);
    forall i | 0 <= i < e - s.k ensures !Live(Lowered(s, e, r)[i]) { assert !Live(s.res[s.k + i]); }
  }
}
