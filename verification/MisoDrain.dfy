/**
 With no producer inside a reservation the reader alone hands out every committed chunk and gives every block back, and
 then whatever is shorter than the ring can be reserved.
 */
module MisoDrain {
  import opened Words
  import opened Modular
  import opened MisoModel
  import opened MisoInv
  import opened MisoSteps
  import opened MisoTheorems
  import opened MisoHistory

  /** No producer holds a reservation. */
  ghost predicate NoneHeld(s: State) {
    forall p :: p in s.prods ==> !s.prods[p].pc.Busy?
  }

  /** These steps lead from `s` to `s2`. */
  ghost predicate Path(s: State, steps: seq<Step>, s2: State)
    decreases |steps|
  {
    if steps == [] then s2 == s else exists mid :: Next(s, mid, steps[0]) && Path(mid, steps[1..], s2)
  }

  predicate OnlyReader(steps: seq<Step>) {
    forall i :: 0 <= i < |steps| ==> ByReader(steps[i])
  }

  predicate OnlyBy(steps: seq<Step>, p: nat) {
    forall i :: 0 <= i < |steps| ==> ByProducer(steps[i], p)
  }

  lemma Further(s: State, step: Step, mid: State, steps: seq<Step>, s2: State)
    requires Next(s, mid, step) && Path(mid, steps, s2)
    ensures Path(s, [step] + steps, s2)
  {
    hide Next;
    assert ([step] + steps)[1..] == steps;
  }

  /** Nothing is left to read and nothing to give back. */
  ghost predicate Drained(s: State) {
    s.reader == Idle && s.k == |s.res| && s.r == s.rc == s.w
  }

  /** Cells to be cleared and steps to come before the cursor moves. */
  function Rank(s: State): nat {
    var left := if s.rc >= s.r then s.rc - s.r else 0;
    match s.reader
    case Idle => left + 2
    case Empty => if left == 0 then 3 else left + 1
    case Clearing(i) => if left == 0 then 3 else if i <= left then left - i else 0
    case _ => 0
  }

  /** What the reader leaves alone, and the committed chunks. */
  ghost predicate Same(s: State, s2: State) {
    && s2.n == s.n && s2.w == s.w && s2.prods == s.prods && |s2.res| == |s.res|
    && forall j :: 0 <= j < |s.res| ==> s2.res[j].chunk == s.res[j].chunk && (s2.res[j].phase == Done <==> s.res[j].phase == Done)
  }

  lemma {:induction false} SameChunks(a: seq<Resv>, b: seq<Resv>)
    requires |a| == |b| && forall j :: 0 <= j < |a| ==> b[j].chunk == a[j].chunk && (b[j].phase == Done <==> a[j].phase == Done)
    ensures Chunks(b) == Chunks(a)
  {
    if |a| > 0 { SameChunks(a[..|a| - 1], b[..|b| - 1]); }
  }

  lemma HeadPhase(s: State)
    requires NoneHeld(s) && s.k < |s.res| && Inv(s)
    ensures s.res[s.k].phase == Skip || s.res[s.k].phase == Done || s.reader.Skipping?
  {
    hide MemOk, FreeClean, Chunks, Tiled, SizeOk, Need;
    assert ResvOk(s, s.k);
  }

  lemma Small(s: State)
    requires Inv(s)
    ensures s.r <= s.rc && U32(s.rc - s.r) == s.rc - s.r && s.n == |s.mem| > 0 && s.k <= |s.res|
    ensures s.k == |s.res| ==> s.rc == s.w
    ensures s.reader.Clearing? ==> s.reader.i <= s.rc - s.r
    ensures s.reader.Got? || s.reader.Skipping? ==> s.k < |s.res|
  {
    hide ResvOk, ProdOk, FreeClean, Tiled, Chunks;
    CountBound(s.n);
    U32Small(s.rc - s.r);
  }

  /** The step for a reader in the middle of something. */
  lemma Midway(s: State) returns (step: Step, s2: State)
    requires s.reader != Idle && Inv(s)
    ensures ByReader(step) && Next(s, s2, step) && Same(s, s2)
    ensures s2.k > s.k || (s2.k == s.k && s2.r >= s.r && s2.rc == s.rc && (s2.r > s.r || Rank(s2) < Rank(s)))
  {
    hide Inv;
    Small(s);
    StatusExact(s);
    match s.reader
    case Skipping(num) =>
      step, s2 := RSkipMove, s.(rc := s.rc + num, k := s.k + 1, reader := Idle, res := s.res[s.k := s.res[s.k].(phase := Skip)]);
      SkipPhase(s);
    case Got(chunk) =>
      var rc' := s.rc + Get(s, s.rc).num;
      step, s2 := RReturn, s.(rc := rc', k := s.k + 1, delivered := s.delivered + [chunk],
        reader := if U32(rc' - s.r) >= s.n / 4 && U32(rc' - s.r) > 0 then Clearing(0) else Idle);
    case Empty =>
      step, s2 := RReturnEmpty, s.(reader := if U32(s.rc - s.r) > 0 then Clearing(0) else Idle);
    case Clearing(i) =>
      step, s2 := Clears(s);
  }

  lemma Clears(s: State) returns (step: Step, s2: State)
    requires s.reader.Clearing? && Inv(s)
    ensures ByReader(step) && Next(s, s2, step) && Same(s, s2) && s2.k == s.k && s2.rc == s.rc
    ensures s2.r >= s.r && (s2.r > s.r || Rank(s2) < Rank(s))
  {
    hide Inv;
    Small(s);
    var i := s.reader.i;
    if i < s.rc - s.r {
      step, s2 := RClearOne, Put(s, s.r + i, Get(s, s.r + i).(status := UNUSED)).(reader := Clearing(i + 1));
    } else {
      step, s2 := RPublish, s.(r := s.rc, reader := Idle);
    }
  }

  lemma SkipPhase(s: State)
    requires s.reader.Skipping? && Inv(s)
    ensures s.k < |s.res| && s.res[s.k].phase == Passing
  {
    hide ResvOk, ProdOk, FreeClean, Shape, Chunks;
  }

  /** The step from between calls, while something is left. */
  lemma Onward(s: State) returns (step: Step, s2: State)
    requires s.reader == Idle && NoneHeld(s) && !Drained(s) && Inv(s)
    ensures ByReader(step) && Next(s, s2, step) && Same(s, s2) && s2.k == s.k && s2.r == s.r && s2.rc == s.rc && Rank(s2) < Rank(s)
  {
    hide Inv, NoneHeld;
    Small(s);
    StatusExact(s);
    if s.k == |s.res| {
      step, s2 := RSeeEmpty, s.(reader := Empty);
    } else {
      HeadPhase(s);
      if s.res[s.k].phase == Done {
        HeadChunk(s);
        step, s2 := RSeeUsed, s.(reader := Got(ChunkAt(s.mem, s.rc % s.n, Get(s, s.rc).num)));
      } else {
        step, s2 := RSkipClear, Put(s, s.rc, Get(s, s.rc).(status := UNUSED))
          .(reader := Skipping(Get(s, s.rc).num), res := s.res[s.k := s.res[s.k].(phase := Passing)]);
      }
    }
  }

  lemma Forward(s: State) returns (step: Step, s2: State)
    requires NoneHeld(s) && !Drained(s) && Inv(s)
    ensures ByReader(step) && Next(s, s2, step) && Same(s, s2)
    ensures s2.k > s.k || (s2.k == s.k && s2.r >= s.r && s2.rc == s.rc && (s2.r > s.r || Rank(s2) < Rank(s)))
  {
    hide Next, Rank, Same, Inv;
    if s.reader == Idle { step, s2 := Onward(s); } else { step, s2 := Midway(s); }
  }

  /** From any state with no reservation held reading alone hands out every committed chunk and gives every block back. */
  lemma {:induction false} DrainsAll(s: State) returns (steps: seq<Step>, s2: State)
    requires NoneHeld(s) && Window(s) && Inv(s)
    ensures Path(s, steps, s2) && OnlyReader(steps) && Drained(s2) && Same(s, s2) && s2.delivered == Chunks(s.res) && Window(s2) && Inv(s2)
    decreases |s.res| - s.k, s.rc - s.r, Rank(s)
  {
    hide Next, Rank, Inv, Chunks;
    Small(s);
    if Drained(s) {
      steps, s2 := [], s;
      AllRead(s);
    } else {
      var step, mid := Forward(s);
      NextKeeps(s, mid, step);
      Small(mid);
      var rest;
      rest, s2 := DrainsAll(mid);
      SameChunks(s.res, mid.res);
      Further(s, step, mid, rest, s2);
      steps := [step] + rest;
    }
  }

  lemma AllRead(s: State)
    requires s.k == |s.res| && Inv(s)
    ensures s.delivered == Chunks(s.res)
  {
    hide Shape, ResvOk, ProdOk, FreeClean, Chunks;
    assert s.res[..s.k] == s.res;
  }

  // ---------------------------------------------------------------- what can be reserved then

  lemma Passes(s: State, p: nat) returns (s2: State)
    requires p in s.prods && s.prods[p].pc.Pre? && s.prods[p].pc.cw == s.w == s.r && Window(s) && Inv(s)
    ensures Next(s, s2, PPass(p)) && exists ref :: s2 == s.(prods := s.prods[p := Producer(ref, Go(s.prods[p].pc.size))])
  {
    var q := s.prods[p];
    assert q.ref <= s.r && Need(q.pc.size) <= s.n by {
      hide MemOk, FreeClean, ReadOk, Shape, ResvOk, Window;
      assert ProdOk(s, p);
    }
    hide Inv, Need;
    RefuseExact(s, p, q.pc.cw + Need(q.pc.size));
    s2 :| Pass(s, s2, p);
    assert s2 == s.(prods := s.prods[p := Producer(s2.prods[p].ref, Go(q.pc.size))]);
  }

  /** The reservation, with one reload where the cached cursor is too old. */
  lemma Reserves(s: State, p: nat) returns (steps: seq<Step>, s2: State)
    requires p in s.prods && s.prods[p].pc.Go? && s.w == s.r && Need(s.prods[p].pc.size) < s.n <= TWO32
    ensures Path(s, steps, s2) && OnlyBy(steps, p) && Holds(s2, p, Owned) && Mine(s2, p).size == s.prods[p].pc.size
  {
    var size := s.prods[p].pc.size;
    var need := Need(size);
    hide Need;
    var x := Resv(s.w, need, size, p, Tentative, Chunk(0, [], []));
    var s1 := s.(w := s.w + need, res := s.res + [x], prods := s.prods[p := s.prods[p].(pc := Busy(|s.res|, false))]);
    assert Next(s, s1, PFetchAdd(p));
    assert Mine(s1, p) == x && End(x) - s.r == need;
    if U32(End(x) - s1.prods[p].ref) < s.n {
      s2 := Accepts(s1, p);
      steps := [PFetchAdd(p), PAccept(p)];
      Two(s, PFetchAdd(p), s1, PAccept(p), s2);
    } else {
      var mid := s1.(prods := s1.prods[p := Producer(s.r, Busy(|s.res|, false))]);
      U32Small(need);
      assert Next(s1, mid, PReload(p));
      s2 := Accepts(mid, p);
      Two(s1, PReload(p), mid, PAccept(p), s2);
      Further(s, PFetchAdd(p), s1, [PReload(p), PAccept(p)], s2);
      steps := [PFetchAdd(p)] + [PReload(p), PAccept(p)];
    }
  }

  lemma Accepts(s: State, p: nat) returns (s2: State)
    requires Holds(s, p, Tentative) && U32(End(Mine(s, p)) - s.prods[p].ref) < s.n
    ensures Next(s, s2, PAccept(p)) && Holds(s2, p, Owned) && Mine(s2, p).size == Mine(s, p).size
  {
    hide U32;
    s2 := SetMine(s, p, Mine(s, p).(phase := Owned));
  }

  lemma Two(s: State, step: Step, mid: State, step': Step, s2: State)
    requires Next(s, mid, step) && Next(mid, s2, step')
    ensures Path(s, [step, step'], s2)
  {
    hide Next;
    assert Path(s2, [], s2);
    Further(mid, step', s2, [], s2);
    Further(s, step, mid, [step'], s2);
    assert [step'] + [] == [step'] && [step] + [step'] == [step, step'];
  }

  /** Anything shorter than the ring is granted, whatever read cursor the producer goes by. */
  lemma Grants(s: State, p: nat, size: nat) returns (steps: seq<Step>, s2: State)
    requires Drained(s) && p in s.prods && s.prods[p].pc == Out && SizeOk(s.n, size) && Need(size) < s.n && Window(s) && Inv(s)
    ensures Path(s, steps, s2) && OnlyBy(steps, p) && Holds(s2, p, Owned) && Mine(s2, p).size == size
  {
    CountBound(s.n);
    hide Need, SizeOk, Inv;
    var s1 := s.(prods := s.prods[p := s.prods[p].(pc := Pre(s.w, size))]);
    assert Next(s, s1, PStart(p, size));
    NextKeeps(s, s1, PStart(p, size));
    hide Next, Path;
    var s3 := Passes(s1, p);
    var rest;
    rest, s2 := Reserves(s3, p);
    Further(s1, PPass(p), s3, rest, s2);
    Further(s, PStart(p, size), s1, [PPass(p)] + rest, s2);
    steps := [PStart(p, size)] + ([PPass(p)] + rest);
  }

  /** And a request for as many blocks as the ring has is never granted. */
  lemma WholeRingNever(run: seq<State>, steps: seq<Step>, i: nat, p: nat)
    requires IsRun(run, steps) && i < |steps| && steps[i] == PAccept(p)
    ensures Holds(run[i], p, Tentative) && Mine(run[i], p).len < run[i].n
  {
    RunInv(run, steps, i);
    hide Inv;
    assert Next(run[i], run[i + 1], steps[i]) && Window(run[i]);
    AcceptFits(run[i], run[i + 1], p);
    HeldPast(run[i], p);
  }

  /**
   After any run that leaves no reservation held the reader alone can hand out every chunk committed in it, and then every
   known producer is granted any request shorter than the ring.
   */
  lemma DrainsAfterRun(run: seq<State>, steps: seq<Step>, p: nat, size: nat) returns (drain: seq<Step>, s2: State)
    requires IsRun(run, steps) && Window(run[|steps|]) && NoneHeld(run[|steps|])
    ensures Path(run[|steps|], drain, s2) && OnlyReader(drain) && Drained(s2) && s2.delivered == Chunks(run[|steps|].res)
    ensures s2.prods == run[|steps|].prods && s2.n == run[|steps|].n
    ensures p in s2.prods && s2.prods[p].pc == Out && SizeOk(s2.n, size) && Need(size) < s2.n ==>
              exists writes, s3 :: Path(s2, writes, s3) && OnlyBy(writes, p) && Holds(s3, p, Owned) && Mine(s3, p).size == size
  {
    hide Inv, Next, Path, Window, Init, SizeOk, Need;
    var s := run[|steps|];
    RunInv(run, steps, |steps|);
    drain, s2 := DrainsAll(s);
    if p in s2.prods && s2.prods[p].pc == Out && SizeOk(s2.n, size) && Need(size) < s2.n {
      var writes, s3 := Grants(s2, p, size);
    }
  }

  // ---------------------------------------------------------------- what the reader is told, and sizes

  /** The reader finds the ring empty, a wrap chunk or a chunk exactly when the next reservation is not published, is one, is committed. */
  lemma ReadExact(run: seq<State>, steps: seq<Step>, t: nat)
    requires IsRun(run, steps) && t < |run| && run[t].reader == Idle
    ensures var s := run[t]; s.k <= |s.res|
    ensures var s := run[t]; (exists s2 :: SeeEmpty(s, s2)) <==> s.k == |s.res| || Live(s.res[s.k])
    ensures var s := run[t]; (exists s2 :: SkipClear(s, s2)) <==> s.k < |s.res| && s.res[s.k].phase == Skip
    ensures var s := run[t]; s.k < |s.res| && s.res[s.k].phase == Done <==> exists s2 :: SeeUsed(s, s2)
    ensures var s := run[t]; s.k < |s.res| && s.res[s.k].phase == Done ==> SeeUsed(s, s.(reader := Got(s.res[s.k].chunk)))
  {
    hide Next, Inv, Init, Window;
    var s := run[t];
    RunInv(run, steps, t);
    StatusExact(s);
    if s.k < |s.res| && s.res[s.k].phase == Done {
      HeadChunk(s);
      assert SeeUsed(s, s.(reader := Got(s.res[s.k].chunk)));
    }
    if Get(s, s.rc).status == UNUSED { assert SeeEmpty(s, s.(reader := Empty)); }
    if Get(s, s.rc).status == INVALID {
      assert SkipClear(s, Put(s, s.rc, Get(s, s.rc).(status := UNUSED))
        .(reader := Skipping(Get(s, s.rc).num), res := s.res[s.k := s.res[s.k].(phase := Passing)]));
    }
  }

  /** A chunk that was put back is what the next read gives. */
  lemma DiscardedIsNext(run: seq<State>, steps: seq<Step>, i: nat)
    requires IsRun(run, steps) && i < |steps| && steps[i] == RDiscard
    ensures run[i + 1].reader == Idle && SeeUsed(run[i + 1], run[i])
  {
    hide Inv, Init, Window;
    assert Next(run[i], run[i + 1], steps[i]);
    RunInv(run, steps, i);
    DiscardedNext(run[i], run[i + 1]);
  }

  lemma DiscardedNext(s: State, s2: State)
    requires Discard(s, s2) && Inv(s)
    ensures s2.reader == Idle && SeeUsed(s2, s)
  {
    assert s.k < |s.res| && s.res[s.k].phase == Done && s.reader.chunk == s.res[s.k].chunk by { hide Shape, ResvOk, ProdOk, FreeClean, Chunks; }
    hide Inv;
    StatusExact(s);
    HeadChunk(s);
  }

  /** After a return the reader keeps back less than a quarter of the ring, and after an empty read nothing. */
  lemma HeldBack(run: seq<State>, steps: seq<Step>, i: nat)
    requires IsRun(run, steps) && i < |steps|
    ensures var s := run[i + 1];
      && (steps[i] == RReturn ==> s.reader == Clearing(0) || (s.reader == Idle && (s.rc - s.r < s.n / 4 || s.rc == s.r)))
      && (steps[i] == RReturnEmpty ==> s.reader == Clearing(0) || (s.reader == Idle && s.rc == s.r))
      && (steps[i] == RPublish ==> s.reader == Idle && s.rc == s.r)
  {
    hide Inv, Init, Window;
    assert Next(run[i], run[i + 1], steps[i]);
    RunInv(run, steps, i);
    RunInv(run, steps, i + 1);
    Small(run[i]);
    Small(run[i + 1]);
  }

  /** Sizes in bytes: the block count is the least that holds head and payload, and a size is taken up to the ring's bytes. */
  lemma SizeExact(n: nat, size: nat)
    ensures 64 * Need(size) - 64 < size + 8 <= 64 * Need(size)
    ensures SizeOk(n, size) <==> size + 8 < TWO32 && size + 8 <= 64 * n && size + 8 <= 64 * 0xFFFFFF
  {
  }
}
