/** What a committed chunk holds: the blocks its producer stored, as the steps of the run say, under the size it asked for. */
module MisoBytes {
  import opened Words
  import opened Modular
  import opened MisoModel
  import opened MisoInv
  import opened MisoSteps
  import opened MisoTheorems
  import opened MisoHistory

  /** The reservation's blocks hold these stores; of the first block only the part behind the head is the producer's. */
  ghost predicate Stores(s: State, f: map<nat, Cell>, y: Resv) {
    && s.n == |s.mem| > 0 && Contiguous(s.n, y)
    && forall i :: i in f ==>
         i < y.len && if i == 0 then s.mem[y.start % s.n].body == f[0].body else s.mem[y.start % s.n + i] == f[i]
  }

  /** So does the chunk. */
  ghost predicate HoldsStores(c: Chunk, f: map<nat, Cell>) {
    forall i :: i in f ==> if i == 0 then c.first == f[0].body else i <= |c.rest| && c.rest[i - 1] == f[i]
  }

  ghost predicate FillOk(s: State, steps: seq<Step>, n: nat, p: nat) {
    Holds(s, p, Writing) ==> Stores(s, Filled(steps, n, p), Mine(s, p))
  }

  // ---------------------------------------------------------------- others write elsewhere

  /** Another producer writes a block of its own reservation. */
  lemma ProducerWrites(s: State, s': State, step: Step, p: nat) returns (c0: nat)
    requires !ByReader(step) && step.p != p && Holds(s, p, Writing) && Next(s, s', step) && Inv(s)
    ensures s'.mem == s.mem || (WroteAt(s, s', c0) && (c0 < Mine(s, p).start || c0 >= End(Mine(s, p))))
  {
    hide MemOk, FreeClean, ReadOk, Chunks, Tiled, SizeOk, Need, U32, CountOk;
    assert ProdOk(s, p);
    c0 := 0;
    if step.PPutNum? || step.PWrap? || step.PPutSize? || step.PCommit? || step.PFill? {
      var q := step.p;
      var y := Mine(s, q);
      assert ProdOk(s, q);
      HeldPast(s, q);
      assert ResvOk(s, s.prods[q].pc.j);
      Elsewhere(s, s.prods[q].pc.j, s.prods[p].pc.j);
      Elsewhere(s, s.prods[p].pc.j, s.prods[q].pc.j);
      c0 := if step.PFill? then y.start + step.i else y.start;
      if step.PFill? { Offset(s.n, y.start, step.i); }
    }
  }

  /** The reader writes blocks it has left behind, or the head of the wrap chunk it is at. */
  lemma ReaderWrites(s: State, s': State, step: Step, p: nat) returns (c0: nat)
    requires ByReader(step) && Holds(s, p, Writing) && Next(s, s', step) && Inv(s)
    ensures s'.mem == s.mem || (WroteAt(s, s', c0) && (c0 < Mine(s, p).start || c0 >= End(Mine(s, p))))
  {
    hide MemOk, FreeClean, Chunks, ResvOk, Tiled, SizeOk, Need, U32, CountOk;
    assert ProdOk(s, p);
    StatusExact(s);
    HeldPast(s, p);
    ReaderBehind(s);
    c0 := s.rc;
    if step.RClearOne? {
      ClearWrote(s, s');
      c0 := s.r + s.reader.i;
    } else if step.RSkipClear? {
      assert s.prods[p].pc.j != s.k;
      Elsewhere(s, s.k, s.prods[p].pc.j);
      TileAt(s, s.k);
    }
  }

  lemma StoresKept(s: State, s': State, f: map<nat, Cell>, y: Resv, c0: nat)
    requires Stores(s, f, y) && s'.n == s.n == |s'.mem| && s.r <= y.start && y.len > 0 && End(y) < s.r + s.n
    requires s'.mem == s.mem || (WroteAt(s, s', c0) && (c0 < y.start || c0 >= End(y)))
    ensures Stores(s', f, y)
  {
    hide WroteAt;
    var b := y.start % s.n;
    forall q | b <= q < b + y.len ensures s'.mem[q] == s.mem[q] {
      if s'.mem != s.mem { FarRow(s, s', c0, y, q); }
    }
    forall i | i in f && i > 0 ensures s'.mem[b + i] == f[i] { assert s'.mem[b + i] == s.mem[b + i]; }
  }

  lemma SameFilled(steps: seq<Step>, n: nat, p: nat)
    requires n < |steps| && !ByProducer(steps[n], p)
    ensures Filled(steps, n + 1, p) == Filled(steps, n, p)
  {
  }

  lemma OthersKeep(s: State, s': State, steps: seq<Step>, n: nat, p: nat)
    requires n < |steps| && Next(s, s', steps[n]) && !ByProducer(steps[n], p)
    requires FillOk(s, steps, n, p) && Window(s) && Inv(s) && Inv(s')
    ensures FillOk(s', steps, n + 1, p)
  {
    hide Inv, Next, Window, Filled, Stores, WroteAt;
    SameFilled(steps, n, p);
    if p in s'.prods { NotNew(s, s', steps[n], p); }
    if p in s.prods {
      if ByReader(steps[n]) { ReaderSpares(s, s', steps[n], p); } else { OthersSpared(s, s', steps[n], p); }
      if Holds(s, p, Writing) {
        Accepted(s, p);
        assert |s'.mem| == s'.n by { Sized(s'); }
        var c0;
        if ByReader(steps[n]) { c0 := ReaderWrites(s, s', steps[n], p); } else { c0 := ProducerWrites(s, s', steps[n], p); }
        StoresKept(s, s', Filled(steps, n, p), Mine(s, p), c0);
      }
    }
  }

  lemma Sized(s: State)
    requires Inv(s)
    ensures |s.mem| == s.n > 0
  {
    hide ResvOk, ProdOk, FreeClean, ReadOk, Tiled;
  }

  lemma NotNew(s: State, s': State, step: Step, p: nat)
    requires Next(s, s', step) && !ByProducer(step, p) && p in s'.prods
    ensures p in s.prods
  {
    hide U32, Need;
  }

  // ---------------------------------------------------------------- its own steps

  lemma FillStores(s: State, s': State, p: nat, i: nat, x: Cell, f: map<nat, Cell>)
    requires Fill(s, s', p, i, x) && Stores(s, f, Mine(s, p))
    ensures s'.prods == s.prods && s'.res == s.res && Stores(s', f[i := x], Mine(s, p))
  {
  }

  lemma SameStores(s: State, s': State, f: map<nat, Cell>, y: Resv)
    requires s'.mem == s.mem && s'.n == s.n
    ensures Stores(s', f, y) == Stores(s, f, y)
  {
  }

  lemma OwnKeeps(s: State, s': State, steps: seq<Step>, n: nat, p: nat)
    requires n < |steps| && Next(s, s', steps[n]) && ByProducer(steps[n], p) && FillOk(s, steps, n, p)
    ensures FillOk(s', steps, n + 1, p)
  {
    hide U32, Need, Window, SizeOk;
    if steps[n].PFill? {
      hide Stores;
      FillStores(s, s', p, steps[n].i, steps[n].x, Filled(steps, n, p));
    } else if steps[n].PPutSize? {
      assert Filled(steps, n + 1, p) == map[];
    } else if Holds(s', p, Writing) {
      hide Stores;
      OnlyRefresh(s, s', steps[n], p);
      assert Filled(steps, n + 1, p) == Filled(steps, n, p);
      SameStores(s, s', Filled(steps, n, p), Mine(s, p));
    }
  }

  lemma OnlyRefresh(s: State, s': State, step: Step, p: nat)
    requires Next(s, s', step) && ByProducer(step, p) && !step.PFill? && !step.PPutSize? && Holds(s', p, Writing)
    ensures step.PRefresh? && s'.mem == s.mem && s'.res == s.res && s'.n == s.n && Holds(s, p, Writing) && Mine(s', p) == Mine(s, p)
  {
    hide U32, Need;
  }

  ghost predicate AllFillOk(s: State, steps: seq<Step>, n: nat) {
    forall p: nat :: FillOk(s, steps, n, p)
  }

  lemma StepFillOk(s: State, s': State, steps: seq<Step>, n: nat, n': nat)
    requires n < |steps| && n' == n + 1 && Next(s, s', steps[n]) && Window(s) && Inv(s) && Inv(s') && AllFillOk(s, steps, n)
    ensures AllFillOk(s', steps, n')
  {
    hide Inv, Next, Window, FillOk;
    forall p: nat ensures FillOk(s', steps, n', p) {
      assert FillOk(s, steps, n, p);
      if ByProducer(steps[n], p) { OwnKeeps(s, s', steps, n, p); } else { OthersKeep(s, s', steps, n, p); }
    }
  }

  lemma {:induction false} RunFillOk(run: seq<State>, steps: seq<Step>, i: nat)
    requires IsRun(run, steps) && i < |run|
    ensures AllFillOk(run[i], steps, i)
  {
    hide Next, Window, Inv;
    if i > 0 {
      RunFillOk(run, steps, i - 1);
      RunInv(run, steps, i - 1);
      RunInv(run, steps, i);
      assert Next(run[i - 1], run[i - 1 + 1], steps[i - 1]) && Window(run[i - 1]);
      StepFillOk(run[i - 1], run[i], steps, i - 1, i);
    }
  }

  // ---------------------------------------------------------------- committed chunks

  /** Step `i` commits this chunk of reservation `j`: its size is the one asked for, and it holds what was stored. */
  ghost predicate CommitsAt(run: seq<State>, steps: seq<Step>, i: nat, j: nat, c: Chunk) {
    && i < |steps| && i < |run| && steps[i].PCommit?
    && var p := steps[i].p;
    && p in run[i].prods && run[i].prods[p].pc.Busy? && run[i].prods[p].pc.j == j
    && c.size == Asked(steps, i, p) && HoldsStores(c, Filled(steps, i, p))
  }

  lemma CommitStores(s: State, s': State, p: nat, f: map<nat, Cell>)
    requires Commit(s, s', p) && Stores(s, f, Mine(s, p))
    ensures var j := s.prods[p].pc.j; j < |s'.res| && s'.res[j].phase == Done && HoldsStores(s'.res[j].chunk, f)
    ensures var j := s.prods[p].pc.j; s'.res[j].chunk.size == Get(s, Mine(s, p).start).size && s'.res[j].size == Mine(s, p).size
  {
  }

  lemma CommitHolds(run: seq<State>, steps: seq<Step>, i: nat)
    requires IsRun(run, steps) && i < |steps| && steps[i].PCommit?
    ensures var p := steps[i].p; var s, s' := run[i], run[i + 1];
      && p in s.prods && s.prods[p].pc.Busy? && s.prods[p].pc.j < |s'.res|
      && CommitsAt(run, steps, i, s.prods[p].pc.j, s'.res[s.prods[p].pc.j].chunk)
  {
    var p := steps[i].p;
    var s, s' := run[i], run[i + 1];
    RunInv(run, steps, i);
    RunFillOk(run, steps, i);
    RunAgrees(run, steps, i);
    assert FillOk(s, steps, i, p) && Agrees(run, steps, i, p) && Next(s, s', steps[i]);
    hide IsRun, Inv, Stores, HoldsStores, AllFillOk, AllAgree;
    assert Commit(s, s', p);
    CommitStores(s, s', p, Filled(steps, i, p));
    WritingSized(s, p);
  }

  lemma WritingSized(s: State, p: nat)
    requires Holds(s, p, Writing) && Inv(s)
    ensures s.n == |s.mem| > 0 && Get(s, Mine(s, p).start).size == Mine(s, p).size
  {
    hide FreeClean, ReadOk, Tiled;
    assert ProdOk(s, p);
    assert ResvOk(s, s.prods[p].pc.j);
  }

  /** A reservation that is committed after a step was so before, or the step commits it. */
  lemma DoneBefore(s: State, s': State, step: Step, j: nat)
    requires Next(s, s', step) && j < |s'.res| && s'.res[j].phase == Done
    ensures (j < |s.res| && s.res[j] == s'.res[j])
            || (step.PCommit? && step.p in s.prods && s.prods[step.p].pc.Busy? && s.prods[step.p].pc.j == j)
  {
    hide U32, Need;
  }

  /** In every run every committed chunk is what its producer asked for and stored. */
  lemma {:induction false} CommittedAsStored(run: seq<State>, steps: seq<Step>, t: nat, j: nat) returns (i: nat)
    requires IsRun(run, steps) && t < |run| && j < |run[t].res| && run[t].res[j].phase == Done
    ensures i < t && CommitsAt(run, steps, i, j, run[t].res[j].chunk)
    decreases t
  {
    hide Next, CommitsAt;
    if t > 0 {
      assert Next(run[t - 1], run[t - 1 + 1], steps[t - 1]);
      DoneBefore(run[t - 1], run[t], steps[t - 1], j);
      if j < |run[t - 1].res| && run[t - 1].res[j] == run[t].res[j] {
        i := CommittedAsStored(run, steps, t - 1, j);
      } else {
        i := t - 1;
        CommitHolds(run, steps, i);
      }
    }
  }
}
