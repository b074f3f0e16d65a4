/**
 What the producers ask for, load and store, read off a run's steps; and on what grounds they are refused and what their
 chunks hold, in those terms.
 */
module MisoHistory {
  import opened Words
  import opened Modular
  import opened MisoModel
  import opened MisoInv
  import opened MisoSteps
  import opened MisoTheorems

  /** The size producer `p` asked for last. */
  function Asked(steps: seq<Step>, n: nat, p: nat): nat
    decreases n
  {
    if n == 0 || n > |steps| then 0
    else if steps[n - 1].PStart? && steps[n - 1].p == p then steps[n - 1].size
    else Asked(steps, n - 1, p)
  }

  /** The write cursor it goes by: the one loaded at the start, or where the wrap chunk it had to publish begins. */
  ghost function Loaded(run: seq<State>, steps: seq<Step>, n: nat, p: nat): nat
    decreases n
  {
    if n == 0 || n > |steps| || n > |run| then 0
    else
      var s := run[n - 1];
      if steps[n - 1] == PWrap(p) && p in s.prods && s.prods[p].pc.Busy? && s.prods[p].pc.j < |s.res| then Mine(s, p).start
      else if steps[n - 1].PStart? && steps[n - 1].p == p then s.w
      else Loaded(run, steps, n - 1, p)
  }

  /** The published read cursor at its last reload after a reservation that did not fit. */
  ghost function Reloaded(run: seq<State>, steps: seq<Step>, n: nat, p: nat): nat
    decreases n
  {
    if n == 0 || n > |steps| || n > |run| then 0
    else if steps[n - 1] == PReload(p) then run[n - 1].r
    else Reloaded(run, steps, n - 1, p)
  }

  /** The blocks it has stored since it wrote the head of the chunk under way. */
  function Filled(steps: seq<Step>, n: nat, p: nat): map<nat, Cell>
    decreases n
  {
    if n == 0 || n > |steps| then map[]
    else
      match steps[n - 1]
      case PPutSize(q) => if q == p then map[] else Filled(steps, n - 1, p)
      case PFill(q, i, x) => if q == p then Filled(steps, n - 1, p)[i := x] else Filled(steps, n - 1, p)
      case _ => Filled(steps, n - 1, p)
  }

  // ---------------------------------------------------------------- what the producer's record agrees with

  ghost predicate Agrees(run: seq<State>, steps: seq<Step>, n: nat, p: nat) {
    n < |run| && (p in run[n].prods ==>
      var s := run[n]; var q := s.prods[p];
      && (q.pc.Pre? ==> q.pc.size == Asked(steps, n, p) && q.pc.cw == Loaded(run, steps, n, p) && q.ref <= q.pc.cw < q.ref + TWO32)
      && (q.pc.Go? ==> q.pc.size == Asked(steps, n, p))
      && (q.pc.Busy? && q.pc.j < |s.res| ==> s.res[q.pc.j].size == Asked(steps, n, p))
      && (q.pc.Busy? && q.pc.late ==> q.ref == Reloaded(run, steps, n, p))
      && (q.pc.Busy? && q.pc.late && q.pc.j < |s.res| ==>
            s.res[q.pc.j].phase == Tentative && End(s.res[q.pc.j]) >= q.ref + s.n))
  }

  /** The reader changes neither a producer's record nor its reservation. */
  lemma ReaderSpares(s: State, s': State, step: Step, p: nat)
    requires ByReader(step) && p in s.prods && Next(s, s', step) && Inv(s)
    ensures s'.prods == s.prods && s'.n == s.n
    ensures s.prods[p].pc.Busy? ==> var j := s.prods[p].pc.j; j < |s.res| && j < |s'.res| && s'.res[j] == s.res[j]
  {
    hide MemOk, FreeClean, Chunks, Tiled, SizeOk, Need, U32, ResvOk, CountOk;
    assert ProdOk(s, p);
    StatusExact(s);
  }

  /** Nor does another producer. */
  lemma OthersSpared(s: State, s': State, step: Step, p: nat)
    requires !ByReader(step) && step.p != p && p in s.prods && Next(s, s', step) && Window(s) && Inv(s)
    ensures p in s'.prods && s'.prods[p] == s.prods[p] && s'.n == s.n
    ensures s.prods[p].pc.Busy? ==> var j := s.prods[p].pc.j; j < |s.res| && j < |s'.res| && s'.res[j] == s.res[j]
  {
    hide MemOk, FreeClean, ReadOk, Chunks, Tiled, SizeOk, Need, U32, ResvOk, CountOk;
    assert ProdOk(s, p);
    if step.PRollback? { RollbackTopmost(s, s', step.p); }
    if step.p in s.prods { assert ProdOk(s, step.p); }
  }

  predicate ByReader(step: Step) {
    step.RSkipClear? || step.RSkipMove? || step.RSeeEmpty? || step.RTakeEmpty? || step.RSeeUsed? || step.RDiscard? || step.RReturn?
    || step.RReturnEmpty? || step.RClearOne? || step.RPublish?
  }

  predicate ByProducer(step: Step, p: nat) {
    !ByReader(step) && step.p == p
  }

  lemma ReaderBehind(s: State)
    requires Inv(s)
    ensures s.r <= s.rc <= s.w && s.rc < s.r + s.n
  {
    hide ResvOk, ProdOk, FreeClean, ReadOk, CountOk;
    if s.k < |s.res| { BoundsGrow(s, s.k, |s.res|); }
  }

  lemma OwnAgrees(run: seq<State>, steps: seq<Step>, n: nat, p: nat)
    requires n < |steps| && n + 1 < |run| && Next(run[n], run[n + 1], steps[n]) && ByProducer(steps[n], p)
    requires Inv(run[n]) && Window(run[n]) && Agrees(run, steps, n, p)
    ensures Agrees(run, steps, n + 1, p)
  {
    hide MemOk, FreeClean, ReadOk, Tiled, SizeOk, Need, ResvOk, CountOk;
    var s := run[n];
    if p in s.prods {
      assert ProdOk(s, p);
      ReaderBehind(s);
      if s.prods[p].pc.Busy? {
        HeldPast(s, p);
        U32Small(End(Mine(s, p)) - s.r);
        U32Small(End(Mine(s, p)) - s.prods[p].ref);
      }
    }
  }

  ghost predicate AllAgree(run: seq<State>, steps: seq<Step>, n: nat) {
    forall p: nat :: Agrees(run, steps, n, p)
  }

  lemma StepAgrees(run: seq<State>, steps: seq<Step>, n: nat, n': nat)
    requires n < |steps| && n' == n + 1 < |run| && Next(run[n], run[n'], steps[n])
    requires Inv(run[n]) && Window(run[n]) && AllAgree(run, steps, n)
    ensures AllAgree(run, steps, n')
  {
    hide Inv, Next, Window;
    forall p: nat ensures Agrees(run, steps, n', p) {
      assert Agrees(run, steps, n, p);
      if ByProducer(steps[n], p) {
        OwnAgrees(run, steps, n, p);
      } else {
        Spared(run, steps, n, p);
      }
    }
  }

  lemma Spared(run: seq<State>, steps: seq<Step>, n: nat, p: nat)
    requires n < |steps| && n + 1 < |run| && Next(run[n], run[n + 1], steps[n]) && !ByProducer(steps[n], p)
    requires Inv(run[n]) && Window(run[n]) && Agrees(run, steps, n, p)
    ensures Agrees(run, steps, n + 1, p)
  {
    assert p in run[n + 1].prods ==> p in run[n].prods by {
      hide Inv;
    }
    hide Inv, Next, Window;
    if p in run[n].prods {
      if ByReader(steps[n]) { ReaderSpares(run[n], run[n + 1], steps[n], p); } else { OthersSpared(run[n], run[n + 1], steps[n], p); }
    }
  }

  lemma {:induction false} RunAgrees(run: seq<State>, steps: seq<Step>, i: nat)
    requires IsRun(run, steps) && i < |run|
    ensures AllAgree(run, steps, i)
  {
    hide Next, Window, Inv;
    if i > 0 {
      RunAgrees(run, steps, i - 1);
      RunInv(run, steps, i - 1);
      assert Next(run[i - 1], run[i - 1 + 1], steps[i - 1]) && Window(run[i - 1]);
      StepAgrees(run, steps, i - 1, i);
    }
  }

  // ---------------------------------------------------------------- refusals

  /** On unbounded cursors: the blocks wanted reach more than `n` past the published cursor, or end before it. */
  ghost predicate NoRoom(s: State, want: nat) {
    want > s.r + s.n || want < s.r
  }

  /**
   The capacity test, exactly. `want` is the cursor at which the blocks wanted would end. A producer that goes by a write
   cursor the others have left behind, so far that the reader has published past `want`, is refused as well.
   */
  lemma RefuseExact(s: State, p: nat, want: nat)
    requires p in s.prods && s.prods[p].pc.Pre? && want == s.prods[p].pc.cw + Need(s.prods[p].pc.size)
    requires s.prods[p].ref <= s.prods[p].pc.cw < s.prods[p].ref + TWO32 && Window(s) && Inv(s)
    ensures (exists s' :: Refuse(s, s', p)) <==> s.prods[p].ref + s.n < want < s.prods[p].ref + TWO32 && NoRoom(s, want)
    ensures (exists s' :: Pass(s, s', p)) <==> !(s.prods[p].ref + s.n < want < s.prods[p].ref + TWO32 && NoRoom(s, want))
  {
    RefuseTest(s, p, want);
    hide Inv, Window, NoRoom, Need;
    TestAnswers(s, p, want);
  }

  lemma TestAnswers(s: State, p: nat, want: nat)
    requires p in s.prods && s.prods[p].pc.Pre? && want == s.prods[p].pc.cw + Need(s.prods[p].pc.size)
    ensures (exists s' :: Refuse(s, s', p)) <==> U32(want - s.prods[p].ref) > s.n && U32(want - s.r) > s.n
    ensures (exists s' :: Pass(s, s', p)) <==> !(U32(want - s.prods[p].ref) > s.n && U32(want - s.r) > s.n)
  {
    hide U32, Need;
    var q := s.prods[p];
    if U32(want - q.ref) <= s.n {
      assert Pass(s, s.(prods := s.prods[p := q.(pc := Go(q.pc.size))]), p);
    } else if U32(want - s.r) <= s.n {
      assert Pass(s, s.(prods := s.prods[p := Producer(s.r, Go(q.pc.size))]), p);
    } else {
      assert Refuse(s, s.(prods := s.prods[p := Producer(s.r, Out)]), p);
    }
  }

  lemma RefuseTest(s: State, p: nat, want: nat)
    requires p in s.prods && s.prods[p].pc.Pre? && want == s.prods[p].pc.cw + Need(s.prods[p].pc.size)
    requires s.prods[p].ref <= s.prods[p].pc.cw < s.prods[p].ref + TWO32 && Window(s) && Inv(s)
    ensures U32(want - s.prods[p].ref) > s.n && U32(want - s.r) > s.n <==>
            s.prods[p].ref + s.n < want < s.prods[p].ref + TWO32 && NoRoom(s, want)
  {
    hide MemOk, FreeClean, ReadOk, Tiled, ResvOk, Need;
    assert ProdOk(s, p);
    ReaderBehind(s);
    CountBound(s.n);
    U32Wraps(want - s.prods[p].ref);
    U32Wraps(want - s.r);
  }

  lemma U32Wraps(x: int)
    requires -TWO32 < x < 2 * TWO32
    ensures U32(x) == if x < 0 then x + TWO32 else if x < TWO32 then x else x - TWO32
  {
  }

  /**
   In every run a refusal at the first test is given only when there is no room for the blocks asked for behind the write
   cursor loaded, also against the published read cursor as it is then.
   */
  lemma RefusedMeansNoRoom(run: seq<State>, steps: seq<Step>, i: nat, p: nat)
    requires IsRun(run, steps) && i < |steps| && steps[i] == PRefuse(p)
    ensures var s := run[i]; var cw := Loaded(run, steps, i, p);
      && NoRoom(s, cw + Need(Asked(steps, i, p)))
      && (s.r <= cw ==> cw + Need(Asked(steps, i, p)) > s.r + s.n)
  {
    hide Inv, Window, Need, Init, AllAgree;
    RunInv(run, steps, i);
    RunAgrees(run, steps, i);
    assert AllAgree(run, steps, i) && Next(run[i], run[i + 1], steps[i]) && Window(run[i]);
    RefusedHere(run, steps, i, p);
  }

  lemma RefusedHere(run: seq<State>, steps: seq<Step>, i: nat, p: nat)
    requires i < |steps| && i < |run| && AllAgree(run, steps, i)
    requires p in run[i].prods && run[i].prods[p].pc.Pre? && (exists s' :: Refuse(run[i], s', p))
    requires Window(run[i]) && Inv(run[i])
    ensures var s := run[i]; var cw := Loaded(run, steps, i, p);
      && NoRoom(s, cw + Need(Asked(steps, i, p)))
      && (s.r <= cw ==> cw + Need(Asked(steps, i, p)) > s.r + s.n)
  {
    hide Inv, Window, Need, Refuse;
    var s := run[i];
    assert Agrees(run, steps, i, p);
    RefuseExact(s, p, s.prods[p].pc.cw + Need(s.prods[p].pc.size));
  }

  /** A request ends with a refusal, with its reservation taken back, or with its commit; a wrap chunk does not end it. */
  lemma EndsOnly(run: seq<State>, steps: seq<Step>, i: nat, p: nat)
    requires IsRun(run, steps) && i < |steps| && p in run[i].prods && run[i].prods[p].pc != Out
    ensures p in run[i + 1].prods
    ensures run[i + 1].prods[p].pc == Out <==> steps[i] == PRefuse(p) || steps[i] == PRollback(p) || steps[i] == PCommit(p)
  {
    RunInv(run, steps, i);
    assert Next(run[i], run[i + 1], steps[i]) && Window(run[i]);
    hide IsRun;
    if ByReader(steps[i]) {
      hide Next;
      ReaderSpares(run[i], run[i + 1], steps[i], p);
    } else if steps[i].p != p {
      hide Next;
      OthersSpared(run[i], run[i + 1], steps[i], p);
    } else {
      hide Inv, Window;
    }
  }

  /** And a reservation is taken back only when it ends at least `n` blocks past the read cursor last reloaded for it. */
  lemma RolledBackMeansNoRoom(run: seq<State>, steps: seq<Step>, i: nat, p: nat)
    requires IsRun(run, steps) && i < |steps| && steps[i] == PRollback(p)
    ensures Holds(run[i], p, Tentative) && Mine(run[i], p).size == Asked(steps, i, p)
    ensures End(Mine(run[i], p)) >= Reloaded(run, steps, i, p) + run[i].n
  {
    RunAgrees(run, steps, i);
    var s := run[i];
    assert Agrees(run, steps, i, p) && Next(s, run[i + 1], steps[i]);
    hide IsRun, AllAgree;
    assert Rollback(s, run[i + 1], p);
  }
}
