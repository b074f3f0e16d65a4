/**
 What thread exit leads to, read off a run's steps: the finish mark a thread leaves behind is met last, so that reading
 deletes exactly the objects of threads that have exited; and the side buffers a thread has flagged or the reader remembers.
 */
module LogBufferExit {
  import opened Words
  import opened LogBufferModel
  import opened LogBufferHistory
  import opened LogBufferInv
  import opened LogBufferReader
  import opened LogBufferTheorems
  import opened LogBufferReading

  /** Thread `t` has exited: it left its block with the finish mark, or committed a finish entry. */
  predicate Exited(steps: seq<Step>, n: nat, t: nat)
    decreases n
  {
    n > 0 && n <= |steps|
    && (|| steps[n - 1] == WHpFinish(t)
        || (steps[n - 1] == WLpCommit(t) && Reserved(steps, n - 1, t) == Some(Finish))
        || Exited(steps, n - 1, t))
  }

  lemma StepExits(s: State, s': State, steps: seq<Step>, n: nat, n': nat, t: nat)
    requires n < |steps| && n' == n + 1 && Next(s, s', steps[n]) && AllAgree(s, steps, n)
    requires Exited(steps, n, t) <==> t in s.threads && s.threads[t].pc == Done
    ensures Exited(steps, n', t) <==> t in s'.threads && s'.threads[t].pc == Done
  {
    hide WriterMove, WalkMove, HeadMove;
    var step := steps[n];
    assert Agrees(s, steps, n, t) && Agrees(s, steps, n, Mover(step));
    if !WriterStep(step) {
      ReaderSpares(s, s', step);
    } else if t != Mover(step) || step.WSideFinish? {
      OthersSpared(s, s', step, t);
    } else {
      OwnExits(s, s', steps, n);
    }
  }

  lemma OwnExits(s: State, s': State, steps: seq<Step>, n: nat)
    requires n < |steps| && WriterMove(s, s', steps[n]) && !steps[n].WSideFinish?
    requires Agrees(s, steps, n, Mover(steps[n]))
    ensures var t, step := Mover(steps[n]), steps[n];
      t in s'.threads && (s'.threads[t].pc == Done <==>
        || step == WHpFinish(t) || (step == WLpCommit(t) && Reserved(steps, n, t) == Some(Finish))
        || (t in s.threads && s.threads[t].pc == Done))
  {
  }

  lemma {:induction false} ExitedIsDone(run: seq<State>, steps: seq<Step>, i: nat, t: nat)
    requires IsRun(run, steps) && i < |run|
    ensures Exited(steps, i, t) <==> t in run[i].threads && run[i].threads[t].pc == Done
  {
    hide Next, Outstanding;
    if i > 0 {
      ExitedIsDone(run, steps, i - 1, t);
      RunAgrees(run, steps, i - 1);
      assert Next(run[i - 1], run[i - 1 + 1], steps[i - 1]);
      StepExits(run[i - 1], run[i], steps, i - 1, i, t);
    }
  }

  // ---------------------------------------------------------------- the finish mark

  /** The last thing the thread left carries the finish mark. */
  predicate Marked(s: State, w: Thread) {
    && |w.units| > 0
    && match w.units[|w.units| - 1]
       case LpUnit(slot, _) => slot < |s.lp| && s.lp[slot].kind.Finish?
       case HpUnit(b, _) => b in s.blocks && s.blocks[b].Live? && s.blocks[b].finished
  }

  /** A thread that has exited and whose object is still there has left a mark that was not read yet. */
  ghost predicate MarkAhead(s: State, t: nat) {
    t in s.threads && s.threads[t].pc == Done && !s.threads[t].freed ==>
      s.threads[t].rseq < |s.threads[t].units| && Marked(s, s.threads[t])
  }

  ghost predicate MarksAhead(s: State) {
    forall t :: t in s.threads ==> MarkAhead(s, t)
  }

  /** The writer's step that ends the thread leaves the mark. */
  lemma ExitMarks(s: State, s': State, step: Step, t: nat)
    requires WriterMove(s, s', step) && t == Mover(step) && !step.WSideFinish? && Inv(s)
    ensures MarkAhead(s', t)
  {
    hide Inv, WriterMove;
    EndsHow(s, s', step, t);
    if step.WHpFinish? && t in s'.threads && s'.threads[t].pc == Done { FinishMarks(s, s', t); }
    if step.WLpCommit? && t in s'.threads && s'.threads[t].pc == Done { CommitMarks(s, s', t); }
  }

  /** A thread ends in one of two ways, if it has not ended before. */
  lemma EndsHow(s: State, s': State, step: Step, t: nat)
    requires WriterMove(s, s', step) && t == Mover(step) && !step.WSideFinish?
    ensures t in s'.threads && s'.threads[t].pc == Done ==>
              (HpFinish(s, s', t) && step == WHpFinish(t)) || (LpCommit(s, s', t) && step == WLpCommit(t))
  {
  }

  lemma FinishMarks(s: State, s': State, t: nat)
    requires HpFinish(s, s', t) && Inv(s)
    ensures MarkAhead(s', t)
  {
    hide UnitOk, SideOk, EntryOk, BlockOk, SlotsIncrease, ReaderOk, HistoryOk, Flat;
    assert Per(s, t);
  }

  lemma CommitMarks(s: State, s': State, t: nat)
    requires LpCommit(s, s', t) && s'.threads[t].pc == Done && Inv(s)
    ensures MarkAhead(s', t)
  {
    hide UnitOk, SideOk, EntryOk, BlockOk, SlotsIncrease, ReaderOk, HistoryOk, Flat;
    assert Per(s, t);
  }

  /** What a reader's step can do to a mark. */
  lemma ReadMark(s: State, s': State, step: Step, w: Thread)
    requires !WriterStep(step) && Next(s, s', step) && Marked(s, w)
    ensures Marked(s', w) || (step.RDepart? && s.reader.Leaving? && s.reader.sampled && w.units[|w.units| - 1].HpUnit?
                              && w.units[|w.units| - 1].block == s.reader.block)
  {
    hide Verify, VerifyOversize, Erased, WriterMove, HeadValid, SideHead;
  }

  lemma WriteMark(s: State, s': State, step: Step, w: Thread)
    requires WriterMove(s, s', step) && Marked(s, w)
    ensures Marked(s', w)
  {
  }

  /** How far a reader's step brings a thread. */
  lemma ReadOn(s: State, s': State, step: Step, t: nat)
    requires !WriterStep(step) && Next(s, s', step) && t in s.threads && s.head <= |s.lp|
    ensures t in s'.threads && s'.threads[t].units == s.threads[t].units && s'.threads[t].pc == s.threads[t].pc
    ensures s.threads[t].freed ==> s'.threads[t].freed
    ensures s'.threads[t].rseq == s.threads[t].rseq + if Taking(s, step, t) then 1 else 0
    ensures Taking(s, step, t) && FinishRead(s, step) ==> s'.threads[t].freed
  {
    hide Verify, VerifyOversize, Erased, WriterMove, SideHead;
  }

  /** The step takes a number of thread `t`: that of the LP head, or of the block being left. */
  predicate Taking(s: State, step: Step, t: nat) {
    if step.RDepart? then
      s.reader.Leaving? && s.reader.sampled && s.reader.block in s.blocks
      && s.blocks[s.reader.block].Live? && s.blocks[s.reader.block].owner == t
    else (step.RLpFinish? || step.RLpReturn? || step.RSideReturn? || step.RLpMissing?) && s.head < |s.lp| && s.lp[s.head].tid == t
  }

  /** And it carries the finish mark. */
  predicate FinishRead(s: State, step: Step) {
    if step.RDepart? then s.reader.Leaving? && s.reader.block in s.blocks && s.blocks[s.reader.block].Live? && s.blocks[s.reader.block].finished
    else step.RLpFinish?
  }

  /** The number taken is the next one, and it carries the mark if it is the thread's last and the mark is there. */
  lemma TakesMark(s: State, s': State, step: Step, t: nat)
    requires t in s.threads && !WriterStep(step) && !step.RSideDrop? && !step.RLpMissing? && Next(s, s', step) && Taking(s, step, t)
    requires Inv(s) && Outstanding(s)
    ensures var w := s.threads[t];
      w.rseq < |w.units| && (w.rseq == |w.units| - 1 && Marked(s, w) ==> FinishRead(s, step))
    ensures step.RDepart? ==> s.blocks[s.reader.block].seq_ == s.threads[t].rseq
  {
    hide WriterMove, WalkMove, HeadMove, Inv, Outstanding, Marked;
    if step.RDepart? {
      TakesBlock(s, t);
      BlockMark(s, s.threads[t]);
    } else {
      TakesHead(s, s', step, t);
      HeadMark(s, step, s.threads[t]);
    }
  }

  lemma TakesBlock(s: State, t: nat)
    requires t in s.threads && Taking(s, RDepart, t) && Inv(s)
    ensures var w := s.threads[t]; w.rseq < |w.units| && w.units[w.rseq].HpUnit? && w.units[w.rseq].block == s.reader.block
    ensures s.blocks[s.reader.block].seq_ == s.threads[t].rseq
  {
    hide UnitOk, SideOk, EntryOk, SlotsIncrease, HistoryOk, ThreadOk;
    assert Per(s, t);
    assert BlockOk(s, s.reader.block);
  }

  lemma BlockMark(s: State, w: Thread)
    requires w.rseq == |w.units| - 1 ==> w.units[w.rseq].HpUnit? && s.reader.Leaving? && w.units[w.rseq].block == s.reader.block
    ensures w.rseq == |w.units| - 1 && Marked(s, w) ==> FinishRead(s, RDepart)
  {
  }

  lemma TakesHead(s: State, s': State, step: Step, t: nat)
    requires t in s.threads && HeadMove(s, s', step) && !step.RSideDrop? && !step.RLpMissing? && Taking(s, step, t)
    requires Inv(s) && Outstanding(s)
    ensures var w := s.threads[t]; w.rseq < |w.units| && w.units[w.rseq].LpUnit? && w.units[w.rseq].slot == s.head
    ensures !step.RLpFinish? ==> !s.lp[s.head].kind.Finish?
  {
    hide UnitOk, SideOk, BlockOk, SlotsIncrease, HistoryOk, ThreadOk, Verify, VerifyOversize, Outstanding, U32;
    assert Per(s, t);
    if step.RLpFinish? { HeadIsNext(s); }
    assert EntryOk(s, s.head);
  }

  lemma HeadMark(s: State, step: Step, w: Thread)
    requires s.head < |s.lp| && !step.RDepart? && (!step.RLpFinish? ==> !s.lp[s.head].kind.Finish?)
    requires w.rseq == |w.units| - 1 ==> w.units[w.rseq].LpUnit? && w.units[w.rseq].slot == s.head
    ensures w.rseq == |w.units| - 1 && Marked(s, w) ==> FinishRead(s, step)
  {
  }

  /** A mark on a block lies in the thread's own last block. */
  lemma MarkIsMine(s: State, t: nat)
    requires t in s.threads && s.threads[t].rseq < |s.threads[t].units| && Marked(s, s.threads[t]) && Inv(s)
    ensures var w := s.threads[t]; var i := |w.units| - 1;
      w.units[i].HpUnit? ==> var b := w.units[i].block; s.blocks[b].owner == t && s.blocks[b].seq_ == i
  {
    hide SideOk, EntryOk, BlockOk, SlotsIncrease, ReaderOk, HistoryOk, ThreadOk;
    assert Per(s, t);
    assert UnitOk(s, t, |s.threads[t].units| - 1);
  }

  lemma ReaderMarks(s: State, s': State, step: Step, t: nat)
    requires t in s.threads && !WriterStep(step) && !step.RSideDrop? && !step.RLpMissing?
    requires Next(s, s', step) && MarkAhead(s, t) && Outstanding(s) && Inv(s)
    ensures MarkAhead(s', t)
  {
    assert s.head <= |s.lp| by { hide Per, ReaderOk, OrderOk; }
    hide Inv, Next, Outstanding, Marked;
    ReadOn(s, s', step, t);
    if s.threads[t].pc == Done && !s'.threads[t].freed {
      ReadMark(s, s', step, s.threads[t]);
      MarkIsMine(s, t);
      if Taking(s, step, t) { TakesMark(s, s', step, t); }
      SameMark(s', s'.threads[t], s.threads[t]);
    }
  }

  lemma SameMark(s: State, v: Thread, w: Thread)
    requires v.units == w.units
    ensures Marked(s, v) <==> Marked(s, w)
  {
  }

  lemma StepMarks(s: State, s': State, step: Step)
    requires !step.RSideDrop? && Next(s, s', step) && MarksAhead(s) && Outstanding(s) && Inv(s)
    ensures MarksAhead(s')
  {
    if step.RLpMissing? { LpMissingNever(s, s'); }
    hide Inv, Next, Outstanding, MarkAhead;
    forall t | t in s'.threads ensures MarkAhead(s', t) {
      if !WriterStep(step) {
        NoneJoins(s, s', step);
        ReaderMarks(s, s', step, t);
      } else {
        WriterMarks(s, s', step, t);
      }
    }
  }

  lemma NoneJoins(s: State, s': State, step: Step)
    requires !WriterStep(step) && Next(s, s', step)
    ensures forall t :: t in s'.threads ==> t in s.threads
  {
    hide Verify, VerifyOversize, Erased, WriterMove, SideHead;
  }

  /** A thread's own entry is its own. */
  lemma OwnSlot(s: State, t: nat)
    requires t in s.threads && (s.threads[t].pc.LpHeld? || s.threads[t].pc.OsHeld? || s.threads[t].pc.OsStored?) && Inv(s)
    ensures s.threads[t].pc.slot < |s.lp| && s.lp[s.threads[t].pc.slot].tid == t
  {
    hide SideOk, EntryOk, BlockOk, SlotsIncrease, ReaderOk, HistoryOk, UnitOk;
    assert Per(s, t);
  }

  lemma WriterMarks(s: State, s': State, step: Step, t: nat)
    requires t in s'.threads && WriterStep(step) && Next(s, s', step) && MarksAhead(s) && Inv(s)
    ensures MarkAhead(s', t)
  {
    hide Inv, WalkMove, HeadMove, WriterMove, Marked;
    if t == Mover(step) && !step.WSideFinish? {
      ExitMarks(s, s', step, t);
    } else {
      var u := Mover(step);
      if u in s.threads && (s.threads[u].pc.LpHeld? || s.threads[u].pc.OsHeld? || s.threads[u].pc.OsStored?) { OwnSlot(s, u); }
      OthersSpared(s, s', step, t);
      assert MarkAhead(s, t);
      if s.threads[t].pc == Done && !s.threads[t].freed { WriteMark(s, s', step, s.threads[t]); }
    }
  }

  lemma {:induction false} RunMarks(run: seq<State>, steps: seq<Step>, i: nat)
    requires IsRun(run, steps) && NoDrop(steps, i) && i < |run|
    ensures MarksAhead(run[i])
  {
    hide Next, Outstanding, Inv;
    if i > 0 {
      RunMarks(run, steps, i - 1);
      RunInv(run, steps, i - 1);
      assert Next(run[i - 1], run[i - 1 + 1], steps[i - 1]) && Outstanding(run[i - 1]);
      StepMarks(run[i - 1], run[i], steps[i - 1]);
    }
  }

  /** Recycling side buffers touches no mark. */
  lemma SweepMarks(s: State, s': State)
    requires s'.threads == s.threads && s'.lp == s.lp && s'.blocks == s.blocks && MarksAhead(s)
    ensures MarksAhead(s')
  {
    forall t | t in s'.threads ensures MarkAhead(s', t) { assert MarkAhead(s, t); }
  }

  lemma {:induction false} PathMarks(s: State, p: Path, s2: State)
    requires IsPath(s, p, s2) && MarksAhead(s) && AtRest(s)
    ensures MarksAhead(s2)
    decreases p
  {
    if p.Go? {
      hide AtRest, MarksAhead, Reads;
      ReadKeeps(s, p.mid, p.move);
      MoveMarks(s, p.mid, p.move);
      PathMarks(p.mid, p.rest, s2);
    }
  }

  lemma MoveMarks(s: State, s': State, m: Move)
    requires Reads(s, s', m) && MarksAhead(s) && AtRest(s)
    ensures MarksAhead(s')
  {
    hide MarksAhead, Inv, Outstanding, Next, Recycled, Quiescent;
    match m
    case By(step) =>
      StepMarks(s, s', step);
    case Sweep =>
      RecycledKeeps(s, |s.order|);
      SweepMarks(s, s');
  }

  /** With nothing left to be read, no mark is left either. */
  lemma AllMarksRead(s: State, t: nat)
    requires !HeadReady(s) && !(exists b :: BlockReady(s, b)) && t in s.threads && s.threads[t].pc == Done
    requires MarksAhead(s) && AtRest(s)
    ensures s.threads[t].freed
  {
    assert MarkAhead(s, t);
    hide Inv, Marked, MarksAhead;
    if !s.threads[t].freed {
      if s.head < |s.lp| {
        QuiescentHead(s);
        if HeadPending(s) { PendingAwaits(s); }
      } else {
        LastBlockReady(s, t);
      }
    }
  }

  /** With the LP ring read out the next number of a thread that has exited is a block, and it was left. */
  lemma LastBlockReady(s: State, t: nat)
    requires s.head >= |s.lp| && t in s.threads && s.threads[t].pc == Done && s.threads[t].rseq < |s.threads[t].units| && Inv(s)
    ensures exists b :: BlockReady(s, b)
  {
    hide SideOk, EntryOk, BlockOk, SlotsIncrease, ReaderOk, HistoryOk;
    var w := s.threads[t];
    assert Per(s, t);
    assert UnitOk(s, t, w.rseq);
    assert BlockReady(s, w.units[w.rseq].block);
  }

  /** The objects that are gone are those of the threads that have exited. */
  ghost predicate FreesExited(s: State, s2: State, steps: seq<Step>) {
    forall t :: t in s.threads ==> t in s2.threads && (s2.threads[t].freed <==> Exited(steps, |steps|, t))
  }

  // ---------------------------------------------------------------- side buffers

  /** Since it was made side buffer `d` has been flagged by its thread's exit. */
  ghost predicate Flagged(run: seq<State>, steps: seq<Step>, n: nat, d: nat)
    decreases n
  {
    n > 0 && n <= |steps| && n < |run| && d in run[n].sides && (steps[n - 1] == WSideFinish(d) || Flagged(run, steps, n - 1, d))
  }

  lemma FlagsStay(s: State, s': State, step: Step, d: nat)
    requires Next(s, s', step) && d in s'.sides
    ensures s'.sides[d].finished <==> step == WSideFinish(d) || (d in s.sides && s.sides[d].finished)
  {
    hide WriterMove, WalkMove, HeadMove;
    if WriterStep(step) { WriterFlags(s, s', step, d); } else { ReaderFlags(s, s', step, d); }
  }

  lemma WriterFlags(s: State, s': State, step: Step, d: nat)
    requires WriterMove(s, s', step) && d in s'.sides
    ensures s'.sides[d].finished <==> step == WSideFinish(d) || (d in s.sides && s.sides[d].finished)
  {
  }

  lemma ReaderFlags(s: State, s': State, step: Step, d: nat)
    requires !WriterStep(step) && Next(s, s', step) && d in s'.sides
    ensures d in s.sides && (s'.sides[d].finished <==> s.sides[d].finished)
  {
    hide Verify, VerifyOversize, HeadValid, Erased, WriterMove;
  }

  lemma {:induction false} FlaggedIsFinished(run: seq<State>, steps: seq<Step>, i: nat, d: nat)
    requires IsRun(run, steps) && i < |run|
    ensures d in run[i].sides && run[i].sides[d].finished <==> Flagged(run, steps, i, d)
  {
    hide Next, Outstanding;
    if i > 0 {
      FlaggedIsFinished(run, steps, i - 1, d);
      assert Next(run[i - 1], run[i - 1 + 1], steps[i - 1]);
      if d in run[i].sides { FlagsStay(run[i - 1], run[i], steps[i - 1], d); }
    }
  }

  /** In every run no writer locks a side buffer that has been flagged. */
  lemma FlaggedNotPicked(run: seq<State>, steps: seq<Step>, i: nat, t: nat, d: nat)
    requires IsRun(run, steps) && i < |steps| && steps[i] == WOsAcquire(t, d)
    ensures !Flagged(run, steps, i, d)
  {
    FlaggedIsFinished(run, steps, i, d);
    hide IsRun, Flagged;
    assert OsAcquire(run[i], run[i + 1], t, d);
  }

  /** The side buffer the last payload was found in. */
  function LastFound(steps: seq<Step>, n: nat): Option<nat>
    decreases n
  {
    if n == 0 || n > |steps| then None
    else if steps[n - 1].RLpTakeExternal? then Some(steps[n - 1].d) else LastFound(steps, n - 1)
  }

  lemma TargetStays(s: State, s': State, step: Step)
    requires Next(s, s', step) && (s.target.Some? ==> s.target.value in s.sides)
    ensures s'.target == (if step.RLpTakeExternal? then Some(step.d) else s.target)
    ensures s'.target.Some? ==> s'.target.value in s'.sides
  {
    hide WriterMove, WalkMove, HeadMove;
    if WriterStep(step) { WriterTarget(s, s', step); } else { ReaderTarget(s, s', step); }
  }

  lemma WriterTarget(s: State, s': State, step: Step)
    requires WriterMove(s, s', step)
    ensures s'.target == s.target && forall d :: d in s.sides ==> d in s'.sides
  {
  }

  lemma ReaderTarget(s: State, s': State, step: Step)
    requires !WriterStep(step) && Next(s, s', step) && (s.target.Some? ==> s.target.value in s.sides)
    ensures s'.target == (if step.RLpTakeExternal? then Some(step.d) else s.target)
    ensures s'.target.Some? ==> s'.target.value in s'.sides
  {
    hide Verify, VerifyOversize, HeadValid, Erased, WriterMove;
  }

  /** In every run the reader's remembered buffer is the one the last payload came from, and it has not been destroyed. */
  lemma {:induction false} TargetAlive(run: seq<State>, steps: seq<Step>, i: nat)
    requires IsRun(run, steps) && i < |run|
    ensures run[i].target == LastFound(steps, i) && (run[i].target.Some? ==> run[i].target.value in run[i].sides)
  {
    hide Next, Outstanding;
    if i > 0 {
      TargetAlive(run, steps, i - 1);
      assert Next(run[i - 1], run[i - 1 + 1], steps[i - 1]);
      TargetStays(run[i - 1], run[i], steps[i - 1]);
    }
  }
}
