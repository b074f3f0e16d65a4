/** Which blocks are handed out, read off a run's steps, and where they are until the reader frees them. */
module GroupHistory {
  import opened Words
  import opened GroupModel
  import opened GroupInv
  import opened GroupSteps
  import opened GroupTopology

  /** Block `b` of group `g` is on its stage or used list, or on its way between them in the reader's hands. */
  ghost predicate InUse(s: State, g: nat, b: nat) {
    g in s.groups && (b in s.groups[g].stage || b in s.groups[g].used || Hand(s, Reader, g, b))
  }

  /** The step gives block `b` of group `g` to the writer that asked for one. */
  predicate HandsOut(s: State, step: Step, g: nat, b: nat) {
    && (step.APushStage? || step.AStageFirst?) && step.t in s.threads
    && (s.threads[step.t].Hold? || s.threads[step.t].LinkHold?) && s.threads[step.t].g == g && s.threads[step.t].b == b
  }

  /** The step puts it back on the free list. */
  predicate Frees(s: State, step: Step, g: nat, b: nat) {
    step.RPushFree? && s.r.Removed? && s.cur == Some(g) && s.r.b == b
  }

  /** After `n` steps the block is out: given away, or in use from the start, and not freed since. */
  ghost predicate Out(run: seq<State>, steps: seq<Step>, n: nat, g: nat, b: nat)
    decreases n
  {
    if n == 0 || n > |steps| || n > |run| then |run| > 0 && InUse(run[0], g, b)
    else if HandsOut(run[n - 1], steps[n - 1], g, b) then true
    else if Frees(run[n - 1], steps[n - 1], g, b) then false
    else Out(run, steps, n - 1, g, b)
  }

  predicate ByThread(step: Step) {
    step.AEnter? || step.APopFree? || step.APushStage? || step.AUnlock? || step.AOnward? || step.ALockHead?
    || step.APopFirst? || step.AFromPool? || step.AMakeGroup? || step.APopFresh? || step.ALinkGroup? || step.AStageFirst?
  }

  lemma ThreadUses(s: State, s': State, step: Step, g: nat, b: nat)
    requires ByThread(step) && Next(s, s', step) && Inv(s)
    ensures InUse(s', g, b) <==> HandsOut(s, step, g, b) || InUse(s, g, b)
  {
    hide Inv;
    if s.cur.Some? { CurListed(s); }
    if step.APushStage? || step.AStageFirst? { StageUses(s, s', step, g, b); } else { NoneUsed(s, s', step, g, b); }
  }

  lemma StageUses(s: State, s': State, step: Step, g: nat, b: nat)
    requires (step.APushStage? || step.AStageFirst?) && Next(s, s', step)
    ensures InUse(s', g, b) <==> HandsOut(s, step, g, b) || InUse(s, g, b)
  {
  }

  lemma NoneUsed(s: State, s': State, step: Step, g: nat, b: nat)
    requires ByThread(step) && !step.APushStage? && !step.AStageFirst? && Next(s, s', step)
    requires s.cur.Some? ==> s.cur.value in s.groups
    ensures InUse(s', g, b) <==> InUse(s, g, b)
  {
    hide NoWriter, NoHolder, Whole;
  }

  /** What someone has in hands is on no list, and no one else has it. */
  lemma HandApart(s: State, w: Who, g: nat, b: nat)
    requires Inv(s) && Hand(s, w, g, b)
    ensures g in s.groups && b !in s.groups[g].free && b !in s.groups[g].stage && b !in s.groups[g].used
    ensures forall v :: Hand(s, v, g, b) ==> v == w
  {
    hide Inv, Hand, Tidy;
    HandExists(s, w, g, b);
    assert Sound(s, g) by { IsSound(s, g); }
    assert b !in All(s.groups[g]);
  }

  lemma IsSound(s: State, g: nat)
    requires Inv(s) && g in s.groups
    ensures Sound(s, g)
  {
    hide Sound, Linked, Exclusive, ReaderOk, PcOk, Spare;
  }

  lemma ReaderUses(s: State, s': State, step: Step, g: nat, b: nat)
    requires !ByThread(step) && Next(s, s', step) && Inv(s)
    ensures InUse(s', g, b) <==> InUse(s, g, b) && !Frees(s, step, g, b)
  {
    hide Inv, Without, NoWriter, NoHolder;
    if step.RPushFree? {
      HandApart(s, Reader, s.cur.value, s.r.b);
    } else if step.REvict? {
      PooledSpare(s, |s.pool| - 1);
    }
  }

  lemma PooledSpare(s: State, i: nat)
    requires Inv(s) && i < |s.pool|
    ensures Spare(s, s.pool[i]) && s.cur != Some(s.pool[i]) && s.pool[i] !in s.list
  {
    hide Sound, Exclusive, PcOk, Spare, Leads, Follows, Approaches, Bare;
  }

  // ---------------------------------------------------------------- over runs

  lemma StepUses(run: seq<State>, steps: seq<Step>, n: nat, g: nat, b: nat)
    requires n < |steps| && n + 1 < |run| && Next(run[n], run[n + 1], steps[n]) && Inv(run[n])
    requires InUse(run[n], g, b) <==> Out(run, steps, n, g, b)
    ensures InUse(run[n + 1], g, b) <==> Out(run, steps, n + 1, g, b)
  {
    hide Inv, Next, InUse;
    if ByThread(steps[n]) { ThreadUses(run[n], run[n + 1], steps[n], g, b); } else { ReaderUses(run[n], run[n + 1], steps[n], g, b); }
  }

  lemma {:induction false} InUseExactly(run: seq<State>, steps: seq<Step>, i: nat, g: nat, b: nat)
    requires IsRun(run, steps) && i < |run|
    ensures InUse(run[i], g, b) <==> Out(run, steps, i, g, b)
  {
    hide Inv, Next, Init, InUse;
    if i > 0 {
      InUseExactly(run, steps, i - 1, g, b);
      RunInv(run, steps, i - 1);
      assert Next(run[i - 1], run[i - 1 + 1], steps[i - 1]);
      StepUses(run, steps, i - 1, g, b);
    }
  }

  /** Groups with a block in use are on the list. */
  ghost predicate UsedListed(s: State) {
    forall g, b :: InUse(s, g, b) ==> g in s.list
  }

  lemma StepListed(s: State, s': State, step: Step)
    requires Next(s, s', step) && Inv(s) && UsedListed(s)
    ensures UsedListed(s')
  {
    hide Inv, Next, InUse;
    forall g: nat, b: nat | InUse(s', g, b) ensures g in s'.list {
      if ByThread(step) { ThreadUses(s, s', step, g, b); } else { ReaderUses(s, s', step, g, b); }
      if HandsOut(s, step, g, b) { AtListed(s, step.t); }
      StaysListed(s, s', step, g, b);
    }
  }

  lemma StaysListed(s: State, s': State, step: Step, g: nat, b: nat)
    requires Next(s, s', step) && Inv(s) && g in s.list && (InUse(s, g, b) || HandsOut(s, step, g, b))
    ensures g in s'.list
  {
    hide Next, Inv;
    if step.RUnlink? {
      UnlinkSpares(s, s', step, g, b);
    } else {
      ListGrows(s, s', step);
    }
  }

  lemma UnlinkSpares(s: State, s': State, step: Step, g: nat, b: nat)
    requires step.RUnlink? && Next(s, s', step) && Inv(s) && g in s.list && InUse(s, g, b)
    ensures g in s'.list
  {
    hide Inv;
    CutSpare(s);
    WithoutKeeps(s.list, s.cur.value, g);
  }

  lemma ListGrows(s: State, s': State, step: Step)
    requires !step.RUnlink? && Next(s, s', step)
    ensures forall g :: g in s.list ==> g in s'.list
  {
    hide NoWriter, NoHolder, Whole, Without;
  }

  lemma {:induction false} WithoutKeeps(c: seq<nat>, x: nat, g: nat)
    requires g in c && g != x
    ensures g in Without(c, x)
  {
    if c[0] != x && c[0] != g { WithoutKeeps(c[1..], x, g); }
  }

  lemma StartListed(s: State)
    requires Init(s)
    ensures UsedListed(s)
  {
    hide Linked;
  }

  lemma {:induction false} RunListed(run: seq<State>, steps: seq<Step>, i: nat)
    requires IsRun(run, steps) && i < |run|
    ensures UsedListed(run[i])
  {
    hide Inv, Next, Init, UsedListed;
    if i == 0 {
      StartListed(run[0]);
    } else {
      RunListed(run, steps, i - 1);
      RunInv(run, steps, i - 1);
      assert Next(run[i - 1], run[i - 1 + 1], steps[i - 1]);
      StepListed(run[i - 1], run[i], steps[i - 1]);
    }
  }

  /**
   In every run a block that was given away and not freed since is on its group's stage or used list or in the reader's
   hands, is on no free list and in no allocating thread's hands, and its group stays listed; and a block that is not out is
   free or in the hands of a thread allocating it.
   */
  lemma OutExactly(run: seq<State>, steps: seq<Step>, i: nat, g: nat, b: nat)
    requires IsRun(run, steps) && i < |run| && g in run[i].groups && b < run[i].max
    ensures var s := run[i]; var x := s.groups[g];
      && (Out(run, steps, i, g, b) <==> b in x.stage || b in x.used || Hand(s, Reader, g, b))
      && (Out(run, steps, i, g, b) <==> b !in x.free && forall t :: !Hand(s, Thread(t), g, b))
      && (Out(run, steps, i, g, b) ==> g in s.list)
  {
    InUseExactly(run, steps, i, g, b);
    RunListed(run, steps, i);
    RunInv(run, steps, i);
    BlocksInOnePlace(run, steps, i, g, b);
    hide IsRun, Inv, Hand, Out;
    var s := run[i];
    if w :| Hand(s, w, g, b) && w != Reader { assert w == Thread(w.t); }
  }

  /** No block is given away while it is out, and after it was freed it is on the free list. */
  lemma GivenOnce(run: seq<State>, steps: seq<Step>, i: nat, g: nat, b: nat)
    requires IsRun(run, steps) && i < |steps|
    ensures HandsOut(run[i], steps[i], g, b) ==> !Out(run, steps, i, g, b) && Out(run, steps, i + 1, g, b)
    ensures Frees(run[i], steps[i], g, b) ==>
              Out(run, steps, i, g, b) && !Out(run, steps, i + 1, g, b) && g in run[i + 1].groups && b in run[i + 1].groups[g].free
  {
    hide Inv, Next, Init, HandsOut, Frees, InUse, Hand;
    RunInv(run, steps, i);
    assert Next(run[i], run[i + 1], steps[i]);
    InUseExactly(run, steps, i, g, b);
    if HandsOut(run[i], steps[i], g, b) { GivenNotInUse(run[i], steps[i], g, b); }
    if Frees(run[i], steps[i], g, b) { FreedIsFree(run[i], run[i + 1], steps[i], g, b); }
  }

  lemma GivenNotInUse(s: State, step: Step, g: nat, b: nat)
    requires HandsOut(s, step, g, b) && Inv(s)
    ensures !InUse(s, g, b) && !Frees(s, step, g, b)
  {
    hide Inv;
    HandApart(s, Thread(step.t), g, b);
  }

  lemma FreedIsFree(s: State, s': State, step: Step, g: nat, b: nat)
    requires Frees(s, step, g, b) && Next(s, s', step) && Inv(s)
    ensures InUse(s, g, b) && !HandsOut(s, step, g, b) && g in s'.groups && b in s'.groups[g].free
  {
    hide Inv;
  }

  /** A group is unlinked only when none of its blocks is out. */
  lemma UnlinkedNoneOut(run: seq<State>, steps: seq<Step>, i: nat, b: nat)
    requires IsRun(run, steps) && i < |steps| && steps[i] == RUnlink
    ensures run[i].cur.Some? && !Out(run, steps, i, run[i].cur.value, b)
  {
    hide Inv, Out, Hand;
    RunInv(run, steps, i);
    assert Next(run[i], run[i + 1], steps[i]);
    CutSpare(run[i]);
    InUseExactly(run, steps, i, run[i].cur.value, b);
  }
}
