/**
 What each thread has written, read off the steps of a run alone: every record committed to an HP block, and the record of
 every LP entry reserved and then committed. The state's own history agrees with it in every run.
 */
module LogBufferHistory {
  import opened Words
  import opened LogBufferModel

  /** The LP entry thread `t` has reserved and neither committed nor given up in the first `n` steps. */
  function Reserved(steps: seq<Step>, n: nat, t: nat): Option<Kind>
    decreases n
  {
    if n == 0 || n > |steps| then None
    else
      match steps[n - 1]
      case WLpReserve(u, k) => if u == t then Some(k) else Reserved(steps, n - 1, t)
      case WLpCommit(u) => if u == t then None else Reserved(steps, n - 1, t)
      case WOsGiveUp(u) => if u == t then None else Reserved(steps, n - 1, t)
      case _ => Reserved(steps, n - 1, t)
  }

  /** The records thread `t` has committed in the first `n` steps, in the order of its commits. */
  function Written(steps: seq<Step>, n: nat, t: nat): seq<Record>
    decreases n
  {
    if n == 0 || n > |steps| then []
    else
      match steps[n - 1]
      case WHpCommit(u, rec) => Written(steps, n - 1, t) + if u == t then [rec] else []
      case WLpCommit(u) =>
        Written(steps, n - 1, t)
        + if u == t && Reserved(steps, n - 1, t).Some? then Payload(Reserved(steps, n - 1, t).value) else []
      case _ => Written(steps, n - 1, t)
  }

  /** The thread's entry under way is the one its steps reserved. */
  ghost predicate Agrees(s: State, steps: seq<Step>, n: nat, t: nat) {
    if t !in s.threads then Written(steps, n, t) == []
    else
      var w := s.threads[t];
      && w.committed == Written(steps, n, t)
      && (w.pc.LpHeld? || w.pc.OsHeld? || w.pc.OsStored? ==>
            && w.pc.slot < |s.lp| && s.lp[w.pc.slot].tid == t
            && Reserved(steps, n, t).Some? && Payload(s.lp[w.pc.slot].kind) == Payload(Reserved(steps, n, t).value)
            && (s.lp[w.pc.slot].kind.Finish? <==> Reserved(steps, n, t).value.Finish?))
  }

  /** The reader's steps touch none of this. */
  lemma ReaderSpares(s: State, s': State, step: Step)
    requires !WriterStep(step) && Next(s, s', step)
    ensures s'.lp == s.lp
    ensures forall t :: t in s.threads <==> t in s'.threads
    ensures forall t :: t in s.threads ==> s'.threads[t].pc == s.threads[t].pc && s'.threads[t].committed == s.threads[t].committed
  {
    hide Verify, VerifyOversize, Erased, WriterMove;
  }

  /** The thread whose step it is. */
  function Mover(step: Step): nat
  {
    match step
    case WJoin(t) => t
    case WLpReserve(t, _) => t
    case WLeave(t) => t
    case WLpCommit(t) => t
    case WHpOpen(t, _) => t
    case WHpCommit(t, _) => t
    case WOsAcquire(t, _) => t
    case WOsStore(t) => t
    case WOsGiveUp(t) => t
    case WHpFinish(t) => t
    case _ => 0
  }

  /** A writer's step changes its own thread and its own entries. */
  lemma OthersSpared(s: State, s': State, step: Step, t: nat)
    requires WriterMove(s, s', step) && (t != Mover(step) || step.WSideFinish?)
    requires var u := Mover(step);
      u in s.threads && (s.threads[u].pc.LpHeld? || s.threads[u].pc.OsHeld? || s.threads[u].pc.OsStored?) ==>
        s.threads[u].pc.slot < |s.lp| && s.lp[s.threads[u].pc.slot].tid == u
    ensures t in s.threads <==> t in s'.threads
    ensures t in s.threads ==> s'.threads[t] == s.threads[t]
    ensures forall k :: 0 <= k < |s.lp| && s.lp[k].tid == t ==> k < |s'.lp| && s'.lp[k] == s.lp[k]
  {
  }

  lemma OwnAgrees(s: State, s': State, steps: seq<Step>, n: nat)
    requires n < |steps| && WriterMove(s, s', steps[n]) && Agrees(s, steps, n, Mover(steps[n])) && !steps[n].WSideFinish?
    ensures Agrees(s', steps, n + 1, Mover(steps[n]))
  {
  }

  ghost predicate AllAgree(s: State, steps: seq<Step>, n: nat) {
    forall t: nat :: Agrees(s, steps, n, t)
  }

  lemma StepAgrees(s: State, s': State, steps: seq<Step>, n: nat, n': nat)
    requires n < |steps| && n' == n + 1 && Next(s, s', steps[n]) && AllAgree(s, steps, n)
    ensures AllAgree(s', steps, n')
  {
    hide WriterMove, WalkMove, HeadMove;
    var step := steps[n];
    forall t: nat ensures Agrees(s', steps, n', t) {
      assert Agrees(s, steps, n, t) && Agrees(s, steps, n, Mover(step));
      if !WriterStep(step) {
        ReaderSpares(s, s', step);
      } else if t == Mover(step) && !step.WSideFinish? {
        OwnAgrees(s, s', steps, n);
      } else {
        OthersSpared(s, s', step, t);
      }
    }
  }

  lemma {:induction false} RunAgrees(run: seq<State>, steps: seq<Step>, i: nat)
    requires IsRun(run, steps) && i < |run|
    ensures AllAgree(run[i], steps, i)
  {
    hide Next, Outstanding;
    if i > 0 {
      RunAgrees(run, steps, i - 1);
      assert Next(run[i - 1], run[i - 1 + 1], steps[i - 1]);
      StepAgrees(run[i - 1], run[i], steps, i - 1, i);
    }
  }

  /** In every run, dropping payloads or not, a thread's history is what its steps wrote. */
  lemma CommittedIsWritten(run: seq<State>, steps: seq<Step>, i: nat, t: nat)
    requires IsRun(run, steps) && i < |run| && t in run[i].threads
    ensures run[i].threads[t].committed == Written(steps, i, t)
  {
    hide IsRun;
    RunAgrees(run, steps, i);
    assert Agrees(run[i], steps, i, t);
  }
}
