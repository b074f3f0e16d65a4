/** What the log buffer protocol promises over every run. */
module LogBufferTheorems {
  import opened Words
  import opened LogBufferModel
  import opened LogBufferHistory
  import opened LogBufferInv
  import opened LogBufferWriters
  import opened LogBufferReader

  lemma WriterKeeps(s: State, s': State, step: Step)
    requires Inv(s) && WriterStep(step) && WriterMove(s, s', step)
    ensures Inv(s')
  {
    hide Inv;
    match step
    case WJoin(t) => JoinKeeps(s, s', t);
    case WLpReserve(t, k) => LpReserveKeeps(s, s', t, k);
    case WLeave(t) => LeaveKeeps(s, s', t);
    case WLpCommit(t) => LpCommitKeeps(s, s', t);
    case WHpOpen(t, b) => HpOpenKeeps(s, s', t, b);
    case WHpCommit(t, rec) => HpCommitKeeps(s, s', t, rec);
    case WOsAcquire(t, d) => OsAcquireKeeps(s, s', t, d);
    case WOsStore(t) => OsStoreKeeps(s, s', t);
    case WOsGiveUp(t) => OsGiveUpKeeps(s, s', t);
    case WHpFinish(t) => HpFinishKeeps(s, s', t);
    case WSideFinish(d) => SideFinishKeeps(s, s', d);
  }

  lemma HeadKeeps(s: State, s': State, step: Step)
    requires !WriterStep(step) && !WalkStep(step) && !step.RSideDrop?
    requires HeadMove(s, s', step) && Inv(s) && Outstanding(s)
    ensures Inv(s')
  {
    hide Inv;
    match step
    case RLpDropVoid => LpDropVoidKeeps(s, s');
    case RLpTake => LpTakeKeeps(s, s');
    case RSeek => SeekKeeps(s, s');
    case RSeekOn(d) => SeekOnKeeps(s, s', d);
    case RLpTakeExternal(d) => LpTakeExternalKeeps(s, s', d);
    case RLpMissing => LpMissingNever(s, s');
    case RLpFinish => LpFinishKeeps(s, s');
    case RLpReturn => ReturnKeeps(s, s');
    case RSideReturn => ReturnKeeps(s, s');
  }

  lemma WalkKeeps(s: State, s': State, step: Step)
    requires WalkStep(step) && WalkMove(s, s', step) && Inv(s) && Outstanding(s)
    ensures Inv(s')
  {
    hide Inv;
    match step
    case RArrive(b) => ArriveKeeps(s, s', b);
    case RFetch => FetchKeeps(s, s');
    case RHand => HandKeeps(s, s');
    case RDepart => DepartKeeps(s, s');
    case RSideRecycle(k) => SideRecycleKeeps(s, s', k);
  }

  /** Every step but the drop keeps the invariant. */
  lemma NextKeeps(s: State, s': State, step: Step)
    requires Inv(s) && Outstanding(s) && Next(s, s', step) && !step.RSideDrop?
    ensures Inv(s')
  {
    hide Inv, WriterMove, WalkMove, HeadMove, Outstanding;
    if WriterStep(step) {
      WriterKeeps(s, s', step);
    } else if WalkStep(step) {
      WalkKeeps(s, s', step);
    } else {
      HeadKeeps(s, s', step);
    }
  }

  lemma {:induction false} RunInv(run: seq<State>, steps: seq<Step>, i: nat)
    requires IsRun(run, steps) && NoDrop(steps, i) && i < |run|
    ensures Inv(run[i])
  {
    hide Next, Per;
    if i > 0 {
      RunInv(run, steps, i - 1);
      NextKeeps(run[i - 1], run[i], steps[i - 1]);
    }
  }

  /**
   The exact condition over a whole run: the invariant, which says where every undelivered record is, holds in all
   its states if and only if the search for a payload never threw a head away.
   */
  lemma KeptExactlyWithoutDrop(run: seq<State>, steps: seq<Step>)
    requires IsRun(run, steps)
    ensures (forall i :: 0 <= i < |run| ==> Inv(run[i])) <==> NoDrop(steps, |steps|)
  {
    hide Inv;
    if NoDrop(steps, |steps|) {
      forall i | 0 <= i < |run| ensures Inv(run[i]) { RunInv(run, steps, i); }
    } else {
      var i :| 0 <= i < |steps| && steps[i].RSideDrop?;
      if Inv(run[i]) { DropBreaks(run[i], run[i + 1], steps[i].d); }
    }
  }

  /** Of the unit being read, what was handed out comes first; of none, nothing was. */
  lemma PartialFirst(s: State, t: nat)
    requires t in s.threads && (s.threads[t].rseq < |s.threads[t].units| ==> UnitOk(s, t, s.threads[t].rseq))
    ensures var w := s.threads[t];
      if w.rseq < |w.units| then Partial(s, t) <= w.units[w.rseq].recs else Partial(s, t) == []
  {
  }

  lemma PrefixOfCommitted(s: State, t: nat)
    requires Inv(s) && t in s.threads
    ensures s.threads[t].delivered <= s.threads[t].committed
  {
    hide SideOk, EntryOk, BlockOk, SlotsIncrease, ReaderOk, Flat, UnitOk, ThreadOk, Partial;
    var w := s.threads[t];
    assert Per(s, t);
    PartialFirst(s, t);
    if w.rseq < |w.units| {
      FlatStep(w.units, w.rseq);
      FlatPrefix(w.units, w.rseq + 1);
    } else {
      FlatPrefix(w.units, w.rseq);
    }
  }

  /**
   In every run, at every moment, what the reader has handed out from each thread is a prefix of what that thread's steps
   have written: in order, nothing lost, nothing twice.
   */
  lemma DeliveredInOrder(run: seq<State>, steps: seq<Step>, i: nat, t: nat)
    requires IsRun(run, steps) && NoDrop(steps, i) && i < |run| && t in run[i].threads
    ensures run[i].threads[t].delivered <= run[i].threads[t].committed == Written(steps, i, t)
  {
    hide IsRun, Inv;
    RunInv(run, steps, i);
    PrefixOfCommitted(run[i], t);
    CommittedIsWritten(run, steps, i, t);
  }

  /**
   In every run a block is recycled only after its writer has let go of it and every record ever committed
   to it has been handed out.
   */
  lemma RecycledWhenDrained(run: seq<State>, steps: seq<Step>, i: nat, b: nat)
    requires IsRun(run, steps) && NoDrop(steps, i) && i < |steps|
    requires b in run[i].blocks && run[i].blocks[b].Live? && (b in run[i + 1].blocks ==> run[i + 1].blocks[b] == Free)
    ensures var s := run[i]; var t := s.blocks[b].owner;
      && t in s.threads && s.blocks[b].seq_ < |s.threads[t].units|
      && s.blocks[b].removed && s.threads[t].cur != Some(b)
      && s.threads[t].units[s.blocks[b].seq_] == HpUnit(b, s.blocks[b].data)
      && s.threads[t].delivered == Flat(s.threads[t].units[..s.blocks[b].seq_ + 1])
  {
    hide Next, Inv;
    RunInv(run, steps, i);
    assert Next(run[i], run[i + 1], steps[i]);
    DrainedBeforeFree(run[i], run[i + 1], steps[i], b);
  }

  /** Writers take no block or side buffer away. */
  lemma WritersSpare(s: State, s': State, step: Step)
    requires WriterMove(s, s', step)
    ensures forall d :: d in s.sides ==> d in s'.sides
    ensures forall b :: b in s.blocks && s.blocks[b].Live? ==> b in s'.blocks && s'.blocks[b].Live?
  {
  }

  lemma OnlyDepartFrees(s: State, s': State, step: Step, b: nat)
    requires Next(s, s', step) && b in s.blocks && s.blocks[b].Live? && (b in s'.blocks ==> s'.blocks[b] == Free)
    ensures step == RDepart && Depart(s, s')
  {
    hide Verify, VerifyOversize, HeadValid, SideHead, Erased, WriterMove;
    if WriterStep(step) { WritersSpare(s, s', step); }
  }

  lemma DrainedBeforeFree(s: State, s': State, step: Step, b: nat)
    requires Inv(s) && Next(s, s', step) && b in s.blocks && s.blocks[b].Live?
    requires b in s'.blocks ==> s'.blocks[b] == Free
    ensures var t := s.blocks[b].owner;
      && t in s.threads && s.blocks[b].seq_ < |s.threads[t].units|
      && s.blocks[b].removed && s.threads[t].cur != Some(b)
      && s.threads[t].units[s.blocks[b].seq_] == HpUnit(b, s.blocks[b].data)
      && s.threads[t].delivered == Flat(s.threads[t].units[..s.blocks[b].seq_ + 1])
  {
    hide Per, Flat, Next;
    OnlyDepartFrees(s, s', step, b);
    assert BlockNext(s, b) && s.blocks[b].removed && s.blocks[b].read == |s.blocks[b].data|;
    BlockUnit(s, b);
    DeliveredSoFar(s, s.blocks[b].owner);
    FlatStep(s.threads[s.blocks[b].owner].units, s.blocks[b].seq_);
  }

  lemma DeliveredSoFar(s: State, t: nat)
    requires Inv(s) && t in s.threads
    ensures HistoryOk(s, t)
  {
    hide HistoryOk;
    assert Per(s, t);
  }

  lemma OnlyRecycleDestroys(s: State, s': State, step: Step, d: nat)
    requires Next(s, s', step) && d in s.sides && d !in s'.sides
    ensures s.sides[d].queue == [] && !s.sides[d].held
  {
    hide Verify, VerifyOversize, HeadValid, SideHead, Erased, WriterMove;
    if WriterStep(step) { WritersSpare(s, s', step); }
  }

  /** A side buffer disappears only when it is empty and no writer is between locking and storing. */
  lemma SideDestroyedEmpty(run: seq<State>, steps: seq<Step>, i: nat, d: nat)
    requires IsRun(run, steps) && NoDrop(steps, i) && i < |steps| && d in run[i].sides && d !in run[i + 1].sides
    ensures run[i].sides[d].queue == []
    ensures forall t :: t in run[i].threads && run[i].threads[t].pc.OsHeld? ==> run[i].threads[t].pc.side != d
  {
    hide Inv, Next;
    RunInv(run, steps, i);
    assert Next(run[i], run[i + 1], steps[i]);
    OnlyRecycleDestroys(run[i], run[i + 1], steps[i], d);
    forall t | t in run[i].threads && run[i].threads[t].pc.OsHeld? ensures run[i].threads[t].pc.side != d {
      NotHeld(run[i], t);
    }
  }

  lemma NotHeld(s: State, t: nat)
    requires Inv(s) && t in s.threads && s.threads[t].pc.OsHeld?
    ensures s.threads[t].pc.side in s.sides && s.sides[s.threads[t].pc.side].held
  {
    hide UnitOk, SideOk, EntryOk, BlockOk, SlotsIncrease, ReaderOk, HistoryOk;
    assert Per(s, t);
  }

  /**
   In every run an external parent that has become the next record of its thread finds its payload in front
   of one of that thread's side buffers, and no other front of the thread is mistaken for it.
   */
  lemma PayloadFound(run: seq<State>, steps: seq<Step>, i: nat)
    requires IsRun(run, steps) && NoDrop(steps, i) && i < |run| && Outstanding(run[i])
    requires HeadValid(run[i]) && run[i].lp[run[i].head].kind.External?
    ensures var s := run[i]; exists d :: SideHead(s, d, Valid)
    ensures var s := run[i]; forall d :: SideHead(s, d, Valid) ==>
              s.sides[d].queue[0] == Item(s.lp[s.head].seq_, s.lp[s.head].kind.rec)
  {
    hide Per, UnitOk, Inv;
    var s := run[i];
    RunInv(run, steps, i);
    PayloadInFront(s);
    assert SideHead(s, s.lp[s.head].kind.at.value, Valid);
    forall d | SideHead(s, d, Valid) ensures s.sides[d].queue[0] == Item(s.lp[s.head].seq_, s.lp[s.head].kind.rec) {
      SideHeadsLater(s, d);
      StaleVerdictExact(s.lp[s.head].seq_, s.sides[d].queue[0].seq_);
    }
  }

  /**
   Once the reader has deleted a thread's object, nothing the reader or a writer may still visit belongs to
   that thread.
   */
  lemma FreedIsLast(run: seq<State>, steps: seq<Step>, i: nat, t: nat)
    requires IsRun(run, steps) && NoDrop(steps, i) && i < |run| && t in run[i].threads && run[i].threads[t].freed
    ensures var s := run[i];
      && (forall k :: s.head <= k < |s.lp| && s.lp[k].tid == t ==> s.lp[k].kind.Void?)
      && (forall b :: b in s.blocks && s.blocks[b].Live? ==> s.blocks[b].owner != t)
      && (forall d :: d in s.sides && s.sides[d].owner == t ==> s.sides[d].queue == [] && !s.sides[d].held)
      && s.threads[t].pc == Done && s.threads[t].delivered == s.threads[t].committed
  {
    RunInv(run, steps, i);
    FreedHoldsNothing(run[i], t);
  }

  lemma FreedHoldsNothing(s: State, t: nat)
    requires Inv(s) && t in s.threads && s.threads[t].freed
    ensures forall k :: s.head <= k < |s.lp| && s.lp[k].tid == t ==> s.lp[k].kind.Void?
    ensures forall b :: b in s.blocks && s.blocks[b].Live? ==> s.blocks[b].owner != t
    ensures forall d :: d in s.sides && s.sides[d].owner == t ==> s.sides[d].queue == [] && !s.sides[d].held
    ensures s.threads[t].pc == Done && s.threads[t].delivered == s.threads[t].committed
  {
    hide Flat;
    var w := s.threads[t];
    assert Per(s, t);
    assert w.units[..w.rseq] == w.units;
    forall d | d in s.sides && s.sides[d].owner == t ensures s.sides[d].queue == [] {
      assert s.sides[d].queue != [] ==> ItemOk(s, d, s.sides[d].queue[0]);
    }
  }

  // ---------------------------------------------------------------- no deadlock

  /** The committed LP head waits for another number of its thread. */
  ghost predicate HeadPending(s: State) {
    && s.head < |s.lp| && s.lp[s.head].committed && !s.lp[s.head].kind.Void? && s.lp[s.head].tid in s.threads
    && Verify(s.lp[s.head].seq_, s.threads[s.lp[s.head].tid].rseq) == SeqPending
  }

  /** The reader can go to this block and take a record from it or recycle it. */
  ghost predicate BlockReady(s: State, b: nat) {
    && b in s.blocks && s.blocks[b].Live? && s.blocks[b].owner in s.threads
    && Verify(s.blocks[b].seq_, s.threads[s.blocks[b].owner].rseq) == Valid
    && (s.blocks[b].read < |s.blocks[b].data| || s.blocks[b].removed)
  }

  /**
   Whenever the LP head is pending, the number it waits for is an HP block of the same thread that its writer
   has already marked removed.
   */
  lemma PendingAwaitsRemoved(run: seq<State>, steps: seq<Step>, i: nat)
    requires IsRun(run, steps) && NoDrop(steps, i) && i < |run| && HeadPending(run[i])
    ensures var s := run[i]; var w := s.threads[s.lp[s.head].tid];
      && w.rseq < |w.units| && w.units[w.rseq].HpUnit?
      && var b := w.units[w.rseq].block;
      b in s.blocks && s.blocks[b].Live? && s.blocks[b].owner == s.lp[s.head].tid && s.blocks[b].removed
      && BlockReady(s, b)
  {
    hide Per, Inv;
    RunInv(run, steps, i);
    PendingAwaits(run[i]);
  }

  lemma PendingAwaits(s: State)
    requires Inv(s) && HeadPending(s)
    ensures var w := s.threads[s.lp[s.head].tid];
      && w.rseq < |w.units| && w.units[w.rseq].HpUnit? && UnitOk(s, s.lp[s.head].tid, w.rseq)
      && s.blocks[w.units[w.rseq].block].removed && BlockReady(s, w.units[w.rseq].block)
  {
    hide HistoryOk, SideOk, BlockOk, ReaderOk;
    var t := s.lp[s.head].tid;
    var w := s.threads[t];
    assert Per(s, t);
    assert EntryOk(s, s.head);
    assert UnitOk(s, t, w.rseq);
    assert UnitOk(s, t, s.lp[s.head].seq_);
    assert w.units[w.rseq].HpUnit?;
  }

  /** No thread is inside a write. */
  ghost predicate Quiescent(s: State) {
    forall t :: t in s.threads ==> s.threads[t].pc == Idle || s.threads[t].pc == Done
  }

  ghost predicate HeadReady(s: State) {
    s.head < |s.lp| && s.lp[s.head].committed && (s.lp[s.head].kind.Void? || HeadValid(s))
  }

  lemma QuiescentHead(s: State)
    requires Inv(s) && Quiescent(s) && s.head < |s.lp|
    ensures HeadReady(s) || HeadPending(s)
  {
    hide HistoryOk, SideOk, BlockOk, ReaderOk, SlotsIncrease;
    var e := s.lp[s.head];
    assert Per(s, e.tid);
    assert EntryOk(s, s.head);
    if !e.kind.Void? { assert UnitOk(s, e.tid, e.seq_); }
  }

  /** With no write under way, the reader can always go on while something is undelivered. */
  lemma AlwaysReady(s: State, t: nat)
    requires Inv(s) && Quiescent(s) && t in s.threads && s.threads[t].delivered != s.threads[t].committed
    ensures HeadReady(s) || exists b :: BlockReady(s, b)
  {
    hide Per, UnitOk;
    if s.head < |s.lp| {
      QuiescentHead(s);
      if HeadPending(s) { PendingAwaits(s); }
    } else {
      LpEmptyReady(s, t);
    }
  }

  lemma LpEmptyReady(s: State, t: nat)
    requires Inv(s) && Quiescent(s) && s.head == |s.lp| && t in s.threads
    requires s.threads[t].delivered != s.threads[t].committed
    ensures exists b :: BlockReady(s, b)
  {
    hide SideOk, EntryOk, BlockOk, ReaderOk, SlotsIncrease, Flat;
    var w := s.threads[t];
    assert Per(s, t);
    assert w.units[..|w.units|] == w.units;
    if w.rseq < |w.units| {
      assert UnitOk(s, t, w.rseq);
      FlatStep(w.units, w.rseq);
      assert BlockReady(s, w.units[w.rseq].block);
    }
  }

  /** No deadlock: in every run, with no write under way, something can be consumed while anything is left. */
  lemma NoDeadlock(run: seq<State>, steps: seq<Step>, i: nat, t: nat)
    requires IsRun(run, steps) && NoDrop(steps, i) && i < |run| && Quiescent(run[i]) && t in run[i].threads
    requires run[i].threads[t].delivered != run[i].threads[t].committed
    ensures HeadReady(run[i]) || exists b :: BlockReady(run[i], b)
  {
    hide Per, Inv;
    RunInv(run, steps, i);
    AlwaysReady(run[i], t);
  }
}
