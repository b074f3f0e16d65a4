/** Every writer step keeps the log buffer invariant. */
module LogBufferWriters {
  import opened Words
  import opened LogBufferModel
  import opened LogBufferInv

  /** The units of a thread stay where they were; more may follow. */
  ghost predicate UnitsKept(w: Thread, w': Thread) {
    && w'.rseq == w.rseq && |w.units| <= |w'.units|
    && (forall i {:trigger w.units[i]} {:trigger w'.units[i]} :: 0 <= i < |w.units| ==>
          && w'.units[i].LpUnit? == w.units[i].LpUnit?
          && (w.units[i].LpUnit? ==> w'.units[i].slot == w.units[i].slot)
          && (w.units[i].HpUnit? ==> w'.units[i].block == w.units[i].block))
  }

  /** The step left the homes of thread `t`'s units alone, apart from the records and marks in them. */
  ghost predicate HomesKept(s: State, s': State, t: nat) {
    && t in s.threads && t in s'.threads && UnitsKept(s.threads[t], s'.threads[t])
    && s'.head == s.head && s.head <= |s.lp| <= |s'.lp|
    && (forall k {:trigger s.lp[k]} {:trigger s'.lp[k]} :: 0 <= k < |s.lp| && s'.lp[k].tid == t ==>
          s'.lp[k].(committed := s.lp[k].committed) == s.lp[k] && (s.lp[k].committed ==> s'.lp[k].committed))
    && (forall k {:trigger s.lp[k]} {:trigger s'.lp[k]} :: 0 <= k < |s.lp| ==> s'.lp[k].tid == s.lp[k].tid)
  }

  ghost predicate SidesKept(s: State, s': State, t: nat) {
    && t in s.threads && t in s'.threads
    && (forall d {:trigger s.sides[d]} {:trigger s'.sides[d]} ::
          d in s'.sides && s'.sides[d].owner == t ==> d in s.sides && s'.sides[d] == s.sides[d])
    && (s.threads[t].pc.OsHeld? ==> s'.threads[t].pc == s.threads[t].pc)
  }

  lemma KeptEntries(s: State, s': State, t: nat)
    requires HomesKept(s, s', t) && Per(s, t)
    ensures forall k {:trigger s'.lp[k]} :: s'.head <= k < |s.lp| && s'.lp[k].tid == t ==> EntryOk(s', k)
  {
    hide UnitOk, ThreadOk, HistoryOk, SideOk, BlockOk, SlotsIncrease;
  }

  lemma KeptSides(s: State, s': State, t: nat)
    requires HomesKept(s, s', t) && SidesKept(s, s', t) && Per(s, t)
    ensures forall d {:trigger s'.sides[d]} :: d in s'.sides && s'.sides[d].owner == t ==> SideOk(s', d)
  {
    hide UnitOk, ThreadOk, HistoryOk, EntryOk, BlockOk, SlotsIncrease;
    forall d {:trigger s'.sides[d]} | d in s'.sides && s'.sides[d].owner == t ensures SideOk(s', d) {
      forall i | 0 <= i < |s'.sides[d].queue| ensures ItemOk(s', d, s'.sides[d].queue[i]) {
        assert ItemOk(s, d, s.sides[d].queue[i]);
      }
    }
  }

  lemma JoinKeeps(s: State, s': State, t: nat)
    requires Inv(s) && Join(s, s', t)
    ensures Inv(s')
  {
    hide OrderOk, ThreadOk, HistoryOk, UnitOk, SideOk, EntryOk, BlockOk, SlotsIncrease, Per;
    OrderKept(s, s');
    forall u | u in s.threads ensures Per(s', u) { FramedPer(s, s', u); }
    JoinSelf(s, s', t);
  }

  lemma JoinSelf(s: State, s': State, t: nat)
    requires Owned(s) && Join(s, s', t)
    ensures Per(s', t)
  {
    hide UnitOk, EntryOk, BlockOk, SideOk;
  }

  lemma LpReserveKeeps(s: State, s': State, t: nat, k: Kind)
    requires Inv(s) && LpReserve(s, s', t, k)
    ensures Inv(s')
  {
    hide OrderOk, ThreadOk, HistoryOk, UnitOk, SideOk, EntryOk, BlockOk, SlotsIncrease, Per;
    OrderKept(s, s');
    forall u | u in s.threads && u != t ensures Per(s', u) { FramedPer(s, s', u); }
    LpReserveSelf(s, s', t, k);
  }

  lemma LpReserveParts(s: State, s': State, t: nat, k: Kind)
    requires t in s.threads && HistoryOk(s, t) && ThreadOk(s, t) && LpReserve(s, s', t, k) && ReaderOk(s) && s.head <= |s.lp|
    ensures HistoryOk(s', t) && EntryOk(s', |s.lp|)
    ensures forall i: nat {:trigger UnitOk(s', t, i)} ::
              i < |s'.threads[t].units| && (i < |s.threads[t].units| ==> UnitOk(s, t, i)) ==> UnitOk(s', t, i)
  {
    var us, us' := s.threads[t].units, s'.threads[t].units;
    assert us'[..|us|] == us;
    assert us'[..s.threads[t].rseq] == us[..s.threads[t].rseq];
  }

  lemma LpReserveSlots(s: State, s': State, t: nat, k: Kind)
    requires t in s.threads && Per(s, t) && LpReserve(s, s', t, k)
    ensures SlotsIncrease(s'.threads[t])
  {
    hide HistoryOk, SideOk, EntryOk, BlockOk, ThreadOk;
    var w := s.threads[t];
    forall i | w.rseq <= i < |w.units| && w.units[i].LpUnit? ensures w.units[i].slot < |s.lp| { assert UnitOk(s, t, i); }
  }

  lemma LpReserveSelf(s: State, s': State, t: nat, k: Kind)
    requires Owned(s) && t in s.threads && Per(s, t) && LpReserve(s, s', t, k) && ReaderOk(s)
    ensures Per(s', t)
  {
    hide HistoryOk, SideOk, UnitOk, EntryOk, SlotsIncrease;
    LpReserveParts(s, s', t, k);
    LpReserveSlots(s, s', t, k);
    KeptEntries(s, s', t);
    KeptSides(s, s', t);
  }

  lemma CurBlock(s: State, t: nat)
    requires t in s.threads && Per(s, t) && s.threads[t].cur.Some?
    ensures var w, b := s.threads[t], s.threads[t].cur.value;
      && b in s.blocks && s.blocks[b].Live? && s.blocks[b].owner == t && s.blocks[b].seq_ == CurAt(w)
      && !s.blocks[b].removed
  {
    hide HistoryOk;
    assert UnitOk(s, t, CurAt(s.threads[t]));
  }

  lemma LeaveKeeps(s: State, s': State, t: nat)
    requires Inv(s) && Leave(s, s', t)
    ensures Inv(s')
  {
    hide OrderOk, ThreadOk, HistoryOk, UnitOk, SideOk, EntryOk, BlockOk, SlotsIncrease, Per;
    OrderKept(s, s');
    CurBlock(s, t);
    forall u | u in s.threads && u != t ensures Per(s', u) { FramedPer(s, s', u); }
    LeaveSelf(s, s', t);
  }

  lemma LeaveParts(s: State, s': State, t: nat)
    requires t in s.threads && HistoryOk(s, t) && Leave(s, s', t)
    ensures HistoryOk(s', t)
    ensures forall i: nat {:trigger UnitOk(s', t, i)} :: i < |s.threads[t].units| && UnitOk(s, t, i) ==> UnitOk(s', t, i)
  {
    hide Flat;
  }

  lemma LeaveSelf(s: State, s': State, t: nat)
    requires Owned(s) && t in s.threads && Per(s, t) && Leave(s, s', t)
    ensures Per(s', t)
  {
    hide HistoryOk, SideOk, EntryOk, UnitOk;
    LeaveParts(s, s', t);
    KeptEntries(s, s', t);
    KeptSides(s, s', t);
    CurBlock(s, t);
  }

  /** The slot of a write under way is the thread's last number, and a side buffer it has locked is its own. */
  lemma Held(s: State, t: nat)
    requires t in s.threads && Per(s, t) && (s.threads[t].pc.LpHeld? || s.threads[t].pc.OsHeld? || s.threads[t].pc.OsStored?)
    ensures HoldsSlot(s, t, s.threads[t].pc.slot) && s.lp[s.threads[t].pc.slot].seq_ == |s.threads[t].units| - 1
    ensures s.threads[t].pc.OsHeld? ==> s.threads[t].pc.side in s.sides && s.sides[s.threads[t].pc.side].owner == t
  {
    hide HistoryOk, SideOk, EntryOk, BlockOk, SlotsIncrease;
    assert UnitOk(s, t, |s.threads[t].units| - 1);
  }

  lemma LpCommitKeeps(s: State, s': State, t: nat)
    requires Inv(s) && LpCommit(s, s', t)
    ensures Inv(s')
  {
    hide OrderOk, ThreadOk, HistoryOk, UnitOk, SideOk, EntryOk, BlockOk, SlotsIncrease, Per;
    OrderKept(s, s');
    Held(s, t);
    forall u | u in s.threads && u != t ensures Per(s', u) { FramedPer(s, s', u); }
    LpCommitSelf(s, s', t);
  }

  lemma LpCommitParts(s: State, s': State, t: nat)
    requires t in s.threads && HistoryOk(s, t) && ThreadOk(s, t) && LpCommit(s, s', t) && ReaderOk(s)
    ensures HistoryOk(s', t)
    ensures forall i: nat {:trigger UnitOk(s', t, i)} :: i < |s.threads[t].units| && UnitOk(s, t, i) ==> UnitOk(s', t, i)
  {
    var us, us' := s.threads[t].units, s'.threads[t].units;
    assert us'[..|us| - 1] == us[..|us| - 1];
    assert us'[..s.threads[t].rseq] == us[..s.threads[t].rseq];
  }

  lemma LpCommitSelf(s: State, s': State, t: nat)
    requires Owned(s) && t in s.threads && Per(s, t) && LpCommit(s, s', t) && ReaderOk(s)
    ensures Per(s', t)
  {
    hide HistoryOk, SideOk, EntryOk, UnitOk;
    LpCommitParts(s, s', t);
    KeptEntries(s, s', t);
    KeptSides(s, s', t);
  }

  lemma HpOpenKeeps(s: State, s': State, t: nat, b: nat)
    requires Inv(s) && HpOpen(s, s', t, b)
    ensures Inv(s')
  {
    hide OrderOk, ThreadOk, HistoryOk, UnitOk, SideOk, EntryOk, BlockOk, SlotsIncrease, Per;
    OrderKept(s, s');
    forall u | u in s.threads && u != t ensures Per(s', u) { FramedPer(s, s', u); }
    HpOpenSelf(s, s', t, b);
  }

  lemma HpOpenParts(s: State, s': State, t: nat, b: nat)
    requires t in s.threads && HistoryOk(s, t) && ThreadOk(s, t) && HpOpen(s, s', t, b)
    requires s.threads[t].rseq < |s.threads[t].units| ==> UnitOk(s, t, s.threads[t].rseq)
    ensures HistoryOk(s', t)
    ensures forall i: nat {:trigger UnitOk(s', t, i)} ::
              i < |s'.threads[t].units| && (i < |s.threads[t].units| ==> UnitOk(s, t, i)) ==> UnitOk(s', t, i)
  {
    var us, us' := s.threads[t].units, s'.threads[t].units;
    assert us'[..|us|] == us;
    assert us'[..s.threads[t].rseq] == us[..s.threads[t].rseq];
  }

  lemma HpOpenSelf(s: State, s': State, t: nat, b: nat)
    requires Owned(s) && t in s.threads && Per(s, t) && HpOpen(s, s', t, b)
    ensures Per(s', t)
  {
    hide HistoryOk, SideOk, EntryOk, UnitOk;
    HpOpenParts(s, s', t, b);
    KeptEntries(s, s', t);
    KeptSides(s, s', t);
  }

  lemma HpCommitKeeps(s: State, s': State, t: nat, rec: Record)
    requires Inv(s) && HpCommit(s, s', t, rec)
    ensures Inv(s')
  {
    hide OrderOk, ThreadOk, HistoryOk, UnitOk, SideOk, EntryOk, BlockOk, SlotsIncrease, Per;
    OrderKept(s, s');
    CurBlock(s, t);
    forall u | u in s.threads && u != t ensures Per(s', u) { FramedPer(s, s', u); }
    HpCommitSelf(s, s', t, rec);
  }

  lemma HpCommitParts(s: State, s': State, t: nat, rec: Record)
    requires t in s.threads && HistoryOk(s, t) && ThreadOk(s, t) && HpCommit(s, s', t, rec)
    requires UnitOk(s, t, |s.threads[t].units| - 1) && UnitOk(s, t, s.threads[t].rseq)
    requires s.blocks[s.threads[t].cur.value].seq_ == CurAt(s.threads[t])
    ensures HistoryOk(s', t)
    ensures forall i: nat {:trigger UnitOk(s', t, i)} :: i < |s.threads[t].units| && UnitOk(s, t, i) ==> UnitOk(s', t, i)
  {
    var us, us' := s.threads[t].units, s'.threads[t].units;
    var b := s.threads[t].cur.value;
    assert us'[..|us| - 1] == us[..|us| - 1];
    assert us'[..s.threads[t].rseq] == us[..s.threads[t].rseq];
    assert (s.blocks[b].data + [rec])[..s.blocks[b].read] == s.blocks[b].data[..s.blocks[b].read];
  }

  lemma HpCommitSelf(s: State, s': State, t: nat, rec: Record)
    requires Owned(s) && t in s.threads && Per(s, t) && HpCommit(s, s', t, rec)
    ensures Per(s', t)
  {
    hide HistoryOk, SideOk, EntryOk, UnitOk;
    KeptEntries(s, s', t);
    KeptSides(s, s', t);
    CurBlock(s, t);
    HpCommitParts(s, s', t, rec);
  }

  lemma OsAcquireOrder(s: State, s': State, t: nat, d: nat)
    requires OrderOk(s) && OsAcquire(s, s', t, d)
    ensures OrderOk(s')
  {
    if d in s.sides { OrderKept(s, s'); }
  }

  lemma OsAcquireKeeps(s: State, s': State, t: nat, d: nat)
    requires Inv(s) && OsAcquire(s, s', t, d)
    ensures Inv(s')
  {
    hide OrderOk, ThreadOk, HistoryOk, UnitOk, SideOk, EntryOk, BlockOk, SlotsIncrease, Per;
    forall u | u in s.threads && u != t ensures Per(s', u) { FramedPer(s, s', u); }
    OsAcquireSelf(s, s', t, d);
    OsAcquireOrder(s, s', t, d);
  }

  lemma OsAcquireParts(s: State, s': State, t: nat, d: nat)
    requires t in s.threads && HistoryOk(s, t) && OsAcquire(s, s', t, d)
    ensures HistoryOk(s', t)
    ensures forall i: nat {:trigger UnitOk(s', t, i)} :: i < |s.threads[t].units| && UnitOk(s, t, i) ==> UnitOk(s', t, i)
    ensures forall e {:trigger SideOk(s', e)} ::
              e in s'.sides && s'.sides[e].owner == t && (e in s.sides ==> SideOk(s, e)) ==> SideOk(s', e)
  {
    hide Flat;
    forall e {:trigger SideOk(s', e)} | e in s.sides && s'.sides[e].owner == t && SideOk(s, e) ensures SideOk(s', e) {
      forall i | 0 <= i < |s.sides[e].queue| ensures ItemOk(s', e, s.sides[e].queue[i]) { assert ItemOk(s, e, s.sides[e].queue[i]); }
    }
  }

  lemma OsAcquireSelf(s: State, s': State, t: nat, d: nat)
    requires Owned(s) && t in s.threads && Per(s, t) && OsAcquire(s, s', t, d)
    ensures Per(s', t)
  {
    hide HistoryOk, SideOk, EntryOk, UnitOk;
    OsAcquireParts(s, s', t, d);
    KeptEntries(s, s', t);
  }

  lemma OsStoreKeeps(s: State, s': State, t: nat)
    requires Inv(s) && OsStore(s, s', t)
    ensures Inv(s')
  {
    hide OrderOk, ThreadOk, HistoryOk, UnitOk, SideOk, EntryOk, BlockOk, SlotsIncrease, Per;
    OrderKept(s, s');
    Held(s, t);
    forall u | u in s.threads && u != t ensures Per(s', u) { FramedPer(s, s', u); }
    OsStoreSelf(s, s', t);
  }

  lemma OsStoreParts(s: State, s': State, t: nat)
    requires t in s.threads && HistoryOk(s, t) && ThreadOk(s, t) && OsStore(s, s', t)
    ensures HistoryOk(s', t)
    ensures forall i: nat {:trigger UnitOk(s', t, i)} :: i < |s.threads[t].units| && UnitOk(s, t, i) ==> UnitOk(s', t, i)
  {
    hide Flat;
    var w := s.threads[t];
    var q, q' := s.sides[w.pc.side].queue, s'.sides[w.pc.side].queue;
    assert q <= q' && q'[|q|] == Item(s.lp[w.pc.slot].seq_, s.lp[w.pc.slot].kind.rec);
  }

  lemma OsStoreSide(s: State, s': State, t: nat, e: nat)
    requires t in s.threads && ThreadOk(s, t) && OsStore(s, s', t) && e in s'.sides && s'.sides[e].owner == t
    requires s.lp[s.threads[t].pc.slot].seq_ == |s.threads[t].units| - 1
    requires e in s.sides && SideOk(s, e)
    ensures SideOk(s', e)
  {
    var q, q' := s.sides[e].queue, s'.sides[e].queue;
    forall i | 0 <= i < |q'| ensures ItemOk(s', e, q'[i]) {
      if i < |q| { assert ItemOk(s, e, q[i]); }
    }
    forall i, j | 0 <= i < j < |q'| ensures q'[i].seq_ < q'[j].seq_ {
      assert ItemOk(s, e, q[i]);
    }
  }

  lemma OsStoreSelf(s: State, s': State, t: nat)
    requires Owned(s) && t in s.threads && Per(s, t) && OsStore(s, s', t)
    ensures Per(s', t)
  {
    hide HistoryOk, SideOk, UnitOk;
    OsStoreParts(s, s', t);
    Held(s, t);
    forall e {:trigger s'.sides[e]} | e in s'.sides && s'.sides[e].owner == t ensures SideOk(s', e) {
      OsStoreSide(s, s', t, e);
    }
  }

  lemma OsGiveUpKeeps(s: State, s': State, t: nat)
    requires Inv(s) && OsGiveUp(s, s', t)
    ensures Inv(s')
  {
    hide OrderOk, ThreadOk, HistoryOk, UnitOk, SideOk, EntryOk, BlockOk, SlotsIncrease, Per;
    OrderKept(s, s');
    Held(s, t);
    forall u | u in s.threads && u != t ensures Per(s', u) { FramedPer(s, s', u); }
    OsGiveUpSelf(s, s', t);
  }

  lemma OsGiveUpParts(s: State, s': State, t: nat)
    requires t in s.threads && HistoryOk(s, t) && ThreadOk(s, t) && OsGiveUp(s, s', t) && ReaderOk(s)
    ensures HistoryOk(s', t)
    ensures forall i: nat {:trigger UnitOk(s', t, i)} :: i + 1 < |s.threads[t].units| && UnitOk(s, t, i) ==> UnitOk(s', t, i)
    ensures forall e {:trigger SideOk(s', e)} :: e in s.sides && s.sides[e].owner == t && SideOk(s, e) ==> SideOk(s', e)
  {
    var us, us' := s.threads[t].units, s'.threads[t].units;
    assert us'[..s.threads[t].rseq] == us[..s.threads[t].rseq];
    forall e {:trigger SideOk(s', e)} | e in s.sides && s.sides[e].owner == t && SideOk(s, e) ensures SideOk(s', e) {
      forall i | 0 <= i < |s.sides[e].queue| ensures ItemOk(s', e, s.sides[e].queue[i]) { assert ItemOk(s, e, s.sides[e].queue[i]); }
    }
  }

  lemma OsGiveUpSelf(s: State, s': State, t: nat)
    requires Owned(s) && t in s.threads && Per(s, t) && OsGiveUp(s, s', t) && ReaderOk(s)
    ensures Per(s', t)
  {
    hide HistoryOk, SideOk, UnitOk;
    OsGiveUpParts(s, s', t);
    Held(s, t);
  }

  lemma HpFinishKeeps(s: State, s': State, t: nat)
    requires Inv(s) && HpFinish(s, s', t)
    ensures Inv(s')
  {
    hide OrderOk, ThreadOk, HistoryOk, UnitOk, SideOk, EntryOk, BlockOk, SlotsIncrease, Per;
    OrderKept(s, s');
    CurBlock(s, t);
    forall u | u in s.threads && u != t ensures Per(s', u) { FramedPer(s, s', u); }
    HpFinishSelf(s, s', t);
  }

  lemma HpFinishParts(s: State, s': State, t: nat)
    requires t in s.threads && HistoryOk(s, t) && ThreadOk(s, t) && HpFinish(s, s', t)
    requires s.blocks[s.threads[t].cur.value].seq_ == CurAt(s.threads[t])
    ensures HistoryOk(s', t)
    ensures forall i: nat {:trigger UnitOk(s', t, i)} :: i < |s.threads[t].units| && UnitOk(s, t, i) ==> UnitOk(s', t, i)
  {
    hide Flat;
  }

  lemma HpFinishSelf(s: State, s': State, t: nat)
    requires Owned(s) && t in s.threads && Per(s, t) && HpFinish(s, s', t)
    ensures Per(s', t)
  {
    hide HistoryOk, SideOk, EntryOk, UnitOk;
    KeptEntries(s, s', t);
    KeptSides(s, s', t);
    CurBlock(s, t);
    HpFinishParts(s, s', t);
  }

  lemma SideFinishKeeps(s: State, s': State, d: nat)
    requires Inv(s) && SideFinish(s, s', d)
    ensures Inv(s')
  {
    hide OrderOk, ThreadOk, HistoryOk, UnitOk, SideOk, EntryOk, BlockOk, SlotsIncrease, Per;
    OrderKept(s, s');
    forall u | u in s.threads && u != s.sides[d].owner ensures Per(s', u) { FramedPer(s, s', u); }
    SideFinishSelf(s, s', d);
  }

  lemma SideFinishParts(s: State, s': State, d: nat, t: nat)
    requires SideFinish(s, s', d) && t in s.threads && HistoryOk(s, t)
    ensures HistoryOk(s', t)
    ensures forall i: nat {:trigger UnitOk(s', t, i)} :: i < |s.threads[t].units| && UnitOk(s, t, i) ==> UnitOk(s', t, i)
    ensures forall e {:trigger SideOk(s', e)} :: e in s.sides && SideOk(s, e) ==> SideOk(s', e)
  {
    hide Flat;
    forall e {:trigger SideOk(s', e)} | e in s.sides && SideOk(s, e) ensures SideOk(s', e) {
      forall i | 0 <= i < |s.sides[e].queue| ensures ItemOk(s', e, s.sides[e].queue[i]) { assert ItemOk(s, e, s.sides[e].queue[i]); }
    }
  }

  lemma SideFinishSelf(s: State, s': State, d: nat)
    requires Owned(s) && SideFinish(s, s', d) && s.sides[d].owner in s.threads && Per(s, s.sides[d].owner)
    ensures Per(s', s.sides[d].owner)
  {
    hide SideOk, HistoryOk, EntryOk, UnitOk;
    var t := s.sides[d].owner;
    SideFinishParts(s, s', d, t);
    KeptEntries(s, s', t);
  }
}
