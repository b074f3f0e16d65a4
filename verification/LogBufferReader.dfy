/** Every reader step keeps the log buffer invariant; two of them never happen. */
module LogBufferReader {
  import opened Words
  import opened LogBufferModel
  import opened LogBufferInv
  import opened LogBufferOrder

  /** Nothing but the reader's own position changed. */
  lemma ReaderMoved(s: State, s': State)
    requires Inv(s) && s' == s.(reader := s'.reader) && ReaderOk(s')
    requires !s.reader.LpOut? && !s.reader.SideOut? && !s'.reader.LpOut? && !s'.reader.SideOut?
    ensures Inv(s')
  {
    hide ThreadOk, HistoryOk, UnitOk, SideOk, EntryOk, BlockOk, SlotsIncrease, Per, ReaderOk;
    forall u | u in s.threads ensures Per(s', u) { FramedPer(s, s', u); }
  }

  lemma LpDropVoidKeeps(s: State, s': State)
    requires Inv(s) && LpDropVoid(s, s')
    ensures Inv(s')
  {
    hide OrderOk, ThreadOk, HistoryOk, UnitOk, SideOk, EntryOk, BlockOk, SlotsIncrease, Per;
    OrderKept(s, s');
    forall u | u in s.threads ensures Per(s', u) { FramedPer(s, s', u); }
  }

  /** A valid head is the next unread unit of its thread. */
  lemma HeadIsNext(s: State)
    requires Inv(s) && Outstanding(s) && HeadValid(s)
    ensures var e := s.lp[s.head]; var w := s.threads[e.tid];
      && HeadNext(s) && w.rseq < |w.units| && UnitOk(s, e.tid, w.rseq)
      && w.units[w.rseq] == LpUnit(s.head, Payload(e.kind))
  {
    hide HistoryOk, SideOk, BlockOk, SlotsIncrease, ReaderOk;
    var e := s.lp[s.head];
    assert Per(s, e.tid);
    assert EntryOk(s, s.head);
    U32Exact(s.threads[e.tid].rseq, e.seq_);
    assert UnitOk(s, e.tid, e.seq_);
  }

  lemma LpTakeKeeps(s: State, s': State)
    requires Inv(s) && Outstanding(s) && LpTake(s, s')
    ensures Inv(s')
  {
    hide OrderOk, ThreadOk, HistoryOk, UnitOk, SideOk, EntryOk, BlockOk, SlotsIncrease, Per;
    OrderKept(s, s');
    var t := s.lp[s.head].tid;
    HeadIsNext(s);
    forall u | u in s.threads && u != t ensures Per(s', u) { FramedPer(s, s', u); }
    HandedOut(s, s', t, s.lp[s.head].kind.rec);
  }

  /** One record of the head's unit goes out: the thread's history grows by it and nothing else moves. */
  lemma HandedOut(s: State, s': State, t: nat, rec: Record)
    requires t in s.threads && Per(s, t) && (s.reader == Scan || s.reader.Seek?) && (s'.reader == LpOut || s'.reader.SideOut?)
    requires s' == s.(reader := s'.reader, target := s'.target, threads := s.threads[t := Deliver(s.threads[t], rec)])
    requires var w := s.threads[t]; w.rseq < |w.units| && w.units[w.rseq] == LpUnit(s.head, [rec])
    ensures Per(s', t)
  {
    hide SideOk, HistoryOk, EntryOk, BlockOk;
    HandedOutParts(s, s', t, rec);
  }

  lemma HandedOutParts(s: State, s': State, t: nat, rec: Record)
    requires t in s.threads && HistoryOk(s, t) && (s.reader == Scan || s.reader.Seek?) && (s'.reader == LpOut || s'.reader.SideOut?)
    requires s' == s.(reader := s'.reader, target := s'.target, threads := s.threads[t := Deliver(s.threads[t], rec)])
    requires var w := s.threads[t]; w.rseq < |w.units| && w.units[w.rseq] == LpUnit(s.head, [rec])
    ensures HistoryOk(s', t)
    ensures forall k: nat {:trigger EntryOk(s', k)} :: s'.head <= k < |s'.lp| && EntryOk(s, k) ==> EntryOk(s', k)
    ensures forall b {:trigger BlockOk(s', b)} :: b in s'.blocks && BlockOk(s, b) ==> BlockOk(s', b)
    ensures forall d {:trigger SideOk(s', d)} :: d in s'.sides && SideOk(s, d) ==> SideOk(s', d)
  {
    hide Flat;
    forall d {:trigger SideOk(s', d)} | d in s'.sides && SideOk(s, d) ensures SideOk(s', d) {
      forall i | 0 <= i < |s.sides[d].queue| ensures ItemOk(s', d, s.sides[d].queue[i]) { assert ItemOk(s, d, s.sides[d].queue[i]); }
    }
  }

  /** The side buffer a valid external head looks into first holds its payload in front. */
  lemma PayloadInFront(s: State)
    requires Inv(s) && Outstanding(s) && HeadValid(s) && s.lp[s.head].kind.External?
    ensures var e := s.lp[s.head];
      && e.kind.at.Some? && e.kind.at.value in s.sides
      && var q := s.sides[e.kind.at.value].queue;
      s.sides[e.kind.at.value].owner == e.tid && |q| > 0 && q[0] == Item(e.seq_, e.kind.rec)
  {
    hide ThreadOk, HistoryOk, EntryOk, BlockOk, SlotsIncrease, ReaderOk;
    var e := s.lp[s.head];
    HeadIsNext(s);
    var d := e.kind.at.value;
    var q := s.sides[d].queue;
    assert Per(s, e.tid);
    assert SideOk(s, d);
    var i :| 0 <= i < |q| && q[i] == Item(e.seq_, e.kind.rec);
    assert ItemOk(s, d, q[0]);
  }

  /** Every side head of the head's thread carries the head's number or a later one; equal only in its home. */
  lemma SideHeadsLater(s: State, d: nat)
    requires Inv(s) && Outstanding(s) && HeadValid(s) && s.lp[s.head].kind.External?
    requires d in s.sides && s.sides[d].owner == s.lp[s.head].tid && |s.sides[d].queue| > 0
    ensures s.lp[s.head].seq_ <= s.sides[d].queue[0].seq_ < s.lp[s.head].seq_ + TWO32
    ensures s.sides[d].queue[0].seq_ == s.lp[s.head].seq_ ==>
              s.lp[s.head].kind == External(s.sides[d].queue[0].rec, Some(d))
  {
    hide HistoryOk, EntryOk, BlockOk, SlotsIncrease, ReaderOk;
    HeadIsNext(s);
    assert Per(s, s.lp[s.head].tid);
    assert SideOk(s, d);
    assert ItemOk(s, d, s.sides[d].queue[0]);
    assert UnitOk(s, s.lp[s.head].tid, s.sides[d].queue[0].seq_);
  }

  /** The search starts before the payload's buffer. */
  lemma SeekKeeps(s: State, s': State)
    requires Inv(s) && Outstanding(s) && SeekPayload(s, s')
    ensures Inv(s')
  {
    hide Per, UnitOk;
    HeadIsNext(s);
    PayloadInFront(s);
    var k :| 0 <= k < |s.order| && s.order[k] == s.lp[s.head].kind.at.value;
    ReaderMoved(s, s');
  }

  /** And never goes on past it. */
  lemma SeekOnKeeps(s: State, s': State, d: nat)
    requires Inv(s) && Outstanding(s) && SeekOn(s, s', d)
    ensures Inv(s')
  {
    hide Per, UnitOk;
    PayloadInFront(s);
    var k :| s.reader.at <= k < |s.order| && s.order[k] == s.lp[s.head].kind.at.value;
    assert k != s.reader.at;
    ReaderMoved(s, s');
  }

  lemma LpTakeExternalKeeps(s: State, s': State, d: nat)
    requires Inv(s) && Outstanding(s) && LpTakeExternal(s, s', d)
    ensures Inv(s')
  {
    hide OrderOk, ThreadOk, HistoryOk, UnitOk, SideOk, EntryOk, BlockOk, SlotsIncrease, Per;
    OrderKept(s, s');
    var t := s.lp[s.head].tid;
    HeadIsNext(s);
    SideHeadsLater(s, d);
    U32Exact(s.lp[s.head].seq_, s.sides[d].queue[0].seq_);
    forall u | u in s.threads && u != t ensures Per(s', u) { FramedPer(s, s', u); }
    HandedOut(s, s', t, s.lp[s.head].kind.rec);
  }

  /** The whole unit at the head has been handed out, and the reader moves past it. */
  ghost predicate Consumed(s: State, s': State, t: nat, finished: bool) {
    && t in s.threads && s.head < |s.lp| && s.lp[s.head].tid == t && s.lp[s.head].committed && s.threads[t].rseq < |s.threads[t].units|
    && s' == s.(reader := Scan, head := s.head + 1, sides := s'.sides,
                threads := s.threads[t := Deregister(s.threads[t], finished)])
    && s.threads[t].units[s.threads[t].rseq].LpUnit? && s.threads[t].units[s.threads[t].rseq].slot == s.head
    && Partial(s, t) == s.threads[t].units[s.threads[t].rseq].recs
    && (finished ==> s.threads[t].rseq + 1 == |s.threads[t].units| && s.threads[t].pc == Done)
  }

  lemma ConsumedHistory(s: State, s': State, t: nat, finished: bool)
    requires Consumed(s, s', t, finished) && Per(s, t)
    ensures HistoryOk(s', t)
  {
    hide SideOk, EntryOk, BlockOk, SlotsIncrease, ThreadOk;
    var w := s.threads[t];
    FlatStep(w.units, w.rseq);
    assert Partial(s', t) == [] by {
      if w.rseq + 1 < |w.units| { assert UnitOk(s, t, w.rseq + 1); }
    }
  }

  /** The payload of the LP head, if it is a parent entry, is popped from its side buffer. */
  ghost predicate SidesAfter(s: State, s': State) {
    && s.head < |s.lp|
    && var e := s.lp[s.head];
    if !e.kind.External? then s'.sides == s.sides
    else
      && e.kind.at.Some? && e.kind.at.value in s.sides
      && var d := s.sides[e.kind.at.value];
      && d.owner == e.tid && |d.queue| > 0 && d.queue[0].seq_ == e.seq_
      && s'.sides == s.sides[e.kind.at.value := d.(queue := d.queue[1..])]
  }

  lemma ConsumedUnit(s: State, s': State, t: nat, finished: bool, i: nat)
    requires Consumed(s, s', t, finished) && SidesAfter(s, s') && HeadNext(s) && SlotsIncrease(s.threads[t])
    requires s.threads[t].rseq < i < |s.threads[t].units| && UnitOk(s, t, i)
    ensures UnitOk(s', t, i)
  {
    var u := s.threads[t].units[i];
    if u.LpUnit? && s.lp[u.slot].kind.External? && s.lp[u.slot].kind.at.Some? && s.lp[s.head].kind.External?
       && s.lp[u.slot].kind.at == s.lp[s.head].kind.at
    {
      var q := s.sides[s.lp[s.head].kind.at.value].queue;
      var j :| 0 <= j < |q| && q[j] == Item(i, s.lp[u.slot].kind.rec);
      assert q[1..][j - 1] == q[j];
    }
  }

  lemma ConsumedSide(s: State, s': State, t: nat, finished: bool, e: nat)
    requires Consumed(s, s', t, finished) && SidesAfter(s, s') && HeadNext(s)
    requires e in s.sides && s.sides[e].owner == t && SideOk(s, e)
    ensures e in s'.sides && SideOk(s', e)
  {
    var q, q' := s.sides[e].queue, s'.sides[e].queue;
    forall i | 0 <= i < |q'| ensures ItemOk(s', e, q'[i]) {
      var j := if q' == q then i else i + 1;
      assert q'[i] == q[j];
      assert ItemOk(s, e, q[j]);
    }
  }

  lemma ConsumedSelf(s: State, s': State, t: nat, finished: bool)
    requires Owned(s) && Consumed(s, s', t, finished) && Per(s, t) && SidesAfter(s, s') && HeadNext(s)
    ensures Per(s', t)
  {
    hide UnitOk, HistoryOk, SideOk, Partial;
    ConsumedHistory(s, s', t, finished);
    forall i: nat | s'.threads[t].rseq <= i < |s.threads[t].units| ensures UnitOk(s', t, i) {
      ConsumedUnit(s, s', t, finished, i);
    }
    forall e {:trigger s'.sides[e]} | e in s'.sides && s'.sides[e].owner == t ensures SideOk(s', e) {
      ConsumedSide(s, s', t, finished, e);
    }
  }

  lemma ConsumedKeeps(s: State, s': State, t: nat, finished: bool)
    requires Inv(s) && Consumed(s, s', t, finished) && SidesAfter(s, s') && HeadNext(s)
    requires s.reader == Scan || s.reader == LpOut || s.reader.SideOut?
    ensures Inv(s')
  {
    hide OrderOk, ThreadOk, HistoryOk, UnitOk, SideOk, EntryOk, BlockOk, SlotsIncrease, Per, Partial;
    OrderKept(s, s');
    forall u | u in s.threads && u != t ensures Per(s', u) { FramedPer(s, s', u); }
    ConsumedSelf(s, s', t, finished);
  }

  lemma HeadUnit(s: State)
    requires Inv(s) && s.head < |s.lp| && s.lp[s.head].committed && !s.lp[s.head].kind.Void? && HeadNext(s)
    ensures var e := s.lp[s.head]; var w := s.threads[e.tid];
      && w.rseq < |w.units| && w.units[w.rseq] == LpUnit(s.head, Payload(e.kind)) && UnitOk(s, e.tid, w.rseq)
  {
    hide ThreadOk, HistoryOk, SideOk, BlockOk, SlotsIncrease, ReaderOk;
    assert Per(s, s.lp[s.head].tid);
    assert EntryOk(s, s.head);
    assert UnitOk(s, s.lp[s.head].tid, s.lp[s.head].seq_);
  }

  lemma ReturnKeeps(s: State, s': State)
    requires Inv(s) && (LpReturn(s, s') || SideReturn(s, s'))
    ensures Inv(s')
  {
    hide Per, UnitOk;
    HeadUnit(s);
    ConsumedKeeps(s, s', s.lp[s.head].tid, false);
  }

  lemma LpFinishKeeps(s: State, s': State)
    requires Inv(s) && Outstanding(s) && LpFinish(s, s')
    ensures Inv(s')
  {
    hide Per;
    HeadIsNext(s);
    ConsumedKeeps(s, s', s.lp[s.head].tid, true);
  }

  // ---------------------------------------------------------------- steps that cannot happen

  /**
   The verdict on a side head whose number is that of the parent or a later one less than 2^32 away: it is
   taken to be stale exactly when the two numbers lie in different wraps of the 32-bit counter.
   */
  lemma StaleVerdictExact(parent: nat, item: nat)
    requires parent <= item < parent + TWO32
    ensures VerifyOversize(parent, item) == SeqInvalid <==> item / TWO32 != parent / TWO32
    ensures VerifyOversize(parent, item) == Valid <==> item == parent
  {
  }

  /** A payload in the next wrap is dropped: number 2^32 - 1 sees number 2^32 as 0. */
  lemma StaleVerdictExample()
    ensures VerifyOversize(TWO32 - 1, TWO32) == SeqInvalid
    ensures VerifyOversize(TWO32 - 2, TWO32 - 1) == SeqPending
  {
  }

  /** The search throws the head of the buffer it visits away exactly when that head lies in another wrap. */
  lemma SideDropExact(s: State, d: nat)
    requires Inv(s) && Outstanding(s) && Visits(s, d) && s.sides[d].owner == s.lp[s.head].tid && |s.sides[d].queue| > 0
    ensures (exists s' :: SideDrop(s, s', d)) <==>
            s.sides[d].queue[0].seq_ / TWO32 != s.threads[s.sides[d].owner].rseq / TWO32
  {
    hide Per;
    HeadIsNext(s);
    SideHeadsLater(s, d);
    StaleVerdictExact(s.lp[s.head].seq_, s.sides[d].queue[0].seq_);
    if SideHead(s, d, SeqInvalid) {
      assert SideDrop(s, s.(sides := s.sides[d := s.sides[d].(queue := s.sides[d].queue[1..])]), d);
    }
  }

  /** And it takes the payload there exactly when it is this parent's, and goes on exactly when it does neither. */
  lemma SearchDecides(s: State, d: nat)
    requires Inv(s) && Outstanding(s) && Visits(s, d)
    ensures (exists s' :: LpTakeExternal(s, s', d)) <==>
            s.sides[d].owner == s.lp[s.head].tid && |s.sides[d].queue| > 0
            && s.sides[d].queue[0] == Item(s.threads[s.lp[s.head].tid].rseq, s.lp[s.head].kind.rec)
    ensures (exists s' :: SeekOn(s, s', d)) <==> !(exists s' :: LpTakeExternal(s, s', d)) && !(exists s' :: SideDrop(s, s', d))
  {
    HeadIsNext(s);
    if s.sides[d].owner == s.lp[s.head].tid && |s.sides[d].queue| > 0 {
      SideHeadsLater(s, d);
      StaleVerdictExact(s.lp[s.head].seq_, s.sides[d].queue[0].seq_);
    }
    hide Inv, Outstanding, VerifyOversize, HeadValid;
    SearchSteps(s, d);
  }

  lemma SearchSteps(s: State, d: nat)
    requires Visits(s, d)
    ensures (exists s' :: LpTakeExternal(s, s', d)) <==> SideHead(s, d, Valid)
    ensures (exists s' :: SideDrop(s, s', d)) <==> SideHead(s, d, SeqInvalid)
    ensures (exists s' :: SeekOn(s, s', d)) <==> !SideHead(s, d, Valid) && !SideHead(s, d, SeqInvalid)
  {
    hide VerifyOversize;
    var t := s.lp[s.head].tid;
    if SideHead(s, d, Valid) {
      assert LpTakeExternal(s, s.(reader := SideOut(d), target := Some(d),
        threads := s.threads[t := Deliver(s.threads[t], s.sides[d].queue[0].rec)]), d);
    } else if SideHead(s, d, SeqInvalid) {
      assert SideDrop(s, s.(sides := s.sides[d := s.sides[d].(queue := s.sides[d].queue[1..])]), d);
    } else {
      assert SeekOn(s, s.(reader := Seek(s.reader.at + 1)), d);
    }
  }

  /** And what is thrown away was live: its parent is still to be delivered, and no side buffer holds it any more. */
  lemma DropLosesPayload(s: State, s': State, d: nat)
    requires Inv(s) && SideDrop(s, s', d)
    ensures var x := s.sides[d].queue[0]; var t := s.sides[d].owner;
      && t in s.threads && s.threads[t].rseq <= x.seq_ < |s.threads[t].units|
      && s.threads[t].units[x.seq_].LpUnit? && s.threads[t].units[x.seq_].slot < |s.lp|
      && s.lp[s.threads[t].units[x.seq_].slot].kind == External(x.rec, Some(d))
      && (forall e, i :: e in s'.sides && s'.sides[e].owner == t && 0 <= i < |s'.sides[e].queue| ==> s'.sides[e].queue[i].seq_ != x.seq_)
  {
    hide HistoryOk, EntryOk, BlockOk, SlotsIncrease, ReaderOk, UnitOk, HeadValid;
    var x, t := s.sides[d].queue[0], s.sides[d].owner;
    assert SideOk(s, d) && ItemOk(s, d, x);
    forall e, i | e in s'.sides && s'.sides[e].owner == t && 0 <= i < |s'.sides[e].queue| ensures s'.sides[e].queue[i].seq_ != x.seq_ {
      assert SideOk(s, e);
      var k := if e == d then i + 1 else i;
      assert s'.sides[e].queue[i] == s.sides[e].queue[k];
      assert ItemOk(s, e, s.sides[e].queue[k]);
    }
  }

  /** The invariant does not outlive a drop. */
  lemma DropBreaks(s: State, s': State, d: nat)
    requires Inv(s) && SideDrop(s, s', d)
    ensures !Inv(s')
  {
    hide HistoryOk, EntryOk, BlockOk, SlotsIncrease, ReaderOk, SideOk, ThreadOk, HeadValid, OrderOk;
    DropLosesPayload(s, s', d);
  }

  /** All payloads lie in the wrap their thread is being read in. */
  ghost predicate SameEpoch(s: State) {
    forall d, i :: d in s.sides && s.sides[d].owner in s.threads && 0 <= i < |s.sides[d].queue| ==>
      s.sides[d].queue[i].seq_ / TWO32 == s.threads[s.sides[d].owner].rseq / TWO32
  }

  /** Then nothing is thrown away. */
  lemma SideDropNever(s: State, s': State, d: nat)
    requires Inv(s) && Outstanding(s) && SameEpoch(s)
    ensures !SideDrop(s, s', d)
  {
    hide Per;
    if SideDrop(s, s', d) { SideDropExact(s, d); }
  }

  lemma LpMissingNever(s: State, s': State)
    requires Inv(s) && Outstanding(s)
    ensures !LpMissing(s, s')
  {
    hide Per, UnitOk;
  }

  // ---------------------------------------------------------------- blocks

  lemma ArriveKeeps(s: State, s': State, b: nat)
    requires Inv(s) && Outstanding(s) && Arrive(s, s', b)
    ensures Inv(s')
  {
    hide Per;
    BlockIsNext(s, b);
    ReaderMoved(s, s');
  }

  lemma BlockIsNext(s: State, b: nat)
    requires Inv(s) && Outstanding(s) && b in s.blocks && s.blocks[b].Live? && s.blocks[b].owner in s.threads
    requires Verify(s.blocks[b].seq_, s.threads[s.blocks[b].owner].rseq) == Valid
    ensures BlockNext(s, b) && s.blocks[b].read <= |s.blocks[b].data|
  {
    hide HistoryOk, SideOk, EntryOk, SlotsIncrease, ReaderOk;
    var w := s.threads[s.blocks[b].owner];
    assert Per(s, s.blocks[b].owner);
    assert BlockOk(s, b);
    U32Exact(w.rseq, s.blocks[b].seq_);
    assert UnitOk(s, s.blocks[b].owner, s.blocks[b].seq_);
  }

  lemma FetchKeeps(s: State, s': State)
    requires Inv(s) && Fetch(s, s')
    ensures Inv(s')
  {
    hide Per;
    ReaderMoved(s, s');
  }

  /** The unit of the block the reader is in. */
  lemma BlockUnit(s: State, b: nat)
    requires Inv(s) && BlockNext(s, b)
    ensures var w := s.threads[s.blocks[b].owner];
      && w.rseq < |w.units| && w.units[w.rseq] == HpUnit(b, s.blocks[b].data) && UnitOk(s, s.blocks[b].owner, w.rseq)
  {
    hide ThreadOk, HistoryOk, SideOk, EntryOk, SlotsIncrease, ReaderOk;
    assert Per(s, s.blocks[b].owner);
    assert BlockOk(s, b);
    assert UnitOk(s, s.blocks[b].owner, s.blocks[b].seq_);
  }

  lemma HandParts(s: State, s': State)
    requires s.reader.At? && BlockNext(s, s.reader.block) && Hand(s, s')
    requires var t := s.blocks[s.reader.block].owner; var w := s.threads[t];
      HistoryOk(s, t) && w.rseq < |w.units| && w.units[w.rseq] == HpUnit(s.reader.block, s.blocks[s.reader.block].data)
    ensures var t := s.blocks[s.reader.block].owner;
      && HistoryOk(s', t)
      && forall i: nat {:trigger UnitOk(s', t, i)} :: i < |s.threads[t].units| && UnitOk(s, t, i) ==> UnitOk(s', t, i)
    ensures forall e {:trigger SideOk(s', e)} :: e in s.sides && SideOk(s, e) ==> SideOk(s', e)
  {
    hide Flat;
    var b := s.blocks[s.reader.block];
    assert b.data[..b.read + 1] == b.data[..b.read] + [b.data[b.read]];
    forall e {:trigger SideOk(s', e)} | e in s.sides && SideOk(s, e) ensures SideOk(s', e) {
      forall i | 0 <= i < |s.sides[e].queue| ensures ItemOk(s', e, s.sides[e].queue[i]) { assert ItemOk(s, e, s.sides[e].queue[i]); }
    }
  }

  lemma HandSelf(s: State, s': State)
    requires Owned(s) && s.reader.At? && BlockNext(s, s.reader.block) && Hand(s, s')
    requires var t := s.blocks[s.reader.block].owner; var w := s.threads[t];
      && Per(s, t) && w.rseq < |w.units| && w.units[w.rseq] == HpUnit(s.reader.block, s.blocks[s.reader.block].data)
    ensures Per(s', s.blocks[s.reader.block].owner)
  {
    hide HistoryOk, SideOk, UnitOk;
    var t := s.blocks[s.reader.block].owner;
    HandParts(s, s');
  }

  lemma HandKeeps(s: State, s': State)
    requires Inv(s) && Hand(s, s')
    ensures Inv(s')
  {
    hide OrderOk, ThreadOk, HistoryOk, UnitOk, SideOk, EntryOk, BlockOk, SlotsIncrease, Per, Partial;
    OrderKept(s, s');
    var t := s.blocks[s.reader.block].owner;
    BlockUnit(s, s.reader.block);
    forall u | u in s.threads && u != t ensures Per(s', u) { FramedPer(s, s', u); }
    HandSelf(s, s');
  }

  /** The block the reader leaves for recycling has been read to its end and its writer has let go of it. */
  ghost predicate Spent(s: State, b: nat) {
    && BlockNext(s, b) && s.blocks[b].removed && s.blocks[b].read == |s.blocks[b].data|
  }

  lemma DepartHistory(s: State, s': State, b: nat)
    requires Spent(s, b) && s.reader == Leaving(b, true) && Depart(s, s') && Per(s, s.blocks[b].owner)
    requires var w := s.threads[s.blocks[b].owner]; w.rseq < |w.units| && w.units[w.rseq] == HpUnit(b, s.blocks[b].data)
    ensures HistoryOk(s', s.blocks[b].owner)
  {
    hide SideOk, EntryOk, SlotsIncrease, ThreadOk;
    var t := s.blocks[b].owner;
    var w := s.threads[t];
    FlatStep(w.units, w.rseq);
    assert Partial(s', t) == [] by {
      if w.rseq + 1 < |w.units| { assert UnitOk(s, t, w.rseq + 1); }
    }
  }

  lemma DepartUnits(s: State, s': State, b: nat)
    requires Spent(s, b) && s.reader == Leaving(b, true) && Depart(s, s')
    ensures var t := s.blocks[b].owner; var w := s.threads[t];
      forall i: nat {:trigger UnitOk(s', t, i)} :: w.rseq < i < |w.units| && UnitOk(s, t, i) ==> UnitOk(s', t, i)
  {
  }

  lemma DepartSide(s: State, s': State, b: nat, e: nat)
    requires Spent(s, b) && s.reader == Leaving(b, true) && Depart(s, s')
    requires var w := s.threads[s.blocks[b].owner]; w.rseq < |w.units| && w.units[w.rseq].HpUnit?
    requires e in s.sides && s.sides[e].owner == s.blocks[b].owner && SideOk(s, e)
    ensures e in s'.sides && SideOk(s', e)
  {
    var q := s.sides[e].queue;
    forall i | 0 <= i < |q| ensures ItemOk(s', e, q[i]) {
      assert ItemOk(s, e, q[i]);
    }
  }

  lemma DepartSelf(s: State, s': State, b: nat)
    requires Owned(s) && Spent(s, b) && s.reader == Leaving(b, true) && Depart(s, s') && Per(s, s.blocks[b].owner)
    requires var w := s.threads[s.blocks[b].owner];
      && w.rseq < |w.units| && w.units[w.rseq] == HpUnit(b, s.blocks[b].data) && UnitOk(s, s.blocks[b].owner, w.rseq)
      && w.cur != Some(b) && (s.blocks[b].finished ==> w.pc == Done && w.rseq == |w.units| - 1)
    ensures Per(s', s.blocks[b].owner)
  {
    hide HistoryOk, SideOk, UnitOk;
    var t := s.blocks[b].owner;
    var w := s.threads[t];
    DepartHistory(s, s', b);
    DepartUnits(s, s', b);
    forall e {:trigger s'.sides[e]} | e in s'.sides && s'.sides[e].owner == t ensures SideOk(s', e) {
      DepartSide(s, s', b, e);
    }
  }

  lemma DepartKeeps(s: State, s': State)
    requires Inv(s) && Depart(s, s')
    ensures Inv(s')
  {
    hide Per;
    if s.reader.sampled {
      RecycleKeeps(s, s');
    } else {
      ReaderMoved(s, s');
    }
  }

  lemma RecycleKeeps(s: State, s': State)
    requires Inv(s) && Depart(s, s') && s.reader.sampled
    ensures Inv(s')
  {
    hide OrderOk, ThreadOk, HistoryOk, SideOk, EntryOk, BlockOk, SlotsIncrease, Per, Partial;
    OrderKept(s, s');
    var b := s.reader.block;
    var t := s.blocks[b].owner;
    BlockUnit(s, b);
    forall u | u in s.threads && u != t ensures Per(s', u) { FramedPer(s, s', u); }
    DepartSelf(s, s', b);
  }

  // ---------------------------------------------------------------- side buffers

  lemma SideRecycleKeeps(s: State, s': State, k: nat)
    requires Inv(s) && SideRecycle(s, s', k)
    ensures Inv(s')
  {
    assert OrderOk(s') by {
      hide Per, ReaderOk;
      ErasedElements(s.order, k);
    }
    hide OrderOk, ThreadOk, HistoryOk, UnitOk, SideOk, EntryOk, BlockOk, SlotsIncrease, Per, Partial;
    forall u | u in s.threads && u != s.sides[s.order[k]].owner ensures Per(s', u) { FramedPer(s, s', u); }
    SideRecycleSelf(s, s', k);
  }

  lemma SideRecycleParts(s: State, s': State, k: nat, t: nat)
    requires SideRecycle(s, s', k) && t in s.threads && HistoryOk(s, t)
    ensures HistoryOk(s', t)
    ensures forall i: nat {:trigger UnitOk(s', t, i)} :: i < |s.threads[t].units| && UnitOk(s, t, i) ==> UnitOk(s', t, i)
    ensures forall e {:trigger SideOk(s', e)} :: e in s'.sides && SideOk(s, e) ==> SideOk(s', e)
  {
    hide Flat;
    forall e {:trigger SideOk(s', e)} | e in s'.sides && SideOk(s, e) ensures SideOk(s', e) {
      forall i | 0 <= i < |s.sides[e].queue| ensures ItemOk(s', e, s.sides[e].queue[i]) { assert ItemOk(s, e, s.sides[e].queue[i]); }
    }
  }

  lemma SideRecycleSelf(s: State, s': State, k: nat)
    requires Owned(s) && SideRecycle(s, s', k) && s.sides[s.order[k]].owner in s.threads && Per(s, s.sides[s.order[k]].owner)
    ensures Per(s', s.sides[s.order[k]].owner)
  {
    hide SideOk, HistoryOk, UnitOk;
    var t := s.sides[s.order[k]].owner;
    SideRecycleParts(s, s', k, t);
  }
}
