/** The invariant of the log buffer protocol, and that every step keeps it. */
module LogBufferInv {
  import opened Words
  import opened LogBufferModel
  import opened LogBufferOrder

  /** All records of a run of units, in order. */
  function Flat(us: seq<Unit>): seq<Record> {
    if |us| == 0 then [] else Flat(us[..|us| - 1]) + us[|us| - 1].recs
  }

  lemma FlatStep(us: seq<Unit>, i: nat)
    requires i < |us|
    ensures Flat(us[..i + 1]) == Flat(us[..i]) + us[i].recs
  {
    assert us[..i + 1][..i] == us[..i];
  }

  lemma {:induction false} FlatPrefix(us: seq<Unit>, i: nat)
    requires i <= |us|
    ensures Flat(us[..i]) <= Flat(us)
    decreases |us|
  {
    if i == |us| {
      assert us[..i] == us;
    } else {
      var vs := us[..|us| - 1];
      FlatPrefix(vs, i);
      assert vs[..i] == us[..i];
    }
  }

  /** Records of the unit being read that have already been handed out. */
  ghost function Partial(s: State, t: nat): seq<Record>
    requires t in s.threads
  {
    var w := s.threads[t];
    if w.rseq >= |w.units| then []
    else match w.units[w.rseq]
      case LpUnit(slot, recs) => if (s.reader == LpOut || s.reader.SideOut?) && slot == s.head then recs else []
      case HpUnit(b, recs) => if b in s.blocks && s.blocks[b].Live? && s.blocks[b].read <= |recs|
                              then recs[..s.blocks[b].read] else []
  }

  ghost predicate ThreadOk(s: State, t: nat) {
    && t in s.threads
    && var w := s.threads[t];
    && w.wseq == |w.units| && w.rseq <= w.wseq
    && (w.freed ==> w.rseq == w.wseq && w.pc == Done)
    && (w.pc == Done ==> w.cur == None)
    && (w.cur.Some? ==> w.pc == Idle || w.pc.LpHeld?)
    && (w.cur.Some? ==> CurAt(w) >= 0 && w.rseq <= CurAt(w)
                        && w.units[CurAt(w)].HpUnit? && w.units[CurAt(w)].block == w.cur.value)
    && (w.pc.LpHeld? || w.pc.OsHeld? || w.pc.OsStored? ==> HoldsSlot(s, t, w.pc.slot))
    && (w.pc.OsHeld? ==> w.pc.side in s.sides && s.sides[w.pc.side].held && s.sides[w.pc.side].owner == t)
    && (w.pc.LpHeld? && s.lp[w.pc.slot].kind.External? ==> s.lp[w.pc.slot].kind.at == None)
    && (w.pc.LpHeld? && !s.lp[w.pc.slot].kind.Plain? ==> w.cur == None)
    && (w.pc.OsHeld? ==> s.lp[w.pc.slot].kind.External? && s.lp[w.pc.slot].kind.at == None)
    && (w.pc.OsStored? ==> s.lp[w.pc.slot].kind.External? && s.lp[w.pc.slot].kind.at.Some?)
  }

  /** What the thread has committed and what of it the reader has handed out. */
  ghost predicate HistoryOk(s: State, t: nat) {
    && t in s.threads
    && var w := s.threads[t];
    && w.rseq <= |w.units|
    && w.committed == Flat(w.units)
    && w.delivered == Flat(w.units[..w.rseq]) + Partial(s, t)
  }

  /** Index of the unit of the block a thread still holds. */
  function CurAt(w: Thread): int {
    if w.pc.LpHeld? then |w.units| - 2 else |w.units| - 1
  }

  /** The thread's last unit is the uncommitted LP entry at `slot`. */
  ghost predicate HoldsSlot(s: State, t: nat, slot: nat) {
    && t in s.threads
    && var w := s.threads[t];
    && s.head <= slot < |s.lp| && |w.units| > 0 && w.rseq < |w.units|
    && w.units[|w.units| - 1] == LpUnit(slot, [])
    && s.lp[slot].tid == t && !s.lp[slot].committed && !s.lp[slot].kind.Void?
  }

  /** Where an unread unit lives, and that it holds exactly the records committed under it. */
  ghost predicate UnitOk(s: State, t: nat, i: nat) {
    && t in s.threads && i < |s.threads[t].units|
    && var w := s.threads[t];
    match w.units[i]
    case LpUnit(slot, recs) =>
      && s.head <= slot < |s.lp|
      && s.lp[slot].tid == t && s.lp[slot].seq_ == i && !s.lp[slot].kind.Void?
      && recs == (if s.lp[slot].committed then Payload(s.lp[slot].kind) else [])
      && (!s.lp[slot].committed ==> i == |w.units| - 1 && !w.pc.Idle? && !w.pc.Done? && w.pc.slot == slot)
      && (s.lp[slot].committed && s.lp[slot].kind.Finish? ==> w.pc == Done && i == |w.units| - 1)
      && (s.lp[slot].kind.External? && (s.lp[slot].committed || w.pc.OsStored?) ==> s.lp[slot].kind.at.Some?)
      && (s.lp[slot].kind.External? && s.lp[slot].kind.at.Some? ==>
            var d := s.lp[slot].kind.at.value;
            d in s.sides && s.sides[d].owner == t && Item(i, s.lp[slot].kind.rec) in s.sides[d].queue)
    case HpUnit(b, recs) =>
      && b in s.blocks
      && s.blocks[b].Live? && s.blocks[b].owner == t && s.blocks[b].seq_ == i
      && s.blocks[b].data == recs && s.blocks[b].read <= |recs|
      && (s.blocks[b].read > 0 ==> i == w.rseq)
      && (s.blocks[b].removed <==> w.cur != Some(b))
      && (s.blocks[b].finished ==> w.pc == Done && i == |w.units| - 1)
  }

  ghost predicate SlotsIncrease(w: Thread) {
    forall i, j :: w.rseq <= i < j < |w.units| && w.units[i].LpUnit? && w.units[j].LpUnit? ==>
      w.units[i].slot < w.units[j].slot
  }

  ghost predicate EntryOk(s: State, k: nat) {
    && k < |s.lp|
    && var e := s.lp[k];
    && (e.kind.Void? ==> e.committed)
    && (!e.kind.Void? ==>
          && e.tid in s.threads
          && s.threads[e.tid].rseq <= e.seq_ < |s.threads[e.tid].units|
          && s.threads[e.tid].units[e.seq_].LpUnit? && s.threads[e.tid].units[e.seq_].slot == k)
  }

  ghost predicate BlockOk(s: State, b: nat) {
    && b in s.blocks
    && (s.blocks[b].Live? ==>
      && s.blocks[b].owner in s.threads
      && var w := s.threads[s.blocks[b].owner];
      && w.rseq <= s.blocks[b].seq_ < |w.units|
      && w.units[s.blocks[b].seq_].HpUnit? && w.units[s.blocks[b].seq_].block == b)
  }

  /** A side buffer holds, in number order, payloads of unread parents that point back at it. */
  ghost predicate SideOk(s: State, d: nat) {
    && d in s.sides
    && var q := s.sides[d].queue;
    && s.sides[d].owner in s.threads
    && (s.sides[d].held ==> s.threads[s.sides[d].owner].pc.OsHeld? && s.threads[s.sides[d].owner].pc.side == d)
    && (forall i, j :: 0 <= i < j < |q| ==> q[i].seq_ < q[j].seq_)
    && (forall i :: 0 <= i < |q| ==> ItemOk(s, d, q[i]))
  }

  ghost predicate ItemOk(s: State, d: nat, x: Item) {
    && d in s.sides && s.sides[d].owner in s.threads
    && var w := s.threads[s.sides[d].owner];
    && w.rseq <= x.seq_ < |w.units| && w.units[x.seq_].LpUnit?
    && w.units[x.seq_].slot < |s.lp| && s.lp[w.units[x.seq_].slot].tid == s.sides[d].owner
    && s.lp[w.units[x.seq_].slot].kind == External(x.rec, Some(d))
  }

  ghost predicate ReaderOk(s: State) {
    match s.reader
    case Scan => true
    case Seek(at) =>
      && s.head < |s.lp| && s.lp[s.head].committed && s.lp[s.head].kind.External? && s.lp[s.head].kind.at.Some? && HeadNext(s)
      && exists k :: at <= k < |s.order| && s.order[k] == s.lp[s.head].kind.at.value
    case LpOut => s.head < |s.lp| && s.lp[s.head].committed && s.lp[s.head].kind.Plain? && HeadNext(s)
    case SideOut(d) =>
      && s.head < |s.lp| && s.lp[s.head].committed && HeadNext(s)
      && d in s.sides && |s.sides[d].queue| > 0 && s.sides[d].owner == s.lp[s.head].tid
      && s.sides[d].queue[0].seq_ == s.lp[s.head].seq_
      && s.lp[s.head].kind == External(s.sides[d].queue[0].rec, Some(d)) && s.target == Some(d)
    case At(b, sampled, upto) =>
      && BlockNext(s, b) && s.blocks[b].read <= upto <= |s.blocks[b].data| && (sampled ==> s.blocks[b].removed)
    case Leaving(b, sampled) =>
      && BlockNext(s, b)
      && (sampled ==> s.blocks[b].removed && s.blocks[b].read == |s.blocks[b].data|)
  }

  ghost predicate HeadNext(s: State) {
    && s.head < |s.lp|
    && s.lp[s.head].tid in s.threads && s.lp[s.head].seq_ == s.threads[s.lp[s.head].tid].rseq
  }

  ghost predicate BlockNext(s: State, b: nat) {
    && b in s.blocks && s.blocks[b].Live? && s.blocks[b].owner in s.threads
    && s.blocks[b].seq_ == s.threads[s.blocks[b].owner].rseq
  }

  /** Everything the invariant says about one thread and what belongs to it. */
  ghost predicate Per(s: State, t: nat) {
    && t in s.threads
    && ThreadOk(s, t) && HistoryOk(s, t) && SlotsIncrease(s.threads[t])
    && (forall i {:trigger s.threads[t].units[i]} {:trigger UnitOk(s, t, i)} ::
          s.threads[t].rseq <= i < |s.threads[t].units| ==> UnitOk(s, t, i))
    && (forall k {:trigger s.lp[k]} :: s.head <= k < |s.lp| && s.lp[k].tid == t ==> EntryOk(s, k))
    && (forall b {:trigger s.blocks[b]} ::
          b in s.blocks && s.blocks[b].Live? && s.blocks[b].owner == t ==> BlockOk(s, b))
    && (forall d {:trigger s.sides[d]} :: d in s.sides && s.sides[d].owner == t ==> SideOk(s, d))
  }

  /** Entries, blocks and side buffers belong to known threads. */
  ghost predicate Owned(s: State) {
    && s.head <= |s.lp|
    && (forall k {:trigger s.lp[k]} :: s.head <= k < |s.lp| ==> s.lp[k].tid in s.threads)
    && (forall b {:trigger s.blocks[b]} :: b in s.blocks && s.blocks[b].Live? ==> s.blocks[b].owner in s.threads)
    && (forall d {:trigger s.sides[d]} :: d in s.sides ==> s.sides[d].owner in s.threads)
  }

  /** The array holds every side buffer once. */
  ghost predicate OrderOk(s: State) {
    && Distinct(s.order)
    && (forall d :: d in s.sides <==> d in s.order)
  }

  ghost predicate Inv(s: State) {
    && Owned(s) && OrderOk(s)
    && (forall t :: t in s.threads ==> Per(s, t))
    && ReaderOk(s)
  }

  lemma OrderKept(s: State, s': State)
    requires OrderOk(s) && s'.order == s.order && s'.sides.Keys == s.sides.Keys
    ensures OrderOk(s')
  {
    assert forall d :: d in s'.sides <==> d in s'.sides.Keys;
    assert forall d :: d in s.sides <==> d in s.sides.Keys;
  }

  /** Nothing that belongs to thread `u` differs between the two states. */
  ghost predicate Framed(s: State, s': State, u: nat) {
    && u in s.threads && u in s'.threads && s'.threads[u] == s.threads[u]
    && |s.lp| <= |s'.lp| && s.head <= s'.head <= |s.lp|
    && (forall k {:trigger s.lp[k]} {:trigger s'.lp[k]} ::
          0 <= k < |s'.lp| ==> if k < |s.lp| then s'.lp[k].tid == s.lp[k].tid && (s.lp[k].tid == u ==> s'.lp[k] == s.lp[k])
                               else s'.lp[k].tid != u)
    && (forall k {:trigger s.lp[k]} :: s.head <= k < s'.head ==> s.lp[k].tid != u || s.lp[k].kind.Void?)
    && (forall b {:trigger s.blocks[b]} :: b in s.blocks && s.blocks[b].Live? && s.blocks[b].owner == u ==>
          b in s'.blocks && s'.blocks[b] == s.blocks[b])
    && (forall b {:trigger s'.blocks[b]} :: b in s'.blocks && s'.blocks[b].Live? && s'.blocks[b].owner == u ==>
          b in s.blocks && s.blocks[b] == s'.blocks[b])
    && (forall d {:trigger s.sides[d]} :: d in s.sides && s.sides[d].owner == u ==> d in s'.sides && s'.sides[d] == s.sides[d])
    && (forall d {:trigger s'.sides[d]} :: d in s'.sides && s'.sides[d].owner == u ==> d in s.sides && s.sides[d] == s'.sides[d])
    && (Out(s, u) <==> Out(s', u)) && (Out(s, u) ==> s'.head == s.head)
  }

  /** The LP head is out and belongs to `u`. */
  ghost predicate Out(s: State, u: nat) {
    (s.reader == LpOut || s.reader.SideOut?) && s.head < |s.lp| && s.lp[s.head].tid == u
  }

  lemma FramedParts(s: State, s': State, u: nat)
    requires Framed(s, s', u)
    ensures ThreadOk(s, u) ==> ThreadOk(s', u)
    ensures forall i: nat {:trigger UnitOk(s', u, i)} :: i < |s.threads[u].units| && UnitOk(s, u, i) ==> UnitOk(s', u, i)
    ensures forall k: nat {:trigger EntryOk(s', k)} :: k < |s.lp| && s.lp[k].tid == u && EntryOk(s, k) ==> EntryOk(s', k)
    ensures forall b {:trigger BlockOk(s', b)} :: b in s.blocks && s.blocks[b].Live? && s.blocks[b].owner == u && BlockOk(s, b) ==> BlockOk(s', b)
    ensures forall d {:trigger SideOk(s', d)} :: d in s.sides && s.sides[d].owner == u && SideOk(s, d) ==> SideOk(s', d)
  {
    forall d {:trigger SideOk(s', d)} | d in s.sides && s.sides[d].owner == u && SideOk(s, d) ensures SideOk(s', d) {
      forall i | 0 <= i < |s.sides[d].queue| ensures ItemOk(s', d, s.sides[d].queue[i]) { assert ItemOk(s, d, s.sides[d].queue[i]); }
    }
  }

  lemma FramedPartial(s: State, s': State, u: nat)
    requires Framed(s, s', u) && (s.threads[u].rseq < |s.threads[u].units| ==> UnitOk(s, u, s.threads[u].rseq))
    requires ReaderOk(s) && ReaderOk(s')
    ensures Partial(s', u) == Partial(s, u)
  {
  }

  lemma FramedPer(s: State, s': State, u: nat)
    requires Framed(s, s', u) && Per(s, u) && ReaderOk(s') && ReaderOk(s)
    ensures Per(s', u)
  {
    hide UnitOk, ThreadOk, ReaderOk, SideOk, EntryOk, BlockOk, Partial, Flat, SlotsIncrease;
    FramedParts(s, s', u);
    FramedPartial(s, s', u);
    forall k: nat {:trigger s'.lp[k]} | s'.head <= k < |s'.lp| && s'.lp[k].tid == u ensures EntryOk(s', k) {
      assert s'.lp[k] == s.lp[k];
    }
  }
}
