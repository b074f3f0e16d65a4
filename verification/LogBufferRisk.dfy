/**
 With the writers at rest, exactly when reading can throw a payload away. The condition is about the LP ring, the array of
 side buffers and the blocks not yet recycled, as they are before the first step.
 */
module LogBufferRisk {
  import opened Words
  import opened LogBufferModel
  import opened LogBufferOrder
  import opened LogBufferInv
  import opened LogBufferReader
  import opened LogBufferTheorems
  import opened LogBufferReading

  /** Slot `k` is a parent whose payload went to side buffer `d`. */
  ghost predicate InBuffer(lp: seq<LpEntry>, k: nat, d: nat) {
    k < |lp| && lp[k].kind.External? && lp[k].kind.at == Some(d)
  }

  /**
   When the payload of slot `g` is looked for, in buffer `e`, the payload of slot `h` is in front of buffer `d` of the same
   thread, and the two numbers lie in different wraps.
   */
  ghost predicate Clash(lp: seq<LpEntry>, g: nat, h: nat, e: nat, d: nat) {
    && g < h && InBuffer(lp, g, e) && InBuffer(lp, h, d) && d != e && lp[g].tid == lp[h].tid
    && lp[g].seq_ / TWO32 != lp[h].seq_ / TWO32
    && forall k :: g < k < h ==> !InBuffer(lp, k, d)
  }

  /** When slot `k` comes to the head of the LP ring it will have to wait for a block, and side buffers may be recycled. */
  ghost predicate Halts(s: State, k: nat) {
    && s.head <= k < |s.lp| && !s.lp[k].kind.Void?
    && exists b :: b in s.blocks && s.blocks[b].Live? && s.blocks[b].owner == s.lp[k].tid && s.blocks[b].seq_ + 1 == s.lp[k].seq_
  }

  function After(e: LpEntry, target: Option<nat>): Option<nat> {
    if e.kind.External? && e.kind.at.Some? then e.kind.at else target
  }

  /** The buffer the last payload will have come from when slot `k` is at the head. */
  ghost function TargetAt(lp: seq<LpEntry>, head: nat, target: Option<nat>, k: nat): Option<nat>
    decreases k
  {
    if k <= head || k > |lp| then target else After(lp[k - 1], TargetAt(lp, head, target, k - 1))
  }

  /** The buffers that may be recycled when slot `k` is at the head. */
  ghost function Idle(s: State, k: nat): iset<nat> {
    iset x: nat | TargetAt(s.lp, s.head, s.target, k) != Some(x) && forall j :: k <= j ==> !InBuffer(s.lp, j, x)
  }

  /** Halts before slot `g`, in the order in which they come. */
  ghost predicate HaltList(s: State, ks: seq<nat>, g: nat) {
    && (forall i :: 0 <= i < |ks| ==> ks[i] <= g && Halts(s, ks[i]))
    && (forall i, j :: 0 <= i < j < |ks| ==> ks[i] <= ks[j])
  }

  /** The array after a pass of recycling at each of these halts. */
  ghost function Turned(s: State, o: seq<nat>, ks: seq<nat>): seq<nat>
    decreases |ks|
  {
    if ks == [] then o else Turned(s, Swept(o, |o|, Idle(s, ks[0])), ks[1..])
  }

  /** By the time slot `g` is at the head, `d` may stand in front of `e`. */
  ghost predicate Comes(s: State, g: nat, d: nat, e: nat) {
    exists ks :: HaltList(s, ks, g) && Before(Turned(s, s.order, ks), d, e)
  }

  ghost predicate AtRisk(s: State) {
    exists g, h, e, d :: s.head <= g && Clash(s.lp, g, h, e, d) && Comes(s, g, d, e)
  }

  // ---------------------------------------------------------------- parents and payloads

  lemma ParentStored(s: State, k: nat, d: nat)
    requires s.head <= k && InBuffer(s.lp, k, d) && Inv(s)
    ensures s.lp[k].tid in s.threads && d in s.sides && s.sides[d].owner == s.lp[k].tid
    ensures Item(s.lp[k].seq_, s.lp[k].kind.rec) in s.sides[d].queue
  {
    hide HistoryOk, SideOk, BlockOk, SlotsIncrease, ThreadOk, ReaderOk;
    assert Per(s, s.lp[k].tid);
    assert EntryOk(s, k);
    assert UnitOk(s, s.lp[k].tid, s.lp[k].seq_);
  }

  /** The slot of a payload's parent. */
  lemma PayloadSlot(s: State, d: nat, i: nat) returns (k: nat)
    requires d in s.sides && i < |s.sides[d].queue| && Inv(s)
    ensures s.head <= k && InBuffer(s.lp, k, d) && s.lp[k].tid == s.sides[d].owner && s.lp[k].seq_ == s.sides[d].queue[i].seq_
  {
    hide HistoryOk, EntryOk, BlockOk, SlotsIncrease, ThreadOk, ReaderOk;
    var x, t := s.sides[d].queue[i], s.sides[d].owner;
    assert Per(s, t);
    assert SideOk(s, d) && ItemOk(s, d, x);
    assert UnitOk(s, t, x.seq_);
    k := s.threads[t].units[x.seq_].slot;
  }

  /** Numbers of a thread grow along the LP ring. */
  lemma SlotsFollow(s: State, j: nat, k: nat)
    requires s.head <= j < |s.lp| && s.head <= k < |s.lp| && s.lp[j].tid == s.lp[k].tid && !s.lp[j].kind.Void? && !s.lp[k].kind.Void?
    requires Inv(s)
    ensures j < k <==> s.lp[j].seq_ < s.lp[k].seq_
  {
    hide HistoryOk, SideOk, BlockOk, ThreadOk, ReaderOk;
    assert Per(s, s.lp[j].tid);
    assert EntryOk(s, j) && EntryOk(s, k);
    assert UnitOk(s, s.lp[j].tid, s.lp[j].seq_) && UnitOk(s, s.lp[k].tid, s.lp[k].seq_);
  }

  /** A head about to be thrown away is a clash with the head of the LP ring. */
  lemma DropIsRisk(s: State, d: nat)
    requires Visits(s, d) && SideHead(s, d, SeqInvalid) && AtRest(s)
    ensures AtRisk(s)
  {
    hide Per, Comes;
    var g, e := s.head, s.lp[s.head].kind.at.value;
    var h := PayloadSlot(s, d, 0);
    SideHeadsLater(s, d);
    StaleVerdictExact(s.lp[g].seq_, s.sides[d].queue[0].seq_);
    SlotsFollow(s, g, h);
    forall k | g < k < h ensures !InBuffer(s.lp, k, d) {
      if InBuffer(s.lp, k, d) { FirstIsLeast(s, d, k, h); }
    }
    PayloadInFront(s);
    assert d != e;
    assert Clash(s.lp, g, h, e, d);
    assert Comes(s, g, d, e) by { StandsBefore(s, d, e); }
  }

  lemma FirstIsLeast(s: State, d: nat, k: nat, h: nat)
    requires s.head <= k && InBuffer(s.lp, k, d) && s.head <= h && InBuffer(s.lp, h, d) && Inv(s)
    requires d in s.sides && |s.sides[d].queue| > 0 && s.sides[d].queue[0].seq_ == s.lp[h].seq_
    ensures h <= k
  {
    hide HistoryOk, EntryOk, BlockOk, SlotsIncrease, ThreadOk, ReaderOk, UnitOk;
    ParentStored(s, k, d);
    ParentStored(s, h, d);
    SlotsFollow(s, k, h);
    var i :| 0 <= i < |s.sides[d].queue| && s.sides[d].queue[i] == Item(s.lp[k].seq_, s.lp[k].kind.rec);
    assert Per(s, s.sides[d].owner);
    assert SideOk(s, d);
  }

  lemma StandsBefore(s: State, d: nat, e: nat)
    requires Visits(s, d) && s.lp[s.head].kind.at == Some(e) && d != e && ReaderOk(s)
    ensures Comes(s, s.head, d, e)
  {
    var k :| s.reader.at <= k < |s.order| && s.order[k] == e;
    assert s.order[s.reader.at] == d;
    assert HaltList(s, [], s.head) && Turned(s, s.order, []) == s.order;
  }

  // ---------------------------------------------------------------- where the LP ring halts

  lemma HaltsHere(s: State)
    requires !HeadReady(s) && s.head < |s.lp| && AtRest(s)
    ensures Halts(s, s.head)
  {
    hide HistoryOk, SideOk, BlockOk, ReaderOk;
    QuiescentHead(s);
    var t, i := s.lp[s.head].tid, s.lp[s.head].seq_;
    assert Per(s, t);
    assert EntryOk(s, s.head);
    assert UnitOk(s, t, i) && UnitOk(s, t, i - 1);
    assert s.threads[t].units[i - 1].HpUnit?;
    assert s.blocks[s.threads[t].units[i - 1].block].seq_ + 1 == i;
  }

  lemma HaltedHere(s: State)
    requires Halts(s, s.head) && AtRest(s)
    ensures !HeadReady(s)
  {
    hide HistoryOk, SideOk, ReaderOk, SlotsIncrease, UnitOk;
    var b :| b in s.blocks && s.blocks[b].Live? && s.blocks[b].owner == s.lp[s.head].tid && s.blocks[b].seq_ + 1 == s.lp[s.head].seq_;
    assert Per(s, s.lp[s.head].tid);
    assert BlockOk(s, b) && EntryOk(s, s.head);
    U32Exact(s.threads[s.lp[s.head].tid].rseq, s.lp[s.head].seq_);
  }

  // ---------------------------------------------------------------- targets

  /** Consuming a slot carries the target on. */
  lemma {:induction false} TargetOn(lp: seq<LpEntry>, head: nat, target: Option<nat>, k: nat)
    requires head < k && head < |lp|
    ensures k <= |lp| ==> TargetAt(lp, head + 1, After(lp[head], target), k) == TargetAt(lp, head, target, k)
    decreases k
  {
    if k == head + 1 {
      assert TargetAt(lp, head, target, head) == target;
    } else {
      TargetOn(lp, head, target, k - 1);
    }
  }

  // ---------------------------------------------------------------- no step makes a risk

  /** The move has taken the reader on, and perhaps recycled once. */
  ghost predicate MovedOn(s: State, s': State) {
    && s'.lp == s.lp && s.head <= s'.head
    && (forall k :: Halts(s', k) ==> Halts(s, k) && Idle(s', k) == Idle(s, k))
    && (s'.order == s.order || (Halts(s, s.head) && s'.order == Swept(s.order, |s.order|, Idle(s, s.head))))
  }

  lemma {:induction false} TurnedSame(s: State, s': State, o: seq<nat>, ks: seq<nat>)
    requires forall i :: 0 <= i < |ks| ==> Idle(s', ks[i]) == Idle(s, ks[i])
    ensures Turned(s', o, ks) == Turned(s, o, ks)
    decreases |ks|
  {
    hide Idle, Swept;
    if ks != [] { TurnedSame(s, s', Swept(o, |o|, Idle(s, ks[0])), ks[1..]); }
  }

  lemma ComesBack(s: State, s': State, g: nat, d: nat, e: nat)
    requires MovedOn(s, s') && Comes(s', g, d, e) && s.head <= g
    ensures Comes(s, g, d, e)
  {
    hide Halts, Idle, Before, Swept;
    var ks :| HaltList(s', ks, g) && Before(Turned(s', s'.order, ks), d, e);
    TurnedSame(s, s', s'.order, ks);
    if s'.order == s.order {
      assert HaltList(s, ks, g);
    } else {
      var js := [s.head] + ks;
      assert js[1..] == ks && Turned(s, s.order, js) == Turned(s, s'.order, ks);
      forall i | 0 <= i < |ks| ensures s.head <= ks[i] { HaltsAhead(s', ks[i]); }
      assert HaltList(s, js, g);
    }
  }

  lemma RiskFromBefore(s: State, s': State)
    requires MovedOn(s, s') && AtRisk(s')
    ensures AtRisk(s)
  {
    hide Clash, Comes;
    var g, h, e, d :| s'.head <= g && Clash(s'.lp, g, h, e, d) && Comes(s', g, d, e);
    ComesBack(s, s', g, d, e);
  }

  lemma HaltsAhead(s: State, k: nat)
    requires Halts(s, k)
    ensures s.head <= k < |s.lp|
  {
  }

  lemma HaltsBack(s: State, s': State, k: nat)
    requires Halts(s', k) && s'.lp == s.lp && s.head <= s'.head
    requires forall b :: b in s'.blocks && s'.blocks[b].Live? ==>
               b in s.blocks && s.blocks[b].Live? && s.blocks[b].owner == s'.blocks[b].owner && s.blocks[b].seq_ == s'.blocks[b].seq_
    ensures Halts(s, k)
  {
  }

  /** The step leaves the blocks' numbers, and the slot at the head or the one after it. */
  ghost predicate SmallStep(s: State, s': State) {
    && s'.lp == s.lp && s'.order == s.order
    && (forall b :: b in s'.blocks && s'.blocks[b].Live? ==>
          b in s.blocks && s.blocks[b].Live? && s.blocks[b].owner == s'.blocks[b].owner && s.blocks[b].seq_ == s'.blocks[b].seq_)
    && ((s'.head == s.head && s'.target == s.target)
        || (s.head < |s.lp| && s'.head == s.head + 1 && s'.target == After(s.lp[s.head], s.target))
        || (s'.head == s.head && HeadReady(s) && HeadReady(s') && s'.target == After(s.lp[s.head], s.target)))
  }

  lemma SmallMoves(s: State, s': State)
    requires SmallStep(s, s') && AtRest(s')
    ensures MovedOn(s, s')
  {
    hide Inv;
    hide Swept;
    forall k | Halts(s', k) ensures Halts(s, k) && Idle(s', k) == Idle(s, k) {
      HaltsBack(s, s', k);
      HaltsAhead(s', k);
      if s'.head == s.head + 1 {
        TargetOn(s.lp, s.head, s.target, k);
      } else if s'.target != s.target {
        if k == s.head { HaltedHere(s'); }
        TargetOn(s.lp, s.head, s.target, k);
        TargetOn(s.lp, s.head, s'.target, k);
        assert After(s.lp[s.head], s'.target) == After(s.lp[s.head], s.target);
      }
    }
  }

  lemma StepIsSmall(s: State, s': State, step: Step)
    requires Reads(s, s', By(step)) && AtRest(s)
    ensures SmallStep(s, s')
  {
    hide Per, Verify, VerifyOversize, WriterMove;
    if WalkStep(step) {
      hide HeadMove, Inv;
      assert SmallStep(s, s');
    } else {
      hide WalkMove;
      if step.RLpTakeExternal? { PayloadHere(s, step.d); }
      HeadIsSmall(s, s', step);
    }
  }

  lemma HeadIsSmall(s: State, s': State, step: Step)
    requires PartOf(By(step)) == Heads && HeadMove(s, s', step) && ReaderOk(s)
    requires step.RLpTakeExternal? ==> s.head < |s.lp| && InBuffer(s.lp, s.head, step.d)
    ensures SmallStep(s, s')
  {
    hide Verify, VerifyOversize;
    if step.RLpTakeExternal? { assert HeadValid(s'); }
  }

  /** What a pass takes are the idle buffers. */
  lemma IdleExactly(s: State, n: nat)
    requires n < |s.order| && AtRest(s)
    ensures MayGo(s, n) <==> s.order[n] in Idle(s, s.head)
  {
    hide Per, ReaderOk;
    var x := s.order[n];
    if MayGo(s, n) {
      forall j: nat | s.head <= j ensures !InBuffer(s.lp, j, x) {
        if InBuffer(s.lp, j, x) { ParentStored(s, j, x); }
      }
    }
    if x in Idle(s, s.head) { IdleEmpty(s, x); }
  }

  lemma {:induction false} RecycledOrder(s: State, n: nat)
    requires n <= |s.order| && s.reader == Scan && AtRest(s)
    ensures Recycled(s, n).order == Swept(s.order, n, Idle(s, s.head))
    decreases n
  {
    hide AtRest, Erased;
    if n > 0 {
      IdleExactly(s, n - 1);
      if MayGo(s, n - 1) {
        var s1 := s.(sides := s.sides - {s.order[n - 1]}, order := Erased(s.order, n - 1));
        assert AtRest(s1) by { OneRecycled(s, s1, n - 1); }
        assert |Erased(s.order, n - 1)| == |s.order| - 1 by { ErasedLength(s.order, n - 1); }
        SameIdle(s, s1, s.head);
        RecycledOrder(s1, n - 1);
      } else {
        RecycledOrder(s, n - 1);
      }
    }
  }

  lemma OneRecycled(s: State, s1: State, k: nat)
    requires s.reader == Scan && MayGo(s, k) && s1 == s.(sides := s.sides - {s.order[k]}, order := Erased(s.order, k)) && AtRest(s)
    ensures AtRest(s1)
  {
    hide Inv, Erased;
    SideRecycleKeeps(s, s1, k);
  }

  lemma ErasedLength(o: seq<nat>, k: nat)
    requires k < |o|
    ensures |Erased(o, k)| == |o| - 1
  {
  }

  lemma SameIdle(s: State, s1: State, k: nat)
    requires s1.lp == s.lp && s1.head == s.head && s1.target == s.target
    ensures Idle(s1, k) == Idle(s, k)
  {
  }

  lemma SweepMoves(s: State, s': State)
    requires Reads(s, s', Sweep) && s.head < |s.lp| && AtRest(s)
    ensures MovedOn(s, s')
  {
    hide AtRest, HeadReady, Recycled, Swept;
    RecycledKeeps(s, |s.order|);
    RecycledOrder(s, |s.order|);
    HaltsHere(s);
    forall k | Halts(s', k) ensures Halts(s, k) && Idle(s', k) == Idle(s, k) {
      HaltsBack(s, s', k);
      SameIdle(s, s', k);
    }
  }

  /** A state at risk has something left in the LP ring. */
  lemma RiskAhead(s: State)
    requires AtRisk(s)
    ensures s.head < |s.lp|
  {
    hide Comes;
  }

  lemma ClashOrder(lp: seq<LpEntry>, g: nat, h: nat, e: nat, d: nat)
    requires Clash(lp, g, h, e, d)
    ensures g < h < |lp| && InBuffer(lp, g, e) && InBuffer(lp, h, d) && lp[g].kind.at == Some(e)
  {
  }

  lemma {:induction false} PathRisk(s: State, p: Path, s2: State)
    requires IsPath(s, p, s2) && AtRisk(s2) && AtRest(s)
    ensures AtRisk(s)
    decreases p
  {
    hide AtRest, AtRisk, Reads, SmallStep, MovedOn;
    if p.Go? {
      ReadKeeps(s, p.mid, p.move);
      PathRisk(p.mid, p.rest, s2);
      if p.move.Sweep? {
        RiskAhead(p.mid);
        assert s.head < |s.lp| by { CalmOn(s, p.mid, p.mid); Onward(s, p.mid); }
        SweepMoves(s, p.mid);
      } else {
        StepIsSmall(s, p.mid, p.move.step);
        SmallMoves(s, p.mid);
      }
      RiskFromBefore(s, p.mid);
    }
  }

  lemma Onward(s: State, s2: State)
    requires Calm(s, s2)
    ensures s.head <= s2.head && s2.lp == s.lp
  {
  }

  // ---------------------------------------------------------------- every risk comes true

  /** From `s` on to slot `m` at the head, with no clash on the way and everything about slots from `k` on as it was. */
  ghost predicate Reached(s: State, s2: State, m: nat, k: nat) {
    && s2.reader == Scan && s2.head == m && s2.order == s.order && s2.lp == s.lp
    && (forall j :: k <= j && Halts(s, j) ==> Halts(s2, j) && Idle(s2, j) == Idle(s, j))
    && (forall g, h, e, d :: s.head <= g < m && Clash(s.lp, g, h, e, d) ==> !Before(s.order, d, e))
  }

  /** In a search that met nothing stale, no payload of another wrap stood in front. */
  lemma NoClashHere(s: State, h: nat, e: nat, d: nat)
    requires HeadReady(s) && ClearSearch(s) && s.reader == Scan && Clash(s.lp, s.head, h, e, d) && AtRest(s)
    ensures !Before(s.order, d, e)
  {
    hide Per;
    ParentStored(s, h, d);
    var k := PayloadSlot(s, d, 0);
    FirstIsLeast(s, d, h, k);
    SideHeadsLater(s, d);
    StaleVerdictExact(s.lp[s.head].seq_, s.sides[d].queue[0].seq_);
    assert k == h;
    assert SideHead(s, d, SeqInvalid);
  }

  lemma HeadReached(s: State, s2: State, k: nat)
    requires HeadReady(s) && HeadGone(s, s2) && ClearSearch(s) && s.reader == Scan && Calm(s, s2) && s.head < k && AtRest(s)
    ensures Reached(s, s2, s.head + 1, k)
  {
    hide AtRest, Clash, Before, Calm, ClearSearch, HeadReady;
    CalmOn(s, s2, s2);
    forall g: nat, h: nat, e: nat, d: nat | s.head <= g < s.head + 1 && Clash(s.lp, g, h, e, d) ensures !Before(s.order, d, e) {
      NoClashHere(s, h, e, d);
    }
    forall j: nat | k <= j && Halts(s, j) ensures Halts(s2, j) && Idle(s2, j) == Idle(s, j) {
      TargetOn(s.lp, s.head, s.target, j);
    }
  }

  /** The block the LP head waits for is not one that a later slot waits for. */
  lemma OtherBlock(s: State, b: nat, j: nat, c: nat)
    requires s.head < j < |s.lp| && !s.lp[j].kind.Void? && HeadPending(s) && Inv(s)
    requires c in s.blocks && s.blocks[c].Live? && s.blocks[c].owner == s.lp[j].tid && s.blocks[c].seq_ + 1 == s.lp[j].seq_
    requires s.threads[s.lp[s.head].tid].rseq < |s.threads[s.lp[s.head].tid].units|
    requires b in s.blocks && s.blocks[b].Live? && s.blocks[b].owner == s.lp[s.head].tid
    requires s.blocks[b].seq_ == s.threads[s.lp[s.head].tid].rseq
    ensures b != c
  {
    hide HistoryOk, SideOk, BlockOk, SlotsIncrease, ReaderOk, UnitOk;
    assert Per(s, s.lp[s.head].tid);
    assert EntryOk(s, s.head);
    if s.lp[j].tid == s.lp[s.head].tid { SlotsFollow(s, s.head, j); }
  }

  /** While the LP head waits, the block it waits for is read and freed. */
  lemma BlockReached(s: State, k: nat) returns (s2: State, p: Path)
    requires s.reader == Scan && s.head < k <= |s.lp| && !HeadReady(s) && AtRest(s)
    ensures IsPath(s, p, s2) && Reached(s, s2, s.head, k) && |LiveBlocks(s2)| < |LiveBlocks(s)|
  {
    hide Per, Only, IsPath, Clash, Before, HeadReady;
    QuiescentHead(s);
    PendingAwaits(s);
    var w := s.threads[s.lp[s.head].tid];
    var b := w.units[w.rseq].block;
    s2, p := VisitBlock(s, b);
    assert LiveBlocks(s2) == LiveBlocks(s) - {b};
    assert s2.lp == s.lp by { PathKeeps(s, p, s2); }
    forall j: nat | k <= j && Halts(s, j) ensures Halts(s2, j) && Idle(s2, j) == Idle(s, j) {
      var c :| c in s.blocks && s.blocks[c].Live? && s.blocks[c].owner == s.lp[j].tid && s.blocks[c].seq_ + 1 == s.lp[j].seq_;
      OtherBlock(s, b, j, c);
      assert s2.blocks[c] == s.blocks[c];
    }
  }

  ghost function LiveBlocks(s: State): set<nat> {
    set b | b in s.blocks && s.blocks[b].Live?
  }

  lemma {:induction false} Forward(s: State, k: nat) returns (s2: State, p: Path)
    requires s.reader == Scan && s.head <= k <= |s.lp| && AtRest(s)
    ensures IsPath(s, p, s2) && (Dropping(s2) || Reached(s, s2, k, k))
    decreases k - s.head, |LiveBlocks(s)|
  {
    hide AtRest, IsPath, HeadReady, Only, Dropping, LiveBlocks, Halts, Idle, Clash, Before;
    if s.head == k {
      s2, p := s, Stop;
      Here(s);
    } else {
      var s1, q;
      if HeadReady(s) {
        s1, q := ConsumeHead(s);
        PathKeeps(s, q, s1);
        if Dropping(s1) { return s1, q; }
        HeadReached(s, s1, k);
      } else {
        s1, q := BlockReached(s, k);
        PathKeeps(s, q, s1);
      }
      var r;
      s2, r := Forward(s1, k);
      Joined(s, q, s1, r, s2);
      p := Then(q, r);
      if !Dropping(s2) {
        assert Reached(s, s2, k, k);
      }
    }
  }

  lemma IdleEmpty(s: State, x: nat)
    requires x in s.order && x in Idle(s, s.head) && AtRest(s)
    ensures x in s.sides && s.sides[x].queue == [] && !s.sides[x].held && s.target != Some(x)
  {
    hide HistoryOk, EntryOk, BlockOk, SlotsIncrease, ThreadOk, UnitOk;
    assert Per(s, s.sides[x].owner);
    assert SideOk(s, x);
    if s.sides[x].queue != [] { var k := PayloadSlot(s, x, 0); }
  }

  /** Reading on to each of these halts, with a pass of recycling at it, and then to the clash. */
  lemma {:induction false} RiskRealised(s: State, ks: seq<nat>, g: nat, h: nat, e: nat, d: nat) returns (s2: State, p: Path)
    requires s.reader == Scan && s.head <= g && HaltList(s, ks, g)
    requires Clash(s.lp, g, h, e, d) && Before(Turned(s, s.order, ks), d, e) && AtRest(s)
    ensures IsPath(s, p, s2) && Dropping(s2)
    decreases |ks|
  {
    hide AtRest, IsPath, Before, Clash, Halts, Dropping, Idle, Swept;
    ClashOrder(s.lp, g, h, e, d);
    if ks == [] {
      s2, p := Forward(s, g + 1);
    } else {
      var k := ks[0];
      assert Halts(s, k);
      HaltsAhead(s, k);
      s2, p := Forward(s, k);
      if !Dropping(s2) {
        PathKeeps(s, p, s2);
        var s3 := SweptHere(s2);
        assert HaltList(s3, ks[1..], g);
        TurnedSame(s, s3, s3.order, ks[1..]);
        var s4, r := RiskRealised(s3, ks[1..], g, h, e, d);
        r := Ahead(s2, Sweep, s3, r, s4);
        Joined(s, p, s2, r, s4);
        s2, p := s4, Then(p, r);
      }
    }
  }

  /** At a halt the reader can recycle. */
  lemma SweptHere(s: State) returns (s1: State)
    requires s.reader == Scan && Halts(s, s.head) && AtRest(s)
    ensures Reads(s, s1, Sweep) && AtRest(s1) && s1 == s.(sides := s1.sides, order := Swept(s.order, |s.order|, Idle(s, s.head)))
    ensures forall k {:trigger Halts(s1, k)} {:trigger Halts(s, k)} :: Halts(s1, k) == Halts(s, k) && Idle(s1, k) == Idle(s, k)
  {
    hide AtRest, HeadReady, Recycled, Swept;
    s1 := Recycled(s, |s.order|);
    RecycledKeeps(s, |s.order|);
    RecycledOrder(s, |s.order|);
    HaltedHere(s);
    forall k: nat ensures Halts(s1, k) == Halts(s, k) && Idle(s1, k) == Idle(s, k) { SameIdle(s, s1, k); }
  }

  lemma RiskComes(s: State) returns (s2: State, p: Path)
    requires s.reader == Scan && AtRisk(s) && AtRest(s)
    ensures IsPath(s, p, s2) && Dropping(s2)
  {
    hide AtRest, IsPath, Clash, HaltList, Dropping, Before, Turned;
    var g, h, e, d :| s.head <= g && Clash(s.lp, g, h, e, d) && Comes(s, g, d, e);
    var ks :| HaltList(s, ks, g) && Before(Turned(s, s.order, ks), d, e);
    s2, p := RiskRealised(s, ks, g, h, e, d);
  }

  /**
   With the writers at rest, reading can come to throw a payload away if and only if the state is at risk. Reading goes
   step by step as the reader does, in any order of the blocks, with a pass of recycling or none whenever it halts.
   */
  lemma LosesExactly(s: State)
    requires s.reader == Scan && AtRest(s)
    ensures (exists s2, p :: IsPath(s, p, s2) && Dropping(s2)) <==> AtRisk(s)
  {
    hide AtRest, IsPath, AtRisk;
    if AtRisk(s) { var s2, p := RiskComes(s); }
    if s2, p :| IsPath(s, p, s2) && Dropping(s2) {
      PathKeeps(s, p, s2);
      var d :| Visits(s2, d) && SideHead(s2, d, SeqInvalid);
      DropIsRisk(s2, d);
      PathRisk(s, p, s2);
    }
  }

  /** From a state not at risk no path leads to a drop, or to a state at risk. */
  lemma NeverDrops(s: State, p: Path, s2: State)
    requires IsPath(s, p, s2) && !AtRisk(s) && AtRest(s)
    ensures !Dropping(s2) && !AtRisk(s2) && AtRest(s2)
  {
    hide AtRest, IsPath, AtRisk;
    PathKeeps(s, p, s2);
    if AtRisk(s2) { PathRisk(s, p, s2); }
    if d :| Visits(s2, d) && SideHead(s2, d, SeqInvalid) { DropIsRisk(s2, d); }
  }

  /** While all payloads lie in the wrap being read there is no risk, in whatever order the buffers stand. */
  lemma OneWrapSafe(s: State)
    requires SameEpoch(s) && Inv(s)
    ensures !AtRisk(s)
  {
    hide Inv, Comes;
    if g, h, e, d :| s.head <= g && Clash(s.lp, g, h, e, d) && Comes(s, g, d, e) {
      ParentStored(s, g, e);
      ParentStored(s, h, d);
    }
  }
}
