/** With the writers at rest: what the reader's steps keep, and how it consumes the LP head and a block. */
module LogBufferReading {
  import opened Words
  import opened LogBufferModel
  import opened LogBufferOrder
  import opened LogBufferInv
  import opened LogBufferReader
  import opened LogBufferTheorems

  // ---------------------------------------------------------------- recycling

  /** The buffer at place `k` is found empty while no writer holds its lock, and the last payload did not come from it. */
  ghost predicate MayGo(s: State, k: nat) {
    && k < |s.order| && s.order[k] in s.sides
    && s.sides[s.order[k]].queue == [] && !s.sides[s.order[k]].held && s.target != Some(s.order[k])
  }

  /** `rt_recycle_oversize_buffers` from place `n - 1` down to the first. */
  ghost function Recycled(s: State, n: nat): State
    decreases n
  {
    if n == 0 then s
    else if MayGo(s, n - 1) then
      Recycled(s.(sides := s.sides - {s.order[n - 1]}, order := Erased(s.order, n - 1)), n - 1)
    else Recycled(s, n - 1)
  }

  /** Every buffer it takes goes by a recycling step. */
  lemma {:induction false} RecycledKeeps(s: State, n: nat)
    requires s.reader == Scan && AtRest(s)
    ensures AtRest(Recycled(s, n))
    ensures Recycled(s, n) == s.(sides := Recycled(s, n).sides, order := Recycled(s, n).order)
    decreases n
  {
    hide Inv, Erased;
    if n > 0 {
      if MayGo(s, n - 1) {
        var s1 := s.(sides := s.sides - {s.order[n - 1]}, order := Erased(s.order, n - 1));
        SideRecycleKeeps(s, s1, n - 1);
        RecycledKeeps(s1, n - 1);
      } else {
        RecycledKeeps(s, n - 1);
      }
    }
  }

  // ---------------------------------------------------------------- paths of the reader

  /** A step of the reader, or one whole pass of recycling. */
  datatype Move = By(step: Step) | Sweep

  datatype Part = Heads | Entering | Inside | Recycling | Other

  /** What a move of the reader is a part of. */
  function PartOf(m: Move): Part {
    match m
    case Sweep => Recycling
    case By(step) =>
      if step.RArrive? then Entering
      else if step.RFetch? || step.RHand? || step.RDepart? then Inside
      else if step.RLpDropVoid? || step.RLpTake? || step.RSeek? || step.RSeekOn? || step.RLpTakeExternal? || step.RLpFinish?
              || step.RLpReturn? || step.RSideReturn? then Heads
      else Other
  }

  /**
   A move of the reader that throws nothing away. Side buffers are recycled when the LP head cannot be read; a timer
   decides whether they are.
   */
  ghost predicate Reads(s: State, s': State, m: Move) {
    match m
    case By(step) => PartOf(m) != Other && Next(s, s', step)
    case Sweep => s.reader == Scan && !HeadReady(s) && s' == Recycled(s, |s.order|)
  }

  datatype Path = Stop | Go(move: Move, mid: State, rest: Path)

  ghost predicate IsPath(s: State, p: Path, s2: State)
    decreases p
  {
    match p
    case Stop => s == s2
    case Go(m, mid, rest) => Reads(s, mid, m) && IsPath(mid, rest, s2)
  }

  predicate Only(p: Path, part: Part) {
    p.Go? ==> PartOf(p.move) == part && Only(p.rest, part)
  }

  function Then(p: Path, q: Path): Path {
    match p
    case Stop => q
    case Go(m, mid, rest) => Go(m, mid, Then(rest, q))
  }

  lemma {:induction false} Joined(s: State, p: Path, s1: State, q: Path, s2: State)
    requires IsPath(s, p, s1) && IsPath(s1, q, s2)
    ensures IsPath(s, Then(p, q), s2)
    ensures forall part :: Only(p, part) && Only(q, part) ==> Only(Then(p, q), part)
    decreases p
  {
    hide Reads;
    if p.Go? { Joined(p.mid, p.rest, s1, q, s2); }
  }

  /** No write is under way. */
  ghost predicate AtRest(s: State) {
    Inv(s) && Outstanding(s) && Quiescent(s)
  }

  /** No writer has moved between the two states, and nothing handed out was taken back. */
  ghost predicate Calm(s: State, s2: State) {
    && s2.lp == s.lp && s.head <= s2.head && s2.threads.Keys == s.threads.Keys
    && forall t {:trigger s.threads[t]} {:trigger s2.threads[t]} :: t in s.threads ==>
         && s2.threads[t].pc == s.threads[t].pc && s2.threads[t].wseq == s.threads[t].wseq
         && s2.threads[t].committed == s.threads[t].committed && s2.threads[t].units == s.threads[t].units
         && s.threads[t].rseq <= s2.threads[t].rseq && s.threads[t].delivered <= s2.threads[t].delivered
  }

  lemma CalmOn(s: State, s1: State, s2: State)
    ensures Calm(s, s) && (Calm(s, s1) ==> s1.lp == s.lp && (Calm(s1, s2) ==> Calm(s, s2)))
  {
  }

  /** One thread's record has changed, and there only what the reader keeps. */
  lemma OneThread(s: State, s': State, t: nat)
    requires s'.lp == s.lp && s.head <= s'.head && t in s.threads
    requires t in s'.threads && s'.threads == s.threads[t := s'.threads[t]]
    requires var w := s'.threads[t];
      w == s.threads[t].(rseq := w.rseq, freed := w.freed, delivered := w.delivered)
      && s.threads[t].rseq <= w.rseq && s.threads[t].delivered <= w.delivered
    ensures Calm(s, s')
  {
  }

  lemma ReadCalm(s: State, s': State, step: Step)
    requires Reads(s, s', By(step))
    ensures Calm(s, s')
  {
    hide Calm, Verify, VerifyOversize, HeadReady, WriterMove;
    if step.RLpTake? || step.RLpTakeExternal? || step.RLpFinish? || step.RLpReturn? || step.RSideReturn? {
      OneThread(s, s', s.lp[s.head].tid);
    } else if step.RHand? || step.RDepart? {
      OneThread(s, s', s.blocks[s.reader.block].owner);
    } else {
      Unmoved(s, s');
    }
  }

  lemma Unmoved(s: State, s': State)
    requires s'.lp == s.lp && s.head <= s'.head && s'.threads == s.threads
    ensures Calm(s, s')
  {
  }

  lemma ReadKeeps(s: State, s': State, m: Move)
    requires Reads(s, s', m) && AtRest(s)
    ensures AtRest(s') && Calm(s, s')
  {
    hide Inv, Next, HeadReady, Recycled;
    match m
    case By(step) =>
      NextKeeps(s, s', step);
      ReadCalm(s, s', step);
    case Sweep =>
      RecycledKeeps(s, |s.order|);
      Unmoved(s, s');
  }

  lemma {:induction false} PathKeeps(s: State, p: Path, s2: State)
    requires IsPath(s, p, s2) && AtRest(s)
    ensures AtRest(s2) && Calm(s, s2)
    decreases p
  {
    hide AtRest, Reads;
    if p.Go? {
      ReadKeeps(s, p.mid, p.move);
      PathKeeps(p.mid, p.rest, s2);
    }
  }

  lemma One(s: State, step: Step, s': State) returns (p: Path)
    requires Reads(s, s', By(step)) && AtRest(s)
    ensures IsPath(s, p, s') && p == Go(By(step), s', Stop) && AtRest(s') && Calm(s, s')
  {
    hide AtRest, Reads, Calm;
    p := Go(By(step), s', Stop);
    assert IsPath(s', Stop, s');
    ReadKeeps(s, s', By(step));
  }

  /** A move in front of a path. */
  lemma Ahead(s: State, m: Move, s1: State, r: Path, s2: State) returns (p: Path)
    requires Reads(s, s1, m) && IsPath(s1, r, s2)
    ensures p == Go(m, s1, r) && IsPath(s, p, s2) && (Only(r, PartOf(m)) ==> Only(p, PartOf(m)))
  {
    hide Reads;
    p := Go(m, s1, r);
  }

  lemma Twice(s: State, step: Step, s1: State, step2: Step, s2: State) returns (p: Path)
    requires Reads(s, s1, By(step)) && Reads(s1, s2, By(step2))
    ensures IsPath(s, p, s2) && (PartOf(By(step)) == PartOf(By(step2)) ==> Only(p, PartOf(By(step))))
  {
    hide Reads;
    assert IsPath(s2, Stop, s2);
    p := Ahead(s1, By(step2), s2, Stop, s2);
    p := Ahead(s, By(step), s1, p, s2);
  }

  // ---------------------------------------------------------------- the LP head

  /** The search stands before a head that it will take for stale. */
  ghost predicate Dropping(s: State) {
    exists d :: Visits(s, d) && SideHead(s, d, SeqInvalid)
  }

  /** What consuming the LP head leaves as it was. */
  ghost predicate HeadGone(s: State, s2: State) {
    && s2.reader == Scan && s2.head == s.head + 1 && s2.blocks == s.blocks && s2.order == s.order && s.head < |s.lp|
    && s2.target == if s.lp[s.head].kind.External? && s.lp[s.head].kind.at.Some? then s.lp[s.head].kind.at else s.target
  }

  /** Nothing in front of the buffer of the head's payload would be thrown away. */
  ghost predicate ClearSearch(s: State) {
    s.head < |s.lp| && s.lp[s.head].kind.External? ==>
      forall j, n :: (if s.reader.Seek? then s.reader.at else 0) <= j < n < |s.order| && s.lp[s.head].kind.at == Some(s.order[n]) ==>
        !SideHead(s, s.order[j], SeqInvalid)
  }

  /** The search goes on from where it stands until it throws a head away or has handed out the payload. */
  lemma {:induction false} Search(s: State) returns (s2: State, p: Path)
    requires s.reader.Seek? && HeadValid(s) && s.lp[s.head].kind.External? && AtRest(s)
    ensures IsPath(s, p, s2) && Only(p, Heads)
    ensures Dropping(s2) || (HeadGone(s, s2) && ClearSearch(s))
    decreases |s.order| - s.reader.at
  {
    hide Per, IsPath, UnitOk, HeadValid, WalkMove, WriterMove;
    var d := s.order[s.reader.at];
    assert d in s.order;
    if SideHead(s, d, SeqInvalid) {
      s2, p := s, Stop;
      Here(s);
      assert Visits(s, d);
    } else if SideHead(s, d, Valid) {
      PayloadHere(s, d);
      s2, p := TakePayload(s, d);
    } else {
      var s1 := s.(reader := Seek(s.reader.at + 1));
      var q := One(s, RSeekOn(d), s1);
      assert HeadValid(s1) by { SameHead(s, s1); }
      var r;
      s2, r := Search(s1);
      Joined(s, q, s1, r, s2);
      p := Then(q, r);
      if !Dropping(s2) { SearchedOn(s, s1, d); }
    }
  }

  lemma SameHead(s: State, s1: State)
    requires HeadValid(s) && s1 == s.(reader := s1.reader)
    ensures HeadValid(s1)
  {
  }

  lemma SearchedOn(s: State, s1: State, d: nat)
    requires s1 == s.(reader := s1.reader) && s.reader.Seek? && s1.reader == Seek(s.reader.at + 1) && ClearSearch(s1)
    requires s.reader.at < |s.order| && s.order[s.reader.at] == d && !SideHead(s, d, SeqInvalid)
    ensures ClearSearch(s)
  {
    assert forall c :: SideHead(s1, c, SeqInvalid) <==> SideHead(s, c, SeqInvalid);
  }

  lemma Here(s: State)
    ensures IsPath(s, Stop, s)
  {
  }

  /** The head with the parent's number is its payload, and no buffer stands twice in the array. */
  lemma PayloadHere(s: State, d: nat)
    requires Visits(s, d) && SideHead(s, d, Valid) && AtRest(s)
    ensures s.lp[s.head].kind.at == Some(d) && Distinct(s.order)
  {
    hide Per;
    SideHeadsLater(s, d);
    StaleVerdictExact(s.lp[s.head].seq_, s.sides[d].queue[0].seq_);
  }

  lemma TakePayload(s: State, d: nat) returns (s2: State, p: Path)
    requires Visits(s, d) && SideHead(s, d, Valid) && s.lp[s.head].kind.at == Some(d) && Distinct(s.order)
    ensures IsPath(s, p, s2) && Only(p, Heads) && HeadGone(s, s2) && ClearSearch(s)
  {
    hide IsPath, Verify, VerifyOversize, WalkMove, WriterMove;
    var t := s.lp[s.head].tid;
    var s1 := s.(reader := SideOut(d), target := Some(d), threads := s.threads[t := Deliver(s.threads[t], s.sides[d].queue[0].rec)]);
    s2 := s1.(reader := Scan, head := s.head + 1,
              sides := s1.sides[d := s1.sides[d].(queue := s1.sides[d].queue[1..])],
              threads := s1.threads[t := Deregister(s1.threads[t], false)]);
    p := Twice(s, RLpTakeExternal(d), s1, RSideReturn, s2);
  }

  /** A head that can be read is consumed, unless the search for its payload throws something away. */
  lemma ConsumeHead(s: State) returns (s2: State, p: Path)
    requires s.reader == Scan && HeadReady(s) && AtRest(s)
    ensures IsPath(s, p, s2) && Only(p, Heads)
    ensures Dropping(s2) || (HeadGone(s, s2) && ClearSearch(s))
  {
    hide AtRest, IsPath, Calm, Verify, WalkMove, WriterMove;
    var t := s.lp[s.head].tid;
    match s.lp[s.head].kind
    case Void =>
      s2 := s.(head := s.head + 1);
      p := One(s, RLpDropVoid, s2);
    case Finish =>
      s2 := s.(head := s.head + 1, threads := s.threads[t := Deregister(s.threads[t], true)]);
      p := One(s, RLpFinish, s2);
    case Plain(_) =>
      s2, p := ConsumePlain(s);
    case External(_, _) =>
      s2, p := ConsumeParent(s);
  }

  lemma ConsumePlain(s: State) returns (s2: State, p: Path)
    requires s.reader == Scan && HeadValid(s) && s.lp[s.head].kind.Plain?
    ensures IsPath(s, p, s2) && Only(p, Heads) && HeadGone(s, s2)
  {
    hide IsPath, Verify, WalkMove, WriterMove;
    var t := s.lp[s.head].tid;
    var s1 := s.(reader := LpOut, threads := s.threads[t := Deliver(s.threads[t], s.lp[s.head].kind.rec)]);
    s2 := s1.(reader := Scan, head := s.head + 1, threads := s1.threads[t := Deregister(s1.threads[t], false)]);
    p := Twice(s, RLpTake, s1, RLpReturn, s2);
  }

  lemma ConsumeParent(s: State) returns (s2: State, p: Path)
    requires s.reader == Scan && HeadValid(s) && s.lp[s.head].kind.External? && AtRest(s)
    ensures IsPath(s, p, s2) && Only(p, Heads)
    ensures Dropping(s2) || (HeadGone(s, s2) && ClearSearch(s))
  {
    hide Inv, IsPath, WalkMove, WriterMove;
    var s1 := s.(reader := Seek(0));
    var q := One(s, RSeek, s1);
    var r;
    s2, r := Search(s1);
    Joined(s, q, s1, r, s2);
    p := Then(q, r);
    if ClearSearch(s1) {
      assert forall d :: SideHead(s1, d, SeqInvalid) <==> SideHead(s, d, SeqInvalid);
    }
  }

  // ---------------------------------------------------------------- a block

  /** The block's number is the one its thread is being read at. */
  ghost predicate Arrivable(s: State, b: nat) {
    && b in s.blocks && s.blocks[b].Live? && s.blocks[b].owner in s.threads
    && Verify(s.blocks[b].seq_, s.threads[s.blocks[b].owner].rseq) == Valid
  }

  /** What a visit leaves of a block. */
  ghost function Visited(s: State, b: nat): map<nat, Block> {
    if b !in s.blocks || !s.blocks[b].Live? then s.blocks
    else s.blocks[b := if s.blocks[b].removed then Free else s.blocks[b].(read := |s.blocks[b].data|)]
  }

  /** Only the block and the reader's place have changed, apart from the block's thread. */
  ghost predicate InPlace(s: State, s2: State) {
    s2.head == s.head && s2.sides == s.sides && s2.order == s.order && s2.target == s.target
  }

  /** The reader is in block `b`, part of which it has fetched. */
  ghost predicate InBlock(s: State, b: nat) {
    && s.reader.At? && s.reader.block == b && b in s.blocks && s.blocks[b].Live? && s.blocks[b].owner in s.threads
    && s.reader.sampled == s.blocks[b].removed && s.blocks[b].read <= s.reader.upto <= |s.blocks[b].data|
  }

  /** From inside a block to the end of the visit. */
  lemma {:induction false} ReadOut(s: State, b: nat) returns (s2: State, p: Path)
    requires InBlock(s, b)
    ensures IsPath(s, p, s2) && Only(p, Inside) && s2.reader == Scan && InPlace(s, s2) && s2.blocks == Visited(s, b)
    decreases |s.blocks[b].data| - s.blocks[b].read, |s.blocks[b].data| - s.reader.upto
  {
    hide HeadReady, IsPath, HeadMove, WriterMove;
    var k := s.blocks[b];
    if k.read == |k.data| == s.reader.upto {
      s2, p := ReadNothing(s, b);
    } else if k.read < s.reader.upto {
      var s1 := s.(blocks := s.blocks[b := k.(read := k.read + 1)],
                   threads := s.threads[k.owner := Deliver(s.threads[k.owner], k.data[k.read])]);
      s2, p := ReadOut(s1, b);
      p := Ahead(s, By(RHand), s1, p, s2);
    } else {
      var s1 := s.(reader := s.reader.(upto := |k.data|));
      s2, p := ReadOut(s1, b);
      p := Ahead(s, By(RFetch), s1, p, s2);
    }
  }

  lemma ReadNothing(s: State, b: nat) returns (s2: State, p: Path)
    requires InBlock(s, b) && s.blocks[b].read == |s.blocks[b].data|
    ensures IsPath(s, p, s2) && Only(p, Inside) && s2.reader == Scan && InPlace(s, s2) && s2.blocks == Visited(s, b)
  {
    hide IsPath, HeadReady, HeadMove, WriterMove;
    var k := s.blocks[b];
    var s1 := s.(reader := Leaving(b, s.reader.sampled));
    s2 := if k.removed
      then s.(reader := Scan, blocks := s.blocks[b := Free], threads := s.threads[k.owner := Deregister(s.threads[k.owner], k.finished)])
      else s.(reader := Scan);
    if !k.removed { assert k.(read := |k.data|) == k && s.blocks[b := k] == s.blocks; }
    p := Twice(s, RFetch, s1, RDepart, s2);
  }

  /** The reader comes to the block, reads it to its end and leaves it. */
  lemma VisitBlock(s: State, b: nat) returns (s2: State, p: Path)
    requires s.reader == Scan && Arrivable(s, b) && AtRest(s)
    ensures IsPath(s, p, s2) && p.Go? && p.move == By(RArrive(b)) && Only(p.rest, Inside)
    ensures s2.reader == Scan && InPlace(s, s2) && s2.blocks == Visited(s, b)
  {
    hide Per, HeadReady, IsPath, Only, HeadMove, WriterMove;
    BlockIsNext(s, b);
    var s1 := s.(reader := At(b, s.blocks[b].removed, s.blocks[b].read));
    s2, p := ReadOut(s1, b);
    p := Ahead(s, By(RArrive(b)), s1, p, s2);
  }
}
