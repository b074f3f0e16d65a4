/**
 The reader's own scan: the LP ring until its head cannot be read, then perhaps a pass that recycles side buffers, then
 every listed block once, in list order, and so on. With the writers at rest it delivers everything within as
 many scans as there are blocks to free and to read, plus one, whatever the order of the lists.
 */
module LogBufferScan {
  import opened Words
  import opened LogBufferModel
  import opened LogBufferHistory
  import opened LogBufferInv
  import opened LogBufferReader
  import opened LogBufferTheorems
  import opened LogBufferReading
  import opened LogBufferRisk
  import opened LogBufferExit

  /** `rt_read_from_lp_buffer`, call after call, until it finds nothing to hand out. */
  ghost predicate LpPhase(s: State, s2: State) {
    exists p :: IsPath(s, p, s2) && Only(p, Heads) && s2.reader == Scan && !HeadReady(s2)
  }

  /** `rt_recycle_oversize_buffers`, if the timer lets it. */
  ghost predicate RecyclePhase(s: State, s2: State) {
    s2 == s || s2 == Recycled(s, |s.order|)
  }

  /** The walk comes to a block: it reads it to the end and leaves it, or goes on past it. */
  ghost predicate Visit(s: State, b: nat, s2: State) {
    if Arrivable(s, b) then
      exists p :: IsPath(s, p, s2) && p.Go? && p.move == By(RArrive(b)) && Only(p.rest, Inside) && s2.reader == Scan
    else s2 == s
  }

  ghost predicate BlocksPhase(s: State, list: seq<nat>, s2: State)
    decreases |list|
  {
    if list == [] then s2 == s
    else exists mid :: Visit(s, list[0], mid) && BlocksPhase(mid, list[1..], s2)
  }

  ghost predicate Listed(s: State, list: seq<nat>) {
    forall b :: b in s.blocks && s.blocks[b].Live? ==> b in list
  }

  /** One scan, with the blocks in this order. */
  ghost predicate IsScan(s: State, list: seq<nat>, s2: State) {
    Listed(s, list) && exists m1, m2 :: LpPhase(s, m1) && RecyclePhase(m1, m2) && BlocksPhase(m2, list, s2)
  }

  ghost predicate AllDelivered(s: State) {
    forall t :: t in s.threads ==> s.threads[t].delivered == s.threads[t].committed
  }

  /** Once all is delivered it stays so. */
  lemma DeliveredStays(s: State, s2: State)
    requires AllDelivered(s) && Calm(s, s2) && AtRest(s2)
    ensures AllDelivered(s2)
  {
    hide Inv;
    forall t | t in s2.threads ensures s2.threads[t].delivered == s2.threads[t].committed {
      assert t in s2.threads.Keys && t in s.threads.Keys;
      PrefixOfCommitted(s2, t);
    }
  }

  /** The LP phase touches no block. */
  lemma {:induction false} BlocksApart(s: State, p: Path, s2: State)
    requires IsPath(s, p, s2) && Only(p, Heads)
    ensures s2.blocks == s.blocks
    decreases p
  {
    hide WriterMove, WalkMove, HeadReady, Recycled;
    if p.Go? {
      assert p.mid.blocks == s.blocks;
      BlocksApart(p.mid, p.rest, s2);
    }
  }

  /** Recycling changes the side buffers and nothing else. */
  lemma RecycleDoes(s: State, s2: State) returns (p: Path)
    requires RecyclePhase(s, s2) && s.reader == Scan && !HeadReady(s) && AtRest(s)
    ensures IsPath(s, p, s2) && AtRest(s2) && Calm(s, s2) && s2 == s.(sides := s2.sides, order := s2.order) && !HeadReady(s2)
  {
    hide AtRest, Calm, Recycled;
    p := Stop;
    Here(s);
    CalmOn(s, s, s);
    if s2 != s {
      ReadKeeps(s, s2, Sweep);
      RecycledKeeps(s, |s.order|);
      Here(s2);
      p := Ahead(s, Sweep, s2, Stop, s2);
    }
  }

  // ---------------------------------------------------------------- a visit

  /** The reader is in block `b` or about to leave it read out. */
  ghost predicate Within(s: State, b: nat) {
    || InBlock(s, b)
    || (b in s.blocks && s.blocks[b].Live? && s.blocks[b].owner in s.threads && s.reader == Leaving(b, s.blocks[b].removed)
        && s.blocks[b].read == |s.blocks[b].data|)
  }

  /** Threads are read on only by the freeing of their block. */
  ghost predicate SeqKept(s: State, s2: State, b: nat) {
    && b in s.blocks && s.blocks[b].Live?
    && (forall t :: t in s.threads && (t != s.blocks[b].owner || !s.blocks[b].removed) ==>
      t in s2.threads && s2.threads[t].rseq == s.threads[t].rseq)
  }

  lemma InsideStep(s: State, s1: State, step: Step, b: nat)
    requires Within(s, b) && PartOf(By(step)) == Inside && WalkMove(s, s1, step)
    ensures SeqKept(s, s1, b)
    ensures if step.RDepart? then s1.reader == Scan && s1.blocks == Visited(s, b)
            else Within(s1, b) && Visited(s1, b) == Visited(s, b) && s1.blocks[b].removed == s.blocks[b].removed
                 && s1.blocks[b].owner == s.blocks[b].owner
  {
    if step.RDepart? && !s.blocks[b].removed {
      assert s.blocks[b].(read := |s.blocks[b].data|) == s.blocks[b];
      assert s.blocks[b := s.blocks[b]] == s.blocks;
    }
  }

  /** From inside a block to the end of the visit. */
  lemma {:induction false} InsideOut(s: State, p: Path, s2: State, b: nat)
    requires Within(s, b) && IsPath(s, p, s2) && Only(p, Inside) && s2.reader == Scan
    ensures s2.blocks == Visited(s, b) && SeqKept(s, s2, b)
    decreases p
  {
    assert p.Go?;
    hide Within, WalkMove, HeadMove, WriterMove, HeadReady;
    InsideStep(s, p.mid, p.move.step, b);
    if p.move.step.RDepart? {
      Outside(p.mid, p.rest, s2);
    } else {
      InsideOut(p.mid, p.rest, s2, b);
    }
  }

  lemma Outside(s: State, p: Path, s2: State)
    requires s.reader == Scan && IsPath(s, p, s2) && Only(p, Inside)
    ensures s2 == s
  {
  }

  /** A visit frees a removed block and reads any other to its end, and touches no other block. */
  lemma VisitDoes(s: State, b: nat, s2: State)
    requires s.reader == Scan && Arrivable(s, b) && Visit(s, b, s2) && AtRest(s)
    ensures AtRest(s2) && Calm(s, s2) && s2.reader == Scan && s2.blocks == Visited(s, b) && SeqKept(s, s2, b)
  {
    hide Only, HeadMove, WriterMove, Calm, Per;
    var p :| IsPath(s, p, s2) && p.Go? && p.move == By(RArrive(b)) && Only(p.rest, Inside) && s2.reader == Scan;
    PathKeeps(s, p, s2);
    BlockIsNext(s, b);
    hide AtRest;
    assert Arrive(s, p.mid, b);
    InsideOut(p.mid, p.rest, s2, b);
  }

  /** A thread has one block at the number it is being read at. */
  lemma OneArrivable(s: State, b: nat, c: nat)
    requires Arrivable(s, b) && Arrivable(s, c) && s.blocks[b].owner == s.blocks[c].owner && AtRest(s)
    ensures b == c
  {
    hide Per;
    BlockIsNext(s, b);
    BlockIsNext(s, c);
    BlockUnit(s, b);
    BlockUnit(s, c);
  }

  /** A block that is ready stays ready while others are visited. */
  lemma ReadyStays(s: State, b: nat, c: nat, s2: State)
    requires s.reader == Scan && BlockReady(s, b) && b != c && Visit(s, c, s2) && AtRest(s)
    ensures BlockReady(s2, b)
  {
    hide AtRest, Calm;
    if Arrivable(s, c) {
      VisitDoes(s, c, s2);
      if s.blocks[c].owner == s.blocks[b].owner { OneArrivable(s, b, c); }
    }
  }

  // ---------------------------------------------------------------- a scan

  ghost function UnreadBlocks(s: State): set<nat> {
    set b | b in s.blocks && s.blocks[b].Live? && s.blocks[b].read < |s.blocks[b].data|
  }

  /** Blocks to be freed and blocks to be read. */
  ghost function Work(s: State): nat {
    |LiveBlocks(s)| + |UnreadBlocks(s)|
  }

  /** A visit never makes work. */
  lemma VisitedWork(s: State, b: nat, s2: State)
    requires b in s.blocks && s.blocks[b].Live? && s2.blocks == Visited(s, b)
    ensures Work(s2) <= Work(s) && (s.blocks[b].read < |s.blocks[b].data| || s.blocks[b].removed ==> Work(s2) < Work(s))
  {
    if s.blocks[b].removed {
      assert LiveBlocks(s2) == LiveBlocks(s) - {b} && UnreadBlocks(s2) == UnreadBlocks(s) - {b};
    } else {
      assert LiveBlocks(s2) == LiveBlocks(s) && UnreadBlocks(s2) == UnreadBlocks(s) - {b};
    }
    if b !in UnreadBlocks(s) { assert UnreadBlocks(s) - {b} == UnreadBlocks(s); }
  }

  /** Over all the blocks, with one of them ready: work gets less. */
  lemma {:induction false} BlocksWork(s: State, list: seq<nat>, s2: State, b: nat)
    requires s.reader == Scan && BlocksPhase(s, list, s2) && AtRest(s)
    ensures AtRest(s2) && Calm(s, s2) && s2.reader == Scan && Work(s2) <= Work(s)
    ensures BlockReady(s, b) && b in list ==> Work(s2) < Work(s)
    decreases |list|
  {
    hide AtRest, Visit, Work, BlockReady, Calm;
    if list == [] {
      CalmOn(s, s, s);
    } else {
      var mid :| Visit(s, list[0], mid) && BlocksPhase(mid, list[1..], s2);
      OneVisit(s, list[0], mid);
      if BlockReady(s, b) && b != list[0] { ReadyStays(s, b, list[0], mid); }
      BlocksWork(mid, list[1..], s2, b);
      CalmOn(s, mid, s2);
    }
  }

  lemma OneVisit(s: State, c: nat, s2: State)
    requires s.reader == Scan && Visit(s, c, s2) && AtRest(s)
    ensures AtRest(s2) && Calm(s, s2) && s2.reader == Scan && Work(s2) <= Work(s)
    ensures BlockReady(s, c) ==> Work(s2) < Work(s)
  {
    hide AtRest, Work;
    if Arrivable(s, c) {
      VisitDoes(s, c, s2);
      VisitedWork(s, c, s2);
    }
  }

  /** With nothing to be read everything is delivered. */
  lemma Finished(s: State)
    requires !HeadReady(s) && !(exists b :: BlockReady(s, b)) && AtRest(s)
    ensures AllDelivered(s)
  {
    hide Inv, HeadReady, BlockReady;
    forall t | t in s.threads ensures s.threads[t].delivered == s.threads[t].committed {
      if s.threads[t].delivered != s.threads[t].committed { AlwaysReady(s, t); }
    }
  }

  /** A scan delivers everything or leaves less work, whatever it recycles. */
  lemma ScanWorks(s: State, list: seq<nat>, s2: State)
    requires s.reader == Scan && IsScan(s, list, s2) && AtRest(s)
    ensures AtRest(s2) && s2.reader == Scan && Calm(s, s2) && Work(s2) <= Work(s)
    ensures AllDelivered(s2) || Work(s2) < Work(s)
  {
    hide AtRest, IsPath, Only, BlocksPhase, Calm, AllDelivered, HeadReady, RecyclePhase;
    var m1, m2 :| LpPhase(s, m1) && RecyclePhase(m1, m2) && BlocksPhase(m2, list, s2);
    var p :| IsPath(s, p, m1) && Only(p, Heads) && m1.reader == Scan && !HeadReady(m1);
    PathKeeps(s, p, m1);
    BlocksApart(s, p, m1);
    var q := RecycleDoes(m1, m2);
    CalmOn(s, m1, m2);
    if b :| BlockReady(m2, b) {
      BlocksWork(m2, list, s2, b);
    } else {
      BlocksWork(m2, list, s2, 0);
      Finished(m2);
      DeliveredStays(m2, s2);
    }
    CalmOn(s, m2, s2);
  }

  /**
   However the lists are ordered and whatever is recycled, scan after scan: with the writers at rest, after more scans
   than there is work every committed record of every thread is delivered.
   */
  lemma {:induction false} ScansDeliverAll(ss: seq<State>, lists: seq<seq<nat>>)
    requires |ss| == |lists| + 1 && ss[0].reader == Scan && AtRest(ss[0])
    requires forall i :: 0 <= i < |lists| ==> IsScan(ss[i], lists[i], ss[i + 1])
    requires |lists| > Work(ss[0]) || AllDelivered(ss[0])
    ensures AllDelivered(ss[|lists|])
    decreases |lists|
  {
    hide AtRest, IsScan, Work, AllDelivered, Calm;
    if |lists| > 0 {
      assert IsScan(ss[0], lists[0], ss[0 + 1]);
      ScanWorks(ss[0], lists[0], ss[1]);
      if AllDelivered(ss[0]) { DeliveredStays(ss[0], ss[1]); }
      forall i | 0 <= i < |lists[1..]| ensures IsScan(ss[1..][i], lists[1..][i], ss[1..][i + 1]) {
        assert IsScan(ss[i + 1], lists[i + 1], ss[i + 1 + 1]);
      }
      ScansDeliverAll(ss[1..], lists[1..]);
    }
  }

  // ---------------------------------------------------------------- scans can be made

  /** The LP ring can be read until nothing is left to hand out. */
  lemma {:induction false} LpPhaseExists(s: State) returns (s2: State, p: Path)
    requires s.reader == Scan && !AtRisk(s) && AtRest(s)
    ensures IsPath(s, p, s2) && Only(p, Heads) && s2.reader == Scan && !HeadReady(s2)
    decreases |s.lp| - s.head
  {
    assert s.head <= |s.lp| by { hide Per, AtRisk; }
    hide AtRest, IsPath, Only, AtRisk, HeadReady, Dropping;
    if HeadReady(s) {
      var s1, q := ConsumeHead(s);
      NeverDrops(s, q, s1);
      assert s1.lp == s.lp by { PathKeeps(s, q, s1); }
      var r;
      s2, r := LpPhaseExists(s1);
      Joined(s, q, s1, r, s2);
      p := Then(q, r);
    } else {
      s2, p := s, Stop;
      Here(s);
      assert Only(Stop, Heads);
    }
  }

  lemma {:induction false} BlocksExist(s: State, list: seq<nat>) returns (s2: State)
    requires s.reader == Scan && AtRest(s)
    ensures BlocksPhase(s, list, s2) && AtRest(s2) && s2.reader == Scan
    decreases |list|
  {
    hide AtRest, IsPath, Only, Arrivable, Calm;
    s2 := s;
    if list != [] {
      var mid := s;
      if Arrivable(s, list[0]) {
        var p;
        mid, p := VisitBlock(s, list[0]);
        PathKeeps(s, p, mid);
      }
      assert Visit(s, list[0], mid);
      s2 := BlocksExist(mid, list[1..]);
    }
  }

  /** The walk over the blocks can be completed. */
  ghost predicate Completes(s: State, list: seq<nat>) {
    exists s2 :: BlocksPhase(s, list, s2)
  }

  /** Whatever was recycled after the LP phase. */
  lemma ScanGoesOn(s: State, list: seq<nat>, m1: State, m2: State)
    requires LpPhase(s, m1) && RecyclePhase(m1, m2) && !AtRisk(s) && AtRest(s)
    ensures Completes(m2, list) && !AtRisk(m2)
  {
    hide AtRest, IsPath, Only, HeadReady, AtRisk, Dropping, RecyclePhase;
    var p :| IsPath(s, p, m1) && Only(p, Heads) && m1.reader == Scan && !HeadReady(m1);
    NeverDrops(s, p, m1);
    var q := RecycleDoes(m1, m2);
    NeverDrops(m1, q, m2);
    var s2 := BlocksExist(m2, list);
  }

  /** From a state not at risk every scan can be completed, in every order of the blocks and whether it recycles or not. */
  lemma ScanExists(s: State, list: seq<nat>)
    requires s.reader == Scan && !AtRisk(s) && AtRest(s)
    ensures exists m1 :: LpPhase(s, m1)
    ensures forall m1, m2 :: LpPhase(s, m1) && RecyclePhase(m1, m2) ==> !AtRisk(m2) && Completes(m2, list)
  {
    hide LpPhase, RecyclePhase, AtRest, AtRisk, Completes;
    var m, p := LpPhaseExists(s);
    assert LpPhase(s, m) by { Phase(s, p, m); }
    forall m1, m2 | LpPhase(s, m1) && RecyclePhase(m1, m2) ensures !AtRisk(m2) && Completes(m2, list) {
      ScanGoesOn(s, list, m1, m2);
    }
  }

  lemma Phase(s: State, p: Path, s2: State)
    requires IsPath(s, p, s2) && Only(p, Heads) && s2.reader == Scan && !HeadReady(s2)
    ensures LpPhase(s, s2)
  {
  }

  /** From a state not at risk reading alone can deliver every committed record of every thread. */
  lemma {:induction false} DrainsAll(s: State) returns (s2: State, p: Path)
    requires s.reader == Scan && !AtRisk(s) && AtRest(s)
    ensures IsPath(s, p, s2) && s2.reader == Scan && AllDelivered(s2) && !HeadReady(s2) && !exists b :: BlockReady(s2, b)
    decreases |s.lp| - s.head, Work(s)
  {
    assert s.head <= |s.lp| by { hide Per, AtRisk; }
    hide AtRest, IsPath, Only, AtRisk, HeadReady, Dropping, Work, Calm;
    if HeadReady(s) || exists b :: BlockReady(s, b) {
      var s1, q;
      if HeadReady(s) {
        s1, q := ConsumeHead(s);
        NeverDrops(s, q, s1);
      } else {
        var b :| BlockReady(s, b);
        s1, q := VisitBlock(s, b);
        NeverDrops(s, q, s1);
        VisitedWork(s, b, s1);
      }
      assert s1.lp == s.lp by { PathKeeps(s, q, s1); CalmOn(s, s1, s1); }
      var r;
      s2, r := DrainsAll(s1);
      Joined(s, q, s1, r, s2);
      p := Then(q, r);
    } else {
      s2, p := s, Stop;
      Finished(s);
      Here(s);
    }
  }

  /**
   After any run without a drop that leaves the writers at rest and the reader between calls: reading can throw a payload
   away if and only if the state is at risk, and if it is not, reading can deliver everything the threads' steps wrote and
   delete the objects of the threads that have exited, and no others.
   */
  lemma DrainsAfterRun(run: seq<State>, steps: seq<Step>)
    requires IsRun(run, steps) && NoDrop(steps, |steps|)
    requires var s := run[|steps|]; Outstanding(s) && Quiescent(s) && s.reader == Scan
    ensures var s := run[|steps|]; (exists s2, p :: IsPath(s, p, s2) && Dropping(s2)) <==> AtRisk(s)
    ensures var s := run[|steps|]; !AtRisk(s) ==>
              exists s2, p :: IsPath(s, p, s2) && s2.reader == Scan && DeliversWritten(s, s2, steps) && FreesExited(s, s2, steps)
  {
    var s := run[|steps|];
    hide IsPath, Inv, Next, AtRisk, Dropping, Quiescent, Outstanding, HeadReady, BlockReady;
    RunInv(run, steps, |steps|);
    LosesExactly(s);
    if !AtRisk(s) {
      var s2, p := DrainsAll(s);
      DrainedAsWritten(run, steps, p, s2);
    }
  }

  /** Once reading has come to its end, in terms of the run's steps. */
  lemma DrainedAsWritten(run: seq<State>, steps: seq<Step>, p: Path, s2: State)
    requires IsRun(run, steps) && NoDrop(steps, |steps|)
    requires IsPath(run[|steps|], p, s2) && AllDelivered(s2) && !HeadReady(s2) && !(exists b :: BlockReady(s2, b)) && AtRest(run[|steps|])
    ensures DeliversWritten(run[|steps|], s2, steps) && FreesExited(run[|steps|], s2, steps)
  {
    hide IsPath, AtRest, Next, Outstanding, MarksAhead, HeadReady, BlockReady, AllDelivered, Exited, Calm;
    var s := run[|steps|];
    RunMarks(run, steps, |steps|);
    PathKeeps(s, p, s2);
    PathMarks(s, p, s2);
    forall t | t in s.threads
      ensures t in s2.threads && s2.threads[t].delivered == Written(steps, |steps|, t) && (s2.threads[t].freed <==> Exited(steps, |steps|, t))
    {
      CommittedIsWritten(run, steps, |steps|, t);
      ExitedIsDone(run, steps, |steps|, t);
      OneDrained(s, s2, t);
    }
  }

  lemma OneDrained(s: State, s2: State, t: nat)
    requires Calm(s, s2) && t in s.threads && AllDelivered(s2) && !HeadReady(s2) && !(exists b :: BlockReady(s2, b))
    requires MarksAhead(s2) && AtRest(s2)
    ensures t in s2.threads && s2.threads[t].delivered == s.threads[t].committed && (s2.threads[t].freed <==> s.threads[t].pc == Done)
  {
    hide HeadReady, BlockReady, MarksAhead, Inv, Quiescent, Outstanding;
    assert t in s.threads.Keys && t in s2.threads.Keys;
    if s2.threads[t].freed { FreedHoldsNothing(s2, t); }
    if s2.threads[t].pc == Done { AllMarksRead(s2, t); }
  }

  /** Every thread's records, as its steps wrote them, are delivered. */
  ghost predicate DeliversWritten(s: State, s2: State, steps: seq<Step>) {
    forall t :: t in s.threads ==> t in s2.threads && s2.threads[t].delivered == Written(steps, |steps|, t)
  }
}
