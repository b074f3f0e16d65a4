/**
 A run that loses a record. Thread 0 writes and has read all but the last two numbers before the 32-bit wrap, then
 writes three oversize records: A into a new side buffer 0, B, the last number of the wrap, into a new side buffer 1,
 and, once A is read and buffer 0 has room again, C, the first number of the next wrap, into buffer 0. Looking for B's
 payload the reader meets C's in front of it, takes it for stale and throws it away; C's parent then finds nothing.
 */
module LogBufferLoss {
  import opened Words
  import opened LogBufferModel
  import opened LogBufferHistory
  import opened LogBufferInv
  import opened LogBufferReader
  import opened LogBufferTheorems

  /** Run and steps, from the empty buffer on. */
  datatype Trace = Trace(run: seq<State>, steps: seq<Step>)

  ghost predicate Leads(tr: Trace, last: State) {
    IsRun(tr.run, tr.steps) && tr.run[|tr.steps|] == last
  }

  /** Nothing was thrown away so far, or it had been before. */
  ghost predicate Spares(tr: Trace, tr': Trace) {
    NoDrop(tr.steps, |tr.steps|) ==> NoDrop(tr'.steps, |tr'.steps|)
  }

  /** Thread 0 is the only one and has few numbers outstanding. */
  ghost predicate Alone(s: State) {
    s.threads.Keys == {0} && s.threads[0].wseq <= s.threads[0].rseq + 9 && !s.threads[0].freed
  }

  lemma AloneOutstanding(s: State)
    requires Alone(s)
    ensures Outstanding(s)
  {
    forall t | t in s.threads ensures s.threads[t].wseq - s.threads[t].rseq <= TWO32 {
      assert t in s.threads.Keys;
    }
  }

  lemma On(tr: Trace, s: State, step: Step, s': State) returns (tr': Trace)
    requires Leads(tr, s) && Alone(s) && Next(s, s', step)
    ensures Leads(tr', s') && (!step.RSideDrop? ==> Spares(tr, tr'))
  {
    hide Next, Outstanding;
    AloneOutstanding(s);
    tr' := Trace(tr.run + [s'], tr.steps + [step]);
    forall i | 0 <= i < |tr'.steps| ensures Outstanding(tr'.run[i]) && Next(tr'.run[i], tr'.run[i + 1], tr'.steps[i]) {
      if i < |tr.steps| {
        assert Outstanding(tr.run[i]) && Next(tr.run[i], tr.run[i + 1], tr.steps[i]);
      }
    }
  }

  /** Thread and reader are between calls. */
  ghost predicate Rest(s: State) {
    Alone(s) && s.reader == Scan && s.threads[0].pc == Idle && s.threads[0].cur == None && s.head <= |s.lp|
  }

  // ---------------------------------------------------------------- plain records

  /** One record is written and read. */
  lemma Plainly(tr: Trace, s: State, rec: Record) returns (tr': Trace, s': State)
    requires Leads(tr, s) && Rest(s) && s.head == |s.lp| && s.threads[0].wseq == s.threads[0].rseq
    ensures Leads(tr', s') && Spares(tr, tr') && Rest(s') && s'.head == |s'.lp| && s'.sides == s.sides && s'.order == s.order
    ensures var w, w' := s.threads[0], s'.threads[0];
      && w'.wseq == w'.rseq == w.wseq + 1 && w'.committed == w.committed + [rec] && w'.delivered == w.delivered + [rec]
  {
    hide Leads;
    var t2, s2 := PlainWritten(tr, s, rec);
    var s3 := s2.(reader := LpOut, threads := s2.threads[0 := Deliver(s2.threads[0], rec)]);
    var t3 := On(t2, s2, RLpTake, s3);
    s' := s3.(reader := Scan, head := s3.head + 1, threads := s3.threads[0 := Deregister(s3.threads[0], false)]);
    tr' := On(t3, s3, RLpReturn, s');
  }

  lemma PlainWritten(tr: Trace, s: State, rec: Record) returns (tr': Trace, s': State)
    requires Leads(tr, s) && Rest(s) && s.head == |s.lp| && s.threads[0].wseq == s.threads[0].rseq
    ensures Leads(tr', s') && Spares(tr, tr') && Rest(s') && s'.head == s.head && s'.sides == s.sides && s'.order == s.order
    ensures s'.lp == s.lp + [LpEntry(0, s.threads[0].wseq, Plain(rec), true)]
    ensures var w, w' := s.threads[0], s'.threads[0];
      && w'.wseq == w.wseq + 1 && w'.rseq == w.rseq && w'.committed == w.committed + [rec] && w'.delivered == w.delivered
  {
    hide Leads;
    var w, n := s.threads[0], |s.lp|;
    var s1 := s.(lp := s.lp + [LpEntry(0, w.wseq, Plain(rec), false)],
                 threads := s.threads[0 := w.(wseq := w.wseq + 1, pc := LpHeld(n), units := w.units + [LpUnit(n, [])])]);
    var t1 := On(tr, s, WLpReserve(0, Plain(rec)), s1);
    var w1 := s1.threads[0];
    s' := s1.(lp := s1.lp[n := s1.lp[n].(committed := true)],
              threads := s1.threads[0 := w1.(pc := Idle, units := w1.units[|w1.units| - 1 := LpUnit(n, [rec])],
                                             committed := w1.committed + [rec])]);
    tr' := On(t1, s1, WLpCommit(0), s');
  }

  /** Thread 0 has written `n` records and the reader has read them. */
  lemma {:induction false} Pumped(n: nat) returns (tr: Trace, s: State)
    ensures Leads(tr, s) && NoDrop(tr.steps, |tr.steps|) && Rest(s) && s.head == |s.lp| && s.sides == map[] && s.order == []
    ensures s.threads[0].wseq == s.threads[0].rseq == n && s.threads[0].delivered == s.threads[0].committed
  {
    hide Leads;
    if n == 0 {
      tr, s := Begin();
    } else {
      var t0, s0 := Pumped(n - 1);
      tr, s := Plainly(t0, s0, []);
    }
  }

  lemma Begin() returns (tr: Trace, s: State)
    ensures Leads(tr, s) && NoDrop(tr.steps, |tr.steps|) && Rest(s) && s.head == |s.lp| && s.sides == map[] && s.order == []
    ensures s.threads[0].wseq == s.threads[0].rseq == 0 && s.threads[0].delivered == s.threads[0].committed
  {
    var s0 := State(map[], [], 0, map[], map[], [], None, Scan);
    s := s0.(threads := map[0 := Thread(0, 0, None, Idle, false, [], [], [])]);
    tr := Trace([s0, s], [WJoin(0)]);
    assert Next(s0, s, WJoin(0));
  }

  // ---------------------------------------------------------------- oversize records

  ghost function QueueOf(s: State, d: nat): seq<Item> {
    if d in s.sides then s.sides[d].queue else []
  }

  /** An oversize record is written into side buffer `d`, which is there already or new. */
  lemma Externally(tr: Trace, s: State, rec: Record, d: nat) returns (tr': Trace, s': State)
    requires Leads(tr, s) && Rest(s) && s.threads[0].wseq < s.threads[0].rseq + 9
    requires d in s.sides ==> s.sides[d] == Side(0, s.sides[d].queue, false, false)
    ensures Leads(tr', s') && Spares(tr, tr') && Rest(s') && s'.head == s.head
    ensures s'.lp == s.lp + [LpEntry(0, s.threads[0].wseq, External(rec, Some(d)), true)]
    ensures s'.sides == s.sides[d := Side(0, QueueOf(s, d) + [Item(s.threads[0].wseq, rec)], false, false)]
    ensures s'.order == if d in s.sides then s.order else s.order + [d]
    ensures var w, w' := s.threads[0], s'.threads[0];
      && w'.wseq == w.wseq + 1 && w'.rseq == w.rseq && w'.committed == w.committed + [rec] && w'.delivered == w.delivered
  {
    hide Leads;
    var w, n, q := s.threads[0], |s.lp|, QueueOf(s, d);
    var s1 := s.(lp := s.lp + [LpEntry(0, w.wseq, External(rec, None), false)],
                 threads := s.threads[0 := w.(wseq := w.wseq + 1, pc := LpHeld(n), units := w.units + [LpUnit(n, [])])]);
    var t1 := On(tr, s, WLpReserve(0, External(rec, None)), s1);
    tr', s' := Stored(t1, s1, rec, d, n);
  }

  lemma Stored(tr: Trace, s: State, rec: Record, d: nat, n: nat) returns (tr': Trace, s': State)
    requires Leads(tr, s) && Alone(s) && s.reader == Scan && s.threads[0].pc == LpHeld(n) && s.threads[0].cur == None
    requires s.threads[0].wseq > 0 && |s.lp| == n + 1 && s.lp[n] == LpEntry(0, s.threads[0].wseq - 1, External(rec, None), false) && s.head <= n
    requires |s.threads[0].units| > 0 && (d in s.sides ==> s.sides[d] == Side(0, s.sides[d].queue, false, false))
    ensures Leads(tr', s') && Spares(tr, tr') && Rest(s') && s'.head == s.head
    ensures s'.lp == s.lp[..n] + [LpEntry(0, s.threads[0].wseq - 1, External(rec, Some(d)), true)]
    ensures s'.sides == s.sides[d := Side(0, QueueOf(s, d) + [Item(s.threads[0].wseq - 1, rec)], false, false)]
    ensures s'.order == if d in s.sides then s.order else s.order + [d]
    ensures var w, w' := s.threads[0], s'.threads[0];
      && w'.wseq == w.wseq && w'.rseq == w.rseq && w'.committed == w.committed + [rec] && w'.delivered == w.delivered
  {
    hide Leads;
    var w, q := s.threads[0], QueueOf(s, d);
    var s2 := s.(sides := s.sides[d := Side(0, q, true, false)], order := if d in s.sides then s.order else s.order + [d],
                 threads := s.threads[0 := w.(pc := OsHeld(n, d))]);
    var t2 := On(tr, s, WOsAcquire(0, d), s2);
    tr', s' := Finished(t2, s2, rec, d, n);
  }

  lemma Finished(tr: Trace, s: State, rec: Record, d: nat, n: nat) returns (tr': Trace, s': State)
    requires Leads(tr, s) && Alone(s) && s.reader == Scan && s.threads[0].pc == OsHeld(n, d) && s.threads[0].cur == None
    requires s.threads[0].wseq > 0 && |s.lp| == n + 1 && s.lp[n] == LpEntry(0, s.threads[0].wseq - 1, External(rec, None), false) && s.head <= n
    requires |s.threads[0].units| > 0 && d in s.sides && s.sides[d] == Side(0, s.sides[d].queue, true, false)
    ensures Leads(tr', s') && Spares(tr, tr') && Rest(s') && s'.head == s.head && s'.order == s.order
    ensures s'.lp == s.lp[..n] + [LpEntry(0, s.threads[0].wseq - 1, External(rec, Some(d)), true)]
    ensures s'.sides == s.sides[d := Side(0, s.sides[d].queue + [Item(s.threads[0].wseq - 1, rec)], false, false)]
    ensures var w, w' := s.threads[0], s'.threads[0];
      && w'.wseq == w.wseq && w'.rseq == w.rseq && w'.committed == w.committed + [rec] && w'.delivered == w.delivered
  {
    hide Leads;
    var w, q := s.threads[0], s.sides[d].queue;
    var s3 := s.(sides := s.sides[d := Side(0, q + [Item(w.wseq - 1, rec)], false, false)],
                 lp := s.lp[n := LpEntry(0, w.wseq - 1, External(rec, Some(d)), false)],
                 threads := s.threads[0 := w.(pc := OsStored(n))]);
    var t3 := On(tr, s, WOsStore(0), s3);
    s' := s3.(lp := s3.lp[n := LpEntry(0, w.wseq - 1, External(rec, Some(d)), true)],
              threads := s3.threads[0 := w.(pc := Idle, units := w.units[|w.units| - 1 := LpUnit(n, [rec])],
                                            committed := w.committed + [rec])]);
    tr' := On(t3, s3, WLpCommit(0), s');
  }

  /** The LP head is the committed parent the thread is being read at. */
  ghost predicate ParentNext(s: State) {
    && Alone(s) && s.head < |s.lp| && s.lp[s.head].tid == 0 && s.lp[s.head].committed && s.lp[s.head].kind.External?
    && s.lp[s.head].seq_ == s.threads[0].rseq
  }

  lemma Sought(tr: Trace, s: State) returns (tr': Trace)
    requires Leads(tr, s) && ParentNext(s) && s.reader == Scan
    ensures Leads(tr', s.(reader := Seek(0))) && Spares(tr, tr')
  {
    hide Leads;
    tr' := On(tr, s, RSeek, s.(reader := Seek(0)));
  }

  /** The search stands at the first buffer with the parent's payload in front: it is handed out and returned. */
  lemma Taken(tr: Trace, s: State, d: nat) returns (tr': Trace, s': State)
    requires Leads(tr, s) && ParentNext(s) && Visits(s, d) && s.threads[0].pc == Idle && s.threads[0].cur == None
    requires s.sides[d].owner == 0 && |s.sides[d].queue| > 0 && s.sides[d].queue[0].seq_ == s.lp[s.head].seq_
    ensures Leads(tr', s') && Spares(tr, tr') && Rest(s') && s'.head == s.head + 1 && s'.lp == s.lp && s'.order == s.order
    ensures s'.sides == s.sides[d := s.sides[d].(queue := s.sides[d].queue[1..])]
    ensures var w, w' := s.threads[0], s'.threads[0];
      && w'.wseq == w.wseq && w'.rseq == w.rseq + 1 && w'.committed == w.committed
      && w'.delivered == w.delivered + [s.sides[d].queue[0].rec]
  {
    hide Leads;
    var s1 := s.(reader := SideOut(d), target := Some(d), threads := s.threads[0 := Deliver(s.threads[0], s.sides[d].queue[0].rec)]);
    var t1 := On(tr, s, RLpTakeExternal(d), s1);
    s' := s1.(reader := Scan, head := s.head + 1, sides := s1.sides[d := s1.sides[d].(queue := s1.sides[d].queue[1..])],
              threads := s1.threads[0 := Deregister(s1.threads[0], false)]);
    tr' := On(t1, s1, RSideReturn, s');
  }

  /** Past a buffer with nothing in it. */
  lemma PastEmpty(tr: Trace, s: State, d: nat) returns (tr': Trace)
    requires Leads(tr, s) && ParentNext(s) && Visits(s, d) && s.sides[d].queue == []
    ensures Leads(tr', s.(reader := Seek(s.reader.at + 1)))
  {
    hide Leads;
    tr' := On(tr, s, RSeekOn(d), s.(reader := Seek(s.reader.at + 1)));
  }

  // ---------------------------------------------------------------- the run

  const A: Record := [1]
  const B: Record := [2]
  const C: Record := [3]
  const D: Record := [4]

  /** The parents of B and C are left, and C's payload stands in front of B's. */
  ghost predicate Poised(s: State, done: seq<Record>) {
    && Rest(s) && s.order == [0, 1] && s.sides.Keys == {0, 1} && s.head + 2 == |s.lp|
    && s.sides[0] == Side(0, [Item(TWO32, C)], false, false) && s.sides[1] == Side(0, [Item(TWO32 - 1, B)], false, false)
    && s.lp[s.head] == LpEntry(0, TWO32 - 1, External(B, Some(1)), true)
    && s.lp[s.head + 1] == LpEntry(0, TWO32, External(C, Some(0)), true)
    && s.threads[0].rseq == TWO32 - 1 && s.threads[0].wseq == TWO32 + 1
    && s.threads[0].delivered == done + [A] && s.threads[0].committed == done + [A, B, C]
  }

  lemma CInFront() returns (tr: Trace, s: State, done: seq<Record>)
    ensures Leads(tr, s) && NoDrop(tr.steps, |tr.steps|) && Poised(s, done)
  {
    hide Leads;
    var t0, s0 := Pumped(TWO32 - 2);
    done := s0.threads[0].delivered;
    var t1, s1 := Externally(t0, s0, A, 0);
    var t2, s2 := Externally(t1, s1, B, 1);
    assert s2.order == [0, 1] && s2.sides[0].queue == [Item(TWO32 - 2, A)] && s2.sides[1].queue == [Item(TWO32 - 1, B)];
    var t3 := Sought(t2, s2);
    var t4, s4 := Taken(t3, s2.(reader := Seek(0)), 0);
    assert s4.sides[0].queue == [];
    tr, s := Externally(t4, s4, C, 0);
    assert s.threads[0].committed == done + [A, B, C];
  }

  /** C's payload is gone, and its parent is next. */
  ghost predicate Lost(s: State, done: seq<Record>) {
    && Rest(s) && s.order == [0, 1] && s.sides.Keys == {0, 1} && s.head + 1 == |s.lp|
    && s.sides[0] == Side(0, [], false, false) && s.sides[1] == Side(0, [], false, false)
    && s.lp[s.head] == LpEntry(0, TWO32, External(C, Some(0)), true)
    && s.threads[0].rseq == TWO32 && s.threads[0].wseq == TWO32 + 1
    && s.threads[0].delivered == done + [A, B] && s.threads[0].committed == done + [A, B, C]
  }

  lemma CDropped(tr: Trace, s: State, done: seq<Record>) returns (tr': Trace, s': State)
    requires Leads(tr, s) && Poised(s, done)
    ensures Leads(tr', s') && Lost(s', done)
  {
    hide Leads;
    var t1 := Sought(tr, s);
    var s1 := s.(reader := Seek(0));
    var s2 := s1.(sides := s.sides[0 := Side(0, [], false, false)]);
    StaleVerdictExact(TWO32 - 1, TWO32);
    assert s1.sides[0].queue[1..] == [];
    var t2 := On(t1, s1, RSideDrop(0), s2);
    var t3 := PastEmpty(t2, s2, 0);
    tr', s' := Taken(t3, s2.(reader := Seek(1)), 1);
    assert s'.sides[1].queue == [] && s'.threads[0].delivered == done + [A, B];
  }

  lemma CMissing(tr: Trace, s: State, done: seq<Record>) returns (tr': Trace, s': State)
    requires Leads(tr, s) && Lost(s, done)
    ensures Leads(tr', s') && Rest(s') && s'.head == |s'.lp| && s'.threads[0].wseq == s'.threads[0].rseq
    ensures s'.threads[0].delivered == done + [A, B] && s'.threads[0].committed == done + [A, B, C]
  {
    hide Leads;
    var t1 := Sought(tr, s);
    var t2 := PastEmpty(t1, s.(reader := Seek(0)), 0);
    var s2 := s.(reader := Seek(1));
    var t3 := PastEmpty(t2, s2, 1);
    var s3 := s.(reader := Seek(2));
    s' := s.(head := s.head + 1, threads := s.threads[0 := s.threads[0].(rseq := TWO32 + 1)]);
    tr' := On(t3, s3, RLpMissing, s');
  }

  /** The failing branch is reached: a state of the invariant from which the search throws a live payload away. */
  lemma DropReached() returns (run: seq<State>, steps: seq<Step>, s': State)
    ensures IsRun(run, steps) && NoDrop(steps, |steps|) && Inv(run[|steps|]) && Outstanding(run[|steps|])
    ensures SideDrop(run[|steps|], s', 0) && !Inv(s')
  {
    hide Inv, Next;
    var t0, s, done := CInFront();
    var t1 := Sought(t0, s);
    var s1 := s.(reader := Seek(0));
    run, steps, s' := t1.run, t1.steps, s1.(sides := s.sides[0 := Side(0, [], false, false)]);
    StaleVerdictExact(TWO32 - 1, TWO32);
    assert s1.sides[0].queue[1..] == [];
    AloneOutstanding(s1);
    RunInv(run, steps, |steps|);
    DropBreaks(s1, s', 0);
  }

  /** In-order delivery is false of the code: there is a run in which what is delivered is no prefix of what was committed. */
  lemma LosingRun() returns (run: seq<State>, steps: seq<Step>, done: seq<Record>)
    ensures IsRun(run, steps) && 0 in run[|steps|].threads
    ensures var w := run[|steps|].threads[0];
      && Written(steps, |steps|, 0) == w.committed == done + [A, B, C, D] && w.delivered == done + [A, B, D]
      && !(w.delivered <= w.committed)
  {
    var t0, s0, zs := CInFront();
    done := zs;
    var t1, s1 := CDropped(t0, s0, done);
    var t2, s2 := CMissing(t1, s1, done);
    var t3, s3 := Plainly(t2, s2, D);
    run, steps := t3.run, t3.steps;
    var w := s3.threads[0];
    assert w.committed == done + [A, B, C, D] && w.delivered == done + [A, B, D];
    assert w.delivered[|done| + 2] == D && w.committed[|done| + 2] == C;
    CommittedIsWritten(run, steps, |steps|, 0);
  }
}
