/** Runs of the multi-producer ring whose image recovery refuses, or whose committed run it loses. */
module MisoImages {
  import opened Words
  import opened MisoModel
  import opened MisoInv
  import opened MisoSteps
  import opened MisoTheorems
  import opened MisoRecovery

  datatype Trace = Trace(run: seq<State>, steps: seq<Step>)

  ghost predicate Leads(tr: Trace, last: State) {
    IsRun(tr.run, tr.steps) && tr.run[|tr.steps|] == last
  }

  /** Producer 0 is known to a ring of 16 blocks with small cursors; it alone moves below. */
  ghost predicate Alone(s: State) {
    s.n == |s.mem| == 16 && 0 in s.prods && s.w <= 64
  }

  lemma AloneWindow(s: State)
    requires Alone(s)
    ensures Window(s)
  {
  }

  lemma On(tr: Trace, s: State, step: Step, s': State) returns (tr': Trace)
    requires Leads(tr, s) && Window(s) && Next(s, s', step)
    ensures Leads(tr', s') && tr'.steps == tr.steps + [step] && tr'.run[|tr.steps|] == s
  {
    hide Next, Window;
    tr' := Trace(tr.run + [s'], tr.steps + [step]);
    forall i | 0 <= i < |tr'.steps| ensures Window(tr'.run[i]) && Next(tr'.run[i], tr'.run[i + 1], tr'.steps[i]) {
      if i < |tr.steps| {
        assert Window(tr.run[i]) && Next(tr.run[i], tr.run[i + 1], tr.steps[i]);
      }
    }
  }

  lemma Invariant(tr: Trace, s: State)
    requires Leads(tr, s)
    ensures Inv(s)
  {
    hide Inv, Next;
    RunInv(tr.run, tr.steps, |tr.steps|);
  }

  /** An empty ring of 16 blocks, and producer 0 known to it. */
  lemma Begin() returns (tr: Trace, s: State)
    ensures Leads(tr, s) && Alone(s) && s.prods == map[0 := Producer(0, Out)] && s.reader == Idle
    ensures s.w == s.r == s.rc == s.k == 0 && s.res == []
  {
    var s0 := State(16, seq(16, i => Cell(0, 0, 0, [])), 0, 0, 0, map[], Idle, 0, [], 0, []);
    s := s0.(prods := map[0 := Producer(0, Out)]);
    assert Window(s0) && Next(s0, s, PEnlist(0));
    tr := Trace([s0, s], [PEnlist(0)]);
  }

  /** Producer 0 reserves the blocks for `size` and writes their number. */
  lemma Reserved(tr: Trace, s: State, size: nat) returns (tr': Trace, s': State)
    requires Leads(tr, s) && Alone(s) && s.prods[0].pc == Out && size <= 888 && s.w <= 40
    requires s.prods[0].ref <= s.r <= s.w && s.w + Need(size) < s.r + 16
    ensures Leads(tr', s') && Alone(s') && s'.prods[0].pc == Busy(|s.res|, false) && s'.w == s.w + Need(size)
    ensures s' == s.(w := s'.w, mem := s'.mem, prods := s.prods[0 := s'.prods[0]], res := s'.res)
    ensures s'.res == s.res + [Resv(s.w, Need(size), size, 0, Numbered, Chunk(0, [], []))]
  {
    hide Leads;
    AloneWindow(s);
    var s1 := s.(prods := s.prods[0 := s.prods[0].(pc := Pre(s.w, size))]);
    var t1 := On(tr, s, PStart(0, size), s1);
    AloneWindow(s1);
    var late := U32(s.w + Need(size) - s.prods[0].ref) > 16;
    var s2 := s1.(prods := s.prods[0 := Producer(if late then s.r else s.prods[0].ref, Go(size))]);
    var t2 := On(t1, s1, PPass(0), s2);
    tr', s' := Accepted16(t2, s2, size);
  }

  /** The fetch-and-add, one reload where the cached read cursor is too old, and the acceptance. */
  lemma Accepted16(tr: Trace, s: State, size: nat) returns (tr': Trace, s': State)
    requires Leads(tr, s) && Alone(s) && s.prods[0].pc == Go(size) && size <= 888 && s.w <= 40
    requires s.prods[0].ref <= s.r <= s.w && s.w + Need(size) < s.r + 16
    ensures Leads(tr', s') && Alone(s') && s'.prods[0].pc == Busy(|s.res|, false) && s'.w == s.w + Need(size)
    ensures s' == s.(w := s'.w, mem := s'.mem, prods := s.prods[0 := s'.prods[0]], res := s'.res)
    ensures s'.res == s.res + [Resv(s.w, Need(size), size, 0, Numbered, Chunk(0, [], []))]
  {
    hide Leads;
    var x := Resv(s.w, Need(size), size, 0, Tentative, Chunk(0, [], []));
    var s1 := s.(w := s.w + Need(size), res := s.res + [x], prods := s.prods[0 := s.prods[0].(pc := Busy(|s.res|, false))]);
    AloneWindow(s);
    var t1 := On(tr, s, PFetchAdd(0), s1);
    var t2, s2 := Fresh16(t1, s1, x);
    assert s2.prods == s.prods[0 := s2.prods[0]];
    tr', s' := Numbered16(t2, s2, x);
  }

  /** The cached read cursor is brought up to date if it must be. */
  lemma Fresh16(tr: Trace, s: State, x: Resv) returns (tr': Trace, s': State)
    requires Leads(tr, s) && Alone(s) && |s.res| > 0 && x == s.res[|s.res| - 1] && x.phase == Tentative
    requires s.prods[0].pc == Busy(|s.res| - 1, false) && s.prods[0].ref <= s.r <= x.start && End(x) < s.r + 16
    ensures Leads(tr', s') && Alone(s') && s' == s.(prods := s.prods[0 := s'.prods[0]]) && s'.prods[0].pc == s.prods[0].pc
    ensures U32(End(x) - s'.prods[0].ref) < 16
  {
    hide Leads;
    tr', s' := tr, s;
    if U32(End(x) - s.prods[0].ref) >= 16 {
      AloneWindow(s);
      s' := s.(prods := s.prods[0 := Producer(s.r, s.prods[0].pc)]);
      tr' := On(tr, s, PReload(0), s');
    }
  }

  lemma Numbered16(tr: Trace, s: State, x: Resv) returns (tr': Trace, s': State)
    requires Leads(tr, s) && Alone(s) && |s.res| > 0 && x == s.res[|s.res| - 1] && x.phase == Tentative
    requires s.prods[0].pc == Busy(|s.res| - 1, false) && U32(End(x) - s.prods[0].ref) < 16
    ensures Leads(tr', s') && Alone(s') && s' == s.(mem := s'.mem, res := s.res[|s.res| - 1 := x.(phase := Numbered)])
  {
    hide Leads;
    var n := |s.res| - 1;
    AloneWindow(s);
    var s1 := s.(res := s.res[n := x.(phase := Owned)]);
    var t1 := On(tr, s, PAccept(0), s1);
    AloneWindow(s1);
    s' := s1.(mem := s1.mem[x.start % 16 := s1.mem[x.start % 16].(num := x.len, status := UNUSED)],
              res := s.res[n := x.(phase := Numbered)]);
    tr' := On(t1, s1, PPutNum(0), s');
  }

  /** A reservation that does not cross the ring's end is committed. */
  lemma Committed(tr: Trace, s: State, x: Resv) returns (tr': Trace, s': State)
    requires Leads(tr, s) && Alone(s) && |s.res| > 0 && s.prods[0].pc == Busy(|s.res| - 1, false)
    requires x == s.res[|s.res| - 1] && x.phase == Numbered && x.start % 16 + x.len <= 16 && x.len > 0
    ensures Leads(tr', s') && Alone(s') && s'.prods[0].pc == Out && s'.prods[0].ref <= s'.r
    ensures s' == s.(mem := s'.mem, prods := s.prods[0 := s'.prods[0]], res := s'.res)
    ensures |s'.res| == |s.res| && s'.res == s.res[|s.res| - 1 := x.(phase := Done, chunk := s'.res[|s.res| - 1].chunk)]
  {
    hide Leads;
    var n := |s.res| - 1;
    AloneWindow(s);
    var s2 := s.(mem := s.mem[x.start % 16 := s.mem[x.start % 16].(size := x.size)], res := s.res[n := x.(phase := Writing)]);
    var t2 := On(tr, s, PPutSize(0), s2);
    AloneWindow(s2);
    s' := s2.(mem := s2.mem[x.start % 16 := s2.mem[x.start % 16].(status := USED)],
              res := s2.res[n := x.(phase := Done, chunk := ChunkAt(s2.mem, x.start % 16, x.len))],
              prods := s2.prods[0 := s2.prods[0].(pc := Out)]);
    tr' := On(t2, s2, PCommit(0), s');
    Invariant(tr', s');
    KnowsCursor(s');
  }

  lemma Written(tr: Trace, s: State, size: nat) returns (tr': Trace, s': State)
    requires Leads(tr, s) && Alone(s) && s.prods[0].pc == Out && size <= 888 && s.w <= 40
    requires s.prods[0].ref <= s.r <= s.w && s.w + Need(size) < s.r + 16 && s.w % 16 + Need(size) <= 16
    ensures Leads(tr', s') && Alone(s') && s'.prods[0].pc == Out && s'.prods[0].ref <= s.r && s'.w == s.w + Need(size)
    ensures s' == s.(w := s'.w, mem := s'.mem, prods := s.prods[0 := s'.prods[0]], res := s'.res) && |s'.res| == |s.res| + 1
    ensures s'.res[..|s.res|] == s.res && s'.res[|s.res|] == Resv(s.w, Need(size), size, 0, Done, s'.res[|s.res|].chunk)
  {
    hide Leads;
    var t1, s1 := Reserved(tr, s, size);
    tr', s' := Committed(t1, s1, s1.res[|s.res|]);
  }

  /** A reservation across the ring's end is published as a wrap chunk, and the producer tries again. */
  lemma Wrapped(tr: Trace, s: State, size: nat) returns (tr': Trace, s': State)
    requires Leads(tr, s) && Alone(s) && s.prods[0].pc == Out && size <= 888 && s.w <= 40
    requires s.prods[0].ref <= s.r <= s.w && s.w + Need(size) < s.r + 16 && s.w % 16 + Need(size) > 16
    ensures Leads(tr', s') && Alone(s') && s'.prods[0].pc == Pre(s.w, size) && s'.prods[0].ref <= s.r && s'.w == s.w + Need(size)
    ensures s' == s.(w := s'.w, mem := s'.mem, prods := s.prods[0 := s'.prods[0]], res := s'.res)
    ensures s'.res == s.res + [Resv(s.w, Need(size), size, 0, Skip, Chunk(0, [], []))]
  {
    hide Leads;
    var t1, s1 := Reserved(tr, s, size);
    AloneWindow(s1);
    var x, n := s1.res[|s.res|], |s.res|;
    s' := s1.(mem := s1.mem[x.start % 16 := s1.mem[x.start % 16].(status := INVALID)], res := s.res + [x.(phase := Skip)],
              prods := s1.prods[0 := s1.prods[0].(pc := Pre(x.start, x.size))]);
    assert s'.res == s1.res[n := x.(phase := Skip)];
    tr' := On(t1, s1, PWrap(0), s');
    Invariant(tr', s');
    KnowsCursor(s');
  }

  lemma KnowsCursor(s: State)
    requires Inv(s) && 0 in s.prods
    ensures s.prods[0].ref <= s.r
  {
    hide ResvOk, FreeClean, ReadOk, Tiled;
    assert ProdOk(s, 0);
  }

  /** An empty chunk: one block, size 0. */
  lemma EmptyChunkRefused() returns (run: seq<State>, steps: seq<Step>)
    ensures IsRun(run, steps) && Inv(run[|steps|]) && run[|steps|].n == |run[|steps|].mem| == 16
    ensures var s := run[|steps|]; ParseFrom(s.mem, U32(s.rc) % 16, U32(s.rc) % 16) == Refused
    ensures var s := run[|steps|]; |s.res| == 1 && s.res[0].phase == Done && s.res[0].size == 0 && s.k == 0
  {
    hide Inv, Next, ParseFrom;
    var t0, s0 := Begin();
    var t1, s := Written(t0, s0, 0);
    run, steps := t1.run, t1.steps;
    Invariant(t1, s);
    assert !Parses(16, s.res[0]) && RunEnd(s, 0) == 1;
    RecoversCommittedRun(s);
  }

  // ---------------------------------------------------------------- reading

  /** The reader takes and returns the committed chunk it stands at, clears its blocks and publishes its cursor. */
  lemma ReadOne(tr: Trace, s: State) returns (tr': Trace, s': State)
    requires Leads(tr, s) && Alone(s) && s.reader == Idle && s.r == s.rc <= s.w && s.k < |s.res|
    requires s.res[s.k].phase == Done && 4 <= s.res[s.k].len <= 16
    ensures Leads(tr', s') && Alone(s') && s'.reader == Idle && s'.r == s'.rc == s.rc + s.res[s.k].len && s'.k == s.k + 1
    ensures s'.w == s.w && s'.prods == s.prods && s'.res == s.res
  {
    hide Leads, Inv, Chunks;
    Invariant(tr, s);
    StatusExact(s);
    HeadChunk(s);
    AloneWindow(s);
    var c := ChunkAt(s.mem, s.rc % 16, s.res[s.k].len);
    var s1 := s.(reader := Got(c));
    var t1 := On(tr, s, RSeeUsed, s1);
    AloneWindow(s1);
    var s2 := s1.(rc := s.rc + s.res[s.k].len, k := s.k + 1, delivered := s.delivered + [c], reader := Clearing(0));
    var t2 := On(t1, s1, RReturn, s2);
    var t3, s3 := ClearedAll(t2, s2);
    AloneWindow(s3);
    s' := s3.(r := s3.rc, reader := Idle);
    tr' := On(t3, s3, RPublish, s');
  }

  lemma {:induction false} ClearedAll(tr: Trace, s: State) returns (tr': Trace, s': State)
    requires Leads(tr, s) && Alone(s) && s.reader.Clearing? && s.r <= s.rc <= s.r + 16 && s.reader.i <= s.rc - s.r
    ensures Leads(tr', s') && Alone(s') && s' == s.(mem := s'.mem, reader := Clearing(s.rc - s.r))
    decreases s.rc - s.r - s.reader.i
  {
    hide Leads;
    if s.reader.i == s.rc - s.r {
      tr', s' := tr, s;
    } else {
      AloneWindow(s);
      var c := (s.r + s.reader.i) % 16;
      var s1 := s.(mem := s.mem[c := s.mem[c].(status := UNUSED)], reader := Clearing(s.reader.i + 1));
      var t1 := On(tr, s, RClearOne, s1);
      tr', s' := ClearedAll(t1, s1);
    }
  }

  // ---------------------------------------------------------------- a long wrap chunk

  /** Twelve blocks are written and read, so the write cursor stands four blocks before the ring's end. */
  lemma FourLeft() returns (tr: Trace, s: State)
    ensures Leads(tr, s) && Alone(s) && s.reader == Idle && s.w == s.r == s.rc == 12 && s.k == |s.res| == 1
    ensures s.prods[0].pc == Out && s.prods[0].ref <= s.r && s.prods.Keys == {0}
  {
    hide Leads;
    var t0, s0 := Begin();
    assert Need(760) == 12;
    var t1, s1 := Written(t0, s0, 760);
    tr, s := ReadOne(t1, s1);
  }

  /** A wrap chunk of 14 blocks: the parser's test of its length behind its own end fails. */
  lemma LongWrapRefused() returns (run: seq<State>, steps: seq<Step>)
    ensures IsRun(run, steps) && Inv(run[|steps|]) && run[|steps|].n == |run[|steps|].mem| == 16 && run[|steps|].reader == Idle
    ensures var s := run[|steps|]; ParseFrom(s.mem, U32(s.rc) % 16, U32(s.rc) % 16) == Refused
  {
    hide Inv, Next, ParseFrom;
    var t0, s0 := FourLeft();
    assert Need(888) == 14;
    var t1, s := Wrapped(t0, s0, 888);
    run, steps := t1.run, t1.steps;
    Invariant(t1, s);
    assert s.res[1] == Resv(12, 14, 888, 0, Skip, Chunk(0, [], []));
    assert !Parses(16, s.res[1]) && RunEnd(s, 1) == RunEnd(s, 2) == 2;
    RecoversCommittedRun(s);
  }

  /**
   A committed chunk behind a wrap chunk the reader is just skipping: at that moment the image gives an empty ring.
   */
  lemma SkipLosesChunk() returns (run: seq<State>, steps: seq<Step>)
    ensures IsRun(run, steps) && Inv(run[|steps|]) && run[|steps|].n == |run[|steps|].mem| == 16
    ensures var s := run[|steps|];
      && s.reader.Skipping? && s.k == 1 && |s.res| == 3 && s.res[2].phase == Done && s.res[2].size == 400
      && ParseFrom(s.mem, U32(s.rc) % 16, U32(s.rc) % 16) == Parsed(U32(s.rc) % 16)
  {
    hide Inv, ParseFrom, IsRun;
    var t0, s0 := FourLeft();
    assert Need(400) == 7;
    var t1, s1 := Wrapped(t0, s0, 400);
    var t2, s2 := AgainWritten(t1, s1);
    Invariant(t2, s2);
    StatusExact(s2);
    AloneWindow(s2);
    var s := s2.(mem := s2.mem[s2.rc % 16 := s2.mem[s2.rc % 16].(status := UNUSED)],
                 reader := Skipping(s2.mem[s2.rc % 16].num), res := s2.res[1 := s2.res[1].(phase := Passing)]);
    var t3 := On(t2, s2, RSkipClear, s);
    run, steps := t3.run, t3.steps;
    Invariant(t3, s);
    SkippingLosesRun(s);
  }

  /** The second try of the producer, from block 3 on. */
  lemma AgainWritten(tr: Trace, s: State) returns (tr': Trace, s': State)
    requires Leads(tr, s) && Alone(s) && s.prods[0].pc == Pre(12, 400) && s.prods[0].ref <= s.r == 12 && s.w == 19 && |s.res| == 2
    ensures Leads(tr', s') && Alone(s') && s'.reader == s.reader && s'.rc == s.rc && s'.k == s.k && |s'.res| == 3 && s'.res[1] == s.res[1]
    ensures s'.res[2].phase == Done && s'.res[2].size == 400
  {
    hide Leads;
    assert Need(400) == 7;
    AloneWindow(s);
    var late := U32(19 - s.prods[0].ref) > 16;
    var s1 := s.(prods := s.prods[0 := Producer(if late then s.r else s.prods[0].ref, Go(400))]);
    var t1 := On(tr, s, PPass(0), s1);
    var t2, s2 := Accepted16(t1, s1, 400);
    tr', s' := Committed(t2, s2, s2.res[2]);
  }

  // ---------------------------------------------------------------- a producer left behind

  /** Blocks for `size` are written and read at once. */
  lemma PassedThrough(tr: Trace, s: State, size: nat) returns (tr': Trace, s': State)
    requires Leads(tr, s) && Alone(s) && s.reader == Idle && s.prods[0].pc == Out && size <= 888 && s.w <= 40
    requires s.prods[0].ref <= s.r == s.rc == s.w && s.k == |s.res| && 4 <= Need(size) < 16 && s.w % 16 + Need(size) <= 16
    ensures Leads(tr', s') && Alone(s') && s'.reader == Idle && s'.prods[0].pc == Out && s'.prods == s.prods[0 := s'.prods[0]]
    ensures s'.prods[0].ref <= s'.r == s'.rc == s'.w == s.w + Need(size) && s'.k == |s'.res|
  {
    hide Leads;
    var t1, s1 := Written(tr, s, size);
    tr', s' := ReadOne(t1, s1);
  }

  /**
   A ring with nothing in it refuses 7 of its 16 blocks: producer 1 has loaded the write cursor 12, others then have written
   and the reader has published up to 24, and 19 - 24 is a large number in 32 bits.
   */
  lemma StaleRefused() returns (run: seq<State>, steps: seq<Step>)
    ensures IsRun(run, steps) && |steps| > 0 && steps[|steps| - 1] == PRefuse(1)
    ensures var s := run[|steps| - 1]; 1 in s.prods && s.prods[1].pc == Pre(12, 400) && s.n == 16 && s.w == s.r == s.rc == 24 && s.k == |s.res|
  {
    var t0, s0 := Begin();
    assert Need(760) == 12 && Need(248) == 4 && Need(500) == 8 && Need(400) == 7;
    var s1 := s0.(prods := s0.prods[1 := Producer(0, Out)]);
    var t1 := On(t0, s0, PEnlist(1), s1);
    var t2, s2 := PassedThrough(t1, s1, 760);
    var s3 := s2.(prods := s2.prods[1 := Producer(0, Pre(12, 400))]);
    var t3 := On(t2, s2, PStart(1, 400), s3);
    var t4, s4 := PassedThrough(t3, s3, 248);
    var t5, s5 := PassedThrough(t4, s4, 500);
    var t6 := LeftBehind(t5, s5);
    run, steps := t6.run, t6.steps;
  }

  lemma LeftBehind(tr: Trace, s: State) returns (tr': Trace)
    requires Leads(tr, s) && Alone(s) && 1 in s.prods && s.prods[1] == Producer(0, Pre(12, 400)) && s.r == s.w == 24
    ensures Leads(tr', s.(prods := s.prods[1 := Producer(24, Out)])) && tr'.steps == tr.steps + [PRefuse(1)] && tr'.run[|tr.steps|] == s
  {
    hide Leads;
    AloneWindow(s);
    assert Need(400) == 7;
    tr' := On(tr, s, PRefuse(1), s.(prods := s.prods[1 := Producer(24, Out)]));
  }
}
