/** Every interleaving of one writing and one reading thread on the single-producer ring is a FIFO queue. */
module SisoRuns {
  import opened Words
  import opened SisoModel
  import opened SisoQueue

  /** The writing thread's handle. */
  datatype Writer = Idle | Open(addr: nat, size: nat)

  /** The reading thread: nothing out, one chunk out, or a batch of which these handles were given out. */
  datatype Reader = Rest | One(addr: nat, size: nat) | Batch(given: seq<Slot>)

  /** `committed` and `delivered` are what the threads themselves saw at the addresses they were given. */
  datatype Sys = Sys(ring: Ring, w: Writer, r: Reader, committed: seq<Slot>, delivered: seq<Slot>)

  /** One shared access each, so operations may interleave in any order. */
  datatype Step =
    | WAlloc(size: u32) | WRefresh | WFill(k: nat, x: byte) | WCommit
    | RRead | RReturn | RDiscard | RBatch | RNext | RBatchReturn

  function View(mem: seq<byte>, addr: nat, size: nat): Slot
    requires addr + size <= |mem|
  {
    Slot(addr, mem[addr..addr + size])
  }

  ghost predicate Next(s: Sys, s': Sys, step: Step) {
    && Shaped(s.ring)
    && match step
       case WAlloc(size) =>
         && s.w == Idle
         && s' == s.(ring := Alloc(s.ring, size).0,
                     w := if Alloc(s.ring, size).1.Granted? then Open(Alloc(s.ring, size).1.addr, size) else Idle)
       case WRefresh => s' == s.(ring := Refresh(s.ring))
       case WFill(k, x) =>
         && s.w.Open? && k < s.w.size && s.w.addr + s.w.size <= |s.ring.mem|
         && s' == s.(ring := Fill(s.ring, s.w.addr, k, x))
       case WCommit =>
         && s.w.Open? && s.w.addr + s.w.size <= |s.ring.mem|
         && s' == s.(ring := Commit(s.ring), w := Idle, committed := s.committed + [View(s.ring.mem, s.w.addr, s.w.size)])
       case RRead =>
         && s.r == Rest
         && s' == s.(ring := Read(s.ring).0,
                     r := if Read(s.ring).1.Empty? then Rest else One(Read(s.ring).1.addr, Read(s.ring).1.size))
       case RReturn =>
         && s.r.One? && s.r.addr + s.r.size <= |s.ring.mem|
         && s' == s.(ring := Return(s.ring), r := Rest, delivered := s.delivered + [View(s.ring.mem, s.r.addr, s.r.size)])
       case RDiscard => s.r.One? && s' == s.(r := Rest)
       case RBatch =>
         s.r == Rest && s' == s.(ring := LoadedWrite(s.ring), r := if LoadedWrite(s.ring).rtR == LoadedWrite(s.ring).rtW then Rest else Batch([]))
       case RNext =>
         && s.r.Batch? && s.ring.rtR != s.ring.rtW
         && var c := Payload(s.ring.mem, s.ring.n, s.ring.rtR % s.ring.n);
         s' == s.(ring := BatchNext(s.ring), r := Batch(s.r.given + [c]), delivered := s.delivered + [c])
       case RBatchReturn => s.r.Batch? && s' == s.(ring := BatchReturn(s.ring), r := Rest)
  }

  ghost predicate WriterOk(s: Sys) {
    && Inv(s.ring)
    && (s.w.Open? ==> Pending(s.ring, s.w.size) && s.w.addr == DataAt(s.ring.n, s.ring.wtW % s.ring.n, s.w.size))
  }

  /** What the reader holds is what it was given. */
  ghost predicate ReaderOk(s: Sys) {
    && Inv(s.ring)
    && (match s.r
       case Rest => Held(s.ring) == []
       case One(a, z) =>
         && Held(s.ring) == [] && s.ring.rtR != s.ring.rtW && |Unread(s.ring)| > 0
         && Unread(s.ring)[0].addr == a && |Unread(s.ring)[0].data| == z
       case Batch(given) => Held(s.ring) == given)
  }

  ghost predicate SysInv(s: Sys) {
    && Inv(s.ring) && WriterOk(s) && ReaderOk(s)
    && s.committed == s.delivered + Unread(s.ring)
  }

  lemma WriterKeeps(s: Sys, s': Sys, step: Step)
    requires SysInv(s) && Next(s, s', step) && (step.WAlloc? || step.WRefresh? || step.WFill? || step.WCommit?)
    ensures SysInv(s')
  {
    hide Inv, Payload, Load, Placeable, Blocks, DataAt, Span;
    assert Shaped(s.ring);
    match step {
      case WAlloc(size) => AllocKeeps(s.ring, size); AllocExact(s.ring, size);
      case WRefresh => RefreshKeeps(s.ring);
      case WFill(k, x) => FillKeeps(s.ring, s.w.size, k, x);
      case WCommit =>
        PendingFits(s.ring, s.w.size);
        CommitKeeps(s.ring, s.w.size);
        var c := View(s.ring.mem, s.w.addr, s.w.size);
        assert s'.committed == s'.delivered + (Unread(s.ring) + [c]);
    }
  }

  lemma UnreadIntact(s: Ring)
    requires Inv(s)
    ensures forall c :: c in Unread(s) ==> Intact(s.mem, c)
    ensures forall c :: c in Held(s) ==> Intact(s.mem, c)
  {
    ParseIntact(s.mem, s.n, s.rtR % s.n, Dist(s.rtR, s.writing));
    ParseIntact(s.mem, s.n, s.reading % s.n, Dist(s.reading, s.rtR));
  }

  lemma ReaderKeeps(s: Sys, s': Sys, step: Step)
    requires SysInv(s) && Next(s, s', step) && !(step.WAlloc? || step.WRefresh? || step.WFill? || step.WCommit?)
    ensures SysInv(s')
  {
    hide Inv, Payload, Load, Placeable, Blocks, DataAt, Span;
    assert Shaped(s.ring);
    match step {
      case RRead => ReadKeeps(s.ring);
      case RReturn =>
        ReturnKeeps(s.ring);
        UnreadIntact(s.ring);
        var c := View(s.ring.mem, s.r.addr, s.r.size);
        assert Unread(s.ring)[0] in Unread(s.ring) && Intact(s.ring.mem, Unread(s.ring)[0]);
        assert c == Unread(s.ring)[0];
        assert s'.committed == s.delivered + ([c] + Unread(s'.ring));
      case RDiscard =>
      case RBatch => ReadKeeps(s.ring);
      case RNext => NextKeeps(s.ring);
      case RBatchReturn => BatchReturnKeeps(s.ring);
    }
  }

  ghost predicate IsRun(run: seq<Sys>, steps: seq<Step>) {
    && |run| == |steps| + 1
    && CountOk(run[0].ring.n) && |run[0].ring.mem| == 8 * run[0].ring.n
    && run[0] == Sys(Ring(run[0].ring.n, run[0].ring.mem, 0, 0, 0, 0, 0, 0), Idle, Rest, [], [])
    && (forall i :: 0 <= i < |steps| ==> Next(run[i], run[i + 1], steps[i]))
  }

  lemma {:induction false} RunInv(run: seq<Sys>, steps: seq<Step>, i: nat)
    requires IsRun(run, steps) && i < |run|
    ensures SysInv(run[i])
  {
    hide SysInv, Next;
    if i == 0 {
      StartInv(run[0]);
    } else {
      RunInv(run, steps, i - 1);
      assert Next(run[i - 1], run[i - 1 + 1], steps[i - 1]);
      var step := steps[i - 1];
      if step.WAlloc? || step.WRefresh? || step.WFill? || step.WCommit? {
        WriterKeeps(run[i - 1], run[i], step);
      } else {
        ReaderKeeps(run[i - 1], run[i], step);
      }
    }
  }

  lemma StartInv(s: Sys)
    requires Shaped(s.ring) && s == Sys(Ring(s.ring.n, s.ring.mem, 0, 0, 0, 0, 0, 0), Idle, Rest, [], [])
    ensures SysInv(s)
  {
    hide Inv;
    EmptyRing(s.ring, 0);
  }

  /**
   FIFO refinement: at every point of every run what the reader got is a prefix of what the writer committed,
   bytes and addresses alike, and the ring holds exactly the rest; and every chunk in the reader's hands is
   still intact in memory.
   */
  lemma RefinesQueue(run: seq<Sys>, steps: seq<Step>, i: nat)
    requires IsRun(run, steps) && i < |run|
    ensures var s := run[i];
      && Inv(s.ring) && s.committed == s.delivered + Unread(s.ring)
      && (s.r.Batch? ==> forall c :: c in s.r.given ==> Intact(s.ring.mem, c))
      && (s.r.One? ==> |Unread(s.ring)| > 0 && s.r.addr + s.r.size <= |s.ring.mem|
                       && View(s.ring.mem, s.r.addr, s.r.size) == s.committed[|s.delivered|])
  {
    hide IsRun, Inv;
    RunInv(run, steps, i);
    UnreadIntact(run[i].ring);
    if run[i].r.One? { assert Unread(run[i].ring)[0] in Unread(run[i].ring); }
  }

  /** The reader is told "empty" only when it has received everything committed. */
  lemma EmptyMeansDrained(s: Sys, s': Sys)
    requires SysInv(s) && Next(s, s', RRead)
    ensures s'.r == Rest <==> s.delivered == s.committed
  {
    hide Inv;
    ReadKeeps(s.ring);
  }

  /**
   The writer is refused exactly when the least count of blocks that holds the chunk where it stands is more than what the
   blocks not yet returned leave.
   */
  lemma RefusedMeansFull(s: Sys, s': Sys, size: u32, b: nat)
    requires SysInv(s) && Next(s, s', WAlloc(size)) && LeastFor(s.ring.n, s.ring.wtW % s.ring.n, size, b)
    ensures s'.w == Idle <==> Used(s.ring) + b > s.ring.n
  {
    hide Inv, LeastFor;
    AllocLeast(s.ring, size, b);
  }

  // ---------------------------------------------------------------- what was written, by the steps alone

  /** The size the writer asked for last. */
  function Asked(steps: seq<Step>, n: nat): nat
    decreases n
  {
    if n == 0 || n > |steps| then 0 else if steps[n - 1].WAlloc? then steps[n - 1].size else Asked(steps, n - 1)
  }

  /** The payload bytes it has stored since. */
  function Filled(steps: seq<Step>, n: nat): map<nat, byte>
    decreases n
  {
    if n == 0 || n > |steps| || steps[n - 1].WAlloc? then map[]
    else if steps[n - 1].WFill? then Filled(steps, n - 1)[steps[n - 1].k := steps[n - 1].x]
    else Filled(steps, n - 1)
  }

  ghost predicate Agrees(s: Sys, steps: seq<Step>, n: nat) {
    s.w.Open? ==>
      && s.w.size == Asked(steps, n)
      && forall k :: k in Filled(steps, n) ==>
           k < s.w.size && s.w.addr + k < |s.ring.mem| && s.ring.mem[s.w.addr + k] == Filled(steps, n)[k]
  }

  lemma StepAgrees(s: Sys, s': Sys, steps: seq<Step>, n: nat)
    requires n < |steps| && Next(s, s', steps[n]) && Agrees(s, steps, n)
    ensures Agrees(s', steps, n + 1)
  {
    hide Payload, DataAt, Placeable, Blocks, Plus, Dist, Load, Store;
    if !steps[n].WAlloc? && !steps[n].WFill? {
      assert Asked(steps, n + 1) == Asked(steps, n) && Filled(steps, n + 1) == Filled(steps, n);
      assert s'.ring.mem == s.ring.mem && (s'.w == s.w || s'.w == Idle);
    } else if steps[n].WFill? {
      assert Asked(steps, n + 1) == Asked(steps, n) && Filled(steps, n + 1) == Filled(steps, n)[steps[n].k := steps[n].x];
    }
  }

  lemma {:induction false} RunAgrees(run: seq<Sys>, steps: seq<Step>, i: nat)
    requires IsRun(run, steps) && i < |run|
    ensures Agrees(run[i], steps, i)
  {
    hide Next, Agrees;
    if i > 0 {
      RunAgrees(run, steps, i - 1);
      assert Next(run[i - 1], run[i - 1 + 1], steps[i - 1]);
      StepAgrees(run[i - 1], run[i], steps, i - 1);
    } else {
      assert Agrees(run[0], steps, 0) by { NothingOpen(run[0], steps); }
    }
  }

  lemma NothingOpen(s: Sys, steps: seq<Step>)
    requires s.w == Idle
    ensures Agrees(s, steps, 0)
  {
  }

  /** In every run a commit appends one chunk, of the size asked for and with the bytes stored; no other step does. */
  lemma CommitsWhatWasStored(run: seq<Sys>, steps: seq<Step>, i: nat)
    requires IsRun(run, steps) && i < |steps|
    ensures if !steps[i].WCommit? then run[i + 1].committed == run[i].committed
            else
              var c, c' := run[i].committed, run[i + 1].committed;
              && |c'| == |c| + 1 && c'[..|c|] == c && |c'[|c|].data| == Asked(steps, i)
              && forall k :: k in Filled(steps, i) ==> k < |c'[|c|].data| && c'[|c|].data[k] == Filled(steps, i)[k]
  {
    RunAgrees(run, steps, i);
    assert Next(run[i], run[i + 1], steps[i]);
    hide IsRun, Payload, HeadSize, HeadBlocks, DataAt, Placeable, Blocks, Plus, Alloc;
  }
}
