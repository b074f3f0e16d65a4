/**
 The two-level log buffer of `src/buffer/log_buffer.cpp` as a transition system.

 Any number of writer threads hand records to one reader. A thread writes through the shared LP ring,
 through a private HP block it has opened, or, for a record that fits neither, through an oversize side
 buffer announced by an LP parent entry. Every LP entry and every HP block takes one number of its
 thread's sequence; the reader merges the three sources by comparing those numbers.

 A step below is one visible action of one thread. Actions that touch only thread-local memory are
 folded into the next visible one.
 */
module LogBufferModel {
  import opened Words

  type Record = seq<byte>

  /** What one sequence number of a thread stands for, with the records committed under it so far. */
  datatype Unit =
    | LpUnit(slot: nat, recs: seq<Record>)
    | HpUnit(block: nat, recs: seq<Record>)

  datatype Pc =
    | Idle
    | LpHeld(slot: nat)               // LP chunk reserved and numbered, not committed
    | OsHeld(slot: nat, side: nat)    // also holds the side buffer's lock, payload not committed
    | OsStored(slot: nat)             // payload committed, parent entry not committed
    | Done                            // the thread has exited

  /** `log_tls_buffer_info`, with the history of one writer thread. */
  datatype Thread = Thread(
    wseq: nat,                        // current_write_seq_
    rseq: nat,                        // current_read_seq_
    cur: Option<nat>,                 // cur_block_
    pc: Pc,
    freed: bool,                      // the reader has deleted this object
    units: seq<Unit>,
    committed: seq<Record>,
    delivered: seq<Record>)

  datatype Kind =
    | Plain(rec: Record)
    | External(rec: Record, at: Option<nat>)   // the side buffer that holds the payload, once stored
    | Finish
    | Void                                     // version bumped: the reader must drop it

  datatype LpEntry = LpEntry(tid: nat, seq_: nat, kind: Kind, committed: bool)

  datatype Block =
    | Free
    | Live(owner: nat, seq_: nat, data: seq<Record>, read: nat, removed: bool, finished: bool)

  datatype Item = Item(seq_: nat, rec: Record)

  /** An oversize side buffer: its owner's `context_head` and its queue of payloads. */
  datatype Side = Side(owner: nat, queue: seq<Item>, held: bool, finished: bool)

  datatype Reader =
    | Scan
    | LpOut                                       // the LP head's record is in the caller's hands
    | Seek(at: nat)                               // walking the side buffers for the LP head's payload
    | SideOut(side: nat)                          // so is the payload of the LP head, from this buffer
    | At(block: nat, sampled: bool, upto: nat)    // in a block; `sampled` is the removed mark on arrival
    | Leaving(block: nat, sampled: bool)          // the last batch read came back empty

  /**
   `lp` keeps every entry ever reserved; the ring's contents are `lp[head..]`. `order` is `buffers_array_`: the side
   buffers in the order in which they are searched. `target` is the buffer the last payload was found in.
   */
  datatype State = State(
    threads: map<nat, Thread>,
    lp: seq<LpEntry>,
    head: nat,
    blocks: map<nat, Block>,
    sides: map<nat, Side>,
    order: seq<nat>,
    target: Option<nat>,              // rt_oversize_target_buffer_
    reader: Reader)

  // ---------------------------------------------------------------- sequence numbers

  datatype Verdict = Valid | SeqPending | SeqInvalid | VersionInvalid

  /** `verify_context` for contexts of the running version. */
  function Verify(seq_: nat, expected: nat): Verdict {
    if U32(seq_) == U32(expected) then Valid else SeqPending
  }

  /** `verify_oversize_context` for contexts of the running version. */
  function VerifyOversize(parent: nat, item: nat): Verdict {
    if U32(parent) == U32(item) then Valid
    else if U32(parent) < U32(item) then SeqPending
    else SeqInvalid
  }

  // ---------------------------------------------------------------- writer steps

  ghost predicate Init(s: State) {
    s == State(map[], [], 0, map[], map[], [], None, Scan)
  }

  ghost predicate Join(s: State, s': State, t: nat) {
    && t !in s.threads
    && s' == s.(threads := s.threads[t := Thread(0, 0, None, Idle, false, [], [], [])])
  }

  /** A fresh entry of kind `k`: reserve LP space and take the next sequence number. */
  ghost predicate LpReserve(s: State, s': State, t: nat, k: Kind) {
    && t in s.threads
    && var w := s.threads[t];
    && w.pc == Idle
    && !k.Void? && (k.External? ==> k.at == None && w.cur == None) && (k.Finish? ==> w.cur == None)
    && s' == s.(lp := s.lp + [LpEntry(t, w.wseq, k, false)],
                threads := s.threads[t := w.(wseq := w.wseq + 1, pc := LpHeld(|s.lp|),
                                            units := w.units + [LpUnit(|s.lp|, [])])])
  }

  /** Mark the current block removed and let go of it. */
  ghost predicate Leave(s: State, s': State, t: nat) {
    && t in s.threads
    && var w := s.threads[t];
    && (w.pc == Idle || w.pc.LpHeld?)
    && w.cur.Some? && w.cur.value in s.blocks && s.blocks[w.cur.value].Live?
    && s' == s.(blocks := s.blocks[w.cur.value := s.blocks[w.cur.value].(removed := true)],
                threads := s.threads[t := w.(cur := None)])
  }

  /** Records that committing an entry of this kind makes available. */
  function Payload(k: Kind): seq<Record> {
    if k.Plain? || k.External? then [k.rec] else []
  }

  /** Commit of a plain entry, a finish mark, or the parent of a stored payload. */
  ghost predicate LpCommit(s: State, s': State, t: nat) {
    && t in s.threads
    && var w := s.threads[t];
    && (w.pc.LpHeld? || w.pc.OsStored?) && w.pc.slot < |s.lp| && w.cur == None
    && var e := s.lp[w.pc.slot];
    && (e.kind.External? <==> w.pc.OsStored?)
    && |w.units| > 0
    && s' == s.(lp := s.lp[w.pc.slot := e.(committed := true)],
                threads := s.threads[t :=
                  w.(pc := if e.kind.Finish? then Done else Idle,
                     units := w.units[|w.units| - 1 := LpUnit(w.pc.slot, Payload(e.kind))],
                     committed := w.committed + Payload(e.kind))])
  }

  ghost predicate HpOpen(s: State, s': State, t: nat, b: nat) {
    && t in s.threads
    && var w := s.threads[t];
    && w.pc == Idle && w.cur == None
    && (b !in s.blocks || s.blocks[b] == Free)
    && s' == s.(blocks := s.blocks[b := Live(t, w.wseq, [], 0, false, false)],
                threads := s.threads[t := w.(wseq := w.wseq + 1, cur := Some(b),
                                            units := w.units + [HpUnit(b, [])])])
  }

  ghost predicate HpCommit(s: State, s': State, t: nat, rec: Record) {
    && t in s.threads
    && var w := s.threads[t];
    && w.pc == Idle && w.cur.Some? && w.cur.value in s.blocks && |w.units| > 0
    && var b := s.blocks[w.cur.value];
    && b.Live?
    && s' == s.(blocks := s.blocks[w.cur.value := b.(data := b.data + [rec])],
                threads := s.threads[t :=
                  w.(units := w.units[|w.units| - 1 := HpUnit(w.cur.value, b.data + [rec])],
                     committed := w.committed + [rec])])
  }

  /** Lock a side buffer of this thread that has room, or append a new one, which the reader's search shuts out. */
  ghost predicate OsAcquire(s: State, s': State, t: nat, d: nat) {
    && t in s.threads
    && var w := s.threads[t];
    && w.pc.LpHeld? && w.pc.slot < |s.lp| && s.lp[w.pc.slot].kind.External?
    && (d in s.sides ==> s.sides[d].owner == t && !s.sides[d].held && !s.sides[d].finished)
    && (d !in s.sides ==> !s.reader.Seek?)
    && var d0 := if d in s.sides then s.sides[d] else Side(t, [], false, false);
    && s' == s.(sides := s.sides[d := d0.(held := true)],
                order := if d in s.sides then s.order else s.order + [d],
                threads := s.threads[t := w.(pc := OsHeld(w.pc.slot, d))])
  }

  /** Commit the payload to the side buffer and release its lock. */
  ghost predicate OsStore(s: State, s': State, t: nat) {
    && t in s.threads
    && var w := s.threads[t];
    && w.pc.OsHeld? && w.pc.slot < |s.lp| && w.pc.side in s.sides
    && var e := s.lp[w.pc.slot];
    && e.kind.External?
    && var d := s.sides[w.pc.side];
    && s' == s.(sides := s.sides[w.pc.side := d.(queue := d.queue + [Item(e.seq_, e.kind.rec)], held := false)],
                lp := s.lp[w.pc.slot := e.(kind := External(e.kind.rec, Some(w.pc.side)))],
                threads := s.threads[t := w.(pc := OsStored(w.pc.slot))])
  }

  /** No side buffer could be had: give the number back and commit the parent as void. */
  ghost predicate OsGiveUp(s: State, s': State, t: nat) {
    && t in s.threads
    && var w := s.threads[t];
    && w.pc.LpHeld? && w.pc.slot < |s.lp| && s.lp[w.pc.slot].kind.External?
    && w.wseq > 0 && |w.units| > 0
    && s' == s.(lp := s.lp[w.pc.slot := s.lp[w.pc.slot].(kind := Void, committed := true)],
                threads := s.threads[t := w.(pc := Idle, wseq := w.wseq - 1, units := w.units[..|w.units| - 1])])
  }

  /** Thread exit while it owns a block: the block carries the finish mark. */
  ghost predicate HpFinish(s: State, s': State, t: nat) {
    && t in s.threads
    && var w := s.threads[t];
    && w.pc == Idle && w.cur.Some? && w.cur.value in s.blocks && s.blocks[w.cur.value].Live?
    && s' == s.(blocks := s.blocks[w.cur.value := s.blocks[w.cur.value].(removed := true, finished := true)],
                threads := s.threads[t := w.(pc := Done, cur := None)])
  }

  /** Thread exit flags the thread's side buffers so that no later writer picks them. */
  ghost predicate SideFinish(s: State, s': State, d: nat) {
    && d in s.sides
    && s' == s.(sides := s.sides[d := s.sides[d].(finished := true)])
  }

  // ---------------------------------------------------------------- reader steps

  /** The LP head, when it is committed and its writer's number is the expected one. */
  ghost predicate HeadValid(s: State) {
    && s.head < |s.lp| && s.lp[s.head].committed && !s.lp[s.head].kind.Void?
    && s.lp[s.head].tid in s.threads
    && Verify(s.lp[s.head].seq_, s.threads[s.lp[s.head].tid].rseq) == Valid
  }

  ghost predicate LpDropVoid(s: State, s': State) {
    && s.reader == Scan && s.head < |s.lp| && s.lp[s.head].committed && s.lp[s.head].kind.Void?
    && s' == s.(head := s.head + 1)
  }

  function Deliver(w: Thread, rec: Record): Thread {
    w.(delivered := w.delivered + [rec])
  }

  ghost predicate LpTake(s: State, s': State) {
    && s.reader == Scan && HeadValid(s) && s.lp[s.head].kind.Plain?
    && var t := s.lp[s.head].tid;
    && s' == s.(reader := LpOut, threads := s.threads[t := Deliver(s.threads[t], s.lp[s.head].kind.rec)])
  }

  /** The head of side buffer `d`, a buffer of the LP head's thread, compared with that parent. */
  ghost predicate SideHead(s: State, d: nat, verdict: Verdict) {
    && s.head < |s.lp| && d in s.sides && s.sides[d].owner == s.lp[s.head].tid && |s.sides[d].queue| > 0
    && VerifyOversize(s.lp[s.head].seq_, s.sides[d].queue[0].seq_) == verdict
  }

  ghost predicate SeekPayload(s: State, s': State) {
    && s.reader == Scan && HeadValid(s) && s.lp[s.head].kind.External? && s' == s.(reader := Seek(0))
  }

  /** The search stands at side buffer `d`. */
  ghost predicate Visits(s: State, d: nat) {
    && s.reader.Seek? && HeadValid(s) && s.lp[s.head].kind.External?
    && s.reader.at < |s.order| && s.order[s.reader.at] == d && d in s.sides
  }

  /** On past a buffer of another thread, an empty one, or one whose head is for a later parent. */
  ghost predicate SeekOn(s: State, s': State, d: nat) {
    && Visits(s, d) && !SideHead(s, d, Valid) && !SideHead(s, d, SeqInvalid)
    && s' == s.(reader := Seek(s.reader.at + 1))
  }

  /** The search ends at the first head with the parent's number. */
  ghost predicate LpTakeExternal(s: State, s': State, d: nat) {
    && Visits(s, d) && SideHead(s, d, Valid)
    && var t := s.lp[s.head].tid;
    && s' == s.(reader := SideOut(d), target := Some(d), threads := s.threads[t := Deliver(s.threads[t], s.sides[d].queue[0].rec)])
  }

  /** On its way the search throws away a head it takes to be stale, and looks at the buffer again. */
  ghost predicate SideDrop(s: State, s': State, d: nat) {
    && Visits(s, d) && SideHead(s, d, SeqInvalid)
    && s' == s.(sides := s.sides[d := s.sides[d].(queue := s.sides[d].queue[1..])])
  }

  /** The search found no payload: the parent is consumed and its record is lost. */
  ghost predicate LpMissing(s: State, s': State) {
    && s.reader.Seek? && HeadValid(s) && s.lp[s.head].kind.External? && s.reader.at >= |s.order|
    && var t := s.lp[s.head].tid;
    && s' == s.(reader := Scan, head := s.head + 1, threads := s.threads[t := s.threads[t].(rseq := s.threads[t].rseq + 1)])
  }

  /** `deregister_seq`: count the number as read, or delete the thread's object if it was the last. */
  function Deregister(w: Thread, finished: bool): Thread {
    w.(rseq := w.rseq + 1, freed := w.freed || finished)
  }

  ghost predicate LpFinish(s: State, s': State) {
    && s.reader == Scan && HeadValid(s) && s.lp[s.head].kind.Finish?
    && var t := s.lp[s.head].tid;
    && s' == s.(head := s.head + 1, threads := s.threads[t := Deregister(s.threads[t], true)])
  }

  ghost predicate LpReturn(s: State, s': State) {
    && s.reader == LpOut && s.head < |s.lp| && s.lp[s.head].tid in s.threads
    && var t := s.lp[s.head].tid;
    && s' == s.(reader := Scan, head := s.head + 1,
                threads := s.threads[t := Deregister(s.threads[t], false)])
  }

  ghost predicate SideReturn(s: State, s': State) {
    && s.reader.SideOut? && s.head < |s.lp| && s.lp[s.head].tid in s.threads
    && var d := s.reader.side;
    && d in s.sides && |s.sides[d].queue| > 0
    && var t := s.lp[s.head].tid;
    && s' == s.(reader := Scan, head := s.head + 1,
                sides := s.sides[d := s.sides[d].(queue := s.sides[d].queue[1..])],
                threads := s.threads[t := Deregister(s.threads[t], false)])
  }

  /** Move to a listed block whose number is the expected one and sample its removed mark. */
  ghost predicate Arrive(s: State, s': State, b: nat) {
    && s.reader == Scan && b in s.blocks && s.blocks[b].Live? && s.blocks[b].owner in s.threads
    && Verify(s.blocks[b].seq_, s.threads[s.blocks[b].owner].rseq) == Valid
    && s' == s.(reader := At(b, s.blocks[b].removed, s.blocks[b].read))
  }

  /** `batch_read` once the previous batch is exhausted; an empty batch ends the visit. */
  ghost predicate Fetch(s: State, s': State) {
    && s.reader.At? && s.reader.block in s.blocks && s.blocks[s.reader.block].Live?
    && var b := s.blocks[s.reader.block];
    && b.read == s.reader.upto
    && s' == s.(reader := if |b.data| == b.read then Leaving(s.reader.block, s.reader.sampled)
                          else s.reader.(upto := |b.data|))
  }

  ghost predicate Hand(s: State, s': State) {
    && s.reader.At? && s.reader.block in s.blocks && s.blocks[s.reader.block].Live?
    && var b := s.blocks[s.reader.block];
    && b.read < s.reader.upto && b.read < |b.data| && b.owner in s.threads
    && s' == s.(blocks := s.blocks[s.reader.block := b.(read := b.read + 1)],
                threads := s.threads[b.owner := Deliver(s.threads[b.owner], b.data[b.read])])
  }

  /** Leave the block; if it was already removed on arrival, deregister its number and recycle it. */
  ghost predicate Depart(s: State, s': State) {
    && s.reader.Leaving? && s.reader.block in s.blocks && s.blocks[s.reader.block].Live?
    && var b := s.blocks[s.reader.block];
    && b.owner in s.threads
    && if s.reader.sampled then
         s' == s.(reader := Scan, blocks := s.blocks[s.reader.block := Free],
                  threads := s.threads[b.owner := Deregister(s.threads[b.owner], b.finished)])
       else
         s' == s.(reader := Scan)
  }

  /** The last buffer of the array takes the place of the erased one. */
  function Erased(order: seq<nat>, k: nat): seq<nat>
    requires k < |order|
  {
    order[k := order[|order| - 1]][..|order| - 1]
  }

  /** Destroy a side buffer found empty while no writer holds its lock, unless the last payload came from it. */
  ghost predicate SideRecycle(s: State, s': State, k: nat) {
    && s.reader == Scan && k < |s.order| && s.order[k] in s.sides
    && s.sides[s.order[k]].queue == [] && !s.sides[s.order[k]].held && s.target != Some(s.order[k])
    && s' == s.(sides := s.sides - {s.order[k]}, order := Erased(s.order, k))
  }

  // ---------------------------------------------------------------- runs

  datatype Step =
    | WJoin(t: nat) | WLpReserve(t: nat, k: Kind) | WLeave(t: nat) | WLpCommit(t: nat)
    | WHpOpen(t: nat, b: nat) | WHpCommit(t: nat, rec: Record) | WOsAcquire(t: nat, d: nat)
    | WOsStore(t: nat) | WOsGiveUp(t: nat) | WHpFinish(t: nat) | WSideFinish(d: nat)
    | RLpDropVoid | RLpTake | RSeek | RSeekOn(d: nat) | RLpTakeExternal(d: nat) | RSideDrop(d: nat) | RLpMissing | RLpFinish
    | RLpReturn | RSideReturn | RArrive(b: nat) | RFetch | RHand | RDepart | RSideRecycle(at: nat)

  predicate WriterStep(step: Step) {
    step.WJoin? || step.WLpReserve? || step.WLeave? || step.WLpCommit? || step.WHpOpen? || step.WHpCommit? || step.WOsAcquire?
    || step.WOsStore? || step.WOsGiveUp? || step.WHpFinish? || step.WSideFinish?
  }

  predicate WalkStep(step: Step) {
    step.RArrive? || step.RFetch? || step.RHand? || step.RDepart? || step.RSideRecycle?
  }

  ghost predicate WriterMove(s: State, s': State, step: Step) {
    && WriterStep(step)
    && (match step
       case WJoin(t) => Join(s, s', t)
       case WLpReserve(t, k) => LpReserve(s, s', t, k)
       case WLeave(t) => Leave(s, s', t)
       case WLpCommit(t) => LpCommit(s, s', t)
       case WHpOpen(t, b) => HpOpen(s, s', t, b)
       case WHpCommit(t, rec) => HpCommit(s, s', t, rec)
       case WOsAcquire(t, d) => OsAcquire(s, s', t, d)
       case WOsStore(t) => OsStore(s, s', t)
       case WOsGiveUp(t) => OsGiveUp(s, s', t)
       case WHpFinish(t) => HpFinish(s, s', t)
       case WSideFinish(d) => SideFinish(s, s', d))
  }

  ghost predicate WalkMove(s: State, s': State, step: Step) {
    && WalkStep(step)
    && (match step
       case RArrive(b) => Arrive(s, s', b)
       case RFetch => Fetch(s, s')
       case RHand => Hand(s, s')
       case RDepart => Depart(s, s')
       case RSideRecycle(at) => SideRecycle(s, s', at))
  }

  ghost predicate HeadMove(s: State, s': State, step: Step) {
    && !WriterStep(step) && !WalkStep(step)
    && (match step
       case RLpDropVoid => LpDropVoid(s, s')
       case RLpTake => LpTake(s, s')
       case RSeek => SeekPayload(s, s')
       case RSeekOn(d) => SeekOn(s, s', d)
       case RLpTakeExternal(d) => LpTakeExternal(s, s', d)
       case RSideDrop(d) => SideDrop(s, s', d)
       case RLpMissing => LpMissing(s, s')
       case RLpFinish => LpFinish(s, s')
       case RLpReturn => LpReturn(s, s')
       case RSideReturn => SideReturn(s, s'))
  }

  ghost predicate Next(s: State, s': State, step: Step) {
    if WriterStep(step) then WriterMove(s, s', step)
    else if WalkStep(step) then WalkMove(s, s', step)
    else HeadMove(s, s', step)
  }

  /** The hypothesis on 32-bit numbers: a thread never has more than 2^32 of them outstanding. */
  ghost predicate Outstanding(s: State) {
    forall t :: t in s.threads ==> s.threads[t].wseq - s.threads[t].rseq <= TWO32
  }

  ghost predicate IsRun(run: seq<State>, steps: seq<Step>) {
    && |run| == |steps| + 1
    && Init(run[0])
    && (forall i :: 0 <= i < |steps| ==> Outstanding(run[i]))
    && (forall i :: 0 <= i < |steps| ==> Next(run[i], run[i + 1], steps[i]))
  }

  /**
   Before step `n` the branch of the search that throws a head away was not taken. `SideDropExact` says when it is:
   when the head that is visited lies in another wrap of the 32-bit number than the parent.
   */
  ghost predicate NoDrop(steps: seq<Step>, n: nat) {
    forall i :: 0 <= i < n && i < |steps| ==> !steps[i].RSideDrop?
  }
}
