/** The overwrite-oldest ring of `src/runtime/log_snapshot.cpp`. */
module Snapshot {
  import opened Words
  import opened SisoModel
  import opened SisoQueue
  import opened SisoRing

  /** A payload of at most half the ring is placeable everywhere, and no larger one is. */
  lemma HalfRingPlaceable(n: nat, size: nat)
    requires n >= 2 && n % 2 == 0
    ensures (forall i :: 0 <= i < n ==> Placeable(n, i, size)) <==> size <= 8 * n / 2
  {
    if size > 8 * n / 2 {
      var z := (size + 7) / 8;
      assert Normal(size) == z + 1;
      if z < n { assert !Placeable(n, n - z, size); } else { assert !Placeable(n, 0, size); }
    }
  }

  /** An empty ring never reports too little space. */
  lemma EmptyNeverFull(s: Ring, size: u32)
    requires Inv(s) && Unread(s) == [] && Held(s) == []
    ensures Alloc(s, size).1 != NoSpace
  {
    hide Placeable, DataAt, Blocks, Payload, Load;
    AllocExact(s, size);
    if Used(s) > 0 {
      if s.reading != s.rtR { SpanSplit(s, s.reading, s.rtR); } else { SpanSplit(s, s.rtR, s.writing); }
    }
    if Placeable(s.n, s.wtW % s.n, size) { BlocksFit(s.n, s.wtW % s.n, size); }
  }

  /** Blocks still in use after the first `k` chunks of the span from block `i` are dropped. */
  ghost function Left(mem: seq<byte>, n: nat, i: nat, rem: nat, k: nat): nat
    decreases k
  {
    if k == 0 || !Sized(mem, n, i) || rem > n || HeadBlocks(mem, n, i) > rem then rem
    else Left(mem, n, At(n, i, HeadBlocks(mem, n, i)), rem - HeadBlocks(mem, n, i), k - 1)
  }

  ghost function LeftOf(s: Ring, k: nat): nat
    requires s.n > 0
  {
    Left(s.mem, s.n, s.reading % s.n, Used(s), k)
  }

  /** Dropping one chunk is the first step of dropping more. */
  lemma LeftStep(s: Ring, k: nat)
    requires Inv(s) && s.reading == s.rtR && s.rtR != s.rtW
    ensures LeftOf(Return(s), k) == LeftOf(s, k + 1)
  {
    hide Load, Payload, Placeable, Blocks;
    SpanSplit(s, s.rtR, s.writing);
    IndexPlus(s.n, s.rtR, HeadBlocks(s.mem, s.n, s.rtR % s.n));
  }

  /** Dropping `m` chunks of `s` leaves what dropping `k + m` of `s0` does. */
  ghost predicate SameLeft(s0: Ring, s: Ring, k: nat) {
    && s0.n > 0 && s.n > 0
    && (forall m :: LeftOf(s, m) == LeftOf(s0, k + m))
  }

  /** `s` is `s0` with its first `k` chunks dropped, and nothing but reader cursors and caches changed. */
  ghost predicate Dropped(s0: Ring, s: Ring, k: nat) {
    && Inv(s0) && Inv(s) && s.n == s0.n && s.mem == s0.mem && s.wtW == s0.wtW && s.reading == s.rtR
    && k <= |Unread(s0)| && Unread(s) == Unread(s0)[k..] && Held(s) == []
    && SameLeft(s0, s, k)
  }

  lemma DroppedStart(s: Ring)
    requires Inv(s) && s.reading == s.rtR
    ensures Dropped(s, s, 0)
  {
    hide Span, LeftOf;
    SpanEmpty(s, s.reading);
  }

  /** A refused allocation and a look at the oldest chunk change caches only. */
  lemma DroppedSame(s0: Ring, s: Ring, s': Ring, k: nat)
    requires Dropped(s0, s, k) && Inv(s') && s' == s.(wtR := s'.wtR, rtW := s'.rtW)
    ensures Dropped(s0, s', k)
  {
    hide Span, Parse, Left;
    SpanMem(s, s');
    assert forall m :: LeftOf(s', m) == LeftOf(s, m);
  }

  lemma DroppedMore(s0: Ring, s: Ring, k: nat)
    requires Dropped(s0, s, k) && s.rtR != s.rtW
    ensures Shaped(s) && Dropped(s0, Return(s), k + 1)
  {
    assert SameLeft(s0, Return(s), k + 1) by {
      hide Span, LeftOf, Ordered;
      forall m: nat ensures LeftOf(Return(s), m) == LeftOf(s0, k + 1 + m) {
        LeftStep(s, m);
        assert LeftOf(s, m + 1) == LeftOf(s0, k + (m + 1));
      }
    }
    hide Span, SameLeft, Load, Payload, Between;
    ReturnKeeps(s);
    assert Unread(Return(s)) == Unread(s)[1..] == Unread(s0)[k + 1..];
  }

  /** No room after `k` drops. */
  ghost predicate TooFull(s: Ring, size: nat, k: nat) {
    s.n > 0 && Placeable(s.n, s.wtW % s.n, size) && LeftOf(s, k) + Blocks(s.n, s.wtW % s.n, size) > s.n
  }

  lemma DroppedVerdict(s0: Ring, s: Ring, size: u32, k: nat)
    requires Dropped(s0, s, k)
    ensures Shaped(s) && s.n == s0.n && s.wtW == s0.wtW
    ensures Alloc(s, size).1.SizeInvalid? <==> !Placeable(s.n, s.wtW % s.n, size)
    ensures Alloc(s, size).1.NoSpace? <==> TooFull(s0, size, k)
    ensures Alloc(s, size).1.Granted? ==> Alloc(s, size).1.addr == DataAt(s.n, s.wtW % s.n, size)
    ensures Alloc(s, size).1.NoSpace? ==> Unread(s) != []
  {
    hide Placeable, Blocks, DataAt, Span;
    AllocExact(s, size);
    assert LeftOf(s, 0) == LeftOf(s0, k + 0);
    if Unread(s) == [] { EmptyNeverFull(s, size); }
  }

  /** The outcome: unchanged contents, or the newest entries that leave room and the new one. */
  ghost predicate Written(s0: Ring, s: Ring, entry: seq<byte>, k: nat) {
    && Inv(s0) && Inv(s) && k <= |Unread(s0)| && Held(s) == [] && s.reading == s.rtR
    && if !Placeable(s0.n, s0.wtW % s0.n, |entry|) then k == 0 && Unread(s) == Unread(s0)
       else
         && Unread(s) == Unread(s0)[k..] + [Slot(DataAt(s0.n, s0.wtW % s0.n, |entry|), entry)]
         && !TooFull(s0, |entry|, k) && (k > 0 ==> TooFull(s0, |entry|, k - 1))
  }

  lemma GrantedAddr(s: Ring, size: u32)
    requires Inv(s) && Alloc(s, size).1.Granted?
    ensures s.n > 0 && Alloc(s, size).1.addr == DataAt(s.n, s.wtW % s.n, size)
  {
    hide Span;
    AllocExact(s, size);
  }

  lemma AppendedWritten(s0: Ring, s: Ring, s': Ring, entry: seq<byte>, k: nat, addr: nat)
    requires |entry| < TWO32 && Dropped(s0, s, k) && (k > 0 ==> TooFull(s0, |entry|, k - 1))
    requires Shaped(s) && Alloc(s, |entry|).1 == Granted(addr)
    requires Inv(s') && Unread(s') == Unread(s) + [Slot(addr, entry)] && Held(s') == [] && s'.reading == s'.rtR
    ensures Written(s0, s', entry, k)
  {
    hide Inv, Placeable, DataAt, TooFull, SameLeft, Alloc;
    DroppedVerdict(s0, s, |entry|, k);
  }

  lemma RefusedWritten(s0: Ring, s: Ring, s': Ring, entry: seq<byte>, k: nat)
    requires |entry| < TWO32 && Dropped(s0, s, k) && (k > 0 ==> TooFull(s0, |entry|, k - 1))
    requires Shaped(s) && Alloc(s, |entry|).1 == SizeInvalid
    requires Inv(s') && Unread(s') == Unread(s) && Held(s') == [] && s'.reading == s'.rtR
    ensures Written(s0, s', entry, k)
  {
    hide Inv, Placeable, DataAt, SameLeft, Alloc;
    DroppedVerdict(s0, s, |entry|, k);
  }

  class LogSnapshot {
    const ring: SisoRingBuffer
    var continuous: bool

    ghost predicate Valid()
      reads this, ring, ring.data
    {
      ring.Valid() && ring.reading == ring.rtReading
    }

    constructor (r: SisoRingBuffer)
      requires r.Valid() && r.reading == r.rtReading
      ensures ring == r && Valid()
    {
      ring, continuous := r, false;
    }

    /** Read the oldest chunk and return it. */
    method DropOldest(ghost s0: Ring, ghost k: nat) returns (alreadyEmpty: bool)
      requires Dropped(s0, ring.Snap(), k)
      modifies ring`rtWriting, ring`rtReading, ring`reading
      ensures alreadyEmpty <==> old(Unread(ring.Snap())) == []
      ensures !alreadyEmpty ==> Dropped(s0, ring.Snap(), k + 1)
    {
      hide SameLeft, Payload, Span;
      ghost var s := ring.Snap();
      var discard := ring.ReadChunk();
      DroppedSame(s0, s, ring.Snap(), k);
      if discard.Chunk? { DroppedMore(s0, ring.Snap(), k); }
      alreadyEmpty := discard == Empty;
      ring.ReturnReadChunk(discard);
    }

    /** Copy the entry into the chunk just granted and commit it. */
    method Append(addr: nat, entry: seq<byte>)
      requires Inv(ring.Snap()) && Pending(ring.Snap(), |entry|) && addr == DataAt(ring.blocks, ring.wtWriting % ring.blocks, |entry|)
      modifies ring, ring.data
      ensures Inv(ring.Snap()) && Unread(ring.Snap()) == old(Unread(ring.Snap())) + [Slot(addr, entry)]
      ensures Held(ring.Snap()) == old(Held(ring.Snap())) && ring.reading == old(ring.reading) && ring.rtReading == old(ring.rtReading)
    {
      hide Inv, Pending, DataAt, Draft, Payload;
      ring.CopyPayload(addr, entry);
      ring.CommitWriteChunk(|entry|);
    }

    /**
     `write_data` for an entry that passes the level and category filters. The loop ends; an entry that cannot
     be placed where the write cursor stands leaves the ring's contents alone, and any other is appended after
     the fewest oldest entries that make room for it were dropped.
     */
    method WriteData(entry: seq<byte>) returns (ghost k: nat)
      requires Valid() && |entry| < TWO32
      modifies this, ring, ring.data
      ensures Valid() && Written(old(ring.Snap()), ring.Snap(), entry, k)
      ensures continuous == (old(continuous) && k == 0)
    {
      hide Inv, Pending, DataAt, Draft, TooFull, SameLeft, Payload, Alloc, Written, CountOk;
      ghost var s0 := ring.Snap();
      DroppedStart(s0);
      k := 0;
      while true
        invariant Dropped(s0, ring.Snap(), k) && (k > 0 ==> TooFull(s0, |entry|, k - 1))
        invariant continuous == (old(continuous) && k == 0)
        decreases |Unread(s0)| - k
      {
        ghost var s := ring.Snap();
        DroppedVerdict(s0, s, |entry|, k);
        var result, low := ring.AllocWriteChunk(|entry|);
        if result.Granted? {
          GrantedAddr(s, |entry|);
          Append(result.addr, entry);
          AppendedWritten(s0, s, ring.Snap(), entry, k, result.addr);
          break;
        } else if result == NoSpace {
          DroppedSame(s0, s, ring.Snap(), k);
          var alreadyEmpty := DropOldest(s0, k);
          if alreadyEmpty {
            assert false;
          }
          k := k + 1;
          continuous := false;
        } else {
          RefusedWritten(s0, s, ring.Snap(), entry, k);
          break;
        }
      }
    }
  }
}
