/** Steps of the group list that move groups between list, pool and hands, and the reader's own steps. */
module GroupTopology {
  import opened Words
  import opened GroupModel
  import opened GroupInv
  import opened GroupSteps

  /** Same lists and hands everywhere. */
  ghost predicate SameBlocks(s: State, s': State) {
    && s'.max == s.max
    && (forall g :: g in s.groups && g in s'.groups ==> s'.groups[g] == s.groups[g])
    && (forall w, g: nat, b: nat :: Hand(s', w, g, b) <==> Hand(s, w, g, b))
  }

  lemma SoundAll(s: State, s': State)
    requires SameBlocks(s, s') && (forall g :: g in s.groups ==> Sound(s, g)) && forall g :: g in s'.groups ==> g in s.groups
    ensures forall g :: g in s'.groups ==> Sound(s', g)
    ensures forall g :: Spare(s, g) && (g in s.groups ==> g in s'.groups) ==> Spare(s', g)
  {
    hide Sound, Hand, Spare;
    forall g | g in s'.groups ensures Sound(s', g) { SoundSame(s, s', g); }
    forall g | Spare(s, g) && (g in s.groups ==> g in s'.groups) ensures Spare(s', g) { SpareKept(s, s', g); }
  }

  // ---------------------------------------------------------------- taking a group from the pool, or making one

  lemma FromPoolParts(s: State, s': State, t: nat)
    requires FromPool(s, s', t) && (forall g :: Spare(s, g) ==> Spare(s', g))
    ensures Exclusive(s) ==> Exclusive(s')
    ensures ReaderOk(s) ==> ReaderOk(s')
    ensures forall u :: u != t && PcOk(s, u) ==> PcOk(s', u)
  {
    hide Spare;
  }

  lemma FromPoolKeeps(s: State, s': State, t: nat)
    requires Inv(s) && FromPool(s, s', t)
    ensures Inv(s')
  {
    assert Linked(s') && s.pool[0] !in s'.pool;
    hide Sound, Linked, Exclusive, PcOk, ReaderOk, Spare, SameBlocks;
    assert SameBlocks(s, s');
    SoundAll(s, s');
    FromPoolParts(s, s', t);
    assert s.pool[0] in s.groups && s.pool[0] !in s.list && s.r != Drop(s.pool[0]) && Spare(s, s.pool[0]);
    FreshOk(s', t);
    forall i | 0 <= i < |s'.pool| ensures Spare(s', s'.pool[i]) {
      assert s'.pool[i] == s.pool[i + 1];
    }
  }

  lemma FreshOk(s: State, t: nat)
    requires t in s.threads && s.threads[t].Fresh? && Apart(s, s.threads[t].g) && Spare(s, s.threads[t].g)
    ensures PcOk(s, t)
  {
  }

  /** A block in hands belongs to a group that exists. */
  lemma HandExists(s: State, w: Who, g: nat, b: nat)
    requires Inv(s) && Hand(s, w, g, b)
    ensures g in s.groups
  {
    hide Sound, Exclusive, Spare, Bare, Approaches, Follows;
    if w.Thread? { assert PcOk(s, w.t); }
  }

  lemma MakeParts(s: State, s': State, t: nat, g: nat, free: seq<nat>)
    requires MakeGroup(s, s', t, g, free) && Exclusive(s) && Linked(s) && ReaderOk(s)
    ensures Exclusive(s') && forall u :: u in s.threads && u != t ==> !s.threads[u].Fresh?
    ensures forall p :: !Reads(s'.threads[t], p)
    ensures g !in s.list && g !in s.pool && s.r != Drop(g)
  {
    hide Spare, Bare, Leads, Approaches, Follows;
    assert Writes(s.threads[t], Head);
  }

  lemma MakeReader(s: State, s': State, t: nat, g: nat, free: seq<nat>)
    requires MakeGroup(s, s', t, g, free) && ReaderOk(s) && forall p :: !Reads(s'.threads[t], p)
    requires forall w, h: nat, b: nat :: Hand(s', w, h, b) <==> Hand(s, w, h, b)
    ensures ReaderOk(s')
  {
    hide Spare, Bare, Leads, Approaches, Follows, Hand;
    if s.r.Drop? { SpareKept(s, s', s.r.g); }
    if (s.r.Doomed? || s.r.Cut?) && s.cur.Some? { BareKept(s, s', s.cur.value); }
    ReaderKept(s, s');
  }

  lemma MakeGroupKeeps(s: State, s': State, t: nat, g: nat, free: seq<nat>)
    requires Inv(s) && MakeGroup(s, s', t, g, free)
    ensures Inv(s')
  {
    assert Sound(s', g) && Spare(s', g) && (forall w, h: nat, b: nat :: Hand(s', w, h, b) <==> Hand(s, w, h, b)) by {
      hide Linked, ReaderOk, PcOk, Exclusive;
      assert forall w, h: nat, b: nat :: Hand(s', w, h, b) <==> Hand(s, w, h, b);
      forall w, b: nat ensures !Hand(s, w, g, b) { if Hand(s, w, g, b) { HandExists(s, w, g, b); } }
      assert All(s'.groups[g]) == free;
    }
    hide Sound, Spare, Linked, ReaderOk, Exclusive, PcOk, Hand;
    forall h | h in s'.groups ensures Sound(s', h) { if h != g { SoundSame(s, s', h); } }
    LinkedKept(s, s');
    MakeParts(s, s', t, g, free);
    MakeReader(s, s', t, g, free);
    FreshOk(s', t);
    forall u | u in s'.threads ensures PcOk(s', u) { if u != t { PcKept(s, s', u); } }
  }

  // ---------------------------------------------------------------- linking a group at the head

  lemma LinkParts(s: State, s': State, t: nat)
    requires Linked(s) && LinkGroup(s, s', t) && Apart(s, s.threads[t].g) && Exclusive(s)
    ensures Linked(s') && Exclusive(s') && SameBlocks(s, s') && !ReaderWrites(s.r, Head)
  {
    assert Writes(s.threads[t], Head);
    var g := s.threads[t].g;
    forall i | 0 <= i < |s'.list|
      ensures s'.list[i] in s'.groups && s'.list[i] in s'.next && s'.next[s'.list[i]] == Nth(s'.list, i + 1)
    {
      if i > 0 { assert s'.list[i] == s.list[i - 1] && s.list[i - 1] in s.list; }
    }
  }

  /** Behind the head nothing shifts. */
  lemma PushedBehind(s: State, s': State, g: nat)
    requires s'.list == [g] + s.list && s'.last == s.last
    ensures forall p, h :: Leads(s, p, h) && p != Head ==> Leads(s', p, h)
    ensures forall l, c :: Follows(s, l, c) ==> Follows(s', l, c)
  {
    forall p, h | Leads(s, p, h) && p != Head ensures Leads(s', p, h) {
      var i :| 0 <= i < |s.list| && s.list[i] == h && p == PtrTo(s.list, i);
      assert s'.list[i + 1] == h && p == PtrTo(s'.list, i + 1);
    }
    forall l, c | Follows(s, l, c) ensures Follows(s', l, c) {
      var i :| 0 <= i && i + 1 < |s.list| && s.list[i] == l && s.list[i + 1] == c;
      assert s'.list[i + 1] == l && s'.list[i + 1 + 1] == c;
    }
  }

  lemma ApproachesBehind(s: State, s': State, g: nat, p: Ptr, h: nat, c: nat)
    requires s'.list == [g] + s.list && s'.last == s.last && Approaches(s, p, h, c) && p != Head
    ensures Approaches(s', p, h, c)
  {
    var i, j :| 0 <= i <= j < |s.list| && s.list[i] == h && p == PtrTo(s.list, i) && s.list[j] == c && (s.last.Some? ==> i == j);
    assert s'.list[i + 1] == h && p == PtrTo(s'.list, i + 1) && s'.list[j + 1] == c;
  }

  lemma LinkReader(s: State, s': State, t: nat)
    requires LinkGroup(s, s', t) && ReaderOk(s) && Apart(s, s.threads[t].g) && (forall g :: Spare(s, g) ==> Spare(s', g))
    requires !ReaderWrites(s.r, Head)
    ensures ReaderOk(s')
  {
    hide Spare, Leads, Follows, Approaches;
    var g := s.threads[t].g;
    assert forall h :: h in s'.list <==> h == g || h in s.list;
    PushedBehind(s, s', g);
    if s.r.Walk? && s.cur.Some? { ApproachesBehind(s, s', g, s.r.p, s.r.g, s.cur.value); }
  }

  lemma LinkPc(s: State, s': State, t: nat, u: nat)
    requires LinkGroup(s, s', t) && u in s.threads && u != t && PcOk(s, u) && Exclusive(s) && (forall g :: Spare(s, g) ==> Spare(s', g))
    ensures PcOk(s', u)
  {
    hide Spare, Leads;
    var pc := s.threads[u];
    assert Writes(s.threads[t], Head) && !Writes(pc, Head) && !Reads(pc, Head);
    PushedBehind(s, s', s.threads[t].g);
  }

  lemma LinkGroupKeeps(s: State, s': State, t: nat)
    requires Inv(s) && LinkGroup(s, s', t)
    ensures Inv(s')
  {
    hide Sound, Linked, Exclusive, ReaderOk, Spare, SameBlocks, Leads;
    assert PcOk(s, t);
    LinkParts(s, s', t);
    SoundAll(s, s');
    LinkReader(s, s', t);
    forall u | u in s'.threads ensures PcOk(s', u) { if u != t { LinkPc(s, s', t, u); } }
  }

  // ---------------------------------------------------------------- the reader's position and locks

  /** A step of the reader that moves no block and no group. */
  lemma ReaderStep(s: State, s': State)
    requires Inv(s) && s' == s.(r := s'.r, cur := s'.cur, last := s'.last) && ReaderOk(s')
    requires !s.r.Taken? && !s.r.Removed? && !s'.r.Taken? && !s'.r.Removed? && !s.r.Drop? && !s'.r.Drop?
    requires forall t, p :: t in s.threads && ReaderWrites(s'.r, p) ==> !Writes(s.threads[t], p) && !Reads(s.threads[t], p)
    ensures Inv(s')
  {
    hide Sound, Linked, ReaderOk, Spare, SameBlocks, Leads;
    HandsStay(s, s');
    SoundAll(s, s');
    LinkedKept(s, s');
    forall u | u in s'.threads ensures PcOk(s', u) {
      assert PcOk(s, u);
      PcKept(s, s', u);
    }
  }

  /** No block changes hands. */
  lemma HandsStay(s: State, s': State)
    requires || PoolPush(s, s') || Evict(s, s') || Unlink(s, s')
             || (s' == s.(r := s'.r, cur := s'.cur, last := s'.last)
                 && !s.r.Taken? && !s.r.Removed? && !s'.r.Taken? && !s'.r.Removed?)
    ensures SameBlocks(s, s') && (Exclusive(s) && Unlink(s, s') ==> Exclusive(s'))
  {
  }

  lemma StartScanKeeps(s: State, s': State)
    requires Inv(s) && (StartScan(s, s') || Advance(s, s'))
    ensures Inv(s')
  {
    hide Sound, Exclusive, PcOk, Spare;
    assert ReaderOk(s') by {
      if s.cur.Some? && s'.cur.Some? {
        var i :| 0 <= i < |s.list| && s.list[i] == s.cur.value;
        assert s.next[s.list[i]] == Nth(s.list, i + 1);
        assert s'.list[i] == s'.last.value && s'.list[i + 1] == s'.cur.value;
      }
    }
    ReaderStep(s, s');
  }

  /** The pointer the reader locks leads to its group, or to one in front of it. */
  lemma BehindApproaches(s: State)
    requires Linked(s) && ReaderOk(s) && s.cur.Some?
    ensures Get(s, Behind(s)).Some? && Approaches(s, Behind(s), Get(s, Behind(s)).value, s.cur.value)
    ensures s.last.Some? ==> Get(s, Behind(s)) == s.cur
  {
    hide Spare, Bare, Leads;
    if s.last.Some? {
      var i :| 0 <= i && i + 1 < |s.list| && s.list[i] == s.last.value && s.list[i + 1] == s.cur.value;
      assert s.next[s.list[i]] == Nth(s.list, i + 1);
      assert PtrTo(s.list, i + 1) == NextOf(s.last.value);
    } else {
      var j :| 0 <= j < |s.list| && s.list[j] == s.cur.value;
      assert PtrTo(s.list, 0) == Head && s.list[0] == s.head.value;
    }
  }

  lemma LockBehindKeeps(s: State, s': State)
    requires Inv(s) && LockBehind(s, s')
    ensures Inv(s')
  {
    hide Sound, Exclusive, PcOk, Spare, Linked, Leads;
    BehindApproaches(s);
    assert Approaches(s', s'.r.p, s'.r.g, s'.cur.value);
    ReaderStep(s, s');
  }

  /** A walk that has not reached the current group can go on. */
  lemma WalkFinds(s: State)
    requires Linked(s) && ReaderOk(s) && s.r.Walk? && Some(s.r.g) != s.cur && s.last == None
    ensures s.cur.Some? && Get(s, NextOf(s.r.g)).Some?
    ensures Approaches(s, NextOf(s.r.g), Get(s, NextOf(s.r.g)).value, s.cur.value)
  {
    hide Spare, Bare, Leads;
    var i, j :| 0 <= i <= j < |s.list| && s.list[i] == s.r.g && s.r.p == PtrTo(s.list, i) && s.list[j] == s.cur.value && (s.last.Some? ==> i == j);
    assert s.next[s.list[i]] == Nth(s.list, i + 1);
    assert s.list[i + 1] == Get(s, NextOf(s.r.g)).value && NextOf(s.r.g) == PtrTo(s.list, i + 1);
  }

  lemma WalkOnKeeps(s: State, s': State)
    requires Inv(s) && WalkOn(s, s')
    ensures Inv(s')
  {
    hide Sound, Exclusive, PcOk, Spare, Linked, Leads;
    WalkFinds(s);
    assert Approaches(s', s'.r.p, s'.r.g, s'.cur.value);
    ReaderStep(s, s');
  }

  lemma InspectKeeps(s: State, s': State)
    requires Inv(s) && Inspect(s, s')
    ensures Inv(s')
  {
    hide Sound, PcOk, Spare, Linked;
    assert forall p :: ReaderWrites(s'.r, p) ==> ReaderWrites(s.r, p);
    if s'.r.Doomed? {
      var i, j :| 0 <= i <= j < |s.list| && s.list[i] == s.r.g && s.r.p == PtrTo(s.list, i) && s.list[j] == s.cur.value && (s.last.Some? ==> i == j);
      assert Leads(s', s'.r.p, s'.cur.value);
    }
    ReaderStep(s, s');
  }

  lemma ReadNextKeeps(s: State, s': State)
    requires Inv(s) && ReadNext(s, s')
    ensures Inv(s')
  {
    hide Sound, PcOk, Spare, Linked, Approaches, Follows;
    DoomedLeads(s);
    SameList(s, s');
    assert forall p :: ReaderWrites(s'.r, p) ==> ReaderWrites(s.r, p);
    assert forall t :: t in s'.threads ==> !Reads(s'.threads[t], NextOf(s.cur.value));
    SameList(s, s');
    ReaderStep(s, s');
  }

  // ---------------------------------------------------------------- the reader moves a block

  /** A move of one block of the current group by the reader. */
  lemma ReaderBlock(s: State, s': State, g: nat)
    requires Inv(s) && s.cur == Some(g) && g in s.groups && g in s'.groups
    requires s' == PutGroup(s, g, s'.groups[g]).(r := s'.r) && Sound(s', g)
    requires (s.r.Roam? || s.r.Taken? || s.r.Removed?) && (s'.r.Roam? || s'.r.Taken? || s'.r.Removed?)
    ensures Inv(s')
  {
    hide Sound, Linked, Spare, Leads, Follows, Approaches, Bare;
    assert forall w, h: nat, b: nat :: h != g ==> (Hand(s', w, h, b) <==> Hand(s, w, h, b));
    ListedNotSpare(s, g);
    LinkedKept(s, s');
    SameList(s, s');
    forall h | h in s.groups ensures Sound(s', h) { if h != g { SoundSame(s, s', h); } }
    forall i | 0 <= i < |s.pool| ensures Spare(s', s.pool[i]) {
      assert s.pool[i] in s.pool;
      SpareKept(s, s', s.pool[i]);
    }
    forall u | u in s'.threads ensures PcOk(s', u) {
      assert PcOk(s, u);
      if s.threads[u].Fresh? { SpareKept(s, s', s.threads[u].g); }
      PcKept(s, s', u);
    }
  }

  lemma CurListed(s: State)
    requires Inv(s) && s.cur.Some?
    ensures s.cur.value in s.groups && Sound(s, s.cur.value)
  {
    hide Sound, Spare, Leads, Follows, Approaches, Bare, PcOk, Exclusive;
  }

  lemma TakeStageKeeps(s: State, s': State)
    requires Inv(s) && TakeStage(s, s')
    ensures Inv(s')
  {
    hide Inv, Sound;
    CurListed(s);
    var g := s.cur.value;
    var x := s.groups[g];
    var i := |x.free|;
    assert All(s'.groups[g]) == All(x)[..i] + All(x)[i + 1..];
    SoundTake(s, s', g, Reader, i);
    ReaderBlock(s, s', g);
  }

  lemma RemoveUsedKeeps(s: State, s': State, k: nat)
    requires Inv(s) && RemoveUsed(s, s', k)
    ensures Inv(s')
  {
    hide Inv, Sound;
    CurListed(s);
    var g := s.cur.value;
    var x := s.groups[g];
    var i := |x.free| + |x.stage| + k;
    assert All(s'.groups[g]) == All(x)[..i] + All(x)[i + 1..];
    SoundTake(s, s', g, Reader, i);
    ReaderBlock(s, s', g);
  }

  lemma PutUsedKeeps(s: State, s': State, k: nat)
    requires Inv(s) && PutUsed(s, s', k)
    ensures Inv(s')
  {
    hide Inv, Sound;
    CurListed(s);
    var g := s.cur.value;
    var x := s.groups[g];
    var i := |x.free| + |x.stage| + k;
    assert All(s'.groups[g]) == All(x)[..i] + [s.r.b] + All(x)[i..];
    SoundGive(s, s', g, Reader, s.r.b, i);
    ReaderBlock(s, s', g);
  }

  lemma PushFreeKeeps(s: State, s': State)
    requires Inv(s) && PushFree(s, s')
    ensures Inv(s')
  {
    hide Inv, Sound;
    CurListed(s);
    var g := s.cur.value;
    var x := s.groups[g];
    assert All(s'.groups[g]) == All(x)[..0] + [s.r.b] + All(x)[0..];
    SoundGive(s, s', g, Reader, s.r.b, 0);
    ReaderBlock(s, s', g);
  }

  // ---------------------------------------------------------------- unlinking the current group

  lemma {:induction false} WithoutAt(c: seq<nat>, j: nat)
    requires Distinct(c) && j < |c|
    ensures Without(c, c[j]) == c[..j] + c[j + 1..]
  {
    if j == 0 {
      assert c[..0] + c[1..] == c[1..];
    } else {
      assert c[0] != c[j];
      WithoutAt(c[1..], j - 1);
      assert c[..j] + c[j + 1..] == [c[0]] + (c[1..][..j - 1] + c[1..][j..]);
    }
  }

  /** The reader cuts position `j` out of the list. */
  ghost predicate Cuts(s: State, s': State, j: nat) {
    && Unlink(s, s') && s.cur.Some? && j < |s.list| && s.list[j] == s.cur.value && s.r.p == PtrTo(s.list, j)
    && s.r.nx == Nth(s.list, j + 1) && s'.list == s.list[..j] + s.list[j + 1..]
  }

  lemma CutAt(s: State, s': State) returns (j: nat)
    requires Linked(s) && ReaderOk(s) && Unlink(s, s')
    ensures Cuts(s, s', j)
  {
    hide Bare, Spare, Follows, Approaches;
    j :| 0 <= j < |s.list| && s.list[j] == s.cur.value && s.r.p == PtrTo(s.list, j);
    WithoutAt(s.list, j);
    assert s.next[s.list[j]] == Nth(s.list, j + 1);
  }

  lemma CutDistinct(s: State, s': State, j: nat)
    requires Cuts(s, s', j) && Distinct(s.list)
    ensures Distinct(s'.list) && s.cur.value !in s'.list && forall h :: h in s'.list ==> h in s.list
  {
    hide Unlink;
    assert forall i :: 0 <= i < |s'.list| ==> s'.list[i] == if i < j then s.list[i] else s.list[i + 1];
  }

  lemma CutLinked(s: State, s': State, j: nat)
    requires Cuts(s, s', j) && Linked(s)
    ensures Linked(s')
  {
    assert s'.head == Nth(s'.list, 0) && s'.pool == s.pool && s'.groups == s.groups;
    hide Cuts, Distinct;
    CutDistinct(s, s', j);
    forall i | 0 <= i < |s'.list|
      ensures s'.list[i] in s'.groups && s'.list[i] in s'.next && s'.next[s'.list[i]] == Nth(s'.list, i + 1)
    {
      hide Cuts, Linked, Nth;
      assert s.r.Cut? && j < |s.list| && s.r.nx == Nth(s.list, j + 1) && s'.list == s.list[..j] + s.list[j + 1..];
      var k := if i < j then i else i + 1;
      CutSeq(s.list, s'.list, j, k);
      CutStore(s, s', j, k);
      assert s.list[k] in s.next && s.next[s.list[k]] == Nth(s.list, k + 1);
    }
  }

  /** Positions after the cut. */
  lemma CutSeq(c: seq<nat>, d: seq<nat>, j: nat, i: nat)
    requires j < |c| && d == c[..j] + c[j + 1..] && i < |c| && i != j
    ensures var k := if i < j then i else i - 1;
      && k < |d| && d[k] == c[i]
      && Nth(d, k + 1) == if i + 1 == j then Nth(c, j + 1) else Nth(c, i + 1)
    ensures var k := if i < j then i else i - 1; i != j + 1 ==> PtrTo(d, k) == PtrTo(c, i)
  {
  }

  /** Only the pointer to the group cut out is stored to. */
  lemma CutStore(s: State, s': State, j: nat, k: nat)
    requires Cuts(s, s', j) && Linked(s) && k < |s.list| && k != j
    ensures s.list[k] in s'.groups && s.list[k] in s'.next
    ensures s'.next[s.list[k]] == if k + 1 == j then s.r.nx else s.next[s.list[k]]
  {
    if 0 < j && k != j - 1 { assert s.list[k] != s.list[j - 1]; }
  }

  lemma CutLeads(s: State, s': State, j: nat, q: Ptr, h: nat)
    requires Cuts(s, s', j) && Leads(s, q, h) && q != s.r.p && q != NextOf(s.cur.value)
    ensures Leads(s', q, h)
  {
    hide Unlink;
    var i :| 0 <= i < |s.list| && s.list[i] == h && q == PtrTo(s.list, i);
    assert i != j && i != j + 1;
    CutSeq(s.list, s'.list, j, i);
    var k := if i < j then i else i - 1;
    assert s'.list[k] == h && q == PtrTo(s'.list, k);
  }

  lemma CutFollows(s: State, s': State, j: nat, l: nat)
    requires Cuts(s, s', j) && Distinct(s.list) && Follows(s, l, s.cur.value) && s.r.nx.Some?
    ensures Follows(s', l, s.r.nx.value)
  {
    var i :| 0 <= i && i + 1 < |s.list| && s.list[i] == l && s.list[i + 1] == s.cur.value;
    assert i + 1 == j;
    assert s'.list[i] == l && s'.list[i + 1] == s.list[j + 1];
  }

  lemma CutPc(s: State, s': State, j: nat, u: nat)
    requires Cuts(s, s', j) && Linked(s) && ReaderOk(s) && Exclusive(s) && (forall g :: Spare(s, g) ==> Spare(s', g)) && u in s.threads && PcOk(s, u)
    ensures PcOk(s', u)
  {
    hide Spare, Leads, Follows, Approaches, Bare, Linked;
    var pc := s.threads[u];
    ShutOut(s, u, s.r.p);
    Positions(s);
    CutDistinct(s, s', j);
    if pc.Visit? || pc.Hold? || pc.Leave? || pc.Miss? { CutLeads(s, s', j, pc.p, pc.g); }
  }

  /** The group cut out is one nobody works on: all its blocks are free. */
  lemma CutSpare(s: State)
    requires Inv(s) && s.r.Cut?
    ensures s.cur.Some? && Spare(s, s.cur.value)
  {
    hide Sound, Linked, Exclusive, Leads;
    var c := s.cur.value;
    forall w, b: nat ensures !Hand(s, w, c, b) {
      if Hand(s, w, c, b) && w.Thread? && !s.threads[w.t].FreshHold? { AtListed(s, w.t); }
    }
  }

  lemma CutReader(s: State, s': State, j: nat)
    requires Cuts(s, s', j) && Linked(s) && ReaderOk(s) && Spare(s, s.cur.value) && (forall g :: Spare(s, g) ==> Spare(s', g))
    ensures ReaderOk(s')
  {
    hide Spare, Leads, Follows, Approaches, Bare;
    CutDistinct(s, s', j);
    assert s.list[j] in s.groups && s.list[j] !in s.pool;
    if s.r.nx.Some? {
      assert s'.list[j] == s.r.nx.value;
      if s.last.Some? { CutFollows(s, s', j, s.last.value); }
    }
  }

  lemma UnlinkKeeps(s: State, s': State)
    requires Inv(s) && Unlink(s, s')
    ensures Inv(s')
  {
    hide Sound, Linked, Exclusive, ReaderOk, Spare, SameBlocks, PcOk, Cuts;
    HandsStay(s, s');
    SoundAll(s, s');
    var j := CutAt(s, s');
    CutLinked(s, s', j);
    CutSpare(s);
    CutReader(s, s', j);
    forall u | u in s'.threads ensures PcOk(s', u) { CutPc(s, s', j, u); }
  }

  // ---------------------------------------------------------------- the pool

  lemma PoolPushKeeps(s: State, s': State)
    requires Inv(s) && PoolPush(s, s')
    ensures Inv(s')
  {
    hide Sound, SameBlocks, Spare, Leads, Follows, Approaches, Bare;
    HandsStay(s, s');
    SoundAll(s, s');
    SameList(s, s');
    forall u | u in s'.threads ensures PcOk(s', u) {
      assert PcOk(s, u);
    }
    forall i | 0 <= i < |s'.pool| ensures Spare(s', s'.pool[i]) {
      var g := if i == 0 then s.r.g else s.pool[i - 1];
      assert s'.pool[i] == g;
    }
  }

  lemma EvictLinked(s: State, s': State)
    requires Linked(s) && Evict(s, s')
    ensures Linked(s') && forall h :: h in s'.pool ==> h in s.pool && h in s'.groups
    ensures forall h :: h in s.list ==> h in s'.groups
  {
    var g := s.pool[|s.pool| - 1];
    assert g in s.pool;
    assert forall i :: 0 <= i < |s'.pool| ==> s'.pool[i] == s.pool[i] && s.pool[i] != g;
    assert forall i :: 0 <= i < |s.list| ==> s.list[i] != g;
  }

  lemma EvictKeeps(s: State, s': State)
    requires Inv(s) && Evict(s, s')
    ensures Inv(s')
  {
    hide Sound, SameBlocks, Spare, Leads, Follows, Approaches, Bare, Linked;
    HandsStay(s, s');
    SoundAll(s, s');
    SameList(s, s');
    EvictLinked(s, s');
    var g := s.pool[|s.pool| - 1];
    assert g in s.pool;
    forall u | u in s'.threads ensures PcOk(s', u) {
      assert PcOk(s, u);
    }
    forall i | 0 <= i < |s'.pool| ensures Spare(s', s'.pool[i]) {
      assert s'.pool[i] in s'.pool && s'.pool[i] == s.pool[i];
    }
  }

  // ---------------------------------------------------------------- whole runs

  lemma ThreadKeeps(s: State, s': State, step: Step)
    requires Inv(s) && Next(s, s', step)
    requires step.AEnter? || step.APopFree? || step.APushStage? || step.AUnlock? || step.AOnward? || step.ALockHead?
             || step.APopFirst? || step.AFromPool? || step.AMakeGroup? || step.APopFresh? || step.ALinkGroup? || step.AStageFirst?
    ensures Inv(s')
  {
    hide Inv;
    match step {
      case AEnter(t) => EnterKeeps(s, s', t);
      case APopFree(t) => PopFreeKeeps(s, s', t);
      case APushStage(t) => PushStageKeeps(s, s', t);
      case AUnlock(t) => UnlockKeeps(s, s', t);
      case AOnward(t) => OnwardKeeps(s, s', t);
      case ALockHead(t) => LockHeadKeeps(s, s', t);
      case APopFirst(t) => PopFirstKeeps(s, s', t);
      case AFromPool(t) => FromPoolKeeps(s, s', t);
      case AMakeGroup(t, g, free) => MakeGroupKeeps(s, s', t, g, free);
      case APopFresh(t) => PopFreshKeeps(s, s', t);
      case ALinkGroup(t) => LinkGroupKeeps(s, s', t);
      case AStageFirst(t) => StageFirstKeeps(s, s', t);
    }
  }

  lemma NextKeeps(s: State, s': State, step: Step)
    requires Inv(s) && Next(s, s', step)
    ensures Inv(s')
  {
    hide Inv;
    match step {
      case RStartScan => StartScanKeeps(s, s');
      case RAdvance => StartScanKeeps(s, s');
      case RTakeStage => TakeStageKeeps(s, s');
      case RPutUsed(i) => PutUsedKeeps(s, s', i);
      case RRemoveUsed(i) => RemoveUsedKeeps(s, s', i);
      case RPushFree => PushFreeKeeps(s, s');
      case RLockBehind => LockBehindKeeps(s, s');
      case RWalkOn => WalkOnKeeps(s, s');
      case RInspect => InspectKeeps(s, s');
      case RReadNext => ReadNextKeeps(s, s');
      case RUnlink => UnlinkKeeps(s, s');
      case RPoolPush => PoolPushKeeps(s, s');
      case REvict => EvictKeeps(s, s');
      case _ => ThreadKeeps(s, s', step);
    }
  }

  lemma {:induction false} RunInv(run: seq<State>, steps: seq<Step>, i: nat)
    requires IsRun(run, steps) && i < |run|
    ensures Inv(run[i])
  {
    hide Inv, Next, AllListed;
    if i == 0 {
      InitInv(run[0]);
    } else {
      RunInv(run, steps, i - 1);
      assert Next(run[i - 1], run[i - 1 + 1], steps[i - 1]);
      NextKeeps(run[i - 1], run[i], steps[i - 1]);
    }
  }

  /** Over every run each block of every group is in exactly one place. */
  lemma BlocksInOnePlace(run: seq<State>, steps: seq<Step>, i: nat, g: nat, b: nat)
    requires IsRun(run, steps) && i < |run| && g in run[i].groups && b < run[i].max
    ensures var x := run[i].groups[g];
      && (b in x.free || b in x.stage || b in x.used || exists w :: Hand(run[i], w, g, b))
      && !(b in x.free && b in x.stage) && !(b in x.free && b in x.used) && !(b in x.stage && b in x.used)
      && (forall w :: Hand(run[i], w, g, b) ==> b !in x.free && b !in x.stage && b !in x.used)
      && (forall v, w :: Hand(run[i], v, g, b) && Hand(run[i], w, g, b) ==> v == w)
      && Distinct(x.free) && Distinct(x.stage) && Distinct(x.used)
  {
    hide IsRun, Hand, Linked, Exclusive, ReaderOk, PcOk, Spare;
    RunInv(run, steps, i);
    assert Sound(run[i], g);
    ApartLists(run[i].max, run[i].groups[g], b);
  }

  lemma ApartLists(max: nat, x: Group, b: nat)
    requires Tidy(max, All(x))
    ensures !(b in x.free && b in x.stage) && !(b in x.free && b in x.used) && !(b in x.stage && b in x.used)
    ensures b in All(x) <==> b in x.free || b in x.stage || b in x.used
    ensures Distinct(x.free) && Distinct(x.stage) && Distinct(x.used)
  {
    var c := All(x);
    var n, m := |x.free|, |x.free| + |x.stage|;
    assert forall i :: 0 <= i < n ==> x.free[i] == c[i];
    assert forall i :: 0 <= i < |x.stage| ==> x.stage[i] == c[n + i];
    assert forall i :: 0 <= i < |x.used| ==> x.used[i] == c[m + i];
  }

  /** A group leaves the list only when every one of its blocks is on its free list. */
  lemma UnlinkedIsWhole(run: seq<State>, steps: seq<Step>, i: nat)
    requires IsRun(run, steps) && i < |steps| && steps[i] == RUnlink
    ensures run[i].cur.Some? && run[i].cur.value in run[i].groups
    ensures Whole(run[i].max, run[i].groups[run[i].cur.value].free)
  {
    hide Inv, Spare;
    RunInv(run, steps, i);
    assert Next(run[i], run[i + 1], steps[i]);
    CutSpare(run[i]);
    SpareIsWhole(run[i], run[i].cur.value);
  }

  /** The block taken from a pooled or new group is never null, and every pooled group is whole. */
  lemma PoolYields(run: seq<State>, steps: seq<Step>, i: nat)
    requires IsRun(run, steps) && i < |run|
    ensures forall t :: t in run[i].threads ==> !run[i].threads[t].Crashed?
    ensures forall k :: 0 <= k < |run[i].pool| ==>
              run[i].pool[k] in run[i].groups && Whole(run[i].max, run[i].groups[run[i].pool[k]].free)
  {
    hide IsRun, Linked, Exclusive, ReaderOk, Sound, Spare, Whole, Leads;
    RunInv(run, steps, i);
    forall t | t in run[i].threads ensures !run[i].threads[t].Crashed? { assert PcOk(run[i], t); }
    forall k | 0 <= k < |run[i].pool|
      ensures run[i].pool[k] in run[i].groups && Whole(run[i].max, run[i].groups[run[i].pool[k]].free)
    {
      SpareIsWhole(run[i], run[i].pool[k]);
    }
  }

  /** The reader's search for the pointer to its group never runs off the list. */
  lemma ReaderFindsGroup(run: seq<State>, steps: seq<Step>, i: nat)
    requires IsRun(run, steps) && i < |run|
    ensures var s := run[i];
      && (s.cur.Some? ==> Get(s, Behind(s)).Some? && (s.last.Some? ==> Get(s, Behind(s)) == s.cur))
      && (s.r.Walk? && Some(s.r.g) != s.cur ==> s.last == None && Get(s, NextOf(s.r.g)).Some?)
  {
    hide IsRun, Exclusive, Sound, Spare, Leads, PcOk, Bare;
    RunInv(run, steps, i);
    var s := run[i];
    if s.cur.Some? { BehindApproaches(s); }
    if s.r.Walk? && Some(s.r.g) != s.cur && s.last == None { WalkFinds(s); }
  }
}
