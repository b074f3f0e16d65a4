/** Every step keeps the invariant of the group list. */
module GroupSteps {
  import opened Words
  import opened GroupModel
  import opened GroupInv

  // ---------------------------------------------------------------- positions and locks

  /** What the pointers of the list lead to. */
  lemma Positions(s: State)
    requires Linked(s)
    ensures Distinct(s.list) && (s.head.Some? ==> Leads(s, Head, s.head.value))
    ensures forall p, g: nat :: Leads(s, p, g) ==> Get(s, p) == Some(g) && g in s.list && g in s.groups
    ensures forall p, q, g :: Leads(s, p, g) && Leads(s, q, g) ==> p == q
  {
  }

  lemma NextLeads(s: State, p: Ptr, g: nat)
    requires Linked(s) && Leads(s, p, g) && Get(s, NextOf(g)).Some?
    ensures Leads(s, NextOf(g), Get(s, NextOf(g)).value)
  {
    var i :| 0 <= i < |s.list| && s.list[i] == g && p == PtrTo(s.list, i);
    assert s.next[s.list[i]] == Nth(s.list, i + 1);
    assert PtrTo(s.list, i + 1) == NextOf(g);
  }

  /** Same list, pointers and pool. */
  ghost predicate SameTopology(s: State, s': State) {
    s'.max == s.max && s'.list == s.list && s'.head == s.head && s'.next == s.next && s'.pool == s.pool
  }

  lemma LinkedKept(s: State, s': State)
    requires Linked(s) && SameTopology(s, s') && forall g :: g in s.groups ==> g in s'.groups
    ensures Linked(s')
  {
  }

  lemma ShutOut(s: State, t: nat, p: Ptr)
    requires Exclusive(s) && t in s.threads && ReaderWrites(s.r, p)
    ensures !Writes(s.threads[t], p) && !Reads(s.threads[t], p)
  {
  }

  lemma DoomedLeads(s: State)
    requires ReaderOk(s) && (s.r.Doomed? || s.r.Cut?)
    ensures s.cur.Some? && Leads(s, s.r.p, s.cur.value)
  {
  }

  /** The group a thread works on under its lock is listed, and is not the one being unlinked. */
  lemma AtListed(s: State, t: nat)
    requires Inv(s) && t in s.threads
    requires var pc := s.threads[t]; pc.Visit? || pc.Hold? || pc.Leave? || pc.Miss? || pc.LinkHold?
    ensures s.threads[t].g in s.list && s.threads[t].g in s.groups
    ensures s.r.Doomed? || s.r.Cut? ==> s.cur != Some(s.threads[t].g)
  {
    hide Sound, Spare, Linked, ReaderOk, Leads, Exclusive, Distinct;
    var pc := s.threads[t];
    assert PcOk(s, t);
    Positions(s);
    var p := if pc.LinkHold? then Head else pc.p;
    if s.r.Doomed? || s.r.Cut? {
      DoomedLeads(s);
      ShutOut(s, t, s.r.p);
    }
  }

  // ---------------------------------------------------------------- one thread's step

  /** Another thread is none the worse for a step that spares its group. */
  lemma PcKept(s: State, s': State, u: nat)
    requires SameTopology(s, s') && u in s.threads && u in s'.threads && s'.threads[u] == s.threads[u] && PcOk(s, u)
    requires s'.r.Drop? ==> s'.r == s.r
    requires forall g :: g in s.groups ==> g in s'.groups
    requires s.threads[u].Fresh? ==> Spare(s', s.threads[u].g)
    ensures PcOk(s', u)
  {
    hide Spare;
  }

  lemma ReaderKept(s: State, s': State)
    requires ReaderOk(s) && SameTopology(s, s') && s'.r == s.r && s'.cur == s.cur && s'.last == s.last
    requires forall g :: g in s.groups ==> g in s'.groups
    requires s.r.Drop? ==> Spare(s', s.r.g)
    requires (s.r.Doomed? || s.r.Cut?) && s.cur.Some? ==> Bare(s', s.cur.value)
    requires s.r.Cut? && s.cur.Some? ==> forall t :: t in s'.threads ==> !Reads(s'.threads[t], NextOf(s.cur.value))
    ensures ReaderOk(s')
  {
    hide Spare, Bare;
  }

  lemma SpareKept(s: State, s': State, g: nat)
    requires Spare(s, g) && (g in s.groups ==> g in s'.groups && s'.groups[g] == s.groups[g])
    requires forall w, b: nat :: Hand(s', w, g, b) ==> Hand(s, w, g, b)
    ensures Spare(s', g)
  {
  }

  ghost predicate HandFree(pc: Pc) {
    !pc.Hold? && !pc.FreshHold? && !pc.LinkHold?
  }

  /** A step of one thread that only moves its program counter and locks. */
  lemma PcStep(s: State, s': State, t: nat, pc: Pc)
    requires Inv(s) && s' == Go(s, t, pc) && PcOk(s', t) && Exclusive(s')
    requires HandFree(pc) && (t in s.threads ==> HandFree(s.threads[t]))
    requires s.r.Cut? && s.cur.Some? ==> !Reads(pc, NextOf(s.cur.value))
    ensures Inv(s')
  {
    hide Sound, Linked, Spare, Bare, Leads, Approaches, Follows, Exclusive;
    assert forall w, g, b: nat :: Hand(s', w, g, b) <==> Hand(s, w, g, b);
    forall g | g in s.groups ensures Sound(s', g) { SoundSame(s, s', g); }
    LinkedKept(s, s');
    forall i | 0 <= i < |s.pool| ensures Spare(s', s.pool[i]) { SpareKept(s, s', s.pool[i]); }
    if s.r.Drop? { SpareKept(s, s', s.r.g); }
    if (s.r.Doomed? || s.r.Cut?) && s.cur.Some? { BareKept(s, s', s.cur.value); }
    ReaderKept(s, s');
    forall u | u in s'.threads ensures PcOk(s', u) {
      if u != t {
        assert PcOk(s, u);
        if s.threads[u].Fresh? { SpareKept(s, s', s.threads[u].g); }
        PcKept(s, s', u);
      }
    }
  }

  lemma BareKept(s: State, s': State, g: nat)
    requires Bare(s, g) && (g in s.groups ==> g in s'.groups && s'.groups[g] == s.groups[g])
    ensures Bare(s', g)
  {
  }

  lemma EnterKeeps(s: State, s': State, t: nat)
    requires Inv(s) && Enter(s, s', t)
    ensures Inv(s')
  {
    hide Sound, Spare, Bare, ReaderOk;
    Positions(s);
    Positions(s');
    PcStep(s, s', t, s'.threads[t]);
  }

  lemma UnlockKeeps(s: State, s': State, t: nat)
    requires Inv(s) && Unlock(s, s', t)
    ensures Inv(s')
  {
    hide Sound, Spare, Bare, ReaderOk, Linked;
    PcStep(s, s', t, Idle);
  }

  lemma OnwardKeeps(s: State, s': State, t: nat)
    requires Inv(s) && Onward(s, s', t)
    ensures Inv(s')
  {
    hide Sound, Spare, Bare, Linked, Leads, Approaches, Follows;
    var pc := s.threads[t];
    assert PcOk(s, t);
    AtListed(s, t);
    Positions(s);
    if Get(s, NextOf(pc.g)).Some? {
      NextLeads(s, pc.p, pc.g);
      SameList(s, s');
    }
    PcStep(s, s', t, s'.threads[t]);
  }

  /** The same list has the same pointers and neighbours. */
  lemma SameList(s: State, s': State)
    requires s'.list == s.list
    ensures forall p, g :: Leads(s, p, g) ==> Leads(s', p, g)
    ensures forall l, c :: Follows(s, l, c) ==> Follows(s', l, c)
  {
  }

  lemma LockHeadKeeps(s: State, s': State, t: nat)
    requires Inv(s) && LockHead(s, s', t)
    ensures Inv(s')
  {
    hide Sound, Spare, Bare, ReaderOk, Linked;
    PcStep(s, s', t, Locked);
  }

  // ---------------------------------------------------------------- one thread moves a block

  /** A step of one thread, under unchanged locks, that changes one group and leaves it sound. */
  lemma BlockStep(s: State, s': State, t: nat, g: nat, pc: Pc, x: Group)
    requires Inv(s) && t in s.threads && g in s.groups && s' == PutGroup(Go(s, t, pc), g, x)
    requires forall p :: Reads(pc, p) == Reads(s.threads[t], p) && Writes(pc, p) == Writes(s.threads[t], p)
    requires PcOk(s', t) && Sound(s', g)
    requires forall w, h: nat, b: nat :: h != g ==> (Hand(s', w, h, b) <==> Hand(s, w, h, b))
    requires g !in s.pool && s.r != Drop(g) && (s.r.Doomed? || s.r.Cut? ==> s.cur != Some(g))
    requires forall u :: u in s.threads && u != t ==> s.threads[u] != Fresh(g)
    ensures Inv(s')
  {
    hide Sound, Linked, Spare, Bare, Leads, Approaches, Follows, Hand;
    forall h | h in s.groups ensures Sound(s', h) { if h != g { SoundSame(s, s', h); } }
    LinkedKept(s, s');
    forall i | 0 <= i < |s.pool| ensures Spare(s', s.pool[i]) {
      assert s.pool[i] in s.pool;
      SpareKept(s, s', s.pool[i]);
    }
    if s.r.Drop? { SpareKept(s, s', s.r.g); }
    if (s.r.Doomed? || s.r.Cut?) && s.cur.Some? { BareKept(s, s', s.cur.value); }
    ReaderKept(s, s');
    forall u | u in s'.threads ensures PcOk(s', u) {
      if u != t {
        assert PcOk(s, u);
        if s.threads[u].Fresh? { SpareKept(s, s', s.threads[u].g); }
        PcKept(s, s', u);
      }
    }
  }

  /** A listed group is in nobody's spare hands. */
  lemma ListedNotSpare(s: State, g: nat)
    requires Inv(s) && g in s.list
    ensures g !in s.pool && s.r != Drop(g) && forall u :: u in s.threads ==> s.threads[u] != Fresh(g)
  {
    hide Sound, Spare, Bare, Leads, Exclusive;
    forall u | u in s.threads ensures s.threads[u] != Fresh(g) { assert PcOk(s, u); }
  }

  lemma PopFreeKeeps(s: State, s': State, t: nat)
    requires Inv(s) && PopFree(s, s', t)
    ensures Inv(s')
  {
    hide Sound, Spare, Bare, Linked, Leads, ReaderOk, Tidy;
    var pc := s.threads[t];
    assert PcOk(s, t);
    AtListed(s, t);
    ListedNotSpare(s, pc.g);
    SameList(s, s');
    var x := s.groups[pc.g];
    if x.free == [] {
      MissStep(s, s', t);
    } else {
      var y := x.(free := x.free[1..]);
      assert All(y) == All(x)[..0] + All(x)[1..];
      SoundTake(s, s', pc.g, Thread(t), 0);
      BlockStep(s, s', t, pc.g, s'.threads[t], y);
    }
  }

  lemma MissStep(s: State, s': State, t: nat)
    requires Inv(s) && t in s.threads && s.threads[t].Visit? && s' == Go(s, t, Miss(s.threads[t].p, s.threads[t].g))
    ensures Inv(s')
  {
    hide Sound, Spare, Bare, Linked, Leads, Approaches, Follows;
    assert PcOk(s, t);
    SameList(s, s');
    PcStep(s, s', t, s'.threads[t]);
  }

  lemma PushStageKeeps(s: State, s': State, t: nat)
    requires Inv(s) && PushStage(s, s', t)
    ensures Inv(s')
  {
    hide Sound, Spare, Bare, Linked, Leads, ReaderOk, Tidy;
    var pc := s.threads[t];
    assert PcOk(s, t);
    AtListed(s, t);
    ListedNotSpare(s, pc.g);
    SameList(s, s');
    var x := s.groups[pc.g];
    var y := x.(stage := [pc.b] + x.stage);
    assert All(y) == All(x)[..|x.free|] + [pc.b] + All(x)[|x.free|..];
    SoundGive(s, s', pc.g, Thread(t), pc.b, |x.free|);
    BlockStep(s, s', t, pc.g, s'.threads[t], y);
  }

  lemma StageFirstKeeps(s: State, s': State, t: nat)
    requires Inv(s) && StageFirst(s, s', t)
    ensures Inv(s')
  {
    hide Sound, Spare, Bare, Linked, Leads, ReaderOk, Tidy;
    var pc := s.threads[t];
    assert PcOk(s, t);
    AtListed(s, t);
    ListedNotSpare(s, pc.g);
    var x := s.groups[pc.g];
    var y := x.(stage := [pc.b] + x.stage);
    assert All(y) == All(x)[..|x.free|] + [pc.b] + All(x)[|x.free|..];
    SoundGive(s, s', pc.g, Thread(t), pc.b, |x.free|);
    BlockStep(s, s', t, pc.g, s'.threads[t], y);
  }

  /** Under the head's write lock the first group is not the one being unlinked. */
  lemma HeadListed(s: State, t: nat)
    requires Inv(s) && t in s.threads && Writes(s.threads[t], Head) && s.head.Some?
    ensures s.head.value in s.list && s.head.value in s.groups
    ensures s.r.Doomed? || s.r.Cut? ==> s.cur != s.head
  {
    hide Sound, Spare, Linked, ReaderOk, Leads, Exclusive, PcOk, Distinct;
    Positions(s);
    if s.r.Doomed? || s.r.Cut? {
      DoomedLeads(s);
      ShutOut(s, t, s.r.p);
    }
  }

  lemma PopFirstKeeps(s: State, s': State, t: nat)
    requires Inv(s) && PopFirst(s, s', t)
    ensures Inv(s')
  {
    hide Sound, Spare, Bare, Linked, Leads, ReaderOk, Tidy;
    assert PcOk(s, t);
    if s'.threads[t] == Dry {
      DryStep(s, s', t);
    } else {
      HeadListed(s, t);
      var g := s.head.value;
      ListedNotSpare(s, g);
      var x := s.groups[g];
      var y := x.(free := x.free[1..]);
      assert All(y) == All(x)[..0] + All(x)[1..];
      SoundTake(s, s', g, Thread(t), 0);
      BlockStep(s, s', t, g, s'.threads[t], y);
    }
  }

  lemma DryStep(s: State, s': State, t: nat)
    requires Inv(s) && t in s.threads && s.threads[t] == Locked && s' == Go(s, t, Dry)
    ensures Inv(s')
  {
    hide Sound, Spare, Bare, Linked, Leads, ReaderOk;
    assert PcOk(s, t);
    PcStep(s, s', t, Dry);
  }

  /** A spare group has all its blocks free. */
  lemma SpareIsWhole(s: State, g: nat)
    requires Inv(s) && Spare(s, g)
    ensures g in s.groups && Whole(s.max, s.groups[g].free) && s.groups[g].free != []
  {
    hide Linked, ReaderOk, PcOk, Exclusive, Hand;
    assert Sound(s, g);
    var x := s.groups[g];
    assert All(x) == x.free;
    forall b | 0 <= b < s.max ensures b in x.free { }
    assert 0 in x.free;
  }

  /** A pooled or new group always yields a block. */
  lemma PopFreshKeeps(s: State, s': State, t: nat)
    requires Inv(s) && PopFresh(s, s', t)
    ensures Inv(s') && s'.threads[t].FreshHold?
  {
    hide Sound, Spare, Bare, Linked, Leads, Tidy, Approaches, Follows;
    assert PcOk(s, t);
    var g := s.threads[t].g;
    SpareIsWhole(s, g);
    var x := s.groups[g];
    var y := x.(free := x.free[1..]);
    assert All(y) == All(x)[..0] + All(x)[1..];
    SoundTake(s, s', g, Thread(t), 0);
    BlockStep(s, s', t, g, s'.threads[t], y);
  }
}
