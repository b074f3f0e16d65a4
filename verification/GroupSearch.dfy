/**
 What the walks over the group list find, read off a run's steps: a group is added only when the allocating thread has
 seen every other one without a free block, the reader's scan comes by every group, and no group gets lost.
 */
module GroupSearch {
  import opened Words
  import opened GroupModel
  import opened GroupInv
  import opened GroupSteps
  import opened GroupTopology
  import opened GroupHistory

  /** The step links group `g`. */
  predicate Links(s: State, step: Step, g: nat) {
    step.ALinkGroup? && step.t in s.threads && s.threads[step.t].FreshHold? && s.threads[step.t].g == g
  }

  /** Groups linked since the last step `since`. */
  ghost function Newer(run: seq<State>, steps: seq<Step>, n: nat, since: Step): set<nat>
    decreases n
  {
    if n == 0 || n > |steps| || n > |run| || steps[n - 1] == since then {}
    else
      var s, step := run[n - 1], steps[n - 1];
      Newer(run, steps, n - 1, since) + if step.ALinkGroup? && Links(s, step, Mover(s, step)) then {Mover(s, step)} else {}
  }

  /** The group in the hands of the thread whose step it is. */
  function Mover(s: State, step: Step): nat {
    if step.ALinkGroup? && step.t in s.threads && s.threads[step.t].FreshHold? then s.threads[step.t].g else 0
  }

  /** Groups in which thread `t` has found no free block since it asked for one. */
  ghost function Seen(run: seq<State>, steps: seq<Step>, n: nat, t: nat): set<nat>
    decreases n
  {
    if n == 0 || n > |steps| || n > |run| || steps[n - 1] == AEnter(t) then {}
    else
      var s := run[n - 1];
      Seen(run, steps, n - 1, t)
      + if steps[n - 1] == APopFree(t) && t in s.threads && s.threads[t].Visit? && s.threads[t].g in s.groups
           && s.groups[s.threads[t].g].free == [] then {s.threads[t].g} else {}
  }

  /** The first group, if thread `t` has found no free block in it again under the head's write lock. */
  ghost function FoundDry(run: seq<State>, steps: seq<Step>, n: nat, t: nat): set<nat>
    decreases n
  {
    if n == 0 || n > |steps| || n > |run| || steps[n - 1] == AEnter(t) then {}
    else
      var s := run[n - 1];
      if steps[n - 1] == APopFirst(t) && s.head.Some? && s.head.value in s.groups && s.groups[s.head.value].free == []
      then {s.head.value} else FoundDry(run, steps, n - 1, t)
  }

  /** Groups the reader has stood at and left since its scan began. */
  ghost function Passed(run: seq<State>, steps: seq<Step>, n: nat): set<nat>
    decreases n
  {
    if n == 0 || n > |steps| || n > |run| || steps[n - 1] == RStartScan then {}
    else Passed(run, steps, n - 1) + if run[n - 1].cur.Some? then {run[n - 1].cur.value} else {}
  }

  // ---------------------------------------------------------------- the list

  /** `h` stands before `g`. */
  ghost predicate Ahead(list: seq<nat>, g: nat, h: nat) {
    exists i, j :: 0 <= i < j < |list| && list[i] == h && list[j] == g
  }

  /** What a step does to the list: one group more in front, or one less. */
  lemma ListMoves(s: State, s': State, step: Step)
    requires Next(s, s', step) && Inv(s)
    ensures forall h :: h in s'.list ==> h in s.list || Links(s, step, h)
    ensures forall g, h :: Ahead(s'.list, g, h) ==> Ahead(s.list, g, h) || Links(s, step, h)
  {
    hide Next, Inv, Ahead, Links;
    if step.ALinkGroup? {
      LinkPushes(s, s', step);
    } else if step.RUnlink? {
      Unfold(s, s', step);
      UnlinkCuts(s, s');
    } else {
      ListSame(s, s', step);
    }
  }

  lemma LinkPushes(s: State, s': State, step: Step)
    requires step.ALinkGroup? && Next(s, s', step)
    ensures forall h :: h in s'.list ==> h in s.list || Links(s, step, h)
    ensures forall g, h :: Ahead(s'.list, g, h) ==> Ahead(s.list, g, h) || Links(s, step, h)
  {
    hide Ahead;
    Pushed(s.list, s.threads[step.t].g);
  }

  lemma UnlinkCuts(s: State, s': State)
    requires Unlink(s, s') && Inv(s)
    ensures forall h :: h in s'.list ==> h in s.list
    ensures forall g, h :: Ahead(s'.list, g, h) ==> Ahead(s.list, g, h)
  {
    hide Ahead, Exclusive, Sound, PcOk, Spare, Unlink;
    var j := CutAt(s, s');
    CutOut(s.list, j);
  }

  lemma ListSame(s: State, s': State, step: Step)
    requires !step.ALinkGroup? && !step.RUnlink? && Next(s, s', step)
    ensures s'.list == s.list
  {
    hide NoWriter, NoHolder, Whole, Without;
  }

  lemma Pushed(list: seq<nat>, x: nat)
    ensures forall h :: h in [x] + list ==> h in list || h == x
    ensures forall g, h :: Ahead([x] + list, g, h) ==> Ahead(list, g, h) || h == x
  {
    var d := [x] + list;
    forall g, h | Ahead(d, g, h) && h != x ensures Ahead(list, g, h) {
      var i, j :| 0 <= i < j < |d| && d[i] == h && d[j] == g;
      assert list[i - 1] == h && list[j - 1] == g;
    }
  }

  lemma CutOut(list: seq<nat>, k: nat)
    requires k < |list|
    ensures forall h :: h in list[..k] + list[k + 1..] ==> h in list
    ensures forall g, h :: Ahead(list[..k] + list[k + 1..], g, h) ==> Ahead(list, g, h)
  {
    var d := list[..k] + list[k + 1..];
    forall g, h | Ahead(d, g, h) ensures Ahead(list, g, h) {
      var i, j :| 0 <= i < j < |d| && d[i] == h && d[j] == g;
      assert list[if i < k then i else i + 1] == h && list[if j < k then j else j + 1] == g;
    }
  }

  /** Behind a group comes the one its pointer leads to, or nothing. */
  lemma NextAhead(s: State, g: nat)
    requires Linked(s) && g in s.list
    ensures g in s.next
    ensures match s.next[g]
      case Some(h) => forall x :: Ahead(s.list, h, x) ==> Ahead(s.list, g, x) || x == g
      case None => forall x :: x in s.list ==> Ahead(s.list, g, x) || x == g
  {
    var i :| 0 <= i < |s.list| && s.list[i] == g;
    if s.next[g].Some? {
      forall x | Ahead(s.list, s.next[g].value, x) ensures Ahead(s.list, g, x) || x == g {
        var k, j :| 0 <= k < j < |s.list| && s.list[k] == x && s.list[j] == s.next[g].value;
        assert j == i + 1;
      }
    }
  }

  lemma FirstAhead(s: State)
    requires Linked(s)
    ensures s.head.Some? ==> forall x :: !Ahead(s.list, s.head.value, x)
    ensures s.head == None ==> s.list == []
  {
  }

  // ---------------------------------------------------------------- the allocating thread's search

  /** The groups the thread has gone past are among these. */
  ghost predicate Searched(s: State, k: set<nat>, t: nat) {
    t in s.threads ==>
      match s.threads[t]
      case Visit(_, g) => forall h :: Ahead(s.list, g, h) ==> h in k
      case Miss(_, g) => forall h :: Ahead(s.list, g, h) || h == g ==> h in k
      case Hold(_, _, _) => true
      case Leave(_, _) => true
      case Idle => true
      case LinkHold(_, _) => true
      case Done => true
      case Crashed(_) => true
      case _ => forall h :: h in s.list ==> h in k
  }

  lemma StepSearched(s: State, s': State, step: Step, k: set<nat>, k': set<nat>, t: nat)
    requires Next(s, s', step) && Searched(s, k, t) && Inv(s)
    requires step != AEnter(t) ==> k <= k' && forall g :: Links(s, step, g) ==> g in k'
    requires step == APopFree(t) && s.threads[t].g in s.groups && s.groups[s.threads[t].g].free == [] ==> s.threads[t].g in k'
    ensures Searched(s', k', t)
  {
    hide Next, Inv, Searched;
    if ByThread(step) && step.t == t {
      MoverSearched(s, s', step, k, k', t);
    } else {
      ListMoves(s, s', step);
      ThreadStays(s, s', step, t);
      OtherSearched(s, s', step, k, k', t);
    }
  }

  lemma ThreadStays(s: State, s': State, step: Step, t: nat)
    requires Next(s, s', step) && !(ByThread(step) && step.t == t)
    ensures t in s.threads <==> t in s'.threads
    ensures t in s.threads ==> s'.threads[t] == s.threads[t]
  {
    hide NoWriter, NoHolder, Without, Whole;
  }

  lemma OtherSearched(s: State, s': State, step: Step, k: set<nat>, k': set<nat>, t: nat)
    requires t in s'.threads ==> t in s.threads && s'.threads[t] == s.threads[t]
    requires Searched(s, k, t) && k <= k' && forall g :: Links(s, step, g) ==> g in k'
    requires forall h :: h in s'.list ==> h in s.list || Links(s, step, h)
    requires forall g, h :: Ahead(s'.list, g, h) ==> Ahead(s.list, g, h) || Links(s, step, h)
    ensures Searched(s', k', t)
  {
    hide Ahead, Links;
  }

  lemma MoverSearched(s: State, s': State, step: Step, k: set<nat>, k': set<nat>, t: nat)
    requires ByThread(step) && step.t == t && Next(s, s', step) && Searched(s, k, t) && Inv(s)
    requires step != AEnter(t) ==> k <= k'
    requires step == APopFree(t) && s.threads[t].g in s.groups && s.groups[s.threads[t].g].free == [] ==> s.threads[t].g in k'
    ensures Searched(s', k', t)
  {
    hide Next, Inv, Searched;
    if step == AOnward(t) {
      Unfold(s, s', step);
      AtListed(s, t);
      OnwardSearched(s, s', k, k', t);
    } else if step == AEnter(t) {
      Unfold(s, s', step);
      EnterSearched(s, s', k', t);
    } else {
      RestSearched(s, s', step, k, k', t);
    }
  }

  lemma Unfold(s: State, s': State, step: Step)
    requires Next(s, s', step) && Inv(s)
    ensures step.AOnward? ==> Onward(s, s', step.t)
    ensures step.AEnter? ==> Enter(s, s', step.t)
    ensures step.RAdvance? ==> Advance(s, s')
    ensures step.RUnlink? ==> Unlink(s, s')
    ensures Linked(s)
  {
    hide Sound, Exclusive, ReaderOk, PcOk, Spare;
  }

  lemma EnterSearched(s: State, s': State, k': set<nat>, t: nat)
    requires Enter(s, s', t) && Linked(s)
    ensures Searched(s', k', t)
  {
    FirstAhead(s);
    hide Linked, Ahead, NoWriter;
  }

  lemma RestSearched(s: State, s': State, step: Step, k: set<nat>, k': set<nat>, t: nat)
    requires ByThread(step) && step.t == t && step != AEnter(t) && step != AOnward(t) && k <= k'
    requires Next(s, s', step) && Searched(s, k, t)
    requires step == APopFree(t) && s.threads[t].g in s.groups && s.groups[s.threads[t].g].free == [] ==> s.threads[t].g in k'
    ensures Searched(s', k', t)
  {
    hide Ahead, NoWriter, NoHolder, Whole;
  }

  lemma OnwardSearched(s: State, s': State, k: set<nat>, k': set<nat>, t: nat)
    requires Onward(s, s', t) && Searched(s, k, t) && k <= k' && s.threads[t].g in s.list && Linked(s)
    ensures Searched(s', k', t)
  {
    NextAhead(s, s.threads[t].g);
    hide Linked, Ahead, NoWriter;
  }

  ghost predicate Knows(run: seq<State>, steps: seq<Step>, n: nat, t: nat) {
    n < |run| && Searched(run[n], Seen(run, steps, n, t) + Newer(run, steps, n, AEnter(t)), t)
  }

  lemma {:induction false} RunKnows(run: seq<State>, steps: seq<Step>, i: nat, t: nat)
    requires IsRun(run, steps) && i < |run|
    ensures Knows(run, steps, i, t)
  {
    hide Inv, Next, Init;
    if i == 0 {
      NoThreads(run[0]);
    } else {
      RunKnows(run, steps, i - 1, t);
      RunInv(run, steps, i - 1);
      assert Next(run[i - 1], run[i - 1 + 1], steps[i - 1]);
      KnowsStep(run, steps, i - 1, t);
    }
  }

  lemma NoThreads(s: State)
    requires Init(s)
    ensures s.threads == map[] && s.cur == None
  {
  }

  lemma KnowsStep(run: seq<State>, steps: seq<Step>, n: nat, t: nat)
    requires n < |steps| && n + 1 < |run| && Next(run[n], run[n + 1], steps[n]) && Knows(run, steps, n, t) && Inv(run[n])
    ensures Knows(run, steps, n + 1, t)
  {
    hide Inv, Searched;
    var k, k' := Seen(run, steps, n, t) + Newer(run, steps, n, AEnter(t)), Seen(run, steps, n + 1, t) + Newer(run, steps, n + 1, AEnter(t));
    StepSearched(run[n], run[n + 1], steps[n], k, k', t);
  }

  /** While a thread writes the head no one else moves it. */
  lemma HeadHeld(s: State, s': State, step: Step, t: nat)
    requires Next(s, s', step) && t in s.threads && Writes(s.threads[t], Head) && step != ALinkGroup(t) && Exclusive(s)
    ensures s'.head == s.head
  {
    hide Next;
    HeadMoves(s, s', step);
    assert ReaderWrites(s.r, Head) <==> (s.r.Walk? || s.r.Doomed? || s.r.Cut?) && s.r.p == Head;
    assert forall u :: u in s.threads && s.threads[u].FreshHold? ==> Writes(s.threads[u], Head);
  }

  lemma HeadMoves(s: State, s': State, step: Step)
    requires Next(s, s', step)
    ensures || s'.head == s.head || (step.ALinkGroup? && step.t in s.threads && s.threads[step.t].FreshHold?)
            || (step.RUnlink? && s.r.Cut? && s.r.p == Head)
  {
    hide NoWriter, NoHolder, Whole, Without;
  }

  ghost predicate Rechecked(run: seq<State>, steps: seq<Step>, n: nat, t: nat) {
    n < |run| && (t in run[n].threads && Short(run[n].threads[t]) ==>
                    run[n].head.Some? ==> run[n].head.value in FoundDry(run, steps, n, t))
  }

  lemma RecheckedStep(run: seq<State>, steps: seq<Step>, n: nat, t: nat)
    requires n < |steps| && n + 1 < |run| && Next(run[n], run[n + 1], steps[n]) && Rechecked(run, steps, n, t)
    requires Exclusive(run[n]) && Linked(run[n])
    ensures Rechecked(run, steps, n + 1, t)
  {
    if t in run[n + 1].threads && Short(run[n + 1].threads[t]) { RecheckMoves(run[n], run[n + 1], steps[n], t); }
    hide Exclusive, Linked, Next;
  }

  predicate Short(pc: Pc) {
    pc.Dry? || pc.Fresh? || pc.FreshHold?
  }

  lemma RecheckMoves(s: State, s': State, step: Step, t: nat)
    requires Next(s, s', step) && Exclusive(s) && Linked(s) && t in s'.threads && Short(s'.threads[t])
    ensures s'.head == s.head && step != AEnter(t)
    ensures if step == APopFirst(t) then s.head.Some? ==> s.head.value in s.groups && s.groups[s.head.value].free == []
            else t in s.threads && Short(s.threads[t])
  {
    if ByThread(step) && step.t == t {
      hide Exclusive, NoWriter, NoHolder, Whole;
    } else {
      ThreadStays(s, s', step, t);
      HeadHeld(s, s', step, t);
      hide Next, Exclusive, Linked;
    }
  }

  lemma {:induction false} RunRechecked(run: seq<State>, steps: seq<Step>, i: nat, t: nat)
    requires IsRun(run, steps) && i < |run|
    ensures Rechecked(run, steps, i, t)
  {
    hide Next, Init, Exclusive, Linked;
    if i == 0 {
      NoThreads(run[0]);
    } else {
      RunRechecked(run, steps, i - 1, t);
      RunInv(run, steps, i - 1);
      assert Next(run[i - 1], run[i - 1 + 1], steps[i - 1]);
      RecheckedStep(run, steps, i - 1, t);
    }
  }

  predicate Adds(step: Step, t: nat) {
    step == AFromPool(t) || (step.AMakeGroup? && step.t == t) || step == ALinkGroup(t)
  }

  /**
   In every run a thread takes, makes and links a group only when it has found no free block in any group on the list
   that was there all along, and again none in the first one under the head's write lock; and it makes one only when the pool
   has none.
   */
  lemma NewGroupOnlyWhenFull(run: seq<State>, steps: seq<Step>, i: nat, t: nat)
    requires IsRun(run, steps) && i < |steps| && Adds(steps[i], t)
    ensures forall g :: g in run[i].list ==> g in Seen(run, steps, i, t) || g in Newer(run, steps, i, AEnter(t))
    ensures run[i].head.Some? ==> run[i].head.value in FoundDry(run, steps, i, t)
    ensures steps[i].AMakeGroup? ==> run[i].pool == [] && steps[i].g !in run[i].groups
  {
    hide Inv, Init, Seen, Newer, FoundDry;
    RunKnows(run, steps, i, t);
    RunRechecked(run, steps, i, t);
    assert Next(run[i], run[i + 1], steps[i]);
  }

  // ---------------------------------------------------------------- the reader's scan

  predicate Started(steps: seq<Step>, n: nat) {
    exists i :: 0 <= i < n && i < |steps| && steps[i] == RStartScan
  }

  /** The groups the reader has gone past are among these. */
  ghost predicate Scanned(s: State, k: set<nat>) {
    match s.cur
    case Some(g) => forall h :: Ahead(s.list, g, h) ==> h in k
    case None => forall h :: h in s.list ==> h in k
  }

  lemma StepScanned(s: State, s': State, step: Step, k: set<nat>, k': set<nat>)
    requires Next(s, s', step) && Inv(s)
    requires step != RStartScan ==> Scanned(s, k) && k <= k' && (forall g :: Links(s, step, g) ==> g in k') && (s.cur.Some? ==> s.cur.value in k')
    ensures Scanned(s', k')
  {
    hide Next, Inv, Scanned;
    ListMoves(s, s', step);
    CurMoves(s, s', step);
    if step.RStartScan? {
      assert Linked(s) by { Unfold(s, s', step); }
      StartScanned(s, s', k');
    } else if step.RAdvance? || step.RUnlink? {
      assert Linked(s) by { Unfold(s, s', step); }
      CutSuccessor(s);
      MovedScanned(s, s', step, k, k');
    } else {
      SameScanned(s, s', step, k, k');
    }
  }

  lemma StartScanned(s: State, s': State, k': set<nat>)
    requires s'.cur == s.head && s'.list == s.list && Linked(s)
    ensures Scanned(s', k')
  {
    FirstAhead(s);
    hide Linked, Ahead;
  }

  lemma SameScanned(s: State, s': State, step: Step, k: set<nat>, k': set<nat>)
    requires s'.cur == s.cur && Scanned(s, k) && k <= k' && forall g :: Links(s, step, g) ==> g in k'
    requires forall h :: h in s'.list ==> h in s.list || Links(s, step, h)
    requires forall g, h :: Ahead(s'.list, g, h) ==> Ahead(s.list, g, h) || Links(s, step, h)
    ensures Scanned(s', k')
  {
    hide Ahead, Links;
  }

  lemma MovedScanned(s: State, s': State, step: Step, k: set<nat>, k': set<nat>)
    requires s.cur.Some? && s'.cur == Get(s, NextOf(s.cur.value)) && s.cur.value in s.list && Linked(s)
    requires Scanned(s, k) && k <= k' && (forall g :: Links(s, step, g) ==> g in k') && s.cur.value in k'
    requires forall h :: h in s'.list ==> h in s.list || Links(s, step, h)
    requires forall g, h :: Ahead(s'.list, g, h) ==> Ahead(s.list, g, h) || Links(s, step, h)
    ensures Scanned(s', k')
  {
    NextAhead(s, s.cur.value);
    hide Linked, Ahead, Links;
  }

  /** Where the reader goes. */
  lemma CurMoves(s: State, s': State, step: Step)
    requires Next(s, s', step)
    ensures step.RStartScan? ==> s'.cur == s.head && s'.list == s.list
    ensures step.RAdvance? ==> s.cur.Some? && s'.cur == Get(s, NextOf(s.cur.value))
    ensures step.RUnlink? ==> s.r.Cut? && s.cur.Some? && s'.cur == s.r.nx
    ensures !step.RStartScan? && !step.RAdvance? && !step.RUnlink? ==> s'.cur == s.cur
  {
    hide NoWriter, NoHolder, Whole, Without;
  }

  lemma CutSuccessor(s: State)
    requires Inv(s) && s.cur.Some?
    ensures s.cur.value in s.list && (s.r.Cut? ==> s.r.nx == Get(s, NextOf(s.cur.value)))
  {
    hide Sound, Linked, Exclusive, PcOk, Spare, Leads, Follows, Approaches, Bare;
  }

  lemma {:induction false} RunScanned(run: seq<State>, steps: seq<Step>, i: nat)
    requires IsRun(run, steps) && i < |run| && Started(steps, i)
    ensures Scanned(run[i], Passed(run, steps, i) + Newer(run, steps, i, RStartScan))
  {
    hide Inv, Next, Init, Scanned;
    if steps[i - 1] != RStartScan { RunScanned(run, steps, i - 1); }
    RunInv(run, steps, i - 1);
    assert Next(run[i - 1], run[i - 1 + 1], steps[i - 1]);
    StepScanned(run[i - 1], run[i], steps[i - 1],
      Passed(run, steps, i - 1) + Newer(run, steps, i - 1, RStartScan), Passed(run, steps, i) + Newer(run, steps, i, RStartScan));
  }

  /** When the reader's scan ends it has stood at every group on the list, save those linked since it began. */
  lemma ScanVisitsAll(run: seq<State>, steps: seq<Step>, i: nat)
    requires IsRun(run, steps) && i < |run| && Started(steps, i) && run[i].cur == None
    ensures forall g :: g in run[i].list ==> g in Passed(run, steps, i) || g in Newer(run, steps, i, RStartScan)
  {
    hide IsRun;
    RunScanned(run, steps, i);
  }

  /** It sets about unlinking the group it stands at exactly when no block of the group is out. */
  lemma DoomedExactly(run: seq<State>, steps: seq<Step>, i: nat)
    requires IsRun(run, steps) && i < |steps| && steps[i] == RInspect
    ensures run[i].cur.Some? && (run[i + 1].r.Doomed? <==> forall b :: !Out(run, steps, i, run[i].cur.value, b))
  {
    hide Inv, Init, InUse, Out;
    assert Next(run[i], run[i + 1], steps[i]);
    InspectDooms(run[i], run[i + 1]);
    hide IsRun, Next;
    NoneOut(run, steps, i, run[i].cur.value);
  }

  lemma NoneOut(run: seq<State>, steps: seq<Step>, i: nat, g: nat)
    requires IsRun(run, steps) && i < |run|
    ensures (forall b :: !Out(run, steps, i, g, b)) <==> (forall b :: !InUse(run[i], g, b))
  {
    hide IsRun, InUse, Out;
    if b: nat :| Out(run, steps, i, g, b) { InUseExactly(run, steps, i, g, b); }
    if b: nat :| InUse(run[i], g, b) { InUseExactly(run, steps, i, g, b); }
  }

  lemma InspectDooms(s: State, s': State)
    requires Inspect(s, s')
    ensures s.cur.Some? && (s'.r.Doomed? <==> forall b :: !InUse(s, s.cur.value, b))
  {
    var g := s.cur.value;
    var x := s.groups[g];
    assert forall b :: InUse(s, g, b) <==> b in x.stage || b in x.used;
    hide InUse;
    assert x.stage != [] ==> x.stage[0] in x.stage && InUse(s, g, x.stage[0]);
    assert x.used != [] ==> x.used[0] in x.used && InUse(s, g, x.used[0]);
    assert s'.r.Doomed? ==> forall b :: !InUse(s, g, b);
    assert !s'.r.Doomed? ==> exists b :: InUse(s, g, b);
  }

  // ---------------------------------------------------------------- no group is lost

  /** On the list, in the pool, or on its way in one thread's hands. */
  ghost predicate Kept(s: State, g: nat) {
    g in s.list || g in s.pool || s.r == Drop(g) || exists t :: t in s.threads && Carries(s.threads[t], g)
  }

  predicate Carries(pc: Pc, g: nat) {
    (pc.Fresh? || pc.FreshHold?) && pc.g == g
  }

  ghost predicate NoneLost(s: State) {
    forall g :: g in s.groups ==> Kept(s, g)
  }

  lemma ThreadLoses(s: State, s': State, step: Step, g: nat)
    requires ByThread(step) && Next(s, s', step) && Inv(s) && g in s'.groups && (g in s.groups ==> Kept(s, g))
    ensures Kept(s', g)
  {
    hide Inv, Whole, NoWriter, NoHolder;
    if g in s.list {
      if step.ALinkGroup? { assert s'.list[1..] == s.list; }
    } else if g in s.groups && g !in s.pool && s.r != Drop(g) {
      var t :| t in s.threads && Carries(s.threads[t], g);
      assert t != step.t ==> t in s'.threads && Carries(s'.threads[t], g);
      if t == step.t && step.ALinkGroup? { assert s'.list[0] == g; }
      if t == step.t && step.APopFresh? { PopsFresh(s, t); assert Carries(s'.threads[t], g); }
    } else if g !in s.groups {
      assert Carries(s'.threads[step.t], g);
    } else if g in s.pool && step.AFromPool? && g !in s'.pool {
      assert g == s.pool[0] && Carries(s'.threads[step.t], g);
    }
  }

  lemma PopsFresh(s: State, t: nat)
    requires Inv(s) && t in s.threads && s.threads[t].Fresh?
    ensures s.threads[t].g in s.groups && s.groups[s.threads[t].g].free != []
  {
    hide Linked, Exclusive, ReaderOk, Sound, Leads;
    assert PcOk(s, t);
    SpareIsWhole(s, s.threads[t].g);
  }

  lemma ReaderLoses(s: State, s': State, step: Step, g: nat)
    requires !ByThread(step) && Next(s, s', step) && Inv(s) && g in s'.groups && g in s.groups && Kept(s, g)
    ensures Kept(s', g)
  {
    hide Inv, NoWriter, NoHolder;
    if g in s.list {
      if step.RUnlink? && g != s.cur.value { WithoutKeeps(s.list, s.cur.value, g); }
    } else if g in s.pool {
      if step.RPoolPush? { assert s'.pool[1..] == s.pool; }
      if step.REvict? { EvictDrops(s, g); }
    } else if s.r == Drop(g) {
      if step.RPoolPush? { assert s'.pool[0] == g; }
    } else {
      var t :| t in s.threads && Carries(s.threads[t], g);
      assert t in s'.threads && Carries(s'.threads[t], g);
    }
  }

  lemma EvictDrops(s: State, g: nat)
    requires g in s.pool
    ensures g in s.pool[..|s.pool| - 1] || g == s.pool[|s.pool| - 1]
  {
  }

  lemma StepNoneLost(s: State, s': State, step: Step)
    requires Next(s, s', step) && NoneLost(s) && Inv(s)
    ensures NoneLost(s')
  {
    hide Inv, Kept;
    forall g | g in s'.groups ensures Kept(s', g) {
      if ByThread(step) {
        ThreadLoses(s, s', step, g);
      } else {
        NoneMade(s, s', step);
        ReaderLoses(s, s', step, g);
      }
    }
  }

  lemma NoneMade(s: State, s': State, step: Step)
    requires !ByThread(step) && Next(s, s', step)
    ensures forall g :: g in s'.groups ==> g in s.groups
  {
    hide NoWriter, NoHolder, Without;
  }

  /** In every run every group that exists is on the list, in the pool or in one thread's hands on its way between them. */
  lemma {:induction false} NoGroupLost(run: seq<State>, steps: seq<Step>, i: nat)
    requires IsRun(run, steps) && i < |run|
    ensures NoneLost(run[i])
  {
    hide Inv, Next, Linked, Whole;
    if i > 0 {
      NoGroupLost(run, steps, i - 1);
      RunInv(run, steps, i - 1);
      assert Next(run[i - 1], run[i - 1 + 1], steps[i - 1]);
      StepNoneLost(run[i - 1], run[i], steps[i - 1]);
    }
  }
}
