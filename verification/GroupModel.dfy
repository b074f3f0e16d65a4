/**
 The concurrent group list of `src/buffer/group_list.cpp`: any number of allocating threads and the one reading
 thread, stepping by one lock operation, atomic list operation or pointer store at a time.

 Groups hang on a singly linked list whose pointers each carry a reader-writer lock. A thread at a group holds
 the lock of the pointer it came through. Which locks are held is read off the program counters.
 */
module GroupModel {
  import opened Words

  /** A lockable pointer: the list's head or a group's `next_`. */
  datatype Ptr = Head | NextOf(g: nat)

  /** A group's three block lists; blocks are `0..max`. */
  datatype Group = Group(free: seq<nat>, stage: seq<nat>, used: seq<nat>)

  /** An allocating thread inside `alloc_new_block`. */
  datatype Pc =
    | Idle
    | Visit(p: Ptr, g: nat)             // read lock on p
    | Hold(p: Ptr, g: nat, b: nat)      // read lock on p, block popped
    | Leave(p: Ptr, g: nat)             // read lock on p, block staged
    | Miss(p: Ptr, g: nat)              // read lock on p, no free block
    | Slow                              // every group was full
    | Locked                            // write lock on the head from here on
    | Dry                               // the first group is full too
    | Fresh(g: nat)                     // group taken from the pool or made
    | FreshHold(g: nat, b: nat)         // its block popped
    | LinkHold(g: nat, b: nat)          // block of the first group in hands
    | Done                              // block staged
    | Crashed(g: nat)                   // null block dereferenced

  datatype ReaderPc =
    | Roam
    | Taken(b: nat)                     // popped from stage
    | Removed(b: nat)                   // removed from used
    | Walk(p: Ptr, g: nat)              // write lock on p
    | Doomed(p: Ptr)                    // the current group has no stage or used block
    | Cut(p: Ptr, nx: Option<nat>)      // its successor read
    | Drop(g: nat)                      // unlinked

  /** `list` is the linked order; `cur` and `last` are the reader's groups. */
  datatype State = State(
    max: nat,
    groups: map<nat, Group>,
    head: Option<nat>,
    next: map<nat, Option<nat>>,
    list: seq<nat>,
    pool: seq<nat>,
    threads: map<nat, Pc>,
    r: ReaderPc,
    cur: Option<nat>,
    last: Option<nat>)

  // ---------------------------------------------------------------- locks

  predicate Reads(pc: Pc, p: Ptr) {
    (pc.Visit? || pc.Hold? || pc.Leave? || pc.Miss?) && pc.p == p
  }

  predicate Writes(pc: Pc, p: Ptr) {
    p == Head && (pc.Locked? || pc.Dry? || pc.Fresh? || pc.FreshHold? || pc.LinkHold? || pc.Done?)
  }

  predicate ReaderWrites(r: ReaderPc, p: Ptr) {
    (r.Walk? || r.Doomed? || r.Cut?) && r.p == p
  }

  ghost predicate NoWriter(s: State, p: Ptr) {
    !ReaderWrites(s.r, p) && forall t :: t in s.threads ==> !Writes(s.threads[t], p)
  }

  ghost predicate NoHolder(s: State, p: Ptr) {
    NoWriter(s, p) && forall t :: t in s.threads ==> !Reads(s.threads[t], p)
  }

  /** The group a pointer leads to. */
  function Get(s: State, p: Ptr): Option<nat> {
    match p
    case Head => s.head
    case NextOf(g) => if g in s.next then s.next[g] else None
  }

  function Go(s: State, t: nat, pc: Pc): State {
    s.(threads := s.threads[t := pc])
  }

  function PutGroup(s: State, g: nat, x: Group): State {
    s.(groups := s.groups[g := x])
  }

  ghost predicate At(s: State, t: nat) {
    t in s.threads
  }

  // ---------------------------------------------------------------- allocating threads

  ghost predicate Enter(s: State, s': State, t: nat) {
    && (t !in s.threads || s.threads[t] == Idle) && NoWriter(s, Head)
    && s' == Go(s, t, if s.head.Some? then Visit(Head, s.head.value) else Slow)
  }

  ghost predicate PopFree(s: State, s': State, t: nat) {
    && At(s, t) && s.threads[t].Visit? && s.threads[t].g in s.groups
    && var pc := s.threads[t]; var x := s.groups[pc.g];
    if x.free == [] then s' == Go(s, t, Miss(pc.p, pc.g))
    else s' == PutGroup(Go(s, t, Hold(pc.p, pc.g, x.free[0])), pc.g, x.(free := x.free[1..]))
  }

  ghost predicate PushStage(s: State, s': State, t: nat) {
    && At(s, t) && s.threads[t].Hold? && s.threads[t].g in s.groups
    && var pc := s.threads[t]; var x := s.groups[pc.g];
    s' == PutGroup(Go(s, t, Leave(pc.p, pc.g)), pc.g, x.(stage := [pc.b] + x.stage))
  }

  ghost predicate Unlock(s: State, s': State, t: nat) {
    At(s, t) && (s.threads[t].Leave? || s.threads[t].Done?) && s' == Go(s, t, Idle)
  }

  /** Lock the next pointer, then let go of the last one. */
  ghost predicate Onward(s: State, s': State, t: nat) {
    && At(s, t) && s.threads[t].Miss? && NoWriter(s, NextOf(s.threads[t].g))
    && var q := NextOf(s.threads[t].g);
    s' == Go(s, t, if Get(s, q).Some? then Visit(q, Get(s, q).value) else Slow)
  }

  ghost predicate LockHead(s: State, s': State, t: nat) {
    At(s, t) && s.threads[t] == Slow && NoHolder(s, Head) && s' == Go(s, t, Locked)
  }

  ghost predicate PopFirst(s: State, s': State, t: nat) {
    && At(s, t) && s.threads[t] == Locked
    && if s.head.Some? && s.head.value in s.groups && s.groups[s.head.value].free != [] then
         var g := s.head.value; var x := s.groups[g];
         s' == PutGroup(Go(s, t, LinkHold(g, x.free[0])), g, x.(free := x.free[1..]))
       else s' == Go(s, t, Dry)
  }

  ghost predicate FromPool(s: State, s': State, t: nat) {
    && At(s, t) && s.threads[t] == Dry && s.pool != []
    && s' == Go(s, t, Fresh(s.pool[0])).(pool := s.pool[1..])
  }

  /** A new group: `g` was never used, and its constructor frees every block. */
  ghost predicate MakeGroup(s: State, s': State, t: nat, g: nat, free: seq<nat>) {
    && At(s, t) && s.threads[t] == Dry && s.pool == [] && g !in s.groups && Whole(s.max, free)
    && s' == Go(s, t, Fresh(g)).(groups := s.groups[g := Group(free, [], [])])
  }

  /** A list of all blocks, each once. */
  ghost predicate Whole(max: nat, c: seq<nat>) {
    && (forall b :: 0 <= b < max ==> b in c) && (forall i :: 0 <= i < |c| ==> c[i] < max)
    && (forall i, j :: 0 <= i < j < |c| ==> c[i] != c[j])
  }

  ghost predicate PopFresh(s: State, s': State, t: nat) {
    && At(s, t) && s.threads[t].Fresh? && s.threads[t].g in s.groups
    && var g := s.threads[t].g; var x := s.groups[g];
    if x.free == [] then s' == Go(s, t, Crashed(g))
    else s' == PutGroup(Go(s, t, FreshHold(g, x.free[0])), g, x.(free := x.free[1..]))
  }

  ghost predicate LinkGroup(s: State, s': State, t: nat) {
    && At(s, t) && s.threads[t].FreshHold?
    && var g := s.threads[t].g;
    s' == Go(s, t, LinkHold(g, s.threads[t].b)).(next := s.next[g := s.head], head := Some(g), list := [g] + s.list)
  }

  ghost predicate StageFirst(s: State, s': State, t: nat) {
    && At(s, t) && s.threads[t].LinkHold? && s.threads[t].g in s.groups
    && var pc := s.threads[t]; var x := s.groups[pc.g];
    s' == PutGroup(Go(s, t, Done), pc.g, x.(stage := [pc.b] + x.stage))
  }

  // ---------------------------------------------------------------- the reading thread

  ghost predicate StartScan(s: State, s': State) {
    s.r == Roam && s.cur == None && s' == s.(cur := s.head, last := None)
  }

  ghost predicate Advance(s: State, s': State) {
    s.r == Roam && s.cur.Some? && s' == s.(cur := Get(s, NextOf(s.cur.value)), last := s.cur)
  }

  ghost predicate TakeStage(s: State, s': State) {
    && s.r == Roam && s.cur.Some? && s.cur.value in s.groups
    && var g := s.cur.value; var x := s.groups[g];
    && x.stage != [] && s' == PutGroup(s, g, x.(stage := x.stage[1..])).(r := Taken(x.stage[0]))
  }

  ghost predicate PutUsed(s: State, s': State, i: nat) {
    && s.r.Taken? && s.cur.Some? && s.cur.value in s.groups
    && var g := s.cur.value; var x := s.groups[g];
    && i <= |x.used| && s' == PutGroup(s, g, x.(used := x.used[..i] + [s.r.b] + x.used[i..])).(r := Roam)
  }

  ghost predicate RemoveUsed(s: State, s': State, i: nat) {
    && s.r == Roam && s.cur.Some? && s.cur.value in s.groups
    && var g := s.cur.value; var x := s.groups[g];
    && i < |x.used| && s' == PutGroup(s, g, x.(used := x.used[..i] + x.used[i + 1..])).(r := Removed(x.used[i]))
  }

  ghost predicate PushFree(s: State, s': State) {
    && s.r.Removed? && s.cur.Some? && s.cur.value in s.groups
    && var g := s.cur.value; var x := s.groups[g];
    s' == PutGroup(s, g, x.(free := [s.r.b] + x.free)).(r := Roam)
  }

  /** The pointer the reader locks first: behind the group before the current one, or the head. */
  function Behind(s: State): Ptr {
    if s.last.Some? then NextOf(s.last.value) else Head
  }

  ghost predicate LockBehind(s: State, s': State) {
    && s.r == Roam && s.cur.Some? && NoHolder(s, Behind(s)) && Get(s, Behind(s)).Some?
    && s' == s.(r := Walk(Behind(s), Get(s, Behind(s)).value))
  }

  ghost predicate WalkOn(s: State, s': State) {
    && s.r.Walk? && Some(s.r.g) != s.cur && s.last == None && NoHolder(s, NextOf(s.r.g))
    && Get(s, NextOf(s.r.g)).Some? && s' == s.(r := Walk(NextOf(s.r.g), Get(s, NextOf(s.r.g)).value))
  }

  ghost predicate Inspect(s: State, s': State) {
    && s.r.Walk? && Some(s.r.g) == s.cur && s.r.g in s.groups
    && var x := s.groups[s.r.g];
    s' == s.(r := if x.used == [] && x.stage == [] then Doomed(s.r.p) else Roam)
  }

  ghost predicate ReadNext(s: State, s': State) {
    && s.r.Doomed? && s.cur.Some? && NoHolder(s, NextOf(s.cur.value))
    && s' == s.(r := Cut(s.r.p, Get(s, NextOf(s.cur.value))))
  }

  function Without(list: seq<nat>, g: nat): seq<nat> {
    if list == [] then [] else if list[0] == g then list[1..] else [list[0]] + Without(list[1..], g)
  }

  /** Store the successor through the locked pointer, and unlock. */
  ghost predicate Unlink(s: State, s': State) {
    && s.r.Cut? && s.cur.Some?
    && s' == (if s.r.p == Head then s.(head := s.r.nx) else s.(next := s.next[s.r.p.g := s.r.nx]))
             .(list := Without(s.list, s.cur.value), r := Drop(s.cur.value), cur := s.r.nx)
  }

  ghost predicate PoolPush(s: State, s': State) {
    s.r.Drop? && s' == s.(pool := [s.r.g] + s.pool, r := Roam)
  }

  /** `garbage_collect`: the oldest pooled group is destroyed. */
  ghost predicate Evict(s: State, s': State) {
    && s.r == Roam && s.pool != []
    && s' == s.(pool := s.pool[..|s.pool| - 1], groups := s.groups - {s.pool[|s.pool| - 1]})
  }

  // ---------------------------------------------------------------- runs

  datatype Step =
    | AEnter(t: nat) | APopFree(t: nat) | APushStage(t: nat) | AUnlock(t: nat) | AOnward(t: nat) | ALockHead(t: nat)
    | APopFirst(t: nat) | AFromPool(t: nat) | AMakeGroup(t: nat, g: nat, free: seq<nat>) | APopFresh(t: nat)
    | ALinkGroup(t: nat) | AStageFirst(t: nat)
    | RStartScan | RAdvance | RTakeStage | RPutUsed(i: nat) | RRemoveUsed(i: nat) | RPushFree | RLockBehind | RWalkOn
    | RInspect | RReadNext | RUnlink | RPoolPush | REvict

  ghost predicate Next(s: State, s': State, step: Step) {
    match step
    case AEnter(t) => Enter(s, s', t)
    case APopFree(t) => PopFree(s, s', t)
    case APushStage(t) => PushStage(s, s', t)
    case AUnlock(t) => Unlock(s, s', t)
    case AOnward(t) => Onward(s, s', t)
    case ALockHead(t) => LockHead(s, s', t)
    case APopFirst(t) => PopFirst(s, s', t)
    case AFromPool(t) => FromPool(s, s', t)
    case AMakeGroup(t, g, free) => MakeGroup(s, s', t, g, free)
    case APopFresh(t) => PopFresh(s, s', t)
    case ALinkGroup(t) => LinkGroup(s, s', t)
    case AStageFirst(t) => StageFirst(s, s', t)
    case RStartScan => StartScan(s, s')
    case RAdvance => Advance(s, s')
    case RTakeStage => TakeStage(s, s')
    case RPutUsed(i) => PutUsed(s, s', i)
    case RRemoveUsed(i) => RemoveUsed(s, s', i)
    case RPushFree => PushFree(s, s')
    case RLockBehind => LockBehind(s, s')
    case RWalkOn => WalkOn(s, s')
    case RInspect => Inspect(s, s')
    case RReadNext => ReadNext(s, s')
    case RUnlink => Unlink(s, s')
    case RPoolPush => PoolPush(s, s')
    case REvict => Evict(s, s')
  }

  function Nth(c: seq<nat>, i: nat): Option<nat> {
    if i < |c| then Some(c[i]) else None
  }

  ghost predicate Distinct(c: seq<nat>) {
    forall i, j :: 0 <= i < j < |c| ==> c[i] != c[j]
  }

  /** The pointers follow the list. */
  ghost predicate Linked(s: State) {
    && s.head == Nth(s.list, 0) && Distinct(s.list) && Distinct(s.pool)
    && (forall i :: 0 <= i < |s.list| ==> s.list[i] in s.groups && s.list[i] in s.next && s.next[s.list[i]] == Nth(s.list, i + 1))
    && (forall i :: 0 <= i < |s.pool| ==> s.pool[i] in s.groups && s.pool[i] !in s.list)
  }

  function All(x: Group): seq<nat> {
    x.free + x.stage + x.used
  }

  ghost predicate AllListed(s: State) {
    forall g :: g in s.groups ==> g in s.list
  }

  /** Before any thread runs: linked groups, fresh or rebuilt, with every block on one list. */
  ghost predicate Init(s: State) {
    && s.max > 0 && s.pool == [] && s.threads == map[] && s.r == Roam && s.cur == None && s.last == None
    && Linked(s) && AllListed(s) && forall g :: g in s.groups ==> Whole(s.max, All(s.groups[g]))
  }

  ghost predicate IsRun(run: seq<State>, steps: seq<Step>) {
    && |run| == |steps| + 1
    && Init(run[0])
    && (forall i :: 0 <= i < |steps| ==> Next(run[i], run[i + 1], steps[i]))
  }
}
