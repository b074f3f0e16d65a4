/**
 The index-linked block lists of `src/buffer/block_list.cpp` and their rebuilding from arbitrary bytes in
 `src/buffer/group_list.cpp`. A group's blocks are an array of heads (next index, list type).
 */
module BlockList {

  /** The 16-bit index -1. */
  const EMPTY: nat := 0xFFFF

  const NONE: nat := 0
  const FREE: nat := 1
  const STAGE: nat := 2
  const USED: nat := 3

  datatype Node = Node(next: nat, kind: nat)

  /** `c` are the blocks on the chain from `head`: in range, of type `kind`, ended by the empty index. */
  ghost predicate IsList(nodes: seq<Node>, head: nat, kind: nat, c: seq<nat>)
    decreases |c|
  {
    if c == [] then head == EMPTY
    else
      head != EMPTY && head == c[0] && head < |nodes| && nodes[head].kind == kind
      && IsList(nodes, nodes[head].next, kind, c[1..])
  }

  // ---------------------------------------------------------------- chains

  lemma {:induction false} ListUnique(nodes: seq<Node>, head: nat, kind: nat, c: seq<nat>, d: seq<nat>)
    requires IsList(nodes, head, kind, c) && IsList(nodes, head, kind, d)
    ensures c == d
    decreases |c|
  {
    if c != [] { ListUnique(nodes, nodes[head].next, kind, c[1..], d[1..]); }
  }

  lemma {:induction false} ListSuffix(nodes: seq<Node>, head: nat, kind: nat, c: seq<nat>, i: nat)
    requires IsList(nodes, head, kind, c) && i < |c|
    ensures c[i] < |nodes| && nodes[c[i]].kind == kind && IsList(nodes, c[i], kind, c[i..])
    decreases |c|
  {
    if i > 0 {
      ListSuffix(nodes, nodes[head].next, kind, c[1..], i - 1);
      assert c[1..][i - 1..] == c[i..];
    }
  }

  /** A chain that ends visits no block twice. */
  lemma ListAcyclic(nodes: seq<Node>, head: nat, kind: nat, c: seq<nat>, i: nat, j: nat)
    requires IsList(nodes, head, kind, c) && i < j < |c|
    ensures c[i] != c[j]
  {
    ListSuffix(nodes, head, kind, c, i);
    ListSuffix(nodes, head, kind, c, j);
    if c[i] == c[j] { ListUnique(nodes, c[i], kind, c[i..], c[j..]); }
  }

  lemma {:induction false} DistinctFit(c: seq<nat>, max: nat)
    requires forall i :: 0 <= i < |c| ==> c[i] < max
    requires forall i, j :: 0 <= i < j < |c| ==> c[i] != c[j]
    ensures |c| <= max
    decreases max
  {
    if |c| > 0 {
      assert c[0] < max;
      if k :| 0 <= k < |c| && c[k] == max - 1 {
        DistinctFit(c[..k] + c[k + 1..], max - 1);
      } else {
        DistinctFit(c, max - 1);
      }
    }
  }

  /** So it is no longer than the group has blocks. */
  lemma ListFits(nodes: seq<Node>, head: nat, kind: nat, c: seq<nat>)
    requires IsList(nodes, head, kind, c)
    ensures |c| <= |nodes|
  {
    forall i | 0 <= i < |c| ensures c[i] < |nodes| { ListSuffix(nodes, head, kind, c, i); }
    forall i, j | 0 <= i < j < |c| ensures c[i] != c[j] { ListAcyclic(nodes, head, kind, c, i, j); }
    DistinctFit(c, |nodes|);
  }

  /** Blocks off the chain do not matter to it. */
  lemma {:induction false} ListFrame(nodes: seq<Node>, nodes': seq<Node>, head: nat, kind: nat, c: seq<nat>)
    requires IsList(nodes, head, kind, c) && |nodes'| == |nodes|
    requires forall x :: x in c && x < |nodes| ==> nodes'[x] == nodes[x]
    ensures IsList(nodes', head, kind, c)
    decreases |c|
  {
    if c != [] {
      assert head in c;
      ListFrame(nodes, nodes', nodes[head].next, kind, c[1..]);
    }
  }

  /** Lists of different types share no block. */
  lemma ListsDisjoint(nodes: seq<Node>, h1: nat, k1: nat, c: seq<nat>, h2: nat, k2: nat, d: seq<nat>)
    requires IsList(nodes, h1, k1, c) && IsList(nodes, h2, k2, d) && k1 != k2
    ensures forall x :: x in c ==> x !in d
  {
    forall i, j | 0 <= i < |c| && 0 <= j < |d| ensures c[i] != d[j] {
      ListSuffix(nodes, h1, k1, c, i);
      ListSuffix(nodes, h2, k2, d, j);
    }
  }

  /** All of `c` but its first `i` blocks are the chain from `at`. */
  ghost predicate Reached(nodes: seq<Node>, at: nat, kind: nat, c: seq<nat>, i: nat) {
    i <= |c| && IsList(nodes, at, kind, c[i..])
  }

  lemma ReachNext(nodes: seq<Node>, at: nat, kind: nat, c: seq<nat>, i: nat)
    requires Reached(nodes, at, kind, c, i) && at != EMPTY
    ensures i < |c| && at == c[i] && at < |nodes| && nodes[at].kind == kind
    ensures Reached(nodes, nodes[at].next, kind, c, i + 1)
  {
    assert c[i..][1..] == c[i + 1..];
  }

  // ---------------------------------------------------------------- validation

  /** From `at` the walk takes `n` blocks in range and of the right type. */
  ghost predicate Takes(nodes: seq<Node>, at: nat, kind: nat, n: nat)
    decreases n
  {
    n == 0 || (at != EMPTY && at < |nodes| && nodes[at].kind == kind && Takes(nodes, nodes[at].next, kind, n - 1))
  }

  /** It never comes to an end. */
  ghost predicate Endless(nodes: seq<Node>, at: nat, kind: nat) {
    forall n :: Takes(nodes, at, kind, n)
  }

  /** The 16-bit counter of the walk. */
  function Count16(n: nat): nat {
    n % 0x1_0000
  }

  /** Where the walk stands after `n` blocks. */
  ghost function Reach(nodes: seq<Node>, at: nat, kind: nat, n: nat): nat
    requires Takes(nodes, at, kind, n)
    decreases n
  {
    if n == 0 then at else Reach(nodes, nodes[at].next, kind, n - 1)
  }

  lemma {:induction false} ReachTakes(nodes: seq<Node>, at: nat, kind: nat, n: nat)
    requires Takes(nodes, at, kind, n + 1)
    ensures Takes(nodes, at, kind, n)
    ensures var x := Reach(nodes, at, kind, n); x != EMPTY && x < |nodes| && nodes[x].kind == kind
    decreases n
  {
    if n > 0 { ReachTakes(nodes, nodes[at].next, kind, n - 1); }
  }

  /**
   With 65535 blocks the counter never passes the count of blocks, so an endless chain is walked for ever: after any
   number of blocks the loop's condition holds and neither test inside it fails.
   */
  lemma WalksForEver(nodes: seq<Node>, head: nat, kind: nat, n: nat)
    requires |nodes| == EMPTY && Endless(nodes, head, kind)
    ensures Takes(nodes, head, kind, n)
    ensures var x := Reach(nodes, head, kind, n); x != EMPTY && Count16(n) <= |nodes| && x < |nodes| && nodes[x].kind == kind
  {
    assert Takes(nodes, head, kind, n + 1);
    ReachTakes(nodes, head, kind, n);
  }

  /** Such a chain exists: a block that is its own successor. */
  lemma {:induction false} LoopIsEndless(nodes: seq<Node>, x: nat, kind: nat, n: nat)
    requires x < |nodes| <= EMPTY && nodes[x] == Node(x, kind)
    ensures Takes(nodes, x, kind, n)
    decreases n
  {
    if n > 0 { LoopIsEndless(nodes, x, kind, n - 1); }
  }

  lemma {:induction false} TakesOn(nodes: seq<Node>, head: nat, kind: nat, n: nat, m: nat)
    requires Takes(nodes, head, kind, n) && Takes(nodes, Reach(nodes, head, kind, n), kind, m)
    ensures Takes(nodes, head, kind, n + m)
    decreases n
  {
    if n > 0 { TakesOn(nodes, nodes[head].next, kind, n - 1, m); }
  }

  lemma {:induction false} ReachOn(nodes: seq<Node>, head: nat, kind: nat, n: nat)
    requires Takes(nodes, head, kind, n + 1) && Takes(nodes, head, kind, n)
    requires Reach(nodes, head, kind, n) < |nodes|
    ensures Reach(nodes, head, kind, n + 1) == nodes[Reach(nodes, head, kind, n)].next
    decreases n
  {
    if n > 0 { ReachOn(nodes, nodes[head].next, kind, n - 1); }
  }

  lemma {:induction false} TakesLess(nodes: seq<Node>, head: nat, kind: nat, n: nat, m: nat)
    requires m <= n && Takes(nodes, head, kind, n)
    ensures Takes(nodes, head, kind, m)
    decreases m
  {
    if m > 0 { TakesLess(nodes, nodes[head].next, kind, n - 1, m - 1); }
  }

  /** A bound on the walk's turns: the counter's, or for 65535 blocks one that the chain itself has. */
  lemma Bounded(nodes: seq<Node>, head: nat, kind: nat) returns (bound: nat)
    requires |nodes| <= EMPTY && !(|nodes| == EMPTY && Endless(nodes, head, kind))
    ensures if |nodes| < EMPTY then bound == |nodes| + 2 else !Takes(nodes, head, kind, bound)
  {
    if |nodes| < EMPTY { bound := |nodes| + 2; } else { bound :| !Takes(nodes, head, kind, bound); }
  }

  /** The walk has taken the blocks `c` and stands at `at`; whatever list the head starts goes on from there. */
  ghost predicate Walked(nodes: seq<Node>, head: nat, at: nat, kind: nat, c: seq<nat>) {
    && Takes(nodes, head, kind, |c|) && Reach(nodes, head, kind, |c|) == at
    && (forall d :: IsList(nodes, head, kind, d) ==> Reached(nodes, at, kind, d, |c|))
    && (forall d :: IsList(nodes, at, kind, d) ==> IsList(nodes, head, kind, c + d))
  }

  lemma WalkedOne(nodes: seq<Node>, head: nat, at: nat, kind: nat, c: seq<nat>)
    requires Walked(nodes, head, at, kind, c) && at != EMPTY && at < |nodes| && nodes[at].kind == kind
    ensures Walked(nodes, head, nodes[at].next, kind, c + [at])
  {
    assert Takes(nodes, nodes[at].next, kind, 0) && Takes(nodes, at, kind, 1);
    hide IsList, Takes, Reach;
    TakesOn(nodes, head, kind, |c|, 1);
    ReachOn(nodes, head, kind, |c|);
    WalkOn(nodes, head, at, kind, c, |c|);
  }

  lemma WalkedOut(nodes: seq<Node>, head: nat, at: nat, kind: nat, c: seq<nat>)
    requires Walked(nodes, head, at, kind, c) && |c| > |nodes|
    ensures forall d :: !IsList(nodes, head, kind, d)
  {
    hide Takes, Reach;
    forall d ensures !IsList(nodes, head, kind, d) {
      if IsList(nodes, head, kind, d) { ListFits(nodes, head, kind, d); }
    }
  }

  lemma WalkedAll(nodes: seq<Node>, head: nat, kind: nat, c: seq<nat>)
    requires Walked(nodes, head, EMPTY, kind, c)
    ensures IsList(nodes, head, kind, c) && |c| <= |nodes|
  {
    assert IsList(nodes, EMPTY, kind, []) && c + [] == c;
    ListFits(nodes, head, kind, c);
  }

  /** The bound holds. */
  lemma WalkedWithin(nodes: seq<Node>, head: nat, at: nat, kind: nat, c: seq<nat>, bound: nat)
    requires Walked(nodes, head, at, kind, c) && !Takes(nodes, head, kind, bound)
    ensures |c| < bound
  {
    hide IsList, Reach;
    if bound <= |c| { TakesLess(nodes, head, kind, |c|, bound); }
  }

  /**
   The walk of `try_recover_from_memory_map` over arbitrary heads, on which it ends. It accepts exactly the heads from
   which a chain of blocks in range and of the right type runs to the empty index.
   */
  method Validate(nodes: array<Node>, head: nat, kind: nat) returns (ok: bool, ghost c: seq<nat>)
    requires nodes.Length <= EMPTY && !(nodes.Length == EMPTY && Endless(nodes[..], head, kind))
    ensures ok ==> IsList(nodes[..], head, kind, c)
    ensures !ok ==> forall d :: !IsList(nodes[..], head, kind, d)
  {
    assert Walked(nodes[..], head, head, kind, []) by {
      assert forall d: seq<nat> :: [] + d == d;
      assert forall d: seq<nat> :: d[0..] == d;
    }
    hide IsList, Walked, Takes, Endless;
    var at: nat := head;
    var count := 0;
    ghost var bound := Bounded(nodes[..], head, kind);
    c := [];
    while at != EMPTY && count <= nodes.Length
      invariant count == Count16(|c|) && Walked(nodes[..], head, at, kind, c)
      invariant nodes.Length < EMPTY ==> |c| <= nodes.Length + 1
      decreases bound - |c|
    {
      if nodes.Length == EMPTY { WalkedWithin(nodes[..], head, at, kind, c, bound); }
      count := (count + 1) % 0x1_0000;
      if at >= nodes.Length || nodes[at].kind != kind {
        assert forall d :: !IsList(nodes[..], head, kind, d);
        ok := false;
        return;
      }
      WalkedOne(nodes[..], head, at, kind, c);
      c := c + [at];
      at := nodes[at].next;
    }
    if at == EMPTY {
      WalkedAll(nodes[..], head, kind, c);
    } else {
      WalkedOut(nodes[..], head, at, kind, c);
    }
    ok := count <= nodes.Length;
  }

  /** The walk's bookkeeping over one block. */
  lemma WalkOn(nodes: seq<Node>, head: nat, at: nat, kind: nat, c: seq<nat>, count: nat)
    requires at < |nodes| && at != EMPTY && nodes[at].kind == kind
    requires forall d :: IsList(nodes, head, kind, d) ==> Reached(nodes, at, kind, d, count)
    requires forall d :: IsList(nodes, at, kind, d) ==> IsList(nodes, head, kind, c + d)
    ensures forall d :: IsList(nodes, head, kind, d) ==> Reached(nodes, nodes[at].next, kind, d, count + 1)
    ensures forall d :: IsList(nodes, nodes[at].next, kind, d) ==> IsList(nodes, head, kind, c + [at] + d)
  {
    forall d | IsList(nodes, head, kind, d) ensures Reached(nodes, nodes[at].next, kind, d, count + 1) {
      ReachNext(nodes, at, kind, d, count);
    }
    forall d | IsList(nodes, nodes[at].next, kind, d) ensures IsList(nodes, head, kind, c + [at] + d) {
      assert ([at] + d)[1..] == d;
      assert IsList(nodes, at, kind, [at] + d);
      assert c + [at] + d == c + ([at] + d);
    }
  }

  // ---------------------------------------------------------------- list operations

  method Push(nodes: array<Node>, head: nat, kind: nat, x: nat, ghost c: seq<nat>) returns (head': nat)
    requires x < nodes.Length <= EMPTY && IsList(nodes[..], head, kind, c) && x !in c
    modifies nodes
    ensures nodes[..] == old(nodes[..])[x := Node(head, kind)] && head' == x
    ensures IsList(nodes[..], head', kind, [x] + c)
  {
    ghost var before := nodes[..];
    nodes[x] := Node(head, kind);
    head' := x;
    ListFrame(before, nodes[..], head, kind, c);
    assert ([x] + c)[1..] == c;
  }

  method Pop(nodes: array<Node>, head: nat, kind: nat, ghost c: seq<nat>) returns (x: nat, head': nat)
    requires nodes.Length <= EMPTY && IsList(nodes[..], head, kind, c)
    ensures x == EMPTY <==> c == []
    ensures c == [] ==> head' == head
    ensures c != [] ==> x == c[0] && IsList(nodes[..], head', kind, c[1..])
  {
    if head == EMPTY {
      x, head' := EMPTY, head;
    } else {
      x, head' := head, nodes[head].next;
    }
  }

  lemma {:induction false} ListInsert(nodes: seq<Node>, nodes': seq<Node>, head: nat, kind: nat, c: seq<nat>, i: nat, x: nat)
    requires IsList(nodes, head, kind, c) && i < |c| && x !in c && x < |nodes| <= EMPTY && c[i] < |nodes|
    requires forall a, b :: 0 <= a < b < |c| ==> c[a] != c[b]
    requires nodes' == nodes[x := Node(nodes[c[i]].next, kind)][c[i] := nodes[c[i]].(next := x)]
    ensures IsList(nodes', head, kind, c[..i + 1] + [x] + c[i + 1..])
    decreases |c|
  {
    var out := c[..i + 1] + [x] + c[i + 1..];
    if i == 0 {
      ListFrame(nodes, nodes', nodes[head].next, kind, c[1..]);
      assert out[1..] == [x] + c[1..] && out[1..][1..] == c[1..];
    } else {
      assert c[0] != c[i];
      ListInsert(nodes, nodes', nodes[head].next, kind, c[1..], i - 1, x);
      assert out[1..] == c[1..][..i] + [x] + c[1..][i..];
    }
  }

  /** `push_after_thread_unsafe` behind the block at position `i`, or in front. */
  method PushAfter(nodes: array<Node>, head: nat, kind: nat, prev: nat, x: nat, ghost c: seq<nat>, ghost i: nat)
    returns (head': nat)
    requires x < nodes.Length <= EMPTY && IsList(nodes[..], head, kind, c) && x !in c
    requires prev == EMPTY || (i < |c| && c[i] == prev < nodes.Length)
    modifies nodes
    ensures IsList(nodes[..], head', kind, if prev == EMPTY then [x] + c else c[..i + 1] + [x] + c[i + 1..])
    ensures forall y :: 0 <= y < nodes.Length && y != x && y != prev ==> nodes[y] == old(nodes[y])
  {
    if prev == EMPTY {
      head' := Push(nodes, head, kind, x, c);
    } else {
      ghost var before := nodes[..];
      forall a, b | 0 <= a < b < |c| ensures c[a] != c[b] { ListAcyclic(before, head, kind, c, a, b); }
      ListSuffix(before, head, kind, c, i);
      nodes[x] := Node(nodes[prev].next, kind);
      nodes[prev] := nodes[prev].(next := x);
      head' := head;
      ListInsert(before, nodes[..], head, kind, c, i, x);
    }
  }

  lemma {:induction false} ListRemove(nodes: seq<Node>, nodes': seq<Node>, head: nat, kind: nat, c: seq<nat>, i: nat)
    requires IsList(nodes, head, kind, c) && 0 < i < |c| && c[i] < |nodes| && c[i - 1] < |nodes|
    requires forall a, b :: 0 <= a < b < |c| ==> c[a] != c[b]
    requires nodes' == nodes[c[i - 1] := nodes[c[i - 1]].(next := nodes[c[i]].next)]
    ensures IsList(nodes', head, kind, c[..i] + c[i + 1..])
    decreases |c|
  {
    var out := c[..i] + c[i + 1..];
    if i == 1 {
      assert c[1..][1..] == c[2..];
      ListFrame(nodes, nodes', nodes[c[1]].next, kind, c[2..]);
      assert out[1..] == c[2..];
    } else {
      assert c[0] != c[i - 1];
      ListRemove(nodes, nodes', nodes[head].next, kind, c[1..], i - 1);
      assert out[1..] == c[1..][..i - 1] + c[1..][i..];
    }
  }

  /** `remove_thread_unsafe` of the block at position `i`. */
  method Remove(nodes: array<Node>, head: nat, kind: nat, prev: nat, x: nat, ghost c: seq<nat>, ghost i: nat)
    returns (head': nat)
    requires nodes.Length <= EMPTY && IsList(nodes[..], head, kind, c) && i < |c| && c[i] == x < nodes.Length
    requires if i == 0 then prev == EMPTY else prev == c[i - 1] && prev < nodes.Length
    modifies nodes
    ensures IsList(nodes[..], head', kind, c[..i] + c[i + 1..])
    ensures forall y :: 0 <= y < nodes.Length && y != prev ==> nodes[y] == old(nodes[y])
  {
    if prev == EMPTY {
      head' := nodes[x].next;
      assert c[..0] + c[1..] == c[1..];
    } else {
      ghost var before := nodes[..];
      forall a, b | 0 <= a < b < |c| ensures c[a] != c[b] { ListAcyclic(before, head, kind, c, a, b); }
      nodes[prev] := nodes[prev].(next := nodes[x].next);
      head' := head;
      ListRemove(before, nodes[..], head, kind, c, i);
    }
  }

  // ---------------------------------------------------------------- rebuilding a group

  /** The geometry a list head was saved with. */
  datatype Layout = Layout(max: nat, offset: nat, perBlock: nat)

  /** The list a saved head stands for once validated: its chain when it has one, else nothing. */
  ghost predicate Restored(nodes: seq<Node>, head: nat, kind: nat, usable: bool, c: seq<nat>) {
    if usable && exists d :: IsList(nodes, head, kind, d) then IsList(nodes, head, kind, c) else c == []
  }

  /** Every block is on exactly one of the three lists, once. */
  ghost predicate Partition(max: nat, u: seq<nat>, s: seq<nat>, f: seq<nat>) {
    && (forall x :: 0 <= x < max ==> x in u || x in s || x in f)
    && (forall x :: x in u ==> x < max && x !in s && x !in f)
    && (forall x :: x in s ==> x < max && x !in f)
    && (forall x :: x in f ==> x < max)
    && (forall i, j :: 0 <= i < j < |u| ==> u[i] != u[j])
    && (forall i, j :: 0 <= i < j < |s| ==> s[i] != s[j])
    && (forall i, j :: 0 <= i < j < |f| ==> f[i] != f[j])
  }

  class GroupData {
    const nodes: array<Node>
    var used: nat
    var free: nat
    var stage: nat

    constructor (memory: array<Node>, usedHead: nat, stageHead: nat)
      ensures nodes == memory && used == usedHead && stage == stageHead
    {
      nodes, used, free, stage := memory, usedHead, EMPTY, stageHead;
    }

    /** The block indices on a validated list, as `used_map` and `stage_map` collect them. */
    method Collect(head: nat, kind: nat, avoid: set<nat>, ghost c: seq<nat>) returns (found: set<nat>)
      requires nodes.Length <= EMPTY && IsList(nodes[..], head, kind, c) && forall x :: x in c ==> x !in avoid
      ensures forall x :: x in found <==> x in c
    {
      found := {};
      var at := head;
      ghost var i := 0;
      while at != EMPTY
        invariant Reached(nodes[..], at, kind, c, i) && forall x :: x in found <==> x in c[..i]
        decreases |c| - i
      {
        ReachNext(nodes[..], at, kind, c, i);
        if at in avoid {
          // the repair of a block on both lists
          assert false;
        }
        assert c[..i + 1] == c[..i] + [at];
        found := found + {at};
        at := nodes[at].next;
        i := i + 1;
      }
      assert c[..i] == c;
    }

    /** The list a saved head gives: validated, or reset to empty. */
    method RecoverList(head: nat, kind: nat, saved: Layout, now: Layout) returns (head': nat, ghost c: seq<nat>)
      requires nodes.Length <= EMPTY && (saved == now ==> !(nodes.Length == EMPTY && Endless(nodes[..], head, kind)))
      ensures IsList(nodes[..], head', kind, c) && Restored(nodes[..], head, kind, saved == now, c)
    {
      var ok := false;
      c := [];
      if saved == now {
        ok, c := Validate(nodes, head, kind);
      }
      if ok {
        head' := head;
      } else {
        head', c := EMPTY, [];
      }
    }

    /** What the sweep over the blocks has done before block `i`. */
    ghost predicate Swept(i: nat, u: seq<nat>, s: seq<nat>, f: seq<nat>)
      reads this, nodes
    {
      && IsList(nodes[..], used, USED, u) && IsList(nodes[..], stage, STAGE, s) && IsList(nodes[..], free, FREE, f)
      && forall x: nat :: x in f <==> x < i && x !in u && x !in s
    }

    /** The block is not in use: it is made anew and pushed on the free list. */
    method FreeBlock(i: nat, ghost u: seq<nat>, ghost s: seq<nat>, ghost f: seq<nat>)
      requires i < nodes.Length <= EMPTY && Swept(i, u, s, f) && i !in u && i !in s
      modifies this`free, nodes
      ensures Swept(i + 1, u, s, [i] + f)
    {
      ghost var before := nodes[..];
      nodes[i] := Node(EMPTY, NONE);
      ListFrame(before, nodes[..], free, FREE, f);
      free := Push(nodes, free, FREE, i, f);
      ListFrame(before, nodes[..], used, USED, u);
      ListFrame(before, nodes[..], stage, STAGE, s);
    }

    /**
     The recovering constructor on arbitrary heads: used and stage come back exactly when they are sound, no
     block is on both, and together with the free list they hold every block once.
     */
    method Rebuild(savedUsed: Layout, savedStage: Layout, now: Layout)
      returns (ghost u: seq<nat>, ghost s: seq<nat>, ghost f: seq<nat>)
      requires nodes.Length <= EMPTY
      requires nodes.Length == EMPTY ==>
        && (savedUsed == now ==> !Endless(nodes[..], used, USED)) && (savedStage == now ==> !Endless(nodes[..], stage, STAGE))
      modifies this, nodes
      ensures Restored(old(nodes[..]), old(used), USED, savedUsed == now, u)
      ensures Restored(old(nodes[..]), old(stage), STAGE, savedStage == now, s)
      ensures IsList(nodes[..], used, USED, u) && IsList(nodes[..], stage, STAGE, s) && IsList(nodes[..], free, FREE, f)
      ensures Partition(nodes.Length, u, s, f)
    {
      used, u := RecoverList(used, USED, savedUsed, now);
      free, f := EMPTY, [];
      stage, s := RecoverList(stage, STAGE, savedStage, now);
      ListsDisjoint(nodes[..], used, USED, u, stage, STAGE, s);
      var usedMap := Collect(used, USED, {}, u);
      var stageMap := Collect(stage, STAGE, usedMap, s);
      for i := 0 to nodes.Length
        invariant Swept(i, u, s, f)
      {
        if i !in usedMap && i !in stageMap {
          FreeBlock(i, u, s, f);
          f := [i] + f;
        }
      }
      SweptPartition(nodes[..], used, stage, free, u, s, f);
    }
  }

  lemma SweptPartition(nodes: seq<Node>, used: nat, stage: nat, free: nat, u: seq<nat>, s: seq<nat>, f: seq<nat>)
    requires IsList(nodes, used, USED, u) && IsList(nodes, stage, STAGE, s) && IsList(nodes, free, FREE, f)
    requires forall x: nat :: x in f <==> x < |nodes| && x !in u && x !in s
    ensures Partition(|nodes|, u, s, f)
  {
    ListMembers(nodes, used, USED, u);
    ListMembers(nodes, stage, STAGE, s);
    ListMembers(nodes, free, FREE, f);
    ListsDisjoint(nodes, used, USED, u, stage, STAGE, s);
  }

  lemma ListMembers(nodes: seq<Node>, head: nat, kind: nat, c: seq<nat>)
    requires IsList(nodes, head, kind, c)
    ensures forall x :: x in c ==> x < |nodes|
    ensures forall i, j :: 0 <= i < j < |c| ==> c[i] != c[j]
  {
    forall i | 0 <= i < |c| ensures c[i] < |nodes| { ListSuffix(nodes, head, kind, c, i); }
    forall i, j | 0 <= i < j < |c| ensures c[i] != c[j] { ListAcyclic(nodes, head, kind, c, i, j); }
  }
}
