/** The invariant of the group list. */
module GroupInv {
  import opened Words
  import opened GroupModel

  /** Who can have a block in hands. */
  datatype Who = Thread(t: nat) | Reader

  /** `w` has taken block `b` of group `g` off a list and not yet put it on another. */
  predicate Hand(s: State, w: Who, g: nat, b: nat) {
    match w
    case Thread(t) =>
      && t in s.threads && (s.threads[t].Hold? || s.threads[t].FreshHold? || s.threads[t].LinkHold?)
      && s.threads[t].g == g && s.threads[t].b == b
    case Reader => (s.r.Taken? || s.r.Removed?) && s.cur == Some(g) && s.r.b == b
  }

  ghost predicate Tidy(max: nat, c: seq<nat>) {
    Distinct(c) && forall i :: 0 <= i < |c| ==> c[i] < max
  }

  /** Every block of `g` is in exactly one place: once on one of its lists, or in one thread's hands. */
  ghost predicate Sound(s: State, g: nat) {
    && g in s.groups
    && Tidy(s.max, All(s.groups[g]))
    && (forall b :: 0 <= b < s.max ==> b in All(s.groups[g]) || exists w :: Hand(s, w, g, b))
    && (forall w, b: nat :: Hand(s, w, g, b) ==> b < s.max && b !in All(s.groups[g]))
    && (forall v, w, b :: Hand(s, v, g, b) && Hand(s, w, g, b) ==> v == w)
  }

  /** Nothing of `g` is in use. */
  ghost predicate Spare(s: State, g: nat) {
    && g in s.groups && s.groups[g].stage == [] && s.groups[g].used == []
    && forall w, b :: !Hand(s, w, g, b)
  }

  /** The pointer to position `i` of the list. */
  function PtrTo(list: seq<nat>, i: nat): Ptr
    requires i <= |list|
  {
    if i == 0 then Head else NextOf(list[i - 1])
  }

  /** `p` is the pointer that leads to `g`. */
  ghost predicate Leads(s: State, p: Ptr, g: nat) {
    exists i :: 0 <= i < |s.list| && s.list[i] == g && p == PtrTo(s.list, i)
  }

  ghost predicate Apart(s: State, g: nat) {
    g in s.groups && g !in s.list && g !in s.pool && s.r != Drop(g)
  }

  ghost predicate PcOk(s: State, t: nat) {
    && t in s.threads
    && var pc := s.threads[t];
    && (pc.Visit? || pc.Hold? || pc.Leave? || pc.Miss? ==> Leads(s, pc.p, pc.g))
    && (pc.Fresh? ==> Apart(s, pc.g) && Spare(s, pc.g))
    && (pc.FreshHold? ==> Apart(s, pc.g))
    && (pc.LinkHold? ==> s.head == Some(pc.g))
    && !pc.Crashed?
  }

  /** A write lock shuts everyone else out. */
  ghost predicate Exclusive(s: State) {
    && (forall t, u :: t in s.threads && u in s.threads && t != u && Writes(s.threads[t], Head) ==>
          !Writes(s.threads[u], Head) && !Reads(s.threads[u], Head))
    && (forall t, p :: t in s.threads && ReaderWrites(s.r, p) ==> !Writes(s.threads[t], p) && !Reads(s.threads[t], p))
  }

  /** The reader's walk has not yet gone past its current group. */
  ghost predicate Approaches(s: State, p: Ptr, g: nat, c: nat) {
    exists i, j :: 0 <= i <= j < |s.list| && s.list[i] == g && p == PtrTo(s.list, i) && s.list[j] == c && (s.last.Some? ==> i == j)
  }

  ghost predicate Follows(s: State, l: nat, c: nat) {
    exists i :: 0 <= i && i + 1 < |s.list| && s.list[i] == l && s.list[i + 1] == c
  }

  /** No stage or used block in the group about to be unlinked. */
  ghost predicate Bare(s: State, g: nat) {
    g in s.groups && s.groups[g].stage == [] && s.groups[g].used == []
  }

  ghost predicate ReaderOk(s: State) {
    && (s.cur.Some? ==> s.cur.value in s.list)
    && (s.cur.Some? && s.last.Some? ==> Follows(s, s.last.value, s.cur.value))
    && (!s.r.Roam? && !s.r.Drop? ==> s.cur.Some?)
    && (s.r.Walk? && s.cur.Some? ==> Approaches(s, s.r.p, s.r.g, s.cur.value))
    && (s.r.Doomed? && s.cur.Some? ==> Leads(s, s.r.p, s.cur.value) && Bare(s, s.cur.value))
    && (s.r.Cut? && s.cur.Some? ==>
          && Leads(s, s.r.p, s.cur.value) && Bare(s, s.cur.value) && s.r.nx == Get(s, NextOf(s.cur.value))
          && forall t :: t in s.threads ==> !Reads(s.threads[t], NextOf(s.cur.value)))
    && (s.r.Drop? ==> s.r.g in s.groups && s.r.g !in s.list && s.r.g !in s.pool && Spare(s, s.r.g))
  }

  ghost predicate Inv(s: State) {
    && s.max > 0 && Linked(s) && Exclusive(s) && ReaderOk(s)
    && (forall t :: t in s.threads ==> PcOk(s, t))
    && (forall g :: g in s.groups ==> Sound(s, g))
    && (forall i :: 0 <= i < |s.pool| ==> Spare(s, s.pool[i]))
  }

  // ---------------------------------------------------------------- lists of blocks

  lemma TakenOut(max: nat, c: seq<nat>, i: nat)
    requires Tidy(max, c) && i < |c|
    ensures Tidy(max, c[..i] + c[i + 1..]) && c[i] < max && c[i] in c
    ensures forall b :: b in c[..i] + c[i + 1..] <==> b in c && b != c[i]
  {
    var d := c[..i] + c[i + 1..];
    forall b | b in c && b != c[i] ensures b in d {
      var k :| 0 <= k < |c| && c[k] == b;
      assert b == if k < i then d[k] else d[k - 1];
    }
  }

  lemma PutIn(max: nat, c: seq<nat>, i: nat, x: nat)
    requires Tidy(max, c) && i <= |c| && x !in c && x < max
    ensures Tidy(max, c[..i] + [x] + c[i..])
    ensures forall b :: b in c[..i] + [x] + c[i..] <==> b in c || b == x
  {
    var d := c[..i] + [x] + c[i..];
    forall b | b in c || b == x ensures b in d {
      if b == x { assert d[i] == x; } else {
        var k :| 0 <= k < |c| && c[k] == b;
        assert b == if k < i then d[k] else d[k + 1];
      }
    }
  }

  /** Same lists, same hands. */
  lemma SoundSame(s: State, s': State, g: nat)
    requires g in s.groups && g in s'.groups && s'.max == s.max && s'.groups[g] == s.groups[g] && Sound(s, g)
    requires forall w, b :: Hand(s', w, g, b) <==> Hand(s, w, g, b)
    ensures Sound(s', g)
  {
    hide Hand, Tidy, All;
    forall b | 0 <= b < s.max ensures b in All(s'.groups[g]) || exists w :: Hand(s', w, g, b) {
      if b !in All(s.groups[g]) {
        var w :| Hand(s, w, g, b);
        assert Hand(s', w, g, b);
      }
    }
  }

  /** `w` takes the block at position `i` of the lists. */
  lemma SoundTake(s: State, s': State, g: nat, w: Who, i: nat)
    requires g in s.groups && g in s'.groups && s'.max == s.max && Sound(s, g)
    requires i < |All(s.groups[g])| && All(s'.groups[g]) == All(s.groups[g])[..i] + All(s.groups[g])[i + 1..]
    requires forall v, b :: Hand(s', v, g, b) <==> Hand(s, v, g, b) || (v == w && b == All(s.groups[g])[i])
    ensures Sound(s', g)
  {
    hide Hand, Tidy, All;
    var c := All(s.groups[g]);
    TakenOut(s.max, c, i);
    forall b | 0 <= b < s.max ensures b in All(s'.groups[g]) || exists v :: Hand(s', v, g, b) {
      if b !in c {
        var v :| Hand(s, v, g, b);
        assert Hand(s', v, g, b);
      } else if b == c[i] {
        assert Hand(s', w, g, b);
      }
    }
  }

  /** `w` puts the block in its hands at position `i` of the lists. */
  lemma SoundGive(s: State, s': State, g: nat, w: Who, x: nat, i: nat)
    requires g in s.groups && g in s'.groups && s'.max == s.max && Sound(s, g) && Hand(s, w, g, x)
    requires i <= |All(s.groups[g])| && All(s'.groups[g]) == All(s.groups[g])[..i] + [x] + All(s.groups[g])[i..]
    requires forall v, b :: Hand(s', v, g, b) <==> Hand(s, v, g, b) && v != w
    requires forall b :: Hand(s, w, g, b) ==> b == x
    ensures Sound(s', g)
  {
    hide Hand, Tidy, All;
    var c := All(s.groups[g]);
    PutIn(s.max, c, i, x);
    forall b | 0 <= b < s.max ensures b in All(s'.groups[g]) || exists v :: Hand(s', v, g, b) {
      if b !in c && b != x {
        var v :| Hand(s, v, g, b);
        assert Hand(s', v, g, b);
      }
    }
    forall v, b: nat | Hand(s', v, g, b) ensures b < s.max && b !in All(s'.groups[g]) {
      assert Hand(s, v, g, b);
    }
  }

  lemma InitInv(s: State)
    requires Init(s)
    ensures Inv(s)
  {
    hide All, AllListed;
    forall g | g in s.groups ensures Sound(s, g) {
      assert forall w, b :: !Hand(s, w, g, b);
    }
  }
}
