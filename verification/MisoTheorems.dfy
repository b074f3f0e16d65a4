/** What the multi-producer ring promises over every run. */
module MisoTheorems {
  import opened Words
  import opened Modular
  import opened MisoModel
  import opened MisoInv
  import opened MisoSteps

  lemma NextKeeps(s: State, s': State, step: Step)
    requires Inv(s) && Window(s) && Next(s, s', step)
    ensures Inv(s')
  {
    hide Inv;
    match step
    case PEnlist(p) => OwnKeeps(s, s', p, 0);
    case PStart(p, size) => OwnKeeps(s, s', p, size);
    case PPass(p) => OwnKeeps(s, s', p, 0);
    case PRefuse(p) => OwnKeeps(s, s', p, 0);
    case PFetchAdd(p) => FetchAddKeeps(s, s', p);
    case PAccept(p) => AcceptKeeps(s, s', p);
    case PReload(p) => OwnKeeps(s, s', p, 0);
    case PRollback(p) => RollbackKeeps(s, s', p);
    case PRollbackFails(p) => OwnKeeps(s, s', p, 0);
    case PPutNum(p) => PutNumKeeps(s, s', p);
    case PWrap(p) => WrapKeeps(s, s', p);
    case PPutSize(p) => PutSizeKeeps(s, s', p);
    case PRefresh(p) => OwnKeeps(s, s', p, 0);
    case PFill(p, i, x) => FillKeeps(s, s', p, i, x);
    case PCommit(p) => CommitKeeps(s, s', p);
    case RSkipClear => SkipClearKeeps(s, s');
    case RSkipMove => ReturnKeeps(s, s');
    case RSeeEmpty => SeeKeeps(s, s');
    case RTakeEmpty => SeeKeeps(s, s');
    case RSeeUsed => SeeKeeps(s, s');
    case RDiscard => SeeKeeps(s, s');
    case RReturn => ReturnKeeps(s, s');
    case RReturnEmpty => SeeKeeps(s, s');
    case RClearOne => ClearOneKeeps(s, s');
    case RPublish => PublishKeeps(s, s');
  }

  lemma {:induction false} RunInv(run: seq<State>, steps: seq<Step>, i: nat)
    requires IsRun(run, steps) && i < |run|
    ensures Inv(run[i])
  {
    hide Next, Inv;
    if i == 0 {
      InitInv(run[0]);
    } else {
      RunInv(run, steps, i - 1);
      NextKeeps(run[i - 1], run[i], steps[i - 1]);
    }
  }

  /** Reservation `j` covers cursor `c`. */
  ghost predicate Covers(s: State, j: nat, c: nat) {
    j < |s.res| && s.res[j].start <= c < End(s.res[j])
  }

  lemma {:induction false} CoveredFrom(s: State, i: nat, c: nat) returns (j: nat)
    requires Tiled(s) && i <= |s.res| && Bound(s, i) <= c < s.w
    ensures Covers(s, j, c)
    decreases |s.res| - i
  {
    if c < End(s.res[i]) { j := i; } else { j := CoveredFrom(s, i + 1, c); }
  }

  lemma CoveredOnce(s: State, i: nat, j: nat, c: nat)
    requires Tiled(s) && Covers(s, i, c) && Covers(s, j, c)
    ensures i == j
  {
    hide Tiled;
    if i < j { BoundsGrow(s, i, j); } else if j < i { BoundsGrow(s, j, i); }
  }

  /**
   In every run the reservations tile the cursors from the published read cursor to the write cursor: each
   cursor there belongs to exactly one of them.
   */
  lemma ReservationsTile(run: seq<State>, steps: seq<Step>, t: nat, c: nat) returns (j: nat)
    requires IsRun(run, steps) && t < |run| && run[t].r <= c < run[t].w
    ensures Covers(run[t], j, c)
    ensures forall i :: Covers(run[t], i, c) ==> i == j
  {
    assert Tiled(run[t]) && Bound(run[t], 0) <= run[t].r by {
      hide Next, ResvOk, ProdOk, ReadOk, FreeClean;
      RunInv(run, steps, t);
    }
    hide IsRun, Tiled, Covers;
    j := CoveredFrom(run[t], 0, c);
    forall i | Covers(run[t], i, c) ensures i == j { CoveredOnce(run[t], i, j, c); }
  }

  /** In every run a compare-and-swap that succeeds takes back the topmost reservation. */
  lemma RollbackOfTopmost(run: seq<State>, steps: seq<Step>, t: nat)
    requires IsRun(run, steps) && t < |steps| && steps[t].PRollback?
    ensures var s := run[t]; var p := steps[t].p;
      && p in s.prods && s.prods[p].pc.Busy? && s.prods[p].pc.j == |s.res| - 1
      && run[t + 1].w == s.res[|s.res| - 1].start
  {
    hide Inv;
    RunInv(run, steps, t);
    RollbackTopmost(run[t], run[t + 1], steps[t].p);
  }

  /**
   In every run a block a producer is writing ends less than `n` blocks past the read cursor and belongs to no
   other reservation that is being written or waits to be read.
   */
  lemma WritersApart(run: seq<State>, steps: seq<Step>, t: nat, i: nat, j: nat, a: nat, b: nat)
    requires IsRun(run, steps) && t < |run|
    requires var s := run[t];
      && s.k <= i < |s.res| && s.k <= j < |s.res| && i != j
      && s.res[i].phase != Tentative && s.res[j].phase != Tentative && Covers(s, i, a) && Covers(s, j, b)
    ensures var s := run[t]; s.n > 0 && End(s.res[i]) < s.r + s.n && a % s.n != b % s.n
  {
    hide Next, MemOk, ProdOk, ReadOk, FreeClean, Tiled;
    var s := run[t];
    RunInv(run, steps, t);
    assert ResvOk(s, i) && ResvOk(s, j);
    Elsewhere(s, i, j);
    Elsewhere(s, j, i);
    if a < b { Apart(s.n, a, b); } else { Apart(s.n, b, a); }
  }

  /**
   In every run the chunks the reader has given back are exactly the committed chunks among the reservations
   it has passed, in reservation order, wrap chunks left out; and a chunk in the reader's hands is the next one,
   with the bytes its producer committed.
   */
  lemma DeliveredInReservationOrder(run: seq<State>, steps: seq<Step>, t: nat)
    requires IsRun(run, steps) && t < |run|
    ensures var s := run[t];
      && s.k <= |s.res| && s.delivered == Chunks(s.res[..s.k])
      && (forall j :: 0 <= j < s.k ==> s.res[j].phase == Done || s.res[j].phase == Skip)
      && (s.reader.Got? ==> s.k < |s.res| && s.res[s.k].phase == Done && s.reader.chunk == s.res[s.k].chunk)
  {
    hide Next, ResvOk, ProdOk, FreeClean, Tiled, Chunks;
    RunInv(run, steps, t);
  }

  /**
   In every run the status byte under the reader tells the truth about the next reservation, save between the two
   stores of a skip, and the reader never meets a byte that is no status at all.
   */
  lemma ReaderSeesTruth(run: seq<State>, steps: seq<Step>, t: nat)
    requires IsRun(run, steps) && t < |run|
    ensures var s := run[t];
      && s.n == |s.mem| > 0
      && (Get(s, s.rc).status == USED <==> s.k < |s.res| && s.res[s.k].phase == Done)
      && (Get(s, s.rc).status == INVALID <==> s.k < |s.res| && s.res[s.k].phase == Skip)
      && s.k <= |s.res| && (Get(s, s.rc).status == UNUSED <==> s.k == |s.res| || Live(s.res[s.k]) || s.reader.Skipping?)
  {
    hide Next, Inv;
    RunInv(run, steps, t);
    StatusExact(run[t]);
  }

  /** Blocks outside the live window read unused: those from the write cursor up to `n` past the read cursor. */
  lemma OutsideIsUnused(run: seq<State>, steps: seq<Step>, t: nat, c: nat)
    requires IsRun(run, steps) && t < |run| && run[t].w <= c < run[t].r + run[t].n
    ensures run[t].n == |run[t].mem| > 0 && Get(run[t], c).status == UNUSED
  {
    hide Next, ResvOk, ProdOk, ReadOk, Tiled;
    RunInv(run, steps, t);
    assert Clean(run[t], c);
  }
}
