/** Capacity: what the ledger holds at every turn, and how far a plan can exceed the ceiling. */
module SolverCapacity {
  import opened Common
  import opened Solver

  predicate RunsIn(p: Process, start: Option<nat>, w: nat) {
    start.Some? && start.value <= w < start.value + Duration(p)
  }

  /** The load process `i` puts on window `w`. */
  ghost function Own(ws: seq<Window>, caps: seq<Cap>, ps: seq<Process>, i: nat, w: nat): real
    requires |caps| == |ws| && i < |ps|
  {
    if RunsIn(ps[i], StartAt(ws, caps, ps, i), w) then ps[i].loadMw else 0.0
  }

  /** The load that the first `n` processes put on window `w`. */
  ghost function Load(ws: seq<Window>, caps: seq<Cap>, ps: seq<Process>, n: nat, w: nat): real
    requires |caps| == |ws| && n <= |ps|
  {
    if n == 0 then 0.0 else Load(ws, caps, ps, n - 1, w) + Own(ws, caps, ps, n - 1, w)
  }

  /** Some process among the first `n` runs in window `w`. */
  ghost predicate Touched(ws: seq<Window>, caps: seq<Cap>, ps: seq<Process>, n: nat, w: nat)
    requires |caps| == |ws| && n <= |ps|
  {
    n > 0 && (RunsIn(ps[n - 1], StartAt(ws, caps, ps, n - 1), w) || Touched(ws, caps, ps, n - 1, w))
  }

  /** At every step, original capacity less remaining capacity is the load placed. */
  lemma {:induction false} CapacityIsConserved(ws: seq<Window>, caps: seq<Cap>, ps: seq<Process>, n: nat, w: nat)
    requires |caps| == |ws| && n <= |ps| && w < |ws|
    ensures LedgerAt(ws, caps, ps, n)[w] == Take(caps[w], Load(ws, caps, ps, n, w))
  {
    hide BestBelow, Intensity;
    if n > 0 {
      CapacityIsConserved(ws, caps, ps, n - 1, w);
    }
  }

  /** However many processes share a window, they exceed its ceiling by one tolerance at most. */
  lemma {:induction false} CeilingExceededByOneTolerance(ws: seq<Window>, caps: seq<Cap>, ps: seq<Process>, n: nat,
          w: nat)
    requires |caps| == |ws| && n <= |ps| && w < |ws| && caps[w].Finite?
    requires Touched(ws, caps, ps, n, w)
    ensures Load(ws, caps, ps, n, w) <= caps[w].mw + TOLERANCE
  {
    if RunsIn(ps[n - 1], StartAt(ws, caps, ps, n - 1), w) {
      CapacityIsConserved(ws, caps, ps, n - 1, w);
      assert Free(LedgerAt(ws, caps, ps, n - 1)[w], ps[n - 1].loadMw);
    } else {
      CeilingExceededByOneTolerance(ws, caps, ps, n - 1, w);
    }
  }

  lemma {:induction false} UntouchedCarriesNothing(ws: seq<Window>, caps: seq<Cap>, ps: seq<Process>, n: nat, w: nat)
    requires |caps| == |ws| && n <= |ps| && w < |ws|
    requires !Touched(ws, caps, ps, n, w)
    ensures Load(ws, caps, ps, n, w) == 0.0
  {
    if n > 0 {
      UntouchedCarriesNothing(ws, caps, ps, n - 1, w);
    }
  }

  // ---- The same, read off the plan ------------------------------------------

  /** The load that the first `n` decision rows put on the window starting at `from`. */
  function RowLoad(ds: seq<Decision>, n: nat, from: int): real
    requires n <= |ds|
  {
    if n == 0 then 0.0
    else RowLoad(ds, n - 1, from) + if ds[n - 1].from == from then ds[n - 1].loadMw else 0.0
  }

  ghost predicate OnlyStart(ws: seq<Window>, w: nat)
    requires w < |ws|
  {
    forall k | 0 <= k < |ws| && k != w :: ws[k].from != ws[w].from
  }

  lemma {:induction false} RowLoadOfPrefix(a: seq<Decision>, b: seq<Decision>, n: nat, from: int)
    requires n <= |a| <= |b| && a == b[..|a|]
    ensures RowLoad(b, n, from) == RowLoad(a, n, from)
  {
    if n > 0 {
      RowLoadOfPrefix(a, b, n - 1, from);
      assert b[n - 1] == a[n - 1];
    }
  }

  /** The rows of one process, appended to others, add its load to its own windows only. */
  lemma {:induction false} RowLoadOfOne(ws: seq<Window>, p: Process, s: nat, a: seq<Decision>, k: nat, w: nat)
    requires Legal(|ws|, p, s) && k <= |ws| && w < |ws| && OnlyStart(ws, w)
    ensures var ds := a + RowsUpTo(ws, p, s, |ws|);
            RowLoad(ds, |a| + k, ws[w].from)
            == RowLoad(a, |a|, ws[w].from) + if w < k && RunsIn(p, Some(s), w) then p.loadMw else 0.0
  {
    var ds := a + RowsUpTo(ws, p, s, |ws|);
    if k == 0 {
      RowLoadOfPrefix(a, ds, |a|, ws[w].from);
    } else {
      RowLoadOfOne(ws, p, s, a, k - 1, w);
      RowAt(ws, p, s, |ws|, k - 1);
      assert ds[|a| + k - 1] == RowFor(ws, p, s, k - 1);
    }
  }

  lemma {:induction false} RowLoadIsLoad(ws: seq<Window>, caps: seq<Cap>, ps: seq<Process>, n: nat, w: nat)
    requires |caps| == |ws| && n <= |ps| && w < |ws| && OnlyStart(ws, w)
    ensures var ds := BooksAt(ws, caps, ps, n).decisions;
            RowLoad(ds, |ds|, ws[w].from) == Load(ws, caps, ps, n, w)
  {
    hide RowsBaseline, RowsCarbon, LedgerAt, BestStart, NoteFor;
    if n > 0 {
      RowLoadIsLoad(ws, caps, ps, n - 1, w);
      match StartAt(ws, caps, ps, n - 1)
      case None =>
      case Some(s) => RowLoadOfOne(ws, ps[n - 1], s, BooksAt(ws, caps, ps, n - 1).decisions, |ws|, w);
    }
  }

  /** In a finished plan the rows of any window that is used stay within its ceiling, up
      to a single tolerance; a window no process uses carries no load at all. */
  lemma {:induction false} PlanKeepsCeiling(ws: seq<Window>, ps: seq<Process>, caps: seq<Cap>, runId: string,
          solver: string, w: nat)
    requires |caps| == |ws| && w < |ws| && OnlyStart(ws, w) && caps[w].Finite?
    ensures var r := SolveSpec(ws, ps, Some(caps), runId, solver);
            r.Ok? && var ds := r.value.decisions;
            var load := RowLoad(ds, |ds|, ws[w].from);
            load <= caps[w].mw + TOLERANCE || (load == 0.0 && !Touched(ws, caps, HeaviestFirst(ps), |ps|, w))
  {
    var sorted := HeaviestFirst(ps);
    RowLoadIsLoad(ws, caps, sorted, |ps|, w);
    if Touched(ws, caps, sorted, |ps|, w) {
      CeilingExceededByOneTolerance(ws, caps, sorted, |ps|, w);
    } else {
      UntouchedCarriesNothing(ws, caps, sorted, |ps|, w);
    }
  }
}
