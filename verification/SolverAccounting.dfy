/** Accounting: the rows of a plan against the blocks the solver chose. */
module SolverAccounting {
  import opened Common
  import opened Solver

  /** How many of the first `n` windows lie in the block starting at `s`. */
  function Covered(p: Process, s: nat, n: nat): nat {
    if n <= s then 0 else if n >= s + Duration(p) then Duration(p) else n - s
  }

  lemma {:induction false} RowsCarbonIsBlock(ws: seq<Window>, p: Process, s: nat, n: nat)
    requires Legal(|ws|, p, s) && n <= |ws|
    ensures RowsCarbon(ws, p, s, n) == BlockCarbon(ws, p, s, Covered(p, s, n))
  {
    if n > 0 {
      RowsCarbonIsBlock(ws, p, s, n - 1);
    }
  }

  lemma {:induction false} RowsBaselineIsShare(ws: seq<Window>, p: Process, s: nat, n: nat)
    requires Legal(|ws|, p, s) && n <= |ws|
    ensures RowsBaseline(ws, p, s, n) == Covered(p, s, n) as real * PerWindowBaseline(ws, p)
  {
    if n > 0 {
      RowsBaselineIsShare(ws, p, s, n - 1);
      if s <= n - 1 < s + Duration(p) {
        OneMoreShare(Covered(p, s, n - 1), PerWindowBaseline(ws, p));
      }
    }
  }

  function RowsSaved(ws: seq<Window>, p: Process, s: nat, n: nat): real
    requires Legal(|ws|, p, s) && n <= |ws|
  {
    if n == 0 then 0.0 else RowsSaved(ws, p, s, n - 1) + RowFor(ws, p, s, n - 1).savedKg
  }

  lemma {:induction false} RowsSavedIsShare(ws: seq<Window>, p: Process, s: nat, n: nat)
    requires Legal(|ws|, p, s) && n <= |ws|
    ensures RowsSaved(ws, p, s, n) == Covered(p, s, n) as real * PerWindowSaved(ws, p, s)
  {
    if n > 0 {
      RowsSavedIsShare(ws, p, s, n - 1);
      if s <= n - 1 < s + Duration(p) {
        OneMoreShare(Covered(p, s, n - 1), PerWindowSaved(ws, p, s));
      }
    }
  }

  lemma {:induction false} OneMoreShare(k: nat, x: real)
    ensures (k + 1) as real * x == k as real * x + x
  {
  }

  lemma {:induction false} SharesAddUp(d: nat, x: real)
    requires d > 0
    ensures d as real * (x / d as real) == x
  {
  }

  /** What one scheduled process adds: the carbon of its block, that of its baseline
      block, and their difference. */
  lemma {:induction false} RowsCarbonTotal(ws: seq<Window>, p: Process, s: nat)
    requires Legal(|ws|, p, s)
    ensures RowsCarbon(ws, p, s, |ws|) == BlockCarbon(ws, p, s, Duration(p))
  {
    RowsCarbonIsBlock(ws, p, s, |ws|);
  }

  lemma {:induction false} RowsBaselineTotal(ws: seq<Window>, p: Process, s: nat)
    requires Legal(|ws|, p, s)
    ensures RowsBaseline(ws, p, s, |ws|) == BlockCarbon(ws, p, StartLo(p), Duration(p))
  {
    RowsBaselineIsShare(ws, p, s, |ws|);
    SharesAddUp(Duration(p), BlockCarbon(ws, p, StartLo(p), Duration(p)));
  }

  lemma {:induction false} RowsSavedTotal(ws: seq<Window>, p: Process, s: nat)
    requires Legal(|ws|, p, s)
    ensures RowsSaved(ws, p, s, |ws|)
         == BlockCarbon(ws, p, StartLo(p), Duration(p)) - BlockCarbon(ws, p, s, Duration(p))
  {
    RowsSavedIsShare(ws, p, s, |ws|);
    SharesAddUp(Duration(p), BlockCarbon(ws, p, StartLo(p), Duration(p)) - BlockCarbon(ws, p, s, Duration(p)));
  }

  lemma {:induction false} RowsAddUpToBlocks(ws: seq<Window>, p: Process, s: nat)
    requires Legal(|ws|, p, s)
    ensures RowsCarbon(ws, p, s, |ws|) == BlockCarbon(ws, p, s, Duration(p))
    ensures RowsBaseline(ws, p, s, |ws|) == BlockCarbon(ws, p, StartLo(p), Duration(p))
    ensures RowsSaved(ws, p, s, |ws|) == RowsBaseline(ws, p, s, |ws|) - RowsCarbon(ws, p, s, |ws|)
  {
    RowsCarbonTotal(ws, p, s);
    RowsBaselineTotal(ws, p, s);
    RowsSavedTotal(ws, p, s);
  }

  // ---- Plan totals ----------------------------------------------------------

  /** The carbon of the blocks given to the first `n` processes. */
  ghost function ChosenCarbon(ws: seq<Window>, caps: seq<Cap>, ps: seq<Process>, n: nat): real
    requires |caps| == |ws| && n <= |ps|
  {
    if n == 0 then 0.0
    else match StartAt(ws, caps, ps, n - 1)
         case None => ChosenCarbon(ws, caps, ps, n - 1)
         case Some(s) => ChosenCarbon(ws, caps, ps, n - 1) + BlockCarbon(ws, ps[n - 1], s, Duration(ps[n - 1]))
  }

  /** The carbon the scheduled ones would have caused by starting as early as they may. */
  ghost function EarliestCarbon(ws: seq<Window>, caps: seq<Cap>, ps: seq<Process>, n: nat): real
    requires |caps| == |ws| && n <= |ps|
  {
    if n == 0 then 0.0
    else match StartAt(ws, caps, ps, n - 1)
         case None => EarliestCarbon(ws, caps, ps, n - 1)
         case Some(_) =>
           EarliestCarbon(ws, caps, ps, n - 1) + BlockCarbon(ws, ps[n - 1], StartLo(ps[n - 1]), Duration(ps[n - 1]))
  }

  lemma {:induction false} TotalsAreBlockTotals(ws: seq<Window>, caps: seq<Cap>, ps: seq<Process>, n: nat)
    requires |caps| == |ws| && n <= |ps|
    ensures var b := BooksAt(ws, caps, ps, n);
            b.optimizedKg == ChosenCarbon(ws, caps, ps, n) && b.baselineKg == EarliestCarbon(ws, caps, ps, n)
  {
    if n > 0 {
      TotalsAreBlockTotals(ws, caps, ps, n - 1);
      match StartAt(ws, caps, ps, n - 1)
      case None =>
      case Some(s) => RowsAddUpToBlocks(ws, ps[n - 1], s);
    }
  }

  /** Sums over the first `n` decision rows. */
  function SumCarbon(ds: seq<Decision>, n: nat): real
    requires n <= |ds|
  {
    if n == 0 then 0.0 else SumCarbon(ds, n - 1) + ds[n - 1].carbonKg
  }

  function SumBaseline(ds: seq<Decision>, n: nat): real
    requires n <= |ds|
  {
    if n == 0 then 0.0 else SumBaseline(ds, n - 1) + ds[n - 1].baselineKg
  }

  function SumSaved(ds: seq<Decision>, n: nat): real
    requires n <= |ds|
  {
    if n == 0 then 0.0 else SumSaved(ds, n - 1) + ds[n - 1].savedKg
  }

  lemma {:induction false} SumsOfPrefix(a: seq<Decision>, b: seq<Decision>, n: nat)
    requires n <= |a| <= |b| && a == b[..|a|]
    ensures SumCarbon(b, n) == SumCarbon(a, n)
    ensures SumBaseline(b, n) == SumBaseline(a, n)
    ensures SumSaved(b, n) == SumSaved(a, n)
  {
    if n > 0 {
      SumsOfPrefix(a, b, n - 1);
      assert b[n - 1] == a[n - 1];
    }
  }

  /** The rows of one process, appended to others. */
  lemma {:induction false} SumsOfOne(ws: seq<Window>, p: Process, s: nat, a: seq<Decision>, ds: seq<Decision>, k: nat)
    requires Legal(|ws|, p, s) && k <= |ws| && ds == a + RowsUpTo(ws, p, s, |ws|)
    ensures SumCarbon(ds, |a| + k) == SumCarbon(a, |a|) + RowsCarbon(ws, p, s, k)
    ensures SumBaseline(ds, |a| + k) == SumBaseline(a, |a|) + RowsBaseline(ws, p, s, k)
    ensures SumSaved(ds, |a| + k) == SumSaved(a, |a|) + RowsSaved(ws, p, s, k)
  {
    if k == 0 {
      SumsOfPrefix(a, ds, |a|);
    } else {
      SumsOfOne(ws, p, s, a, ds, k - 1);
      RowAt(ws, p, s, |ws|, k - 1);
      assert ds[|a| + k - 1] == RowFor(ws, p, s, k - 1);
    }
  }

  ghost predicate Balanced(b: Books) {
    var ds := b.decisions;
    && b.optimizedKg == SumCarbon(ds, |ds|)
    && b.baselineKg == SumBaseline(ds, |ds|)
    && b.baselineKg - b.optimizedKg == SumSaved(ds, |ds|)
  }

  lemma {:induction false} EnterKeepsBalance(ws: seq<Window>, b: Books, p: Process, start: Option<nat>)
    requires start.Some? ==> Legal(|ws|, p, start.value)
    requires Balanced(b)
    ensures Balanced(Enter(ws, b, p, start))
  {
    match start
    case None =>
    case Some(s) =>
      SumsOfOne(ws, p, s, b.decisions, Enter(ws, b, p, start).decisions, |ws|);
      RowsAddUpToBlocks(ws, p, s);
  }

  lemma {:induction false} BooksAreBalanced(ws: seq<Window>, caps: seq<Cap>, ps: seq<Process>, n: nat)
    requires |caps| == |ws| && n <= |ps|
    ensures Balanced(BooksAt(ws, caps, ps, n))
  {
    if n > 0 {
      BooksAreBalanced(ws, caps, ps, n - 1);
      EnterKeepsBalance(ws, BooksAt(ws, caps, ps, n - 1), ps[n - 1], StartAt(ws, caps, ps, n - 1));
    }
  }

  /** The three totals of a plan are the sums of its rows, and the carbon of the chosen
      and of the earliest blocks: sharing a block's saving evenly loses nothing. */
  ghost predicate AddsUp(ws: seq<Window>, caps: seq<Cap>, sorted: seq<Process>, plan: Plan)
    requires |caps| == |ws|
  {
    var ds := plan.decisions;
    && plan.optimizedKg == SumCarbon(ds, |ds|) == ChosenCarbon(ws, caps, sorted, |sorted|)
    && plan.baselineKg == SumBaseline(ds, |ds|) == EarliestCarbon(ws, caps, sorted, |sorted|)
    && plan.savedKg == SumSaved(ds, |ds|) == plan.baselineKg - plan.optimizedKg
  }

  lemma {:induction false} BooksAddUp(ws: seq<Window>, caps: seq<Cap>, sorted: seq<Process>, runId: string,
          solver: string)
    requires |caps| == |ws|
    ensures AddsUp(ws, caps, sorted, PlanFrom(ws, BooksAt(ws, caps, sorted, |sorted|), runId, solver))
  {
    BooksAreBalanced(ws, caps, sorted, |sorted|);
    TotalsAreBlockTotals(ws, caps, sorted, |sorted|);
  }

  lemma {:induction false} PlanAddsUp(ws: seq<Window>, ps: seq<Process>, capacity: Option<seq<Cap>>, runId: string,
          solver: string)
    requires SolveSpec(ws, ps, capacity, runId, solver).Ok?
    ensures AddsUp(ws, Ceiling(ws, capacity), HeaviestFirst(ps), SolveSpec(ws, ps, capacity, runId, solver).value)
  {
    BooksAddUp(ws, Ceiling(ws, capacity), HeaviestFirst(ps), runId, solver);
  }

  // ---- Which rows a plan holds ----------------------------------------------

  /** Process `i`, if scheduled, has one row for each window, in window order; the rows
      that run are those of its block and no others. If not, it has no row. */
  lemma {:induction false} RowsOfProcess(ws: seq<Window>, caps: seq<Cap>, ps: seq<Process>, n: nat, i: nat, k: nat)
    requires |caps| == |ws| && i < n <= |ps| && k < |ws|
    ensures var before, after := |BooksAt(ws, caps, ps, i).decisions|, |BooksAt(ws, caps, ps, i + 1).decisions|;
            match StartAt(ws, caps, ps, i)
            case None => after == before
            case Some(s) =>
              && after == before + |ws| <= |BooksAt(ws, caps, ps, n).decisions|
              && var row := BooksAt(ws, caps, ps, n).decisions[before + k];
              && row.processId == ps[i].id && row.processName == ps[i].name
              && row.from == ws[k].from && row.to == ws[k].to
              && row.intensity == ws[k].intensity
              && (row.action == Run <==> s <= k < s + Duration(ps[i]))
              && row.loadMw == (if row.action == Run then ps[i].loadMw else 0.0)
  {
    hide PerWindowBaseline, PerWindowSaved, WindowCarbon, RowsBaseline, RowsCarbon, LedgerAt, BestStart, NoteFor;
    if i < n - 1 {
      RowsOfProcess(ws, caps, ps, n - 1, i, k);
    } else {
      match StartAt(ws, caps, ps, i)
      case None =>
      case Some(s) => RowAt(ws, ps[i], s, |ws|, k);
    }
  }
}
