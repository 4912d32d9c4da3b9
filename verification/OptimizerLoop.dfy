/** Around the solver: aligning capacity to the grid windows and building a plan
    (ecogrid/optimizer/loop.py:125-211). */
module OptimizerLoop {
  import opened Common
  import opened Solver
  import opened SolverAccounting

  // ---- Capacity aligned to the windows --------------------------------------

  datatype PlantRow = PlantRow(from: int, flexibleMw: real)

  /** The largest flexible load the first `n` rows report for the window at `from`. */
  function PeakAt(rows: seq<PlantRow>, n: nat, from: int): real
    requires n <= |rows|
  {
    if n == 0 then 0.0
    else if rows[n - 1].from == from then MaxReal(PeakAt(rows, n - 1, from), rows[n - 1].flexibleMw)
    else PeakAt(rows, n - 1, from)
  }

  /** The largest flexible load the first `n` rows report at all. */
  function Peak(rows: seq<PlantRow>, n: nat): real
    requires n <= |rows|
  {
    if n == 0 then 0.0 else MaxReal(Peak(rows, n - 1), rows[n - 1].flexibleMw)
  }

  predicate Reported(rows: seq<PlantRow>, n: nat, from: int)
    requires n <= |rows|
  {
    n > 0 && (rows[n - 1].from == from || Reported(rows, n - 1, from))
  }

  function CapacityFor(rows: seq<PlantRow>, from: int): Cap {
    Finite(if Reported(rows, |rows|, from) then PeakAt(rows, |rows|, from) else Peak(rows, |rows|))
  }

  lemma {:induction false} PeakAtWithinPeak(rows: seq<PlantRow>, n: nat, from: int)
    requires n <= |rows|
    ensures 0.0 <= PeakAt(rows, n, from) <= Peak(rows, n)
  {
    if n > 0 {
      PeakAtWithinPeak(rows, n - 1, from);
    }
  }

  /** The overall peak is reached by some window, unless nothing is positive. */
  lemma {:induction false} PeakIsReached(rows: seq<PlantRow>, n: nat) returns (from: int)
    requires 0 < n <= |rows|
    ensures Reported(rows, n, from) && PeakAt(rows, n, from) == Peak(rows, n)
  {
    PeakAtWithinPeak(rows, n - 1, rows[n - 1].from);
    if rows[n - 1].flexibleMw >= Peak(rows, n - 1) || n == 1 {
      from := rows[n - 1].from;
    } else {
      from := PeakIsReached(rows, n - 1);
    }
  }

  /** Some row is for the window that starts at `from`. */
  predicate HasRow(rows: seq<PlantRow>, from: int) {
    exists j | 0 <= j < |rows| :: rows[j].from == from
  }

  /** `c` is the greatest report for the window at `from`, or, if no row is for that window, the greatest
      of all; it is never negative. */
  predicate GreatestReport(rows: seq<PlantRow>, from: int, c: real) {
    && c >= 0.0
    && (forall j | 0 <= j < |rows| :: (HasRow(rows, from) ==> rows[j].from == from) ==> rows[j].flexibleMw <= c)
    && (c == 0.0 || exists j | 0 <= j < |rows| ::
          rows[j].flexibleMw == c && (HasRow(rows, from) ==> rows[j].from == from))
  }

  lemma {:induction false} ReportedExactlyWhen(rows: seq<PlantRow>, n: nat, from: int)
    requires n <= |rows|
    ensures Reported(rows, n, from) <==> exists j | 0 <= j < n :: rows[j].from == from
  {
    if n > 0 {
      ReportedExactlyWhen(rows, n - 1, from);
    }
  }

  lemma {:induction false} PeakAtMeans(rows: seq<PlantRow>, n: nat, from: int)
    requires n <= |rows|
    ensures forall j | 0 <= j < n && rows[j].from == from :: rows[j].flexibleMw <= PeakAt(rows, n, from)
    ensures PeakAt(rows, n, from) > 0.0 ==>
              exists j | 0 <= j < n :: rows[j].from == from && rows[j].flexibleMw == PeakAt(rows, n, from)
  {
    if n > 0 {
      PeakAtMeans(rows, n - 1, from);
    }
  }

  lemma {:induction false} CapacityMeans(rows: seq<PlantRow>, from: int)
    ensures CapacityFor(rows, from).Finite? && GreatestReport(rows, from, CapacityFor(rows, from).mw)
  {
    hide PeakAt, Peak, Reported;
    ReportedExactlyWhen(rows, |rows|, from);
    PeakAtMeans(rows, |rows|, from);
    PeakAtWithinPeak(rows, |rows|, from);
    PeakBoundsRows(rows, |rows|);
    if Peak(rows, |rows|) > 0.0 {
      var j := PeakRow(rows, |rows|);
    }
  }

  /** Two loops over a dictionary of windows and one comprehension. The result always has one entry per
      grid window, which is what `Solve` demands of it: the greatest report for that window, or the
      greatest of all for a window that no row is for. */
  method LoadCapacity(ws: seq<Window>, rows: seq<PlantRow>) returns (r: Option<seq<Cap>>)
    ensures r.None? <==> ws == [] || rows == []
    ensures r.Some? ==>
              forall i | 0 <= i < |ws| && i < |r.value| ::
                r.value[i].Finite? && GreatestReport(rows, ws[i].from, r.value[i].mw)
    ensures r.Some? ==> |r.value| == |ws| && forall i | 0 <= i < |ws| :: r.value[i] == CapacityFor(rows, ws[i].from)
  {
    if ws == [] || rows == [] {
      return None;
    }
    var perWindow: map<int, real> := map[];
    for n := 0 to |rows|
      invariant forall from :: from in perWindow <==> Reported(rows, n, from)
      invariant forall from | from in perWindow :: perWindow[from] == PeakAt(rows, n, from)
      invariant forall from | from !in perWindow :: PeakAt(rows, n, from) == 0.0
    {
      var row := rows[n];
      var known := if row.from in perWindow then perWindow[row.from] else 0.0;
      perWindow := perWindow[row.from := MaxReal(known, row.flexibleMw)];
    }
    var fallback := Fallback(rows, perWindow);
    var capacity: seq<Cap> := [];
    for i := 0 to |ws|
      invariant |capacity| == i && forall j | 0 <= j < i :: capacity[j] == CapacityFor(rows, ws[j].from)
    {
      var from := ws[i].from;
      capacity := capacity + [Finite(if from in perWindow then perWindow[from] else fallback)];
    }
    forall i | 0 <= i < |ws| ensures capacity[i].Finite? && GreatestReport(rows, ws[i].from, capacity[i].mw) {
      CapacityMeans(rows, ws[i].from);
    }
    r := Some(capacity);
  }

  /** The largest value of the dictionary. */
  method Fallback(ghost rows: seq<PlantRow>, perWindow: map<int, real>) returns (fallback: real)
    requires rows != []
    requires forall from :: from in perWindow <==> Reported(rows, |rows|, from)
    requires forall from | from in perWindow :: perWindow[from] == PeakAt(rows, |rows|, from)
    ensures fallback == Peak(rows, |rows|)
  {
    ghost var top := PeakIsReached(rows, |rows|);
    assert top in perWindow;
    var keys: set<int> := perWindow.Keys;
    var first: int :| first in keys;
    fallback := perWindow[first];
    keys := keys - {first};
    while exists k :: k in keys
      invariant keys <= perWindow.Keys
      invariant exists from :: from in perWindow && fallback == perWindow[from]
      invariant forall from | from in perWindow && from !in keys :: perWindow[from] <= fallback
      decreases |keys|
    {
      var next: int :| next in keys;
      keys, fallback := keys - {next}, MaxReal(fallback, perWindow[next]);
    }
    forall from | from in perWindow ensures perWindow[from] <= Peak(rows, |rows|) {
      PeakAtWithinPeak(rows, |rows|, from);
    }
  }

  /** The start of the newest of the first `n` rows. */
  function NewestStart(rows: seq<PlantRow>, n: nat): int
    requires 0 < n <= |rows|
  {
    if n == 1 then rows[0].from else Max(NewestStart(rows, n - 1), rows[n - 1].from)
  }

  lemma {:induction false} NewestIsNewest(rows: seq<PlantRow>, n: nat)
    requires 0 < n <= |rows|
    ensures Reported(rows, n, NewestStart(rows, n)) && forall j | 0 <= j < n :: rows[j].from <= NewestStart(rows, n)
  {
    if n > 1 {
      NewestIsNewest(rows, n - 1);
    }
  }

  /** The fallback is the highest known capacity. It is that of the newest window reported, as the
      source's comment has it, exactly when no row reports more than that window. */
  lemma {:induction false} FallbackIsMostRecentExactlyWhen(rows: seq<PlantRow>)
    requires rows != []
    ensures var newest := NewestStart(rows, |rows|);
            && Reported(rows, |rows|, newest) && (forall j | 0 <= j < |rows| :: rows[j].from <= newest)
            && (Peak(rows, |rows|) == PeakAt(rows, |rows|, newest)
                <==> forall j | 0 <= j < |rows| :: rows[j].flexibleMw <= PeakAt(rows, |rows|, newest))
  {
    NewestIsNewest(rows, |rows|);
    PeakIsAtExactlyWhen(rows, NewestStart(rows, |rows|));
  }

  lemma {:induction false} PeakIsAtExactlyWhen(rows: seq<PlantRow>, from: int)
    ensures Peak(rows, |rows|) == PeakAt(rows, |rows|, from)
        <==> forall j | 0 <= j < |rows| :: rows[j].flexibleMw <= PeakAt(rows, |rows|, from)
  {
    PeakBoundsRows(rows, |rows|);
    PeakAtWithinPeak(rows, |rows|, from);
    if Peak(rows, |rows|) > PeakAt(rows, |rows|, from) {
      var j := PeakRow(rows, |rows|);
    }
  }

  lemma {:induction false} PeakBoundsRows(rows: seq<PlantRow>, n: nat)
    requires n <= |rows|
    ensures forall j | 0 <= j < n :: rows[j].flexibleMw <= Peak(rows, n)
  {
    if n > 0 {
      PeakBoundsRows(rows, n - 1);
    }
  }

  lemma {:induction false} PeakRow(rows: seq<PlantRow>, n: nat) returns (j: nat)
    requires n <= |rows| && Peak(rows, n) > 0.0
    ensures j < n && rows[j].flexibleMw == Peak(rows, n)
  {
    if Peak(rows, n) == rows[n - 1].flexibleMw {
      j := n - 1;
    } else {
      j := PeakRow(rows, n - 1);
    }
  }

  /** A plan is always built: the capacity never trips the solver's length check. With fewer
      than two windows nothing is scheduled and every process is reported. */
  method BuildPlan(ws: seq<Window>, ps: seq<Process>, rows: seq<PlantRow>, remote: Option<Plan>, runId: string)
    returns (plan: Plan)
    ensures |ws| < 2 ==>
              && plan == Plan(runId, "none", |ws|, [], 0.0, 0.0, 0.0, plan.unscheduled, [InsufficientTelemetry])
              && |plan.unscheduled| == |ps| && forall i | 0 <= i < |ps| :: plan.unscheduled[i] == ps[i].id
    ensures |ws| >= 2 && remote.Some? ==> plan == remote.value
    ensures |ws| >= 2 && remote.None? ==>
              var capacity := seq(|ws|, i requires 0 <= i < |ws| => CapacityFor(rows, ws[i].from));
              SolveSpec(ws, ps, if rows == [] then None else Some(capacity), runId, LOCAL_SOLVER) == Ok(plan)
  {
    hide BooksAt, HeaviestFirst, CapacityFor;
    if |ws| < 2 {
      var ids: seq<string> := [];
      for i := 0 to |ps|
        invariant |ids| == i && forall j | 0 <= j < i :: ids[j] == ps[j].id
      {
        ids := ids + [ps[i].id];
      }
      return Plan(runId, "none", |ws|, [], 0.0, 0.0, 0.0, ids, [InsufficientTelemetry]);
    }
    var capacity := LoadCapacity(ws, rows);
    if remote.Some? {
      return remote.value;
    }
    ghost var expected := seq(|ws|, i requires 0 <= i < |ws| => CapacityFor(rows, ws[i].from));
    assert capacity.Some? ==> capacity.value == expected;
    var solved := Solve(ws, ps, capacity, runId, LOCAL_SOLVER);
    plan := solved.value;
  }
}
