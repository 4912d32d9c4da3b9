/** Optimality: with room for everything, the greedy plan cannot be beaten. */
module SolverOptimality {
  import opened Common
  import opened Solver
  import opened SolverCapacity
  import opened SolverStability
  import opened SolverAccounting
  import opened SolverSavings
  import opened SolverOrder

  /** The load of the first `n` processes of the portfolio. */
  function TotalLoad(ps: seq<Process>, n: nat): real
    requires n <= |ps|
  {
    if n == 0 then 0.0 else TotalLoad(ps, n - 1) + ps[n - 1].loadMw
  }

  /** Every window could take the whole portfolio at once. */
  ghost predicate Ample(caps: seq<Cap>, ps: seq<Process>) {
    forall w | 0 <= w < |caps| :: caps[w].Finite? ==> caps[w].mw >= TotalLoad(ps, |ps|)
  }

  lemma {:induction false} LoadWithinTotal(ws: seq<Window>, caps: seq<Cap>, ps: seq<Process>, n: nat, w: nat)
    requires |caps| == |ws| && n <= |ps| && NonNegativeLoads(ps)
    ensures Load(ws, caps, ps, n, w) <= TotalLoad(ps, n)
  {
    hide StartAt;
    if n > 0 {
      LoadWithinTotal(ws, caps, ps, n - 1, w);
    }
  }

  lemma {:induction false} TotalOnlyGrows(ps: seq<Process>, i: nat, n: nat)
    requires i <= n <= |ps| && NonNegativeLoads(ps)
    ensures TotalLoad(ps, i) <= TotalLoad(ps, n)
    decreases n
  {
    if i < n {
      TotalOnlyGrows(ps, i, n - 1);
    }
  }

  /** With ample capacity every legal block is free at every turn. */
  lemma {:induction false} EverythingFits(ws: seq<Window>, caps: seq<Cap>, ps: seq<Process>, i: nat, t: nat)
    requires |caps| == |ws| && i < |ps| && NonNegativeLoads(ps) && Ample(caps, ps) && Legal(|ws|, ps[i], t)
    ensures Fits(LedgerAt(ws, caps, ps, i), ps[i], t)
  {
    hide LedgerAt, Load;
    forall w: nat | t <= w < t + Duration(ps[i]) ensures Free(LedgerAt(ws, caps, ps, i)[w], ps[i].loadMw) {
      CapacityIsConserved(ws, caps, ps, i, w);
      LoadWithinTotal(ws, caps, ps, i, w);
      TotalOnlyGrows(ps, i + 1, |ps|);
    }
  }

  /** The scan gives the same answer on two ledgers that both have every legal block free. */
  lemma {:induction false} ScanIgnoresFreeLedger(ws: seq<Window>, a: seq<Cap>, b: seq<Cap>, p: Process, n: nat)
    requires |a| == |b| == |ws| && n + Duration(p) <= |ws| + 1
    requires forall t: nat | Legal(|ws|, p, t) :: Fits(a, p, t) && Fits(b, p, t)
    ensures BestBelow(ws, a, p, n) == BestBelow(ws, b, p, n)
  {
    if n > StartLo(p) {
      ScanIgnoresFreeLedger(ws, a, b, p, n - 1);
      assert Legal(|ws|, p, n - 1);
    }
  }

  lemma {:induction false} SameStarts(ws: seq<Window>, a: seq<Cap>, b: seq<Cap>, ps: seq<Process>, i: nat)
    requires |a| == |b| == |ws| && i < |ps| && NonNegativeLoads(ps) && Ample(a, ps) && Ample(b, ps)
    ensures StartAt(ws, a, ps, i) == StartAt(ws, b, ps, i)
  {
    hide LedgerAt, Fits;
    forall t: nat | Legal(|ws|, ps[i], t)
      ensures Fits(LedgerAt(ws, a, ps, i), ps[i], t) && Fits(LedgerAt(ws, b, ps, i), ps[i], t)
    {
      EverythingFits(ws, a, ps, i, t);
      EverythingFits(ws, b, ps, i, t);
    }
    if StartLo(ps[i]) + Duration(ps[i]) <= |ws| {
      ScanIgnoresFreeLedger(ws, LedgerAt(ws, a, ps, i), LedgerAt(ws, b, ps, i), ps[i], |ws| - Duration(ps[i]) + 1);
    }
  }

  lemma {:induction false} SameBooks(ws: seq<Window>, a: seq<Cap>, b: seq<Cap>, ps: seq<Process>, n: nat)
    requires |a| == |b| == |ws| && n <= |ps| && NonNegativeLoads(ps) && Ample(a, ps) && Ample(b, ps)
    ensures BooksAt(ws, a, ps, n) == BooksAt(ws, b, ps, n)
  {
    hide StartAt, Enter;
    if n > 0 {
      SameBooks(ws, a, b, ps, n - 1);
      SameStarts(ws, a, b, ps, n - 1);
    }
  }

  // ---- Sorting keeps the portfolio's load -----------------------------------

  lemma {:induction false} TotalOfPrefix(a: seq<Process>, b: seq<Process>, n: nat)
    requires n <= |a| && n <= |b| && a[..n] == b[..n]
    ensures TotalLoad(a, n) == TotalLoad(b, n)
  {
    if n > 0 {
      assert a[n - 1] == a[..n][n - 1] == b[n - 1];
      assert a[..n - 1] == a[..n][..n - 1] == b[..n - 1];
      TotalOfPrefix(a, b, n - 1);
    }
  }

  lemma {:induction false} TotalOfInsert(before: seq<Process>, after: seq<Process>, p: Process, k: nat, n: nat)
    requires k <= n <= |before| && after == InsertAt(before, k, p)
    ensures TotalLoad(after, n + 1) == TotalLoad(before, n) + p.loadMw
    decreases n
  {
    if n == k {
      TotalOfPrefix(after, before, k);
    } else {
      TotalOfInsert(before, after, p, k, n - 1);
      assert after[n] == before[n - 1];
    }
  }

  lemma {:induction false} TotalOfSorted(ps: seq<Process>, n: nat)
    requires n <= |ps|
    ensures TotalLoad(SortedUpTo(ps, n), n) == TotalLoad(ps, n)
  {
    hide GoesBefore, InsertAt;
    if n > 0 {
      TotalOfSorted(ps, n - 1);
      var before := SortedUpTo(ps, n - 1);
      TotalOfInsert(before, SortedUpTo(ps, n), ps[n - 1], Slot(before, ps[n - 1], n - 1), n - 1);
    }
  }

  lemma {:induction false} SortKeepsAmpleAndLoads(caps: seq<Cap>, ps: seq<Process>)
    requires NonNegativeLoads(ps) && Ample(caps, ps)
    ensures NonNegativeLoads(HeaviestFirst(ps)) && Ample(caps, HeaviestFirst(ps))
  {
    var sorted := HeaviestFirst(ps);
    TotalOfSorted(ps, |ps|);
    SortKeepsElements(ps, |ps|);
    assert ps[..|ps|] == ps;
    forall i | 0 <= i < |sorted| ensures sorted[i].loadMw >= 0.0 {
      assert sorted[i] in multiset(sorted);
      assert sorted[i] in ps;
    }
  }

  /** A ceiling of at least the whole portfolio's load is no ceiling at all. */
  lemma {:induction false} AmpleCeilingIsNoCeiling(ws: seq<Window>, ps: seq<Process>, caps: seq<Cap>,
          runId: string, solver: string)
    requires |caps| == |ws| && NonNegativeLoads(ps) && Ample(caps, ps)
    ensures SolveSpec(ws, ps, Some(caps), runId, solver) == SolveSpec(ws, ps, None, runId, solver)
  {
    hide BooksAt, HeaviestFirst;
    SortKeepsAmpleAndLoads(caps, ps);
    SameBooks(ws, caps, Ceiling(ws, None), HeaviestFirst(ps), |ps|);
  }

  // ---- No assignment does better --------------------------------------------

  /** An assignment gives every process that has a legal start one of them; it need not
      respect any ceiling. */
  ghost predicate Assignment(ws: seq<Window>, ps: seq<Process>, starts: seq<nat>) {
    |starts| == |ps| && forall i | 0 <= i < |ps| :: Allowed(ws, ps[i], starts[i])
  }

  predicate Allowed(ws: seq<Window>, p: Process, start: nat) {
    Schedulable(ws, p) ==> Legal(|ws|, p, start)
  }

  /** What a process emits from `start`, if it can be scheduled at all. */
  function CarbonFrom(ws: seq<Window>, p: Process, start: nat): real
    requires Allowed(ws, p, start)
  {
    if Schedulable(ws, p) then BlockCarbon(ws, p, start, Duration(p)) else 0.0
  }

  predicate Schedulable(ws: seq<Window>, p: Process) {
    StartLo(p) + Duration(p) <= |ws|
  }

  ghost function AssignedCarbon(ws: seq<Window>, ps: seq<Process>, starts: seq<nat>, n: nat): real
    requires Assignment(ws, ps, starts) && n <= |ps|
  {
    if n == 0 then 0.0 else AssignedCarbon(ws, ps, starts, n - 1) + CarbonFrom(ws, ps[n - 1], starts[n - 1])
  }

  lemma {:induction false} SchedulableIsScheduled(ws: seq<Window>, caps: seq<Cap>, ps: seq<Process>, i: nat)
    requires |caps| == |ws| && i < |ps| && NonNegativeLoads(ps) && Ample(caps, ps)
    ensures StartAt(ws, caps, ps, i).Some? <==> Schedulable(ws, ps[i])
  {
    hide LedgerAt, Fits;
    if Schedulable(ws, ps[i]) {
      assert Legal(|ws|, ps[i], StartLo(ps[i]));
      EverythingFits(ws, caps, ps, i, StartLo(ps[i]));
    }
  }

  lemma {:induction false} NoOtherStartIsBetter(ws: seq<Window>, caps: seq<Cap>, ps: seq<Process>, i: nat, t: nat,
          hours: real)
    requires |caps| == |ws| && i < |ps| && NonNegativeLoads(ps) && Ample(caps, ps)
    requires EqualLengths(ws, hours) && hours >= 0.0 && Legal(|ws|, ps[i], t)
    ensures StartAt(ws, caps, ps, i).Some?
    ensures BlockCarbon(ws, ps[i], StartAt(ws, caps, ps, i).value, Duration(ps[i]))
         <= BlockCarbon(ws, ps[i], t, Duration(ps[i]))
  {
    hide LedgerAt, Fits, BlockCarbon, Intensity;
    EverythingFits(ws, caps, ps, i, t);
    var s := StartAt(ws, caps, ps, i).value;
    assert !Preferred(ws, ps[i], t, s);
    CleanerIsNoWorse(ws, ps[i], s, t, hours);
  }

  lemma {:induction false} NoAssignmentIsBetter(ws: seq<Window>, caps: seq<Cap>, ps: seq<Process>,
          starts: seq<nat>, n: nat, hours: real)
    requires |caps| == |ws| && n <= |ps| && NonNegativeLoads(ps) && Ample(caps, ps)
    requires EqualLengths(ws, hours) && hours >= 0.0 && Assignment(ws, ps, starts)
    ensures ChosenCarbon(ws, caps, ps, n) <= AssignedCarbon(ws, ps, starts, n)
  {
    hide StartAt, BlockCarbon;
    if n > 0 {
      NoAssignmentIsBetter(ws, caps, ps, starts, n - 1, hours);
      SchedulableIsScheduled(ws, caps, ps, n - 1);
      if Schedulable(ws, ps[n - 1]) {
        NoOtherStartIsBetter(ws, caps, ps, n - 1, starts[n - 1], hours);
      }
    }
  }

  // ---- Assignments in the order of listing ----------------------------------

  /** The starts of the first `n` processes, moved along as the sort moves the processes. */
  function StartsUpTo(ps: seq<Process>, starts: seq<nat>, n: nat): (sorted: seq<nat>)
    requires n <= |ps| == |starts|
    ensures |sorted| == n
  {
    if n == 0 then []
    else
      var before := StartsUpTo(ps, starts, n - 1);
      var k := Slot(SortedUpTo(ps, n - 1), ps[n - 1], n - 1);
      InsertAt(before, k, starts[n - 1])
  }

  lemma {:induction false} CarbonOfPrefix(ws: seq<Window>, a: seq<Process>, x: seq<nat>, b: seq<Process>,
          y: seq<nat>, n: nat)
    requires Assignment(ws, a, x) && Assignment(ws, b, y) && n <= |a| && n <= |b|
    requires forall i | 0 <= i < n :: a[i] == b[i] && x[i] == y[i]
    ensures AssignedCarbon(ws, a, x, n) == AssignedCarbon(ws, b, y, n)
  {
    hide Allowed, CarbonFrom;
    if n > 0 {
      CarbonOfPrefix(ws, a, x, b, y, n - 1);
    }
  }

  lemma {:induction false} CarbonOfInsert(ws: seq<Window>, a: seq<Process>, x: seq<nat>, b: seq<Process>, y: seq<nat>,
          k: nat, n: nat)
    requires Assignment(ws, a, x) && Assignment(ws, b, y) && k <= n <= |a| && |b| == |a| + 1
    requires forall i | 0 <= i < k :: b[i] == a[i] && y[i] == x[i]
    requires forall i | k < i < |b| :: b[i] == a[i - 1] && y[i] == x[i - 1]
    ensures AssignedCarbon(ws, b, y, n + 1) == AssignedCarbon(ws, a, x, n) + CarbonFrom(ws, b[k], y[k])
    decreases n
  {
    hide Allowed, CarbonFrom;
    if n == k {
      CarbonOfPrefix(ws, a, x, b, y, k);
    } else {
      CarbonOfInsert(ws, a, x, b, y, k, n - 1);
    }
  }

  lemma {:induction false} InsertedIsAllowed(ws: seq<Window>, a: seq<Process>, x: seq<nat>, p: Process, start: nat,
          k: nat)
    requires Assignment(ws, a, x) && Allowed(ws, p, start) && k <= |a|
    ensures Assignment(ws, InsertAt(a, k, p), InsertAt(x, k, start))
  {
    hide Allowed, InsertAt;
  }

  /** Listed in the solver's order, an assignment emits the same. */
  lemma {:induction false} SortedAssignment(ws: seq<Window>, ps: seq<Process>, starts: seq<nat>, n: nat)
    requires Assignment(ws, ps, starts) && n <= |ps|
    ensures var sorted, moved := SortedUpTo(ps, n), StartsUpTo(ps, starts, n);
            Assignment(ws, sorted, moved) && AssignedCarbon(ws, sorted, moved, n) == AssignedCarbon(ws, ps, starts, n)
  {
    hide Allowed, CarbonFrom, GoesBefore, Slot, InsertAt;
    if n > 0 {
      SortedAssignment(ws, ps, starts, n - 1);
      var a, x := SortedUpTo(ps, n - 1), StartsUpTo(ps, starts, n - 1);
      var b, y := SortedUpTo(ps, n), StartsUpTo(ps, starts, n);
      var k := Slot(a, ps[n - 1], n - 1);
      InsertedIsAllowed(ws, a, x, ps[n - 1], starts[n - 1], k);
      CarbonOfInsert(ws, a, x, b, y, k, n - 1);
    }
  }

  /** With ample capacity, equal windows and non-negative loads, every process with a legal
      start is scheduled, and no assignment of legal starts to the portfolio emits less than the
      plan. */
  lemma {:induction false} PlanIsOptimal(ws: seq<Window>, ps: seq<Process>, caps: seq<Cap>, starts: seq<nat>,
                                         runId: string, solver: string, hours: real)
    requires |caps| == |ws| && NonNegativeLoads(ps) && Ample(caps, ps)
    requires EqualLengths(ws, hours) && hours >= 0.0 && Assignment(ws, ps, starts)
    ensures forall i | 0 <= i < |ps| ::
              StartAt(ws, caps, HeaviestFirst(ps), i).Some? <==> Schedulable(ws, HeaviestFirst(ps)[i])
    ensures var r := SolveSpec(ws, ps, Some(caps), runId, solver);
            r.Ok? && r.value.optimizedKg <= AssignedCarbon(ws, ps, starts, |ps|)
  {
    hide BooksAt, SortedUpTo, StartsUpTo, ChosenCarbon, EarliestCarbon, AssignedCarbon, StartAt, Allowed;
    var sorted, moved := HeaviestFirst(ps), StartsUpTo(ps, starts, |ps|);
    SortKeepsAmpleAndLoads(caps, ps);
    forall i | 0 <= i < |ps| ensures StartAt(ws, caps, sorted, i).Some? <==> Schedulable(ws, sorted[i]) {
      SchedulableIsScheduled(ws, caps, sorted, i);
    }
    SortedAssignment(ws, ps, starts, |ps|);
    NoAssignmentIsBetter(ws, caps, sorted, moved, |ps|, hours);
    PlanAddsUp(ws, ps, Some(caps), runId, solver);
  }
}
