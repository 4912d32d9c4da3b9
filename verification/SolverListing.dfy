/** Listing: which portfolios have one plan however they are listed. */
module SolverListing {
  import opened Common
  import opened Solver
  import opened SolverOrder
  import opened SolverAccounting

  /** The process with its settings as the solver reads them: at least one window, no start
      before the first one. */
  function Plain(p: Process): Process {
    p.(durationWindows := Duration(p), earliestStart := StartLo(p))
  }

  function Plainly(ps: seq<Process>): (plain: seq<Process>)
    ensures |plain| == |ps|
  {
    seq(|ps|, i requires 0 <= i < |ps| => Plain(ps[i]))
  }

  /** Processes that the sort key does not tell apart look alike to the solver. */
  ghost predicate TiesLookAlike(ps: seq<Process>) {
    forall p, q | p in ps && q in ps :: Tied(p, q) ==> Plain(p) == Plain(q)
  }

  // ---- The solver sees plain processes ------------------------------------------

  lemma {:induction false} PlainBlock(ws: seq<Window>, p: Process, s: nat, d: nat)
    requires s + d <= |ws|
    ensures BlockCarbon(ws, Plain(p), s, d) == BlockCarbon(ws, p, s, d)
  {
    if d > 0 {
      PlainBlock(ws, p, s, d - 1);
    }
  }

  lemma {:induction false} PlainBest(ws: seq<Window>, rem: seq<Cap>, p: Process, n: nat)
    requires |rem| == |ws| && n + Duration(p) <= |ws| + 1
    ensures BestBelow(ws, rem, Plain(p), n) == BestBelow(ws, rem, p, n)
  {
    hide Intensity, Free;
    if n > StartLo(p) {
      PlainBest(ws, rem, p, n - 1);
    }
  }

  lemma {:induction false} PlainStart(ws: seq<Window>, rem: seq<Cap>, p: Process)
    requires |rem| == |ws|
    ensures BestStart(ws, rem, Plain(p)) == BestStart(ws, rem, p)
  {
    hide BestBelow;
    if StartLo(p) + Duration(p) <= |ws| {
      PlainBest(ws, rem, p, |ws| - Duration(p) + 1);
    }
  }

  lemma {:induction false} PlainRow(ws: seq<Window>, p: Process, s: nat, k: nat)
    requires Legal(|ws|, p, s) && k < |ws|
    ensures RowFor(ws, Plain(p), s, k) == RowFor(ws, p, s, k)
  {
    hide BlockCarbon;
    PlainBlock(ws, p, s, Duration(p));
    PlainBlock(ws, p, StartLo(p), Duration(p));
  }

  lemma {:induction false} PlainRows(ws: seq<Window>, p: Process, s: nat, n: nat)
    requires Legal(|ws|, p, s) && n <= |ws|
    ensures RowsUpTo(ws, Plain(p), s, n) == RowsUpTo(ws, p, s, n)
    ensures RowsBaseline(ws, Plain(p), s, n) == RowsBaseline(ws, p, s, n)
    ensures RowsCarbon(ws, Plain(p), s, n) == RowsCarbon(ws, p, s, n)
  {
    hide RowFor;
    if n > 0 {
      PlainRows(ws, p, s, n - 1);
      PlainRow(ws, p, s, n - 1);
    }
  }

  lemma {:induction false} PlainEntry(ws: seq<Window>, b: Books, p: Process, start: Option<nat>)
    requires start.Some? ==> Legal(|ws|, p, start.value)
    ensures Enter(ws, b, Plain(p), start) == Enter(ws, b, p, start)
  {
    hide RowsUpTo, RowsBaseline, RowsCarbon;
    if start.Some? {
      PlainRows(ws, p, start.value, |ws|);
    }
  }

  lemma {:induction false} PlainBooks(ws: seq<Window>, caps: seq<Cap>, ps: seq<Process>, n: nat)
    requires |caps| == |ws| && n <= |ps|
    ensures LedgerAt(ws, caps, Plainly(ps), n) == LedgerAt(ws, caps, ps, n)
    ensures BooksAt(ws, caps, Plainly(ps), n) == BooksAt(ws, caps, ps, n)
  {
    hide BestStart, Enter;
    if n > 0 {
      PlainBooks(ws, caps, ps, n - 1);
      var before, p := LedgerAt(ws, caps, ps, n - 1), ps[n - 1];
      PlainStart(ws, before, p);
      PlainEntry(ws, BooksAt(ws, caps, ps, n - 1), p, BestStart(ws, before, p));
    }
  }

  lemma {:induction false} PlainSlot(sorted: seq<Process>, p: Process, n: nat)
    requires n <= |sorted|
    ensures Slot(Plainly(sorted), Plain(p), n) == Slot(sorted, p, n)
  {
    hide TextBefore;
    if n > 0 {
      PlainSlot(sorted, p, n - 1);
    }
  }

  lemma {:induction false} PlainInsert(a: seq<Process>, k: nat, p: Process)
    requires k <= |a|
    ensures Plainly(InsertAt(a, k, p)) == InsertAt(Plainly(a), k, Plain(p))
  {
    hide Plain;
  }

  lemma {:induction false} PlainAt(ps: seq<Process>, i: nat)
    requires i < |ps|
    ensures Plainly(ps)[i] == Plain(ps[i])
  {
  }

  lemma {:induction false} PlainNothing()
    ensures Plainly([]) == []
  {
  }

  lemma {:induction false} PlainSort(ps: seq<Process>, n: nat)
    requires n <= |ps|
    ensures SortedUpTo(Plainly(ps), n) == Plainly(SortedUpTo(ps, n))
  {
    hide Slot, InsertAt, Plainly, Plain;
    PlainNothing();
    if n > 0 {
      PlainSort(ps, n - 1);
      PlainAt(ps, n - 1);
      var before := SortedUpTo(ps, n - 1);
      PlainSlot(before, ps[n - 1], n - 1);
      PlainInsert(before, Slot(before, ps[n - 1], n - 1), ps[n - 1]);
    }
  }

  lemma {:induction false} PlainPlan(
      ws: seq<Window>, ps: seq<Process>, capacity: Option<seq<Cap>>, runId: string, solver: string)
    ensures SolveSpec(ws, Plainly(ps), capacity, runId, solver) == SolveSpec(ws, ps, capacity, runId, solver)
  {
    hide BooksAt, SortedUpTo, Plainly;
    PlainSort(ps, |ps|);
    if capacity.None? || |capacity.value| == |ws| {
      PlainBooks(ws, Ceiling(ws, capacity), HeaviestFirst(ps), |ps|);
    }
  }

  lemma {:induction false} Without(b: seq<Process>, j: nat)
    requires j < |b|
    ensures multiset(b[..j] + b[j + 1..]) == multiset(b) - multiset{b[j]}
    ensures multiset(Plainly(b[..j] + b[j + 1..])) == multiset(Plainly(b)) - multiset{Plain(b[j])}
  {
    hide Plain;
    assert b == b[..j] + [b[j]] + b[j + 1..];
    assert Plainly(b) == Plainly(b[..j]) + [Plain(b[j])] + Plainly(b[j + 1..]);
    assert Plainly(b[..j] + b[j + 1..]) == Plainly(b[..j]) + Plainly(b[j + 1..]);
  }

  lemma {:induction false} PutBack(a: multiset<Process>, b: multiset<Process>, p: Process)
    requires p in a && p in b && a - multiset{p} == b - multiset{p}
    ensures a == b
  {
    assert a == a - multiset{p} + multiset{p};
    assert b == b - multiset{p} + multiset{p};
  }

  lemma {:induction false} PlainlyPermuted(a: seq<Process>, b: seq<Process>)
    requires multiset(a) == multiset(b)
    ensures multiset(Plainly(a)) == multiset(Plainly(b))
    decreases |a|
  {
    hide Plain, Plainly;
    SameSize(a, b);
    if a != [] {
      var i := |a| - 1;
      assert a[i] in multiset(b);
      var j :| 0 <= j < |b| && b[j] == a[i];
      Without(a, i);
      Without(b, j);
      PlainlyPermuted(a[..i] + a[i + 1..], b[..j] + b[j + 1..]);
      PutBack(multiset(Plainly(a)), multiset(Plainly(b)), Plain(a[i]));
    } else {
      assert b == [];
    }
  }

  lemma {:induction false} PlainTies(ps: seq<Process>)
    requires TiesLookAlike(ps)
    ensures TiesAreEqual(Plainly(ps))
  {
    forall p, q | p in Plainly(ps) && q in Plainly(ps) && Tied(p, q) ensures p == q {
      var i :| 0 <= i < |ps| && p == Plain(ps[i]);
      var j :| 0 <= j < |ps| && q == Plain(ps[j]);
      assert Tied(ps[i], ps[j]);
    }
  }

  /** If tied processes look alike, every listing has the same plan. */
  lemma {:induction false} AlikeTiesPlanTheSame(
      ws: seq<Window>, ps: seq<Process>, qs: seq<Process>, capacity: Option<seq<Cap>>, runId: string, solver: string)
    requires multiset(qs) == multiset(ps) && TiesLookAlike(ps)
    ensures SolveSpec(ws, ps, capacity, runId, solver) == SolveSpec(ws, qs, capacity, runId, solver)
  {
    hide SolveSpec, Plainly, TiesLookAlike, TiesAreEqual;
    PlainPlan(ws, ps, capacity, runId, solver);
    PlainPlan(ws, qs, capacity, runId, solver);
    PlainlyPermuted(ps, qs);
    PlainTies(ps);
    PlanIgnoresListingOrder(ws, Plainly(ps), Plainly(qs), capacity, runId, solver);
  }

  // ---- A horizon in which the plan shows its processes --------------------------

  /** Windows that are all equally clean: every process then starts as early as it may. */
  function Flat(h: nat): (ws: seq<Window>)
    ensures |ws| == h
  {
    seq(h, k => Window(k, k + 1, 0.0))
  }

  /** Windows enough for any of the first `n` processes. */
  function Enough(ps: seq<Process>, n: nat): (h: nat)
    requires n <= |ps|
    ensures forall j | 0 <= j < n :: StartLo(ps[j]) + Duration(ps[j]) <= h
  {
    if n == 0 then 0 else Enough(ps, n - 1) + StartLo(ps[n - 1]) + Duration(ps[n - 1])
  }

  ghost predicate LongEnough(h: nat, ps: seq<Process>) {
    forall p | p in ps :: StartLo(p) + Duration(p) <= h
  }

  lemma {:induction false} FlatIntensity(h: nat, s: nat, d: nat)
    requires s + d <= h
    ensures Intensity(Flat(h), s, d) == 0.0
  {
    if d > 0 {
      FlatIntensity(h, s, d - 1);
    }
  }

  lemma {:induction false} NothingIsTaken(h: nat, ps: seq<Process>, n: nat)
    requires n <= |ps|
    ensures forall k | 0 <= k < h :: LedgerAt(Flat(h), Ceiling(Flat(h), None), ps, n)[k] == Unlimited
  {
    hide BestStart, Flat;
    if n > 0 {
      NothingIsTaken(h, ps, n - 1);
    }
  }

  lemma {:induction false} StartsAsEarlyAsItMay(h: nat, ps: seq<Process>, i: nat)
    requires i < |ps| && StartLo(ps[i]) + Duration(ps[i]) <= h
    ensures StartAt(Flat(h), Ceiling(Flat(h), None), ps, i) == Some(StartLo(ps[i]))
  {
    hide Intensity, BestBelow, LedgerAt, Flat;
    var p, rem := ps[i], LedgerAt(Flat(h), Ceiling(Flat(h), None), ps, i);
    NothingIsTaken(h, ps, i);
    assert Legal(h, p, StartLo(p)) && Fits(rem, p, StartLo(p));
    var best := BestStart(Flat(h), rem, p);
    FlatIntensity(h, StartLo(p), Duration(p));
    FlatIntensity(h, best.value, Duration(p));
    assert !Preferred(Flat(h), p, StartLo(p), best.value);
  }

  lemma {:induction false} SameNumberOfRows(h: nat, a: seq<Process>, b: seq<Process>, n: nat)
    requires n <= |a| && n <= |b| && LongEnough(h, a) && LongEnough(h, b)
    ensures |BooksAt(Flat(h), Ceiling(Flat(h), None), a, n).decisions|
         == |BooksAt(Flat(h), Ceiling(Flat(h), None), b, n).decisions|
  {
    hide StartAt, RowsUpTo, RowsBaseline, RowsCarbon, Flat, Ceiling;
    if n > 0 {
      SameNumberOfRows(h, a, b, n - 1);
      StartsAsEarlyAsItMay(h, a, n - 1);
      StartsAsEarlyAsItMay(h, b, n - 1);
    }
  }

  predicate InBlock(p: Process, k: nat) {
    StartLo(p) <= k < StartLo(p) + Duration(p)
  }

  /** What a plan's row in window `k` shows of its process is the same of both. */
  predicate SameRow(p: Process, q: Process, k: nat) {
    && p.id == q.id && p.name == q.name
    && (InBlock(p, k) <==> InBlock(q, k))
    && (InBlock(p, k) ==> p.loadMw == q.loadMw)
  }

  ghost predicate SameDecisions(h: nat, a: seq<Process>, b: seq<Process>) {
    BooksAt(Flat(h), Ceiling(Flat(h), None), a, |a|).decisions
    == BooksAt(Flat(h), Ceiling(Flat(h), None), b, |b|).decisions
  }

  lemma {:induction false} RowTells(h: nat, a: seq<Process>, b: seq<Process>, i: nat, k: nat)
    requires |a| == |b| && i < |a| && k < h && LongEnough(h, a) && LongEnough(h, b) && SameDecisions(h, a, b)
    ensures SameRow(a[i], b[i], k)
  {
    hide StartAt, BooksAt, Flat, Ceiling, Duration, StartLo;
    var ws, caps := Flat(h), Ceiling(Flat(h), None);
    SameNumberOfRows(h, a, b, i);
    StartsAsEarlyAsItMay(h, a, i);
    StartsAsEarlyAsItMay(h, b, i);
    RowsOfProcess(ws, caps, a, |a|, i, k);
    RowsOfProcess(ws, caps, b, |b|, i, k);
  }

  /** The rows of one process tell everything that the solver reads of it. */
  lemma {:induction false} RowsTell(h: nat, a: seq<Process>, b: seq<Process>, i: nat)
    requires |a| == |b| && i < |a| && LongEnough(h, a) && LongEnough(h, b) && SameDecisions(h, a, b)
    ensures Plain(a[i]) == Plain(b[i])
  {
    hide SameDecisions, SameRow, Duration, StartLo;
    forall k: nat | k < h ensures SameRow(a[i], b[i], k) {
      RowTells(h, a, b, i, k);
    }
    SameBlock(h, a[i], b[i]);
  }

  lemma {:induction false} SameBlock(h: nat, p: Process, q: Process)
    requires StartLo(p) + Duration(p) <= h && StartLo(q) + Duration(q) <= h
    requires forall k: nat | k < h :: SameRow(p, q, k)
    ensures Plain(p) == Plain(q)
  {
    assert SameRow(p, q, StartLo(p)) && SameRow(p, q, StartLo(q));
    assert SameRow(p, q, StartLo(p) + Duration(p) - 1) && SameRow(p, q, StartLo(q) + Duration(q) - 1);
  }

  lemma {:induction false} SortedIsLongEnough(ps: seq<Process>, qs: seq<Process>)
    requires multiset(qs) == multiset(ps)
    ensures LongEnough(Enough(ps, |ps|), HeaviestFirst(qs))
  {
    hide SortedUpTo, Enough;
    SortKeepsElements(qs, |qs|);
    assert qs[..|qs|] == qs;
    forall p | p in HeaviestFirst(qs) ensures StartLo(p) + Duration(p) <= Enough(ps, |ps|) {
      assert p in multiset(HeaviestFirst(qs)) && p in multiset(ps);
    }
  }

  /** The plan tells two listings apart that begin with tied processes of different looks. */
  lemma {:induction false} PlanShowsTheFirst(h: nat, a: seq<Process>, b: seq<Process>, runId: string, solver: string)
    requires multiset(a) == multiset(b) && a != [] && b != [] && Tied(a[0], b[0]) && Plain(a[0]) != Plain(b[0])
    requires LongEnough(h, HeaviestFirst(a)) && LongEnough(h, HeaviestFirst(b))
    ensures SolveSpec(Flat(h), a, None, runId, solver) != SolveSpec(Flat(h), b, None, runId, solver)
  {
    hide SortedUpTo, BooksAt, Flat, Plain;
    SameSize(a, b);
    var x, y := HeaviestFirst(a), HeaviestFirst(b);
    var i := SortKeepsFirst(a, |a|, a[0], 0);
    var j := SortKeepsFirst(b, |b|, a[0], 0);
    if SolveSpec(Flat(h), a, None, runId, solver) == SolveSpec(Flat(h), b, None, runId, solver) {
      forall k | 0 <= k < |x| ensures Plain(x[k]) == Plain(y[k]) {
        RowsTell(h, x, y, k);
      }
      AlikeKeepsFirst(x, y, a[0], i);
      FirstTiedIsUnique(y, |y|, a[0], i, j);
    }
  }

  lemma {:induction false} AlikeKeepsFirst(x: seq<Process>, y: seq<Process>, p: Process, i: nat)
    requires |x| == |y| && FirstTied(x, |x|, p, i) && forall k | 0 <= k < |x| :: Plain(x[k]) == Plain(y[k])
    ensures FirstTied(y, |y|, p, i)
  {
    forall k | 0 <= k < |x| ensures Tied(x[k], p) <==> Tied(y[k], p) {
      assert Plain(x[k]) == Plain(y[k]);
    }
  }

  lemma {:induction false} SomeListingPlansDifferently(ps: seq<Process>, i: nat, j: nat, runId: string, solver: string)
    returns (ws: seq<Window>, qs: seq<Process>)
    requires i < j < |ps| && Tied(ps[i], ps[j]) && Plain(ps[i]) != Plain(ps[j])
    ensures multiset(qs) == multiset(ps)
    ensures SolveSpec(ws, ps, None, runId, solver) != SolveSpec(ws, qs, None, runId, solver)
  {
    hide SolveSpec, HeaviestFirst, Plain, LongEnough;
    var rest := InFront(ps, i, j);
    var a, b := [ps[i], ps[j]] + rest, [ps[j], ps[i]] + rest;
    var h := Enough(ps, |ps|);
    ws := Flat(h);
    SortedIsLongEnough(ps, a);
    SortedIsLongEnough(ps, b);
    PlanShowsTheFirst(h, a, b, runId, solver);
    qs := if SolveSpec(ws, a, None, runId, solver) != SolveSpec(ws, ps, None, runId, solver) then a else b;
  }

  /** The same plan comes of every listing of a portfolio, whatever the windows and the ceiling, exactly
      when its processes that share both load and id also share name, duration and earliest start. */
  lemma {:induction false} PlanIgnoresListingExactlyWhen(ps: seq<Process>, runId: string, solver: string)
    ensures (forall ws, capacity, qs | multiset(qs) == multiset(ps) ::
                 SolveSpec(ws, qs, capacity, runId, solver) == SolveSpec(ws, ps, capacity, runId, solver))
       <==> TiesLookAlike(ps)
  {
    hide SolveSpec, Plain;
    if TiesLookAlike(ps) {
      forall ws, capacity, qs | multiset(qs) == multiset(ps)
        ensures SolveSpec(ws, qs, capacity, runId, solver) == SolveSpec(ws, ps, capacity, runId, solver)
      {
        AlikeTiesPlanTheSame(ws, ps, qs, capacity, runId, solver);
      }
    } else {
      var p, q :| p in ps && q in ps && Tied(p, q) && Plain(p) != Plain(q);
      var i :| 0 <= i < |ps| && ps[i] == p;
      var j :| 0 <= j < |ps| && ps[j] == q;
      var ws, qs := SomeListingPlansDifferently(ps, if i < j then i else j, if i < j then j else i, runId, solver);
    }
  }
}
