/** The greedy carbon-arbitrage scheduler of ecogrid/optimizer/solver.py.

    `Solve` is the nested-loop algorithm over a mutable capacity ledger. It is proved
    equal to `SolveSpec`, whose heart is `StartAt`: the starts chosen one process at a
    time. The theorems about that schedule are in the modules that import this one. */
module Solver {
  import opened Common

  const LOCAL_SOLVER := "local-greedy-v1"

  /** Slack in the free-capacity test. */
  const TOLERANCE: real := 0.000000001

  const MICROS_PER_HOUR: real := 3600000000.0

  /** Flexible load a window can still take; `Unlimited` is the infinite ceiling. */
  datatype Cap = Unlimited | Finite(mw: real)

  /** Instants are microseconds, the resolution of the source's timestamps. */
  datatype Window = Window(from: int, to: int, intensity: real)

  datatype Process = Process(id: string, name: string, loadMw: real, durationWindows: int, earliestStart: int)

  datatype Action = Run | Idle

  datatype Reason = LowestBlock(start: nat) | CleanerElsewhere

  datatype Decision = Decision(
    processId: string, processName: string, from: int, to: int, action: Action, loadMw: real,
    intensity: real, carbonKg: real, baselineKg: real, savedKg: real, reason: Reason)

  datatype Note =
    | DurationExceedsHorizon(id: string, duration: nat, horizon: nat)
    | NoRoomAfterEarliest(id: string, earliest: nat, duration: nat, horizon: nat)
    | NoFreeBlock(id: string, loadMw: real, duration: nat)
    | InsufficientTelemetry

  datatype Plan = Plan(
    runId: string, solver: string, horizon: nat, decisions: seq<Decision>, baselineKg: real,
    optimizedKg: real, savedKg: real, unscheduled: seq<string>, notes: seq<Note>)

  datatype SolveError = CapacityMisaligned(entries: nat, horizon: nat)

  // ---- One process ----------------------------------------------------------

  function Duration(p: Process): nat {
    Max(1, p.durationWindows)
  }

  function StartLo(p: Process): nat {
    Max(0, p.earliestStart)
  }

  predicate Legal(horizon: nat, p: Process, s: nat) {
    StartLo(p) <= s && s + Duration(p) <= horizon
  }

  predicate Free(cap: Cap, loadMw: real) {
    cap.Unlimited? || !(cap.mw < loadMw - TOLERANCE)
  }

  predicate Fits(rem: seq<Cap>, p: Process, s: nat)
    requires s + Duration(p) <= |rem|
  {
    forall k | s <= k < s + Duration(p) :: Free(rem[k], p.loadMw)
  }

  function Intensity(ws: seq<Window>, s: nat, d: nat): real
    requires s + d <= |ws|
  {
    if d == 0 then 0.0 else Intensity(ws, s, d - 1) + ws[s + d - 1].intensity
  }

  /** Start `a` is preferred to `b`: a cleaner block, or an equally clean earlier one. */
  predicate Preferred(ws: seq<Window>, p: Process, a: nat, b: nat)
    requires a + Duration(p) <= |ws| && b + Duration(p) <= |ws|
  {
    var d := Duration(p);
    Intensity(ws, a, d) < Intensity(ws, b, d) || (Intensity(ws, a, d) == Intensity(ws, b, d) && a < b)
  }

  /** The scan over legal starts below `n`: it returns a legal free start to which no
      other is preferred, or nothing when no legal block is free. */
  function BestBelow(ws: seq<Window>, rem: seq<Cap>, p: Process, n: nat): (best: Option<nat>)
    requires |rem| == |ws|
    requires n + Duration(p) <= |ws| + 1
    ensures best.Some? ==> Legal(|ws|, p, best.value) && best.value < n && Fits(rem, p, best.value)
    ensures best.Some? ==>
              forall t: nat | t < n && Legal(|ws|, p, t) && Fits(rem, p, t) :: !Preferred(ws, p, t, best.value)
    ensures best.None? ==> forall t: nat | t < n && Legal(|ws|, p, t) :: !Fits(rem, p, t)
  {
    if n <= StartLo(p) then None
    else
      var best := BestBelow(ws, rem, p, n - 1);
      var d := Duration(p);
      if !Fits(rem, p, n - 1) then best
      else if best.None? || Intensity(ws, n - 1, d) < Intensity(ws, best.value, d) then Some(n - 1)
      else best
  }

  function BestStart(ws: seq<Window>, rem: seq<Cap>, p: Process): (best: Option<nat>)
    requires |rem| == |ws|
    ensures best.Some? ==> Legal(|ws|, p, best.value) && Fits(rem, p, best.value)
    ensures best.Some? ==> forall t: nat | Legal(|ws|, p, t) && Fits(rem, p, t) :: !Preferred(ws, p, t, best.value)
    ensures best.None? ==> forall t: nat | Legal(|ws|, p, t) :: !Fits(rem, p, t)
  {
    if StartLo(p) + Duration(p) > |ws| then None else BestBelow(ws, rem, p, |ws| - Duration(p) + 1)
  }

  function Take(cap: Cap, loadMw: real): Cap {
    if cap.Unlimited? then Unlimited else Finite(cap.mw - loadMw)
  }

  function Occupy(rem: seq<Cap>, p: Process, s: nat): (rem': seq<Cap>)
    requires s + Duration(p) <= |rem|
    ensures |rem'| == |rem|
  {
    seq(|rem|, k requires 0 <= k < |rem| => if s <= k < s + Duration(p) then Take(rem[k], p.loadMw) else rem[k])
  }

  // ---- The schedule ---------------------------------------------------------

  /** The ledger before the turn of process `n`, when each process before it took the
      best start it was left. */
  ghost function LedgerAt(ws: seq<Window>, caps: seq<Cap>, ps: seq<Process>, n: nat): (rem: seq<Cap>)
    requires |caps| == |ws| && n <= |ps|
    ensures |rem| == |ws|
  {
    if n == 0 then caps
    else
      var before := LedgerAt(ws, caps, ps, n - 1);
      match BestStart(ws, before, ps[n - 1])
      case None => before
      case Some(s) => Occupy(before, ps[n - 1], s)
  }

  /** The start given to process `i`, if any. */
  ghost function StartAt(ws: seq<Window>, caps: seq<Cap>, ps: seq<Process>, i: nat): Option<nat>
    requires |caps| == |ws| && i < |ps|
  {
    BestStart(ws, LedgerAt(ws, caps, ps, i), ps[i])
  }

  // ---- Decisions and totals -------------------------------------------------

  function Hours(w: Window): real {
    MaxReal((w.to - w.from) as real / MICROS_PER_HOUR, 0.0)
  }

  function WindowCarbon(p: Process, w: Window): real {
    p.loadMw * Hours(w) * w.intensity
  }

  function BlockCarbon(ws: seq<Window>, p: Process, s: nat, d: nat): real
    requires s + d <= |ws|
  {
    if d == 0 then 0.0 else BlockCarbon(ws, p, s, d - 1) + WindowCarbon(p, ws[s + d - 1])
  }

  function PerWindowBaseline(ws: seq<Window>, p: Process): real
    requires StartLo(p) + Duration(p) <= |ws|
  {
    BlockCarbon(ws, p, StartLo(p), Duration(p)) / Duration(p) as real
  }

  function PerWindowSaved(ws: seq<Window>, p: Process, s: nat): real
    requires Legal(|ws|, p, s)
  {
    (BlockCarbon(ws, p, StartLo(p), Duration(p)) - BlockCarbon(ws, p, s, Duration(p))) / Duration(p) as real
  }

  function RowFor(ws: seq<Window>, p: Process, s: nat, k: nat): Decision
    requires Legal(|ws|, p, s) && k < |ws|
  {
    var w := ws[k];
    if s <= k < s + Duration(p) then
      Decision(p.id, p.name, w.from, w.to, Run, p.loadMw, w.intensity, WindowCarbon(p, w),
               PerWindowBaseline(ws, p), PerWindowSaved(ws, p, s), LowestBlock(s))
    else
      Decision(p.id, p.name, w.from, w.to, Idle, 0.0, w.intensity, 0.0, 0.0, 0.0, CleanerElsewhere)
  }

  /** The first `n` rows of a scheduled process. */
  function RowsUpTo(ws: seq<Window>, p: Process, s: nat, n: nat): (rows: seq<Decision>)
    requires Legal(|ws|, p, s) && n <= |ws|
    ensures |rows| == n
  {
    if n == 0 then [] else RowsUpTo(ws, p, s, n - 1) + [RowFor(ws, p, s, n - 1)]
  }

  lemma {:induction false} RowAt(ws: seq<Window>, p: Process, s: nat, n: nat, k: nat)
    requires Legal(|ws|, p, s) && k < n <= |ws|
    ensures RowsUpTo(ws, p, s, n)[k] == RowFor(ws, p, s, k)
  {
    if k < n - 1 {
      RowAt(ws, p, s, n - 1, k);
    }
  }

  function NoteFor(h: nat, p: Process): Note {
    var d := Duration(p);
    if d > h then DurationExceedsHorizon(p.id, d, h)
    else if StartLo(p) > h - d then NoRoomAfterEarliest(p.id, StartLo(p), d, h)
    else NoFreeBlock(p.id, p.loadMw, d)
  }

  /** What the rows of one scheduled process add to the two running totals. */
  function RowsBaseline(ws: seq<Window>, p: Process, s: nat, n: nat): real
    requires Legal(|ws|, p, s) && n <= |ws|
  {
    if n == 0 then 0.0 else RowsBaseline(ws, p, s, n - 1) + RowFor(ws, p, s, n - 1).baselineKg
  }

  function RowsCarbon(ws: seq<Window>, p: Process, s: nat, n: nat): real
    requires Legal(|ws|, p, s) && n <= |ws|
  {
    if n == 0 then 0.0 else RowsCarbon(ws, p, s, n - 1) + RowFor(ws, p, s, n - 1).carbonKg
  }

  /** What the solver accumulates: rows, their totals, and who was left out and why. */
  datatype Books = Books(decisions: seq<Decision>, baselineKg: real, optimizedKg: real, unscheduled: seq<string>,
                         notes: seq<Note>)

  function Enter(ws: seq<Window>, b: Books, p: Process, start: Option<nat>): Books
    requires start.Some? ==> Legal(|ws|, p, start.value)
  {
    match start
    case None =>
      b.(unscheduled := b.unscheduled + [p.id], notes := b.notes + [NoteFor(|ws|, p)])
    case Some(s) =>
      b.(decisions := b.decisions + RowsUpTo(ws, p, s, |ws|),
         baselineKg := b.baselineKg + RowsBaseline(ws, p, s, |ws|),
         optimizedKg := b.optimizedKg + RowsCarbon(ws, p, s, |ws|))
  }

  ghost function BooksAt(ws: seq<Window>, caps: seq<Cap>, ps: seq<Process>, n: nat): Books
    requires |caps| == |ws| && n <= |ps|
  {
    if n == 0 then Books([], 0.0, 0.0, [], [])
    else Enter(ws, BooksAt(ws, caps, ps, n - 1), ps[n - 1], StartAt(ws, caps, ps, n - 1))
  }

  function PlanFrom(ws: seq<Window>, b: Books, runId: string, solver: string): Plan {
    Plan(runId, solver, |ws|, b.decisions, b.baselineKg, b.optimizedKg, b.baselineKg - b.optimizedKg,
         b.unscheduled, b.notes)
  }

  // ---- Heaviest first -------------------------------------------------------

  /** Code-point order on identifiers, from position `i` on. */
  predicate TextBefore(a: string, b: string, i: nat := 0)
    requires i <= |a| && i <= |b|
    decreases |a| - i
  {
    if i == |b| then false
    else if i == |a| then true
    else a[i] < b[i] || (a[i] == b[i] && TextBefore(a, b, i + 1))
  }

  predicate GoesBefore(a: Process, b: Process) {
    a.loadMw > b.loadMw || (a.loadMw == b.loadMw && TextBefore(a.id, b.id))
  }

  /** How many of the first `n` sorted processes stay in front of `p`. */
  function Slot(sorted: seq<Process>, p: Process, n: nat): (k: nat)
    requires n <= |sorted|
    ensures k <= n
    ensures k > 0 ==> !GoesBefore(p, sorted[k - 1])
    ensures forall j | k <= j < n :: GoesBefore(p, sorted[j])
  {
    if n == 0 || !GoesBefore(p, sorted[n - 1]) then n else Slot(sorted, p, n - 1)
  }

  /** The first `n` processes by decreasing load, then identifier: a stable insertion sort. */
  function SortedUpTo(ps: seq<Process>, n: nat): (sorted: seq<Process>)
    requires n <= |ps|
    ensures |sorted| == n
  {
    if n == 0 then []
    else
      var before := SortedUpTo(ps, n - 1);
      var k := Slot(before, ps[n - 1], n - 1);
      InsertAt(before, k, ps[n - 1])
  }

  function HeaviestFirst(ps: seq<Process>): (sorted: seq<Process>)
    ensures |sorted| == |ps|
  {
    SortedUpTo(ps, |ps|)
  }

  // ---- The solver -----------------------------------------------------------

  function Ceiling(ws: seq<Window>, capacity: Option<seq<Cap>>): (caps: seq<Cap>)
    requires capacity.Some? ==> |capacity.value| == |ws|
    ensures |caps| == |ws|
  {
    if capacity.Some? then capacity.value else seq(|ws|, _ => Unlimited)
  }

  ghost function SolveSpec(ws: seq<Window>, ps: seq<Process>, capacity: Option<seq<Cap>>, runId: string, solver: string)
    : Result<Plan, SolveError>
  {
    if capacity.Some? && |capacity.value| != |ws| then Err(CapacityMisaligned(|capacity.value|, |ws|))
    else Ok(PlanFrom(ws, BooksAt(ws, Ceiling(ws, capacity), HeaviestFirst(ps), |ps|), runId, solver))
  }

  /** The scan for the cheapest free block (ecogrid/optimizer/solver.py:173-180). */
  method FindBest(ws: seq<Window>, remaining: array<Cap>, p: Process) returns (best: Option<nat>)
    requires remaining.Length == |ws|
    requires StartLo(p) + Duration(p) <= |ws|
    ensures best == BestStart(ws, remaining[..], p)
  {
    var d := Duration(p);
    var bestTotal := 0.0;
    best := None;
    var start := StartLo(p);
    while start + d <= |ws|
      invariant StartLo(p) <= start && start + d <= |ws| + 1
      invariant best == BestBelow(ws, remaining[..], p, start)
      invariant best.Some? ==> bestTotal == Intensity(ws, best.value, d)
    {
      if Fits(remaining[..], p, start) {
        var total := Intensity(ws, start, d);
        if best.None? || total < bestTotal {
          best, bestTotal := Some(start), total;
        }
      }
      start := start + 1;
    }
  }

  /** Taking the chosen block out of the ledger, in place (ecogrid/optimizer/solver.py:193-194). */
  method Reserve(remaining: array<Cap>, p: Process, s: nat)
    requires s + Duration(p) <= remaining.Length
    modifies remaining
    ensures remaining[..] == Occupy(old(remaining[..]), p, s)
  {
    var k := 0;
    while k < Duration(p)
      invariant 0 <= k <= Duration(p)
      invariant forall j | 0 <= j < remaining.Length ::
          remaining[j] == if s <= j < s + k then Take(old(remaining[j]), p.loadMw) else old(remaining[j])
    {
      remaining[s + k] := Take(remaining[s + k], p.loadMw);
      k := k + 1;
    }
  }

  /** One decision row per window, with the totals kept as the rows are written
      (ecogrid/optimizer/solver.py:215-253). */
  method WriteRows(ws: seq<Window>, p: Process, s: nat, b: Books) returns (b': Books)
    requires Legal(|ws|, p, s)
    ensures b' == Enter(ws, b, p, Some(s))
  {
    b' := b;
    var perWindowBaseline, perWindowSaved := PerWindowBaseline(ws, p), PerWindowSaved(ws, p, s);
    for k := 0 to |ws|
      invariant b'.decisions == b.decisions + RowsUpTo(ws, p, s, k)
      invariant b'.baselineKg == b.baselineKg + RowsBaseline(ws, p, s, k)
      invariant b'.optimizedKg == b.optimizedKg + RowsCarbon(ws, p, s, k)
      invariant b'.unscheduled == b.unscheduled && b'.notes == b.notes
    {
      var w := ws[k];
      if s <= k < s + Duration(p) {
        var carbon := WindowCarbon(p, w);
        var row := Decision(p.id, p.name, w.from, w.to, Run, p.loadMw, w.intensity, carbon,
                            perWindowBaseline, perWindowSaved, LowestBlock(s));
        b' := b'.(decisions := b'.decisions + [row],
                  optimizedKg := b'.optimizedKg + carbon,
                  baselineKg := b'.baselineKg + perWindowBaseline);
      } else {
        var row := Decision(p.id, p.name, w.from, w.to, Idle, 0.0, w.intensity, 0.0, 0.0, 0.0, CleanerElsewhere);
        b' := b'.(decisions := b'.decisions + [row]);
      }
    }
  }

  /** The body of the loop over processes: one turn of the schedule. */
  method TakeTurn(ws: seq<Window>, p: Process, remaining: array<Cap>, b: Books)
    returns (ghost start: Option<nat>, b': Books)
    requires remaining.Length == |ws|
    modifies remaining
    ensures start == BestStart(ws, old(remaining[..]), p)
    ensures remaining[..] == if start.None? then old(remaining[..]) else Occupy(old(remaining[..]), p, start.value)
    ensures b' == Enter(ws, b, p, start)
  {
    var horizon, duration, lo := |ws|, Duration(p), StartLo(p);
    start := None;
    if duration > horizon {
      b' := b.(unscheduled := b.unscheduled + [p.id],
               notes := b.notes + [DurationExceedsHorizon(p.id, duration, horizon)]);
    } else if lo > horizon - duration {
      b' := b.(unscheduled := b.unscheduled + [p.id],
               notes := b.notes + [NoRoomAfterEarliest(p.id, lo, duration, horizon)]);
    } else {
      var best := FindBest(ws, remaining, p);
      start := best;
      if best.None? {
        b' := b.(unscheduled := b.unscheduled + [p.id], notes := b.notes + [NoFreeBlock(p.id, p.loadMw, duration)]);
      } else {
        Reserve(remaining, p, best.value);
        b' := WriteRows(ws, p, best.value, b);
      }
    }
  }

  /** The loop over the ordered processes (ecogrid/optimizer/solver.py:139-253). */
  method PlaceAll(ws: seq<Window>, caps: seq<Cap>, ordered: seq<Process>) returns (b: Books)
    requires |caps| == |ws|
    ensures b == BooksAt(ws, caps, ordered, |ordered|)
  {
    var remaining := new Cap[|caps|](k requires 0 <= k < |caps| => caps[k]);
    b := Books([], 0.0, 0.0, [], []);
    assert remaining[..] == caps;
    for i := 0 to |ordered|
      invariant remaining[..] == LedgerAt(ws, caps, ordered, i)
      invariant b == BooksAt(ws, caps, ordered, i)
    {
      assert remaining.Length == |remaining[..]|;
      ghost var start;
      start, b := TakeTurn(ws, ordered[i], remaining, b);
    }
  }

  method Solve(ws: seq<Window>, ps: seq<Process>, capacity: Option<seq<Cap>>, runId: string, solver: string)
    returns (r: Result<Plan, SolveError>)
    ensures r == SolveSpec(ws, ps, capacity, runId, solver)
    ensures r.Err? <==> capacity.Some? && |capacity.value| != |ws|
    ensures r.Err? ==> r.error.entries == |capacity.value| && r.error.horizon == |ws|
  {
    if capacity.Some? && |capacity.value| != |ws| {
      return Err(CapacityMisaligned(|capacity.value|, |ws|));
    }
    var b := PlaceAll(ws, Ceiling(ws, capacity), HeaviestFirst(ps));
    r := Ok(PlanFrom(ws, b, runId, solver));
  }
}
