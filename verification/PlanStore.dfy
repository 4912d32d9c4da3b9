/** The two tables a plan is written to, and the upserts that write it
    (ecogrid/optimizer/loop.py:214-279). */
module PlanStore {
  import opened Common
  import opened Solver
  import opened SolverAccounting

  datatype RunRow = RunRow(
    solver: string, horizon: nat, baselineKg: real, optimizedKg: real, savedKg: real,
    processCount: nat, decisionCount: nat, unscheduled: seq<string>, notes: seq<Note>, createdAt: int)

  /** The unique constraint on decisions: run, process and window start. */
  datatype Key = Key(runId: string, processId: string, from: int)

  datatype DecisionRow = DecisionRow(
    processName: string, to: int, action: Action, loadMw: real, intensity: real, carbonKg: real,
    baselineKg: real, savedKg: real, reason: Reason, createdAt: int)

  datatype Tables = Tables(runs: map<string, RunRow>, decisions: map<Key, DecisionRow>)

  /** PostgreSQL refuses a multi-row upsert that names one key twice, and a value wider than its
      column, as a whole. */
  datatype StoreError = SameKeyTwiceOrTooWide

  /** Column widths (ecogrid/models.py:245-275), in characters. */
  const ID_WIDTH := 64
  const NAME_WIDTH := 128

  predicate RunFits(runId: string, solver: string) {
    |runId| <= ID_WIDTH && |solver| <= ID_WIDTH
  }

  predicate OwnerFits(processId: string, processName: string) {
    |processId| <= ID_WIDTH && |processName| <= NAME_WIDTH
  }

  function KeyOf(runId: string, d: Decision): Key {
    Key(runId, d.processId, d.from)
  }

  function RunAfter(runs: map<string, RunRow>, plan: Plan, processCount: nat, now: int): RunRow {
    var row := RunRow(plan.solver, plan.horizon, plan.baselineKg, plan.optimizedKg, plan.savedKg, processCount,
                        |plan.decisions|, plan.unscheduled, plan.notes, now);
    if plan.runId !in runs then row
    else
      var stored := runs[plan.runId];
      row.(horizon := stored.horizon, processCount := stored.processCount, createdAt := stored.createdAt)
  }

  function RowAfter(rows: map<Key, DecisionRow>, runId: string, d: Decision, now: int): DecisionRow {
    var row := DecisionRow(d.processName, d.to, d.action, d.loadMw, d.intensity, d.carbonKg, d.baselineKg,
                             d.savedKg, d.reason, now);
    var key := KeyOf(runId, d);
    if key !in rows then row
    else row.(processName := rows[key].processName, to := rows[key].to, createdAt := rows[key].createdAt)
  }

  /** The decision table after the first `n` rows of the statement. */
  function RowsAfter(rows: map<Key, DecisionRow>, runId: string, ds: seq<Decision>, n: nat, now: int): map<Key,
          DecisionRow>
    requires n <= |ds|
  {
    if n == 0 then rows
    else
      var before := RowsAfter(rows, runId, ds, n - 1, now);
      before[KeyOf(runId, ds[n - 1]) := RowAfter(before, runId, ds[n - 1], now)]
  }

  predicate SameKey(a: Decision, b: Decision) {
    a.processId == b.processId && a.from == b.from
  }

  predicate DistinctUpTo(ds: seq<Decision>, n: nat)
    requires n <= |ds|
  {
    forall i, j | 0 <= i < j < n :: !SameKey(ds[i], ds[j])
  }

  predicate DistinctKeys(ds: seq<Decision>) {
    DistinctUpTo(ds, |ds|)
  }

  predicate OwnersFitUpTo(ds: seq<Decision>, n: nat)
    requires n <= |ds|
  {
    forall j | 0 <= j < n :: OwnerFits(ds[j].processId, ds[j].processName)
  }

  predicate FitsColumns(plan: Plan) {
    RunFits(plan.runId, plan.solver) && OwnersFitUpTo(plan.decisions, |plan.decisions|)
  }

  function PersistSpec(t: Tables, plan: Plan, processCount: nat, now: int): Result<Tables, StoreError> {
    if !DistinctKeys(plan.decisions) || !FitsColumns(plan) then Err(SameKeyTwiceOrTooWide)
    else Ok(Tables(t.runs[plan.runId := RunAfter(t.runs, plan, processCount, now)],
                   RowsAfter(t.decisions, plan.runId, plan.decisions, |plan.decisions|, now)))
  }

  /** `keys` are those of the first `n` rows. */
  ghost predicate KeysOf(keys: set<Key>, runId: string, ds: seq<Decision>, n: nat)
    requires n <= |ds|
  {
    && (forall j | 0 <= j < n :: KeyOf(runId, ds[j]) in keys)
    && forall key | key in keys :: exists j | 0 <= j < n :: KeyOf(runId, ds[j]) == key
  }

  /** A row's key was named before, or is new. */
  lemma {:induction false} OneMoreKey(keys: set<Key>, runId: string, ds: seq<Decision>, n: nat)
    requires n < |ds| && KeysOf(keys, runId, ds, n) && DistinctUpTo(ds, n)
    ensures DistinctUpTo(ds, n + 1) <==> KeyOf(runId, ds[n]) !in keys
    ensures KeysOf(keys + {KeyOf(runId, ds[n])}, runId, ds, n + 1)
  {
    if KeyOf(runId, ds[n]) in keys {
      var j :| 0 <= j < n && KeyOf(runId, ds[j]) == KeyOf(runId, ds[n]);
      assert SameKey(ds[j], ds[n]);
    }
  }

  lemma {:induction false} NoKeysYet(runId: string, ds: seq<Decision>)
    ensures KeysOf({}, runId, ds, 0) && DistinctUpTo(ds, 0) && OwnersFitUpTo(ds, 0)
  {
  }

  lemma {:induction false} OneMoreOwner(ds: seq<Decision>, n: nat)
    requires n < |ds| && OwnersFitUpTo(ds, n)
    ensures OwnersFitUpTo(ds, n + 1) <==> OwnerFits(ds[n].processId, ds[n].processName)
  {
  }

  lemma {:induction false} PrefixesOf(ds: seq<Decision>, n: nat)
    requires n <= |ds|
    ensures DistinctKeys(ds) ==> DistinctUpTo(ds, n)
    ensures OwnersFitUpTo(ds, |ds|) ==> OwnersFitUpTo(ds, n)
  {
  }

  /** The database the plan is written to. */
  class Database {
    var runs: map<string, RunRow>
    var decisions: map<Key, DecisionRow>

    function Contents(): Tables
      reads this
    {
      Tables(runs, decisions)
    }

    /** One transaction: the run row, then every decision row. A refused statement rolls the
        whole transaction back. */
    method PersistPlan(plan: Plan, processCount: nat, now: int) returns (r: Result<(), StoreError>)
      modifies this
      ensures match PersistSpec(old(Contents()), plan, processCount, now)
              case Ok(t) => r == Ok(()) && Contents() == t
              case Err(e) => r == Err(e) && Contents() == old(Contents())
    {
      hide RowAfter, RunAfter, RunFits, OwnerFits, KeyOf, KeysOf, DistinctUpTo, OwnersFitUpTo;
      if !RunFits(plan.runId, plan.solver) {
        return Err(SameKeyTwiceOrTooWide);
      }
      var runs' := runs[plan.runId := RunAfter(runs, plan, processCount, now)];
      var rows := decisions;
      var written: set<Key> := {};
      NoKeysYet(plan.runId, plan.decisions);
      for n := 0 to |plan.decisions|
        invariant rows == RowsAfter(decisions, plan.runId, plan.decisions, n, now)
        invariant decisions == old(decisions) && runs == old(runs)
        invariant KeysOf(written, plan.runId, plan.decisions, n)
        invariant DistinctUpTo(plan.decisions, n) && OwnersFitUpTo(plan.decisions, n)
      {
        var d := plan.decisions[n];
        OneMoreKey(written, plan.runId, plan.decisions, n);
        OneMoreOwner(plan.decisions, n);
        PrefixesOf(plan.decisions, n + 1);
        if !OwnerFits(d.processId, d.processName) {
          return Err(SameKeyTwiceOrTooWide);
        }
        var key := KeyOf(plan.runId, d);
        if key in written {
          return Err(SameKeyTwiceOrTooWide);
        }
        rows := rows[key := RowAfter(rows, plan.runId, d, now)];
        written := written + {key};
      }
      runs, decisions := runs', rows;
      r := Ok(());
    }
  }

  // ---- What a persisted plan leaves in the tables ---------------------------

  /** A stored row agrees with a decision on everything the upsert rewrites. */
  ghost predicate Holds(row: DecisionRow, d: Decision) {
    row == DecisionRow(row.processName, row.to, d.action, d.loadMw, d.intensity, d.carbonKg, d.baselineKg,
                       d.savedKg, d.reason, row.createdAt)
  }

  /** What the upsert does not rewrite is as it was stored, or, in a new row, as decided. */
  ghost predicate KeptOrNew(rows: map<Key, DecisionRow>, key: Key, row: DecisionRow, d: Decision, now: int) {
    if key in rows then
      && row.processName == rows[key].processName && row.to == rows[key].to && row.createdAt == rows[key].createdAt
    else
      row.processName == d.processName && row.to == d.to && row.createdAt == now
  }

  /** The same of the run's own row. */
  ghost predicate RunIsStored(t: Tables, row: RunRow, plan: Plan, processCount: nat, now: int) {
    && row.solver == plan.solver && row.decisionCount == |plan.decisions|
    && row.baselineKg == plan.baselineKg && row.optimizedKg == plan.optimizedKg && row.savedKg == plan.savedKg
    && row.unscheduled == plan.unscheduled && row.notes == plan.notes
    && if plan.runId in t.runs then
         var was := t.runs[plan.runId];
         row.horizon == was.horizon && row.processCount == was.processCount && row.createdAt == was.createdAt
       else
         row.horizon == plan.horizon && row.processCount == processCount && row.createdAt == now
  }

  lemma {:induction false} RowsHold(rows: map<Key, DecisionRow>, runId: string, ds: seq<Decision>, n: nat,
          now: int, j: nat)
    requires j < n <= |ds| && DistinctKeys(ds)
    ensures var key, after := KeyOf(runId, ds[j]), RowsAfter(rows, runId, ds, n, now);
            key in after && Holds(after[key], ds[j]) && KeptOrNew(rows, key, after[key], ds[j], now)
  {
    if j < n - 1 {
      RowsHold(rows, runId, ds, n - 1, now, j);
      assert !SameKey(ds[j], ds[n - 1]);
    } else {
      RowsElsewhere(rows, runId, ds, n - 1, now, KeyOf(runId, ds[j]));
    }
  }

  lemma {:induction false} RowsElsewhere(rows: map<Key, DecisionRow>, runId: string, ds: seq<Decision>, n: nat,
          now: int, key: Key)
    requires n <= |ds|
    requires forall j | 0 <= j < n :: KeyOf(runId, ds[j]) != key
    ensures var after := RowsAfter(rows, runId, ds, n, now);
            (key in after <==> key in rows) && (key in rows ==> after[key] == rows[key])
  {
    if n > 0 {
      RowsElsewhere(rows, runId, ds, n - 1, now, key);
    }
  }

  lemma {:induction false} RewritingChangesNothing(rows: map<Key, DecisionRow>, runId: string, ds: seq<Decision>,
          n: nat, now: int)
    requires n <= |ds|
    requires forall j | 0 <= j < |ds| :: KeyOf(runId, ds[j]) in rows && Holds(rows[KeyOf(runId, ds[j])], ds[j])
    ensures RowsAfter(rows, runId, ds, n, now) == rows
  {
    if n > 0 {
      RewritingChangesNothing(rows, runId, ds, n - 1, now);
      assert RowAfter(rows, runId, ds[n - 1], now) == rows[KeyOf(runId, ds[n - 1])];
    }
  }

  /** Persisting a plan again, at any later time and with any process count, is a no-op. */
  lemma {:induction false} PersistingTwiceIsPersistingOnce(t: Tables, plan: Plan, c1: nat, now1: int, c2: nat,
          now2: int)
    requires PersistSpec(t, plan, c1, now1).Ok?
    ensures var once := PersistSpec(t, plan, c1, now1).value;
            PersistSpec(once, plan, c2, now2) == Ok(once)
  {
    var once := PersistSpec(t, plan, c1, now1).value;
    forall j | 0 <= j < |plan.decisions|
      ensures KeyOf(plan.runId, plan.decisions[j]) in once.decisions
      ensures Holds(once.decisions[KeyOf(plan.runId, plan.decisions[j])], plan.decisions[j])
    {
      RowsHold(t.decisions, plan.runId, plan.decisions, |plan.decisions|, now1, j);
    }
    RewritingChangesNothing(once.decisions, plan.runId, plan.decisions, |plan.decisions|, now2);
    assert once.runs[plan.runId := RunAfter(once.runs, plan, c2, now2)] == once.runs;
  }

  /** A persisted plan is stored, column by column, and no row of any other run is touched. */
  lemma {:induction false} PersistingStoresThePlanOnly(t: Tables, plan: Plan, count: nat, now: int)
    requires PersistSpec(t, plan, count, now).Ok?
    ensures var t' := PersistSpec(t, plan, count, now).value;
            && (forall d | d in plan.decisions ::
                  var key := KeyOf(plan.runId, d);
                  && key in t'.decisions && Holds(t'.decisions[key], d)
                  && KeptOrNew(t.decisions, key, t'.decisions[key], d, now))
            && (forall key: Key | key in t'.decisions && key !in t.decisions ::
                  exists d :: d in plan.decisions && key == KeyOf(plan.runId, d))
            && (forall key: Key | key.runId != plan.runId ::
                  (key in t'.decisions <==> key in t.decisions)
                  && (key in t.decisions ==> t'.decisions[key] == t.decisions[key]))
            && (forall id: string | id != plan.runId ::
                  (id in t'.runs <==> id in t.runs) && (id in t.runs ==> t'.runs[id] == t.runs[id]))
            && plan.runId in t'.runs && RunIsStored(t, t'.runs[plan.runId], plan, count, now)
  {
    hide RowsAfter, Holds, KeptOrNew;
    var t' := PersistSpec(t, plan, count, now).value;
    var n := |plan.decisions|;
    forall d | d in plan.decisions
      ensures var key := KeyOf(plan.runId, d);
              && key in t'.decisions && Holds(t'.decisions[key], d)
              && KeptOrNew(t.decisions, key, t'.decisions[key], d, now)
    {
      var j :| 0 <= j < n && plan.decisions[j] == d;
      RowsHold(t.decisions, plan.runId, plan.decisions, n, now, j);
    }
    forall key: Key | key in t'.decisions && key !in t.decisions
      ensures exists d :: d in plan.decisions && key == KeyOf(plan.runId, d)
    {
      if forall j | 0 <= j < n :: KeyOf(plan.runId, plan.decisions[j]) != key {
        RowsElsewhere(t.decisions, plan.runId, plan.decisions, n, now, key);
      }
    }
    forall key: Key | key.runId != plan.runId
      ensures (key in t'.decisions <==> key in t.decisions)
              && (key in t.decisions ==> t'.decisions[key] == t.decisions[key])
    {
      RowsElsewhere(t.decisions, plan.runId, plan.decisions, n, now, key);
    }
  }

  // ---- Which solver plans can be persisted ----------------------------------

  /** Every row belongs to a scheduled process and a window. */
  lemma {:induction false} OwnerOfRow(ws: seq<Window>, caps: seq<Cap>, ps: seq<Process>, n: nat, r: nat)
    returns (i: nat, k: nat)
    requires |caps| == |ws| && n <= |ps| && r < |BooksAt(ws, caps, ps, n).decisions|
    ensures i < n && StartAt(ws, caps, ps, i).Some? && k < |ws|
    ensures |BooksAt(ws, caps, ps, i).decisions| + k == r
    ensures BooksAt(ws, caps, ps, n).decisions[r].processId == ps[i].id
    ensures BooksAt(ws, caps, ps, n).decisions[r].processName == ps[i].name
    ensures BooksAt(ws, caps, ps, n).decisions[r].from == ws[k].from
  {
    hide StartAt, RowsBaseline, RowsCarbon, NoteFor;
    var before := |BooksAt(ws, caps, ps, n - 1).decisions|;
    if r < before {
      i, k := OwnerOfRow(ws, caps, ps, n - 1, r);
    } else {
      i, k := n - 1, r - before;
    }
    RowsOfProcess(ws, caps, ps, n, i, k);
  }

  ghost predicate OneRowPerKey(ws: seq<Window>, caps: seq<Cap>, ps: seq<Process>)
    requires |caps| == |ws|
  {
    && (forall i, j | 0 <= i < j < |ps| && StartAt(ws, caps, ps, i).Some? && StartAt(ws, caps, ps, j).Some? ::
          ps[i].id != ps[j].id)
    && (forall i | 0 <= i < |ps| && StartAt(ws, caps, ps, i).Some? ::
          forall k, m | 0 <= k < m < |ws| :: ws[k].from != ws[m].from)
  }

  lemma {:induction false} DistinctWhenOneRowPerKey(ws: seq<Window>, caps: seq<Cap>, ps: seq<Process>)
    requires |caps| == |ws| && OneRowPerKey(ws, caps, ps)
    ensures DistinctKeys(BooksAt(ws, caps, ps, |ps|).decisions)
  {
    hide BooksAt, StartAt;
    var ds := BooksAt(ws, caps, ps, |ps|).decisions;
    forall a, b | 0 <= a < b < |ds| ensures !SameKey(ds[a], ds[b]) {
      var i, k := OwnerOfRow(ws, caps, ps, |ps|, a);
      var j, m := OwnerOfRow(ws, caps, ps, |ps|, b);
      if i == j {
        assert k != m;
      }
    }
  }

  lemma {:induction false} OneRowPerKeyWhenDistinct(ws: seq<Window>, caps: seq<Cap>, ps: seq<Process>)
    requires |caps| == |ws| && DistinctKeys(BooksAt(ws, caps, ps, |ps|).decisions)
    ensures OneRowPerKey(ws, caps, ps)
  {
    hide BooksAt, LedgerAt, BestStart;
    var ds := BooksAt(ws, caps, ps, |ps|).decisions;
    forall i, j | 0 <= i < j < |ps| && StartAt(ws, caps, ps, i).Some? && StartAt(ws, caps, ps, j).Some?
      ensures ps[i].id != ps[j].id
    {
      var a := RowOf(ws, caps, ps, i, 0);
      var b := RowOf(ws, caps, ps, j, 0);
      RowOfAscends(ws, caps, ps, i, j);
      assert !SameKey(ds[a], ds[b]);
    }
    forall i | 0 <= i < |ps| && StartAt(ws, caps, ps, i).Some?
      ensures forall k, m | 0 <= k < m < |ws| :: ws[k].from != ws[m].from
    {
      forall k, m | 0 <= k < m < |ws| ensures ws[k].from != ws[m].from {
        var a := RowOf(ws, caps, ps, i, k);
        var b := RowOf(ws, caps, ps, i, m);
        assert !SameKey(ds[a], ds[b]);
      }
    }
  }

  lemma {:induction false} RowOf(ws: seq<Window>, caps: seq<Cap>, ps: seq<Process>, i: nat, k: nat) returns (r: nat)
    requires |caps| == |ws| && i < |ps| && StartAt(ws, caps, ps, i).Some? && k < |ws|
    ensures r == |BooksAt(ws, caps, ps, i).decisions| + k
    ensures var ds := BooksAt(ws, caps, ps, |ps|).decisions;
            && r < |ds| && ds[r].processId == ps[i].id && ds[r].processName == ps[i].name
            && ds[r].from == ws[k].from
  {
    hide BooksAt, LedgerAt, BestStart;
    r := |BooksAt(ws, caps, ps, i).decisions| + k;
    RowsOfProcess(ws, caps, ps, |ps|, i, k);
  }

  lemma {:induction false} RowOfAscends(ws: seq<Window>, caps: seq<Cap>, ps: seq<Process>, i: nat, j: nat)
    requires |caps| == |ws| && i < j <= |ps| && StartAt(ws, caps, ps, i).Some?
    ensures |BooksAt(ws, caps, ps, i).decisions| < |BooksAt(ws, caps, ps, j).decisions|
  {
    hide LedgerAt, BestStart, RowsBaseline, RowsCarbon, NoteFor;
    if i < j - 1 {
      RowOfAscends(ws, caps, ps, i, j - 1);
    }
  }

  /** The ids and names of the scheduled processes fit their columns. */
  ghost predicate OwnersFit(ws: seq<Window>, caps: seq<Cap>, ps: seq<Process>)
    requires |caps| == |ws|
  {
    forall i | 0 <= i < |ps| && StartAt(ws, caps, ps, i).Some? :: |ps[i].id| <= 64 && |ps[i].name| <= 128
  }

  lemma {:induction false} RowsFitExactlyWhen(ws: seq<Window>, caps: seq<Cap>, ps: seq<Process>, plan: Plan)
    requires |caps| == |ws| && plan.decisions == BooksAt(ws, caps, ps, |ps|).decisions
    ensures FitsColumns(plan) <==> |plan.runId| <= 64 && |plan.solver| <= 64 && OwnersFit(ws, caps, ps)
  {
    hide BooksAt, LedgerAt, BestStart;
    var ds := plan.decisions;
    if OwnersFit(ws, caps, ps) {
      forall r | 0 <= r < |ds| ensures OwnerFits(ds[r].processId, ds[r].processName) {
        var i, k := OwnerOfRow(ws, caps, ps, |ps|, r);
      }
    }
    if FitsColumns(plan) {
      forall i | 0 <= i < |ps| && StartAt(ws, caps, ps, i).Some? ensures OwnerFits(ps[i].id, ps[i].name) {
        ScheduledHasWindows(ws, caps, ps, i);
        var r := RowOf(ws, caps, ps, i, 0);
      }
    }
  }

  lemma {:induction false} ScheduledHasWindows(ws: seq<Window>, caps: seq<Cap>, ps: seq<Process>, i: nat)
    requires |caps| == |ws| && i < |ps| && StartAt(ws, caps, ps, i).Some?
    ensures |ws| > 0
  {
    hide LedgerAt, BestBelow;
  }

  /** A plan of the solver can be persisted exactly when no two scheduled processes share an
      id, no two windows share a start if any process is scheduled, and the names of the run, of the
      solver and of the scheduled processes fit their columns. */
  lemma {:induction false} SolverPlanPersistsExactlyWhen(t: Tables, ws: seq<Window>, ps: seq<Process>,
          capacity: Option<seq<Cap>>, runId: string, solver: string, count: nat, now: int)
    requires SolveSpec(ws, ps, capacity, runId, solver).Ok?
    ensures PersistSpec(t, SolveSpec(ws, ps, capacity, runId, solver).value, count, now).Ok?
        <==> && OneRowPerKey(ws, Ceiling(ws, capacity), HeaviestFirst(ps))
             && |runId| <= 64 && |solver| <= 64 && OwnersFit(ws, Ceiling(ws, capacity), HeaviestFirst(ps))
  {
    hide BooksAt, HeaviestFirst, OneRowPerKey, DistinctKeys, RowsAfter, FitsColumns, RunFits, OwnersFit;
    var caps, sorted := Ceiling(ws, capacity), HeaviestFirst(ps);
    RowsFitExactlyWhen(ws, caps, sorted, SolveSpec(ws, ps, capacity, runId, solver).value);
    if OneRowPerKey(ws, caps, sorted) {
      DistinctWhenOneRowPerKey(ws, caps, sorted);
    }
    if DistinctKeys(BooksAt(ws, caps, sorted, |sorted|).decisions) {
      OneRowPerKeyWhenDistinct(ws, caps, sorted);
    }
  }
}
