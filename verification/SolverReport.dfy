/** Report: a plan accounts for every process, by its rows or by name and reason. */
module SolverReport {
  import opened Common
  import opened Solver
  import opened SolverAccounting

  // ---- Who is left out, and why ---------------------------------------------

  ghost predicate SomeStartIsLegal(horizon: nat, p: Process) {
    exists t: nat :: Legal(horizon, p, t)
  }

  /** At its turn the process had no legal start whose block was free. */
  ghost predicate LeftOut(ws: seq<Window>, caps: seq<Cap>, ps: seq<Process>, i: nat)
    requires |caps| == |ws| && i < |ps|
  {
    forall t: nat | Legal(|ws|, ps[i], t) :: !Fits(LedgerAt(ws, caps, ps, i), ps[i], t)
  }

  /** The note names the process and says which of the three reasons it was. */
  ghost predicate Explains(note: Note, horizon: nat, p: Process) {
    match note
    case DurationExceedsHorizon(id, d, h) => id == p.id && d == Duration(p) > horizon == h
    case NoRoomAfterEarliest(id, lo, d, h) =>
      && id == p.id && lo == StartLo(p) && d == Duration(p) <= horizon == h
      && !SomeStartIsLegal(horizon, p)
    case NoFreeBlock(id, load, d) =>
      id == p.id && load == p.loadMw && d == Duration(p) && SomeStartIsLegal(horizon, p)
    case InsufficientTelemetry => false
  }

  /** `who` are the processes left out among the first `n`, in order, and the two lists are theirs. */
  ghost predicate Accounts(ws: seq<Window>, caps: seq<Cap>, ps: seq<Process>, n: nat, who: seq<nat>,
          unscheduled: seq<string>, notes: seq<Note>)
    requires |caps| == |ws| && n <= |ps|
  {
    && |who| == |unscheduled| == |notes|
    && (forall j | 0 <= j < |who| :: who[j] < n)
    && (forall j, k | 0 <= j < k < |who| :: who[j] < who[k])
    && (forall i: nat | i < n :: i in who <==> LeftOut(ws, caps, ps, i))
    && forall j | 0 <= j < |who| :: unscheduled[j] == ps[who[j]].id && Explains(notes[j], |ws|, ps[who[j]])
  }

  lemma {:induction false} LeftOutExactlyWhen(ws: seq<Window>, caps: seq<Cap>, ps: seq<Process>, i: nat)
    requires |caps| == |ws| && i < |ps|
    ensures LeftOut(ws, caps, ps, i) <==> StartAt(ws, caps, ps, i).None?
  {
    hide LedgerAt, BestBelow, Fits;
    assert forall t: nat | Legal(|ws|, ps[i], t) :: t + Duration(ps[i]) <= |ws|;
  }

  lemma {:induction false} NoteExplains(horizon: nat, p: Process)
    ensures Explains(NoteFor(horizon, p), horizon, p)
  {
    if Duration(p) <= horizon && StartLo(p) <= horizon - Duration(p) {
      assert Legal(horizon, p, StartLo(p));
    }
  }

  lemma {:induction false} OneMoreLeftOut(ws: seq<Window>, caps: seq<Cap>, ps: seq<Process>, n: nat, who: seq<nat>,
          unscheduled: seq<string>, notes: seq<Note>)
    requires |caps| == |ws| && n < |ps| && Accounts(ws, caps, ps, n, who, unscheduled, notes)
    requires LeftOut(ws, caps, ps, n)
    ensures Accounts(ws, caps, ps, n + 1, who + [n], unscheduled + [ps[n].id], notes + [NoteFor(|ws|, ps[n])])
  {
    hide LeftOut, Explains, NoteFor;
    NoteExplains(|ws|, ps[n]);
    var who' := who + [n];
    assert who'[|who|] == n;
    assert forall i: nat | i < n :: i in who' <==> i in who;
  }

  lemma {:induction false} BooksAccount(ws: seq<Window>, caps: seq<Cap>, ps: seq<Process>, n: nat)
    returns (who: seq<nat>)
    requires |caps| == |ws| && n <= |ps|
    ensures Accounts(ws, caps, ps, n, who, BooksAt(ws, caps, ps, n).unscheduled, BooksAt(ws, caps, ps, n).notes)
  {
    hide Accounts, LeftOut, StartAt, NoteFor, RowsUpTo, RowsBaseline, RowsCarbon;
    if n == 0 {
      who := [];
      NobodyYet(ws, caps, ps);
    } else {
      who := BooksAccount(ws, caps, ps, n - 1);
      var b := BooksAt(ws, caps, ps, n - 1);
      LeftOutExactlyWhen(ws, caps, ps, n - 1);
      if LeftOut(ws, caps, ps, n - 1) {
        OneMoreLeftOut(ws, caps, ps, n - 1, who, b.unscheduled, b.notes);
        who := who + [n - 1];
      } else {
        OneMorePlaced(ws, caps, ps, n - 1, who, b.unscheduled, b.notes);
      }
    }
  }

  lemma {:induction false} NobodyYet(ws: seq<Window>, caps: seq<Cap>, ps: seq<Process>)
    requires |caps| == |ws|
    ensures Accounts(ws, caps, ps, 0, [], [], [])
  {
  }

  lemma {:induction false} OneMorePlaced(ws: seq<Window>, caps: seq<Cap>, ps: seq<Process>, n: nat, who: seq<nat>,
          unscheduled: seq<string>, notes: seq<Note>)
    requires |caps| == |ws| && n < |ps| && Accounts(ws, caps, ps, n, who, unscheduled, notes)
    requires !LeftOut(ws, caps, ps, n)
    ensures Accounts(ws, caps, ps, n + 1, who, unscheduled, notes)
  {
    hide LeftOut, Explains;
  }

  /** A finished plan lists, in the solver's order, exactly the processes that had no free legal block
      at their turn, each with one note that names it and the reason: too long for the horizon, too late
      for it, or no free block. */
  lemma {:induction false} PlanReportsTheLeftOut(
      ws: seq<Window>, ps: seq<Process>, capacity: Option<seq<Cap>>, runId: string, solver: string)
    returns (who: seq<nat>)
    requires SolveSpec(ws, ps, capacity, runId, solver).Ok?
    ensures var plan := SolveSpec(ws, ps, capacity, runId, solver).value;
            && plan.runId == runId && plan.solver == solver && plan.horizon == |ws|
            && Accounts(ws, Ceiling(ws, capacity), HeaviestFirst(ps), |ps|, who, plan.unscheduled, plan.notes)
  {
    hide Accounts, BooksAt;
    who := BooksAccount(ws, Ceiling(ws, capacity), HeaviestFirst(ps), |ps|);
  }

  // ---- The figures of a row -------------------------------------------------

  /** A window of sixty minutes is an hour, windows that adjoin add up, and a window that ends before
      it starts has no length. */
  lemma {:induction false} HoursMean(a: Window, b: Window, both: Window)
    ensures a.to - a.from == 60 * 60 * 1_000_000 ==> Hours(a) == 1.0
    ensures a.from <= a.to == b.from <= b.to && both.from == a.from && both.to == b.to ==>
              Hours(both) == Hours(a) + Hours(b)
    ensures a.to <= a.from ==> Hours(a) == 0.0
  {
  }

  /** Every figure of a row. In the block of its process it carries its own window's carbon, an equal
      share of what the block at the earliest start would emit, and an equal share of the difference;
      outside it carries nothing. */
  lemma {:induction false} RowMeans(ws: seq<Window>, caps: seq<Cap>, ps: seq<Process>, i: nat, k: nat)
    requires |caps| == |ws| && i < |ps| && k < |ws| && StartAt(ws, caps, ps, i).Some?
    ensures var p, s, r := ps[i], StartAt(ws, caps, ps, i).value, |BooksAt(ws, caps, ps, i).decisions| + k;
            && r < |BooksAt(ws, caps, ps, |ps|).decisions|
            && var row := BooksAt(ws, caps, ps, |ps|).decisions[r];
            if s <= k < s + Duration(p) then
              && row.action == Run && row.reason == LowestBlock(s)
              && row.carbonKg == p.loadMw * Hours(ws[k]) * ws[k].intensity
              && row.baselineKg * Duration(p) as real == BlockCarbon(ws, p, StartLo(p), Duration(p))
              && row.savedKg * Duration(p) as real
                 == BlockCarbon(ws, p, StartLo(p), Duration(p)) - BlockCarbon(ws, p, s, Duration(p))
            else
              && row.action == Idle && row.reason == CleanerElsewhere
              && row.carbonKg == row.baselineKg == row.savedKg == 0.0
  {
    hide BooksAt, LedgerAt, BestStart, BlockCarbon, Hours;
    var p, s := ps[i], StartAt(ws, caps, ps, i).value;
    RowOfBooks(ws, caps, ps, |ps|, i, k);
    SharesAddUp(Duration(p), BlockCarbon(ws, p, StartLo(p), Duration(p)));
    SharesAddUp(Duration(p), BlockCarbon(ws, p, StartLo(p), Duration(p)) - BlockCarbon(ws, p, s, Duration(p)));
  }

  lemma {:induction false} RowOfBooks(ws: seq<Window>, caps: seq<Cap>, ps: seq<Process>, n: nat, i: nat, k: nat)
    requires |caps| == |ws| && i < n <= |ps| && k < |ws| && StartAt(ws, caps, ps, i).Some?
    ensures var r := |BooksAt(ws, caps, ps, i).decisions| + k;
            && r < |BooksAt(ws, caps, ps, n).decisions|
            && BooksAt(ws, caps, ps, n).decisions[r] == RowFor(ws, ps[i], StartAt(ws, caps, ps, i).value, k)
  {
    hide RowFor, BestStart, LedgerAt, NoteFor, RowsBaseline, RowsCarbon;
    if i < n - 1 {
      RowOfBooks(ws, caps, ps, n - 1, i, k);
    } else {
      RowAt(ws, ps[i], StartAt(ws, caps, ps, i).value, |ws|, k);
    }
  }
}
