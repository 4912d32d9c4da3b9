/** Which portfolios always give a stable schedule: those of non-negative loads, and those of equal
    loads. The portfolio loader (ecogrid/optimizer/loop.py:75-90) accepts all others too. */
module SolverInstability {
  import opened Common
  import opened Solver
  import opened SolverCapacity
  import opened SolverOrder
  import opened SolverStability

  // ---- A forecast and a ceiling that set two neighbours against each other --------

  /** Every window is equally dirty but `w`, which is clean. */
  function Clean(h: nat, w: nat): (ws: seq<Window>)
    ensures |ws| == h
  {
    seq(h, k => Window(k, k + 1, if k == w then 0.0 else 1.0))
  }

  /** No window has a ceiling but `w`. */
  function Narrow(h: nat, w: nat, mw: real): (caps: seq<Cap>)
    ensures |caps| == h
  {
    seq(h, k => if k == w then Finite(mw) else Unlimited)
  }

  /** A block is as dirty as it is long, less one if it holds the clean window. */
  lemma {:induction false} CleanIntensity(h: nat, w: nat, s: nat, d: nat)
    requires s + d <= h
    ensures Intensity(Clean(h, w), s, d) == d as real - if s <= w < s + d then 1.0 else 0.0
  {
    hide Clean;
    if d > 0 {
      CleanIntensity(h, w, s, d - 1);
      CleanAt(h, w, s + d - 1);
    }
  }

  lemma {:induction false} CleanAt(h: nat, w: nat, k: nat)
    requires k < h
    ensures Clean(h, w)[k].intensity == if k == w then 0.0 else 1.0
  {
  }

  /** The other windows stay without a ceiling. */
  lemma {:induction false} OthersStayUnlimited(h: nat, w: nat, mw: real, ps: seq<Process>, n: nat, k: nat)
    requires n <= |ps| && k < h && k != w
    ensures LedgerAt(Clean(h, w), Narrow(h, w, mw), ps, n)[k] == Unlimited
  {
    hide Clean;
    CapacityIsConserved(Clean(h, w), Narrow(h, w, mw), ps, n, k);
  }

  lemma {:induction false} ClearWindow(h: nat, w: nat, mw: real, ps: seq<Process>, n: nat)
    requires n <= |ps| && w < h
    ensures LedgerAt(Clean(h, w), Narrow(h, w, mw), ps, n)[w]
         == Finite(mw - Load(Clean(h, w), Narrow(h, w, mw), ps, n, w))
  {
    hide Clean;
    CapacityIsConserved(Clean(h, w), Narrow(h, w, mw), ps, n, w);
  }

  /** Processes too heavy for the window never run in it. */
  lemma {:induction false} HeavyOnesStayOut(h: nat, w: nat, mw: real, ps: seq<Process>, n: nat)
    requires n <= |ps| && w < h && forall j | 0 <= j < n :: mw < ps[j].loadMw - TOLERANCE
    ensures Load(Clean(h, w), Narrow(h, w, mw), ps, n, w) == 0.0
    ensures forall j | 0 <= j < n :: !RunsIn(ps[j], StartAt(Clean(h, w), Narrow(h, w, mw), ps, j), w)
  {
    hide Clean, Narrow, BestBelow, LedgerAt;
    if n > 0 {
      HeavyOnesStayOut(h, w, mw, ps, n - 1);
      ClearWindow(h, w, mw, ps, n - 1);
    }
  }

  /** A process that fits into the clean window takes a block with it. */
  lemma {:induction false} LightOneTakesIt(h: nat, w: nat, mw: real, ps: seq<Process>, i: nat)
    requires i < |ps| && w < h && Legal(h, ps[i], w)
    requires Free(LedgerAt(Clean(h, w), Narrow(h, w, mw), ps, i)[w], ps[i].loadMw)
    ensures RunsIn(ps[i], StartAt(Clean(h, w), Narrow(h, w, mw), ps, i), w)
  {
    hide Clean, Narrow, BestBelow, LedgerAt, Intensity;
    var ws, rem := Clean(h, w), LedgerAt(Clean(h, w), Narrow(h, w, mw), ps, i);
    forall k | w <= k < w + Duration(ps[i]) ensures Free(rem[k], ps[i].loadMw) {
      if k != w {
        OthersStayUnlimited(h, w, mw, ps, i, k);
      }
    }
    assert Fits(rem, ps[i], w);
    var s := StartAt(ws, Narrow(h, w, mw), ps, i).value;
    assert !Preferred(ws, ps[i], w, s);
    CleanIntensity(h, w, w, Duration(ps[i]));
    CleanIntensity(h, w, s, Duration(ps[i]));
  }

  /** Negative loads only take load off the window. */
  lemma {:induction false} NegativeLoadsOnlyTakeOff(ws: seq<Window>, caps: seq<Cap>, ps: seq<Process>, i: nat, n: nat,
          w: nat)
    requires |caps| == |ws| && i <= n <= |ps| && forall j | i <= j < n :: ps[j].loadMw <= 0.0
    ensures Load(ws, caps, ps, n, w) <= Load(ws, caps, ps, i, w)
    decreases n
  {
    hide StartAt, LedgerAt;
    if i < n {
      NegativeLoadsOnlyTakeOff(ws, caps, ps, i, n - 1, w);
    }
  }

  /** The ceiling of the clean window: too low for `a` and enough for the smaller, negative `b`, which
      leaves room for `a`. */
  function Between(a: real, b: real): real {
    MaxReal(b, a + b) - TOLERANCE
  }

  /** Neighbours in the order of loads, of which the second is negative and as small as any, upset the
      schedule: the first is kept out of the clean window, and the second makes room in it. */
  lemma {:induction false} NeighboursUpsetSchedule(ps: seq<Process>, i: nat, h: nat, w: nat)
    requires i + 1 < |ps| && w < h && Legal(h, ps[i], w) && Legal(h, ps[i + 1], w)
    requires ps[i + 1].loadMw < 0.0 && ps[i + 1].loadMw < ps[i].loadMw
    requires forall j | 0 <= j <= i :: ps[j].loadMw >= ps[i].loadMw
    requires forall j | i < j < |ps| :: ps[j].loadMw == ps[i + 1].loadMw
    ensures !Settled(Clean(h, w), Narrow(h, w, Between(ps[i].loadMw, ps[i + 1].loadMw)), ps, i, w)
  {
    hide Clean, Narrow, BestBelow, LedgerAt, Intensity;
    var a, b := ps[i].loadMw, ps[i + 1].loadMw;
    var mw := Between(a, b);
    var ws, caps := Clean(h, w), Narrow(h, w, mw);
    HeavyOnesStayOut(h, w, mw, ps, i + 1);
    ClearWindow(h, w, mw, ps, i + 1);
    LightOneTakesIt(h, w, mw, ps, i + 1);
    NegativeLoadsOnlyTakeOff(ws, caps, ps, i + 2, |ps|, w);
    ClearWindow(h, w, mw, ps, |ps|);
    var after := LedgerAt(ws, caps, ps, |ps|);
    assert Free(after[w], a);
    forall k | w <= k < w + Duration(ps[i]) ensures Free(after[k], a) && RoomInWindow(ws, caps, ps, i, k) {
      if k != w {
        OthersStayUnlimited(h, w, mw, ps, |ps|, k);
      }
    }
    assert !RunsIn(ps[i], StartAt(ws, caps, ps, i), w);
    match StartAt(ws, caps, ps, i) {
      case None =>
      case Some(s) =>
        CleanIntensity(h, w, w, Duration(ps[i]));
        CleanIntensity(h, w, s, Duration(ps[i]));
    }
  }

  // ---- The exact condition --------------------------------------------------------

  lemma {:induction false} LoadsDescend(ps: seq<Process>, i: nat, j: nat)
    requires Sorted(ps) && i <= j < |ps|
    ensures ps[i].loadMw >= ps[j].loadMw
  {
  }

  /** The last process heavier than the last one of all. */
  lemma {:induction false} LastHeavier(ps: seq<Process>, n: nat) returns (i: nat)
    requires 0 < n <= |ps| && Sorted(ps)
    requires forall j | n <= j < |ps| :: ps[j].loadMw == ps[|ps| - 1].loadMw
    requires exists j | 0 <= j < n :: ps[j].loadMw != ps[|ps| - 1].loadMw
    ensures i + 1 < |ps| && ps[i].loadMw > ps[|ps| - 1].loadMw
    ensures forall j | i < j < |ps| :: ps[j].loadMw == ps[|ps| - 1].loadMw
  {
    hide GoesBefore;
    if ps[n - 1].loadMw != ps[|ps| - 1].loadMw {
      i := n - 1;
      LoadsDescend(ps, i, |ps| - 1);
    } else {
      i := LastHeavier(ps, n - 1);
    }
  }

  lemma {:induction false} SomeScheduleIsUpset(ps: seq<Process>) returns (ws: seq<Window>, caps: seq<Cap>)
    requires Sorted(ps) && !NonNegativeLoads(ps) && !SameLoads(ps)
    ensures |caps| == |ws| && !Stable(ws, caps, ps)
  {
    hide Settled, Sorted;
    var last := |ps| - 1;
    var j :| 0 <= j < |ps| && ps[j].loadMw < 0.0;
    LoadsDescend(ps, j, last);
    if forall k | 0 <= k < |ps| :: ps[k].loadMw == ps[last].loadMw {
      AllTheSame(ps);
    }
    var i := LastHeavier(ps, |ps|);
    forall k | 0 <= k <= i ensures ps[k].loadMw >= ps[i].loadMw {
      LoadsDescend(ps, k, i);
    }
    var w: nat := Max(StartLo(ps[i]), StartLo(ps[i + 1]));
    var h: nat := w + Max(Duration(ps[i]), Duration(ps[i + 1]));
    NeighboursUpsetSchedule(ps, i, h, w);
    ws, caps := Clean(h, w), Narrow(h, w, Between(ps[i].loadMw, ps[i + 1].loadMw));
  }

  lemma {:induction false} AllTheSame(ps: seq<Process>)
    requires ps != [] && forall k | 0 <= k < |ps| :: ps[k].loadMw == ps[|ps| - 1].loadMw
    ensures SameLoads(ps)
  {
  }

  lemma {:induction false} SortKeepsLoads(ps: seq<Process>)
    ensures NonNegativeLoads(HeaviestFirst(ps)) <==> NonNegativeLoads(ps)
    ensures SameLoads(HeaviestFirst(ps)) <==> SameLoads(ps)
  {
    hide SortedUpTo;
    var sorted := HeaviestFirst(ps);
    SortKeepsElements(ps, |ps|);
    assert ps[..|ps|] == ps;
    SameMembers(ps, sorted);
    SameMembers(sorted, ps);
  }

  lemma {:induction false} SameMembers(a: seq<Process>, b: seq<Process>)
    requires multiset(a) == multiset(b)
    ensures NonNegativeLoads(a) ==> NonNegativeLoads(b)
    ensures SameLoads(a) ==> SameLoads(b)
  {
    forall j | 0 <= j < |b| ensures b[j] in a {
      assert b[j] in multiset(b);
    }
  }

  /** A portfolio is scheduled stably under every forecast and every ceiling exactly when none of its
      loads is negative or all of them are equal. */
  lemma {:induction false} AlwaysStableExactlyWhen(ps: seq<Process>)
    ensures (forall ws: seq<Window>, caps: seq<Cap> | |caps| == |ws| :: Stable(ws, caps, HeaviestFirst(ps)))
       <==> NonNegativeLoads(ps) || SameLoads(ps)
  {
    hide HeaviestFirst, Settled, NonNegativeLoads, SameLoads;
    var sorted := HeaviestFirst(ps);
    SortKeepsLoads(ps);
    if NonNegativeLoads(ps) || SameLoads(ps) {
      forall ws: seq<Window>, caps: seq<Cap> | |caps| == |ws| ensures Stable(ws, caps, sorted) {
        forall i: nat, t: nat | i < |sorted| && Legal(|ws|, sorted[i], t) ensures Settled(ws, caps, sorted, i, t) {
          ScheduleIsStable(ws, caps, sorted, i, t);
        }
      }
    } else {
      IsSorted(ps);
      var ws, caps := SomeScheduleIsUpset(sorted);
    }
  }

  lemma {:induction false} IsSorted(ps: seq<Process>)
    ensures Sorted(HeaviestFirst(ps))
  {
    SortSorts(ps, |ps|);
  }

  /** For instance, a negative load hands capacity back after its turn: the 10 MW process left out
      would then have fitted. */
  lemma {:induction false} NegativeLoadBreaksStability(ws: seq<Window>, caps: seq<Cap>, ps: seq<Process>)
    requires ws == [Window(0, 1, 1.0)] && caps == [Finite(5.0)]
    requires ps == [Process("a", "a", 10.0, 1, 0), Process("b", "b", -10.0, 1, 0)]
    ensures StartAt(ws, caps, ps, 0).None? && Fits(LedgerAt(ws, caps, ps, 2), ps[0], 0)
  {
    assert !Free(caps[0], 10.0);
    assert LedgerAt(ws, caps, ps, 0) == caps;
    assert StartAt(ws, caps, ps, 0).None?;
    assert LedgerAt(ws, caps, ps, 1) == caps;
    assert Legal(1, ps[1], 0) && Fits(caps, ps[1], 0);
    assert StartAt(ws, caps, ps, 1) == Some(0);
    assert LedgerAt(ws, caps, ps, 2) == Occupy(caps, ps[1], 0);
  }
}
