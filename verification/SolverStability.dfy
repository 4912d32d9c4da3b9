/** Stability: in a finished schedule nobody wants to move and nobody left out fits. */
module SolverStability {
  import opened Common
  import opened Solver
  import opened SolverCapacity

  ghost predicate NonNegativeLoads(ps: seq<Process>) {
    forall i | 0 <= i < |ps| :: ps[i].loadMw >= 0.0
  }

  ghost predicate SameLoads(ps: seq<Process>) {
    forall i, j | 0 <= i < |ps| && 0 <= j < |ps| :: ps[i].loadMw == ps[j].loadMw
  }

  /** Whether window `w` of the finished schedule has room for process `i`, once the load
      it already runs there is handed back. */
  ghost predicate RoomInWindow(ws: seq<Window>, caps: seq<Cap>, ps: seq<Process>, i: nat, w: nat)
    requires |caps| == |ws| && i < |ps| && w < |ws|
  {
    Free(Take(LedgerAt(ws, caps, ps, |ps|)[w], -Own(ws, caps, ps, i, w)), ps[i].loadMw)
  }

  ghost predicate RoomAtTheEnd(ws: seq<Window>, caps: seq<Cap>, ps: seq<Process>, i: nat, t: nat)
    requires |caps| == |ws| && i < |ps| && Legal(|ws|, ps[i], t)
  {
    forall w: nat | t <= w < t + Duration(ps[i]) :: RoomInWindow(ws, caps, ps, i, w)
  }

  lemma {:induction false} LoadOnlyGrows(ws: seq<Window>, caps: seq<Cap>, ps: seq<Process>, i: nat, n: nat, w: nat)
    requires |caps| == |ws| && i <= n <= |ps| && NonNegativeLoads(ps)
    ensures Load(ws, caps, ps, i, w) <= Load(ws, caps, ps, n, w)
    decreases n
  {
    hide StartAt, LedgerAt;
    if i < n {
      LoadOnlyGrows(ws, caps, ps, i, n - 1, w);
    }
  }

  /** Among equal loads, a window that is full for one process stays as it is. */
  lemma {:induction false} FullStaysFull(ws: seq<Window>, caps: seq<Cap>, ps: seq<Process>, i: nat, n: nat, w: nat)
    requires |caps| == |ws| && i <= n <= |ps| && i < |ps| && w < |ws| && SameLoads(ps)
    requires !Free(LedgerAt(ws, caps, ps, i)[w], ps[i].loadMw)
    ensures LedgerAt(ws, caps, ps, n)[w] == LedgerAt(ws, caps, ps, i)[w]
    ensures n > i ==> Own(ws, caps, ps, i, w) == 0.0
    decreases n
  {
    hide BestBelow, Intensity;
    if i < n {
      FullStaysFull(ws, caps, ps, i, n - 1, w);
      assert ps[n - 1].loadMw == ps[i].loadMw;
    }
  }

  lemma {:induction false} RoomThen(ws: seq<Window>, caps: seq<Cap>, ps: seq<Process>, i: nat, w: nat)
    requires |caps| == |ws| && i < |ps| && w < |ws| && (NonNegativeLoads(ps) || SameLoads(ps))
    requires RoomInWindow(ws, caps, ps, i, w)
    ensures Free(LedgerAt(ws, caps, ps, i)[w], ps[i].loadMw)
  {
    if NonNegativeLoads(ps) {
      CapacityIsConserved(ws, caps, ps, |ps|, w);
      CapacityIsConserved(ws, caps, ps, i, w);
      LoadOnlyGrows(ws, caps, ps, i + 1, |ps|, w);
    } else if !Free(LedgerAt(ws, caps, ps, i)[w], ps[i].loadMw) {
      FullStaysFull(ws, caps, ps, i, |ps|, w);
    }
  }

  /** A block with room at the end was free at the process's own turn. */
  lemma {:induction false} FreeAtItsTurn(ws: seq<Window>, caps: seq<Cap>, ps: seq<Process>, i: nat, t: nat)
    requires |caps| == |ws| && i < |ps| && Legal(|ws|, ps[i], t) && (NonNegativeLoads(ps) || SameLoads(ps))
    requires RoomAtTheEnd(ws, caps, ps, i, t)
    ensures Fits(LedgerAt(ws, caps, ps, i), ps[i], t)
  {
    forall w: nat | t <= w < t + Duration(ps[i]) ensures Free(LedgerAt(ws, caps, ps, i)[w], ps[i].loadMw) {
      assert RoomInWindow(ws, caps, ps, i, w);
      RoomThen(ws, caps, ps, i, w);
    }
  }

  /** Process `i`, if scheduled, does not prefer the legal start `t` within the leftover capacity and
      its own; if left out, it does not fit there in what is left. */
  ghost predicate Settled(ws: seq<Window>, caps: seq<Cap>, ps: seq<Process>, i: nat, t: nat)
    requires |caps| == |ws| && i < |ps| && Legal(|ws|, ps[i], t)
  {
    match StartAt(ws, caps, ps, i)
    case Some(s) => RoomAtTheEnd(ws, caps, ps, i, t) ==> !Preferred(ws, ps[i], t, s)
    case None => !Fits(LedgerAt(ws, caps, ps, |ps|), ps[i], t)
  }

  /** No process could do better alone. */
  ghost predicate Stable(ws: seq<Window>, caps: seq<Cap>, ps: seq<Process>)
    requires |caps| == |ws|
  {
    forall i: nat, t: nat | i < |ps| && Legal(|ws|, ps[i], t) :: Settled(ws, caps, ps, i, t)
  }

  /** With non-negative or equal loads, no scheduled process could move, alone, to a legal block it
      prefers within the leftover capacity and its own; no process left out fits anywhere in what is
      left. */
  lemma {:induction false} ScheduleIsStable(ws: seq<Window>, caps: seq<Cap>, ps: seq<Process>, i: nat, t: nat)
    requires |caps| == |ws| && i < |ps| && Legal(|ws|, ps[i], t) && (NonNegativeLoads(ps) || SameLoads(ps))
    ensures Settled(ws, caps, ps, i, t)
  {
    if StartAt(ws, caps, ps, i).None? && Fits(LedgerAt(ws, caps, ps, |ps|), ps[i], t) {
      forall w: nat | t <= w < t + Duration(ps[i]) ensures RoomInWindow(ws, caps, ps, i, w) {
        assert Free(LedgerAt(ws, caps, ps, |ps|)[w], ps[i].loadMw);
      }
    }
    if RoomAtTheEnd(ws, caps, ps, i, t) {
      FreeAtItsTurn(ws, caps, ps, i, t);
    }
  }
}
