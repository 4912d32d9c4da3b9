/** The sign of a saving: when moving a process is no worse than starting it early. */
module SolverSavings {
  import opened Common
  import opened Solver
  import opened SolverAccounting

  ghost predicate EqualLengths(ws: seq<Window>, hours: real) {
    forall k | 0 <= k < |ws| :: Hours(ws[k]) == hours
  }

  lemma {:induction false} Distribute(x: real, a: real, b: real)
    ensures x * a + x * b == x * (a + b)
  {
  }

  /** With equal window lengths, a block's carbon is its intensity scaled by the energy. */
  lemma {:induction false} BlockCarbonIsScaledIntensity(ws: seq<Window>, p: Process, s: nat, d: nat, hours: real)
    requires s + d <= |ws| && EqualLengths(ws, hours)
    ensures BlockCarbon(ws, p, s, d) == (p.loadMw * hours) * Intensity(ws, s, d)
  {
    if d > 0 {
      BlockCarbonIsScaledIntensity(ws, p, s, d - 1, hours);
      assert Hours(ws[s + d - 1]) == hours;
      Distribute(p.loadMw * hours, Intensity(ws, s, d - 1), ws[s + d - 1].intensity);
    }
  }

  lemma {:induction false} ScaledOrder(e: real, a: real, b: real, ea: real, eb: real)
    requires e >= 0.0 && a <= b && ea == e * a && eb == e * b
    ensures ea <= eb
  {
  }

  lemma {:induction false} ScaledStrictly(e: real, a: real, b: real, ea: real, eb: real)
    requires e > 0.0 && a < b && ea == e * a && eb == e * b
    ensures ea < eb
  {
  }

  lemma {:induction false} ProductSign(a: real, b: real, ab: real)
    requires a >= 0.0 && b >= 0.0 && ab == a * b
    ensures ab >= 0.0
    ensures a > 0.0 && b > 0.0 ==> ab > 0.0
  {
  }

  /** Blocks of one process compare by carbon as they do by intensity. */
  lemma {:induction false} CleanerIsNoWorse(ws: seq<Window>, p: Process, s: nat, t: nat, hours: real)
    requires EqualLengths(ws, hours) && hours >= 0.0 && p.loadMw >= 0.0
    requires s + Duration(p) <= |ws| && t + Duration(p) <= |ws|
    requires Intensity(ws, s, Duration(p)) <= Intensity(ws, t, Duration(p))
    ensures BlockCarbon(ws, p, s, Duration(p)) <= BlockCarbon(ws, p, t, Duration(p))
  {
    hide BlockCarbon, Intensity;
    var d, e := Duration(p), p.loadMw * hours;
    BlockCarbonIsScaledIntensity(ws, p, s, d, hours);
    BlockCarbonIsScaledIntensity(ws, p, t, d, hours);
    ProductSign(p.loadMw, hours, e);
    ScaledOrder(e, Intensity(ws, s, d), Intensity(ws, t, d), BlockCarbon(ws, p, s, d), BlockCarbon(ws, p, t, d));
  }

  lemma {:induction false} DirtierIsWorse(ws: seq<Window>, p: Process, s: nat, t: nat, hours: real)
    requires EqualLengths(ws, hours) && hours > 0.0 && p.loadMw > 0.0
    requires s + Duration(p) <= |ws| && t + Duration(p) <= |ws|
    requires Intensity(ws, s, Duration(p)) > Intensity(ws, t, Duration(p))
    ensures BlockCarbon(ws, p, s, Duration(p)) > BlockCarbon(ws, p, t, Duration(p))
  {
    hide BlockCarbon, Intensity;
    var d, e := Duration(p), p.loadMw * hours;
    BlockCarbonIsScaledIntensity(ws, p, s, d, hours);
    BlockCarbonIsScaledIntensity(ws, p, t, d, hours);
    ProductSign(p.loadMw, hours, e);
    ScaledStrictly(e, Intensity(ws, t, d), Intensity(ws, s, d), BlockCarbon(ws, p, t, d), BlockCarbon(ws, p, s, d));
  }

  lemma {:induction false} ShareSign(x: real, d: nat)
    requires d > 0
    ensures x / d as real >= 0.0 <==> x >= 0.0
  {
  }

  /** Some free legal block is no dirtier than the earliest legal one. */
  ghost predicate FreeNoDirtierThanEarliest(ws: seq<Window>, rem: seq<Cap>, p: Process, t: nat)
    requires |rem| == |ws|
  {
    && Legal(|ws|, p, t) && Fits(rem, p, t)
    && Intensity(ws, t, Duration(p)) <= Intensity(ws, StartLo(p), Duration(p))
  }

  ghost predicate FreeCleanerThanEarliest(ws: seq<Window>, rem: seq<Cap>, p: Process, t: nat)
    requires |rem| == |ws|
  {
    && Legal(|ws|, p, t) && Fits(rem, p, t)
    && Intensity(ws, t, Duration(p)) < Intensity(ws, StartLo(p), Duration(p))
  }

  lemma {:induction false} Factor(e: real, d: real, ed: real)
    requires ed == e * d
    ensures e == 0.0 ==> ed == 0.0
    ensures e > 0.0 ==> (ed >= 0.0 <==> d >= 0.0)
    ensures e < 0.0 ==> (ed >= 0.0 <==> d <= 0.0)
  {
  }

  lemma {:induction false} Difference(e: real, a: real, b: real, ea: real, eb: real)
    requires ea == e * a && eb == e * b
    ensures ea - eb == e * (a - b)
  {
  }

  lemma {:induction false} EnergySign(load: real, hours: real, e: real)
    requires hours >= 0.0 && e == load * hours
    ensures load == 0.0 || hours == 0.0 ==> e == 0.0
    ensures load > 0.0 && hours > 0.0 ==> e > 0.0
    ensures load < 0.0 && hours > 0.0 ==> e < 0.0
  {
  }

  /** The chosen block is the least intense of the free ones. */
  lemma {:induction false} ChosenAgainstEarliest(ws: seq<Window>, rem: seq<Cap>, p: Process)
    requires |rem| == |ws| && BestStart(ws, rem, p).Some?
    ensures var s := BestStart(ws, rem, p).value;
            var chosen, earliest := Intensity(ws, s, Duration(p)), Intensity(ws, StartLo(p), Duration(p));
            && (chosen <= earliest <==> exists t: nat :: FreeNoDirtierThanEarliest(ws, rem, p, t))
            && (chosen < earliest <==> exists t: nat :: FreeCleanerThanEarliest(ws, rem, p, t))
  {
    hide Intensity, Fits;
    var s := BestStart(ws, rem, p).value;
    forall t: nat | Legal(|ws|, p, t) && Fits(rem, p, t)
      ensures Intensity(ws, s, Duration(p)) <= Intensity(ws, t, Duration(p))
    {
      assert !Preferred(ws, p, t, s);
    }
    assert FreeNoDirtierThanEarliest(ws, rem, p, s)
      <==> Intensity(ws, s, Duration(p)) <= Intensity(ws, StartLo(p), Duration(p));
    assert FreeCleanerThanEarliest(ws, rem, p, s)
      <==> Intensity(ws, s, Duration(p)) < Intensity(ws, StartLo(p), Duration(p));
  }

  /** When the rows of a process show a non-negative saving, for windows of one length: always, if it
      uses no energy; else exactly when, at its turn, some free legal block was no dirtier than the
      earliest one (which need not be free); and for a negative load, exactly when no free legal
      block was cleaner. */
  lemma {:induction false} SavingIsNonNegativeExactlyWhen(ws: seq<Window>, rem: seq<Cap>, p: Process, hours: real)
    requires |rem| == |ws| && EqualLengths(ws, hours) && hours >= 0.0
    requires BestStart(ws, rem, p).Some?
    ensures PerWindowSaved(ws, p, BestStart(ws, rem, p).value) >= 0.0
        <==> if p.loadMw == 0.0 || hours == 0.0 then true
             else if p.loadMw > 0.0 then exists t: nat :: FreeNoDirtierThanEarliest(ws, rem, p, t)
             else !exists t: nat :: FreeCleanerThanEarliest(ws, rem, p, t)
  {
    hide BlockCarbon, Intensity, Fits, FreeNoDirtierThanEarliest, FreeCleanerThanEarliest;
    var s, lo, d, e := BestStart(ws, rem, p).value, StartLo(p), Duration(p), p.loadMw * hours;
    ShareSign(BlockCarbon(ws, p, lo, d) - BlockCarbon(ws, p, s, d), d);
    BlockCarbonIsScaledIntensity(ws, p, s, d, hours);
    BlockCarbonIsScaledIntensity(ws, p, lo, d, hours);
    EnergySign(p.loadMw, hours, e);
    Difference(e, Intensity(ws, lo, d), Intensity(ws, s, d), BlockCarbon(ws, p, lo, d), BlockCarbon(ws, p, s, d));
    Factor(e, Intensity(ws, lo, d) - Intensity(ws, s, d), BlockCarbon(ws, p, lo, d) - BlockCarbon(ws, p, s, d));
    ChosenAgainstEarliest(ws, rem, p);
  }

  // ---- Windows of unequal length --------------------------------------------------

  /** No window is longer than one before it. */
  predicate NeverLonger(ws: seq<Window>) {
    forall i, j | 0 <= i < j < |ws| :: Hours(ws[i]) >= Hours(ws[j])
  }

  predicate NonNegativeIntensities(ws: seq<Window>) {
    forall k | 0 <= k < |ws| :: ws[k].intensity >= 0.0
  }

  /** A window's intensity, weighted with what it is longer than `th`. */
  function Weighted(w: Window, th: real): real {
    (Hours(w) - th) * w.intensity
  }

  function Excess(ws: seq<Window>, th: real, n: nat): real
    requires n <= |ws|
  {
    if n == 0 then 0.0 else Excess(ws, th, n - 1) + Weighted(ws[n - 1], th)
  }

  /** The carbon of a load over a block of that excess and intensity. */
  function Emitted(load: real, th: real, excess: real, intensity: real): real {
    load * (excess + th * intensity)
  }

  lemma {:induction false} OneWindowMore(p: Process, w: Window, th: real, e: real, i: real)
    ensures Emitted(p.loadMw, th, e, i) + WindowCarbon(p, w)
         == Emitted(p.loadMw, th, e + Weighted(w, th), i + w.intensity)
  {
    var h, t := Hours(w), w.intensity;
    hide Hours;
    var ht, tht := h * t, th * t;
    assert (h - th) * t == ht - tht;
    assert p.loadMw * h * t == p.loadMw * ht;
    assert th * (i + t) == th * i + tht;
    Distribute(p.loadMw, e + th * i, ht);
  }

  lemma {:induction false} NothingEmitted(load: real, th: real)
    ensures Emitted(load, th, 0.0, 0.0) == 0.0
  {
  }

  /** A block's carbon, with `th` of every window's length taken apart. */
  lemma {:induction false} BlockCarbonSplit(ws: seq<Window>, p: Process, th: real, s: nat, d: nat)
    requires s + d <= |ws|
    ensures BlockCarbon(ws, p, s, d)
         == Emitted(p.loadMw, th, Excess(ws, th, s + d) - Excess(ws, th, s), Intensity(ws, s, d))
  {
    hide Emitted, Weighted, WindowCarbon;
    if d > 0 {
      BlockCarbonSplit(ws, p, th, s, d - 1);
      OneWindowMore(p, ws[s + d - 1], th, Excess(ws, th, s + d - 1) - Excess(ws, th, s), Intensity(ws, s, d - 1));
    } else {
      NothingEmitted(p.loadMw, th);
    }
  }

  /** The excess grows while windows are longer than `th` and falls while they are shorter. */
  lemma {:induction false} ExcessGrows(ws: seq<Window>, th: real, m: nat, n: nat)
    requires m <= n <= |ws| && NonNegativeIntensities(ws) && forall k | m <= k < n :: Hours(ws[k]) >= th
    ensures Excess(ws, th, m) <= Excess(ws, th, n)
    decreases n
  {
    hide Hours;
    if m < n {
      ExcessGrows(ws, th, m, n - 1);
      var w := ws[n - 1];
      ProductSign(Hours(w) - th, w.intensity, Weighted(w, th));
    }
  }

  lemma {:induction false} ExcessFalls(ws: seq<Window>, th: real, m: nat, n: nat)
    requires m <= n <= |ws| && NonNegativeIntensities(ws) && forall k | m <= k < n :: Hours(ws[k]) <= th
    ensures Excess(ws, th, m) >= Excess(ws, th, n)
    decreases n
  {
    hide Hours;
    if m < n {
      ExcessFalls(ws, th, m, n - 1);
      var w := ws[n - 1];
      ProductSign(th - Hours(w), w.intensity, (th - Hours(w)) * w.intensity);
      Negated(Hours(w) - th, w.intensity);
    }
  }

  lemma {:induction false} Negated(a: real, b: real)
    ensures (-a) * b == -(a * b)
  {
  }

  /** If no window is longer than one before it, a later block that is no dirtier emits no more. */
  lemma {:induction false} LaterIsNoWorse(ws: seq<Window>, p: Process, lo: nat, s: nat, d: nat)
    requires lo <= s && s + d <= |ws| && s < |ws| && NeverLonger(ws) && NonNegativeIntensities(ws) && p.loadMw >= 0.0
    requires Intensity(ws, s, d) <= Intensity(ws, lo, d)
    ensures BlockCarbon(ws, p, s, d) <= BlockCarbon(ws, p, lo, d)
  {
    hide BlockCarbon, Intensity, Excess, NonNegativeIntensities;
    var th := Hours(ws[s]);
    assert th >= 0.0;
    BlockCarbonSplit(ws, p, th, s, d);
    BlockCarbonSplit(ws, p, th, lo, d);
    hide Hours;
    var m := if lo + d < s then lo + d else s;
    ExcessGrows(ws, th, lo, m);
    ExcessGrows(ws, th, lo, s);
    ExcessFalls(ws, th, s, s + d);
    if s <= lo + d {
      ExcessFalls(ws, th, lo + d, s + d);
    }
    ScaledOrder(th, Intensity(ws, s, d), Intensity(ws, lo, d), th * Intensity(ws, s, d), th * Intensity(ws, lo, d));
    var x := Excess(ws, th, s + d) - Excess(ws, th, s) + th * Intensity(ws, s, d);
    var y := Excess(ws, th, lo + d) - Excess(ws, th, lo) + th * Intensity(ws, lo, d);
    ScaledOrder(p.loadMw, x, y, p.loadMw * x, p.loadMw * y);
  }

  /** The same windows under another forecast. */
  predicate SameTimes(ws: seq<Window>, v: seq<Window>) {
    |v| == |ws| && forall k | 0 <= k < |ws| :: v[k].from == ws[k].from && v[k].to == ws[k].to
  }

  function NoCeiling(ws: seq<Window>): seq<Cap> {
    seq(|ws|, _ => Unlimited)
  }

  /** What the rows of `p` save without a ceiling is not negative, if it can be scheduled. */
  ghost predicate SavesAlone(ws: seq<Window>, p: Process) {
    match BestStart(ws, NoCeiling(ws), p)
    case None => true
    case Some(s) => PerWindowSaved(ws, p, s) >= 0.0
  }

  /** Then no process loses by being moved. */
  lemma {:induction false} ShorteningSaves(ws: seq<Window>, p: Process)
    requires NeverLonger(ws) && NonNegativeIntensities(ws) && p.loadMw >= 0.0
    ensures SavesAlone(ws, p)
  {
    hide BlockCarbon, Intensity, Hours;
    match BestStart(ws, NoCeiling(ws), p) {
      case None =>
      case Some(s) =>
        var lo, d := StartLo(p), Duration(p);
        assert Legal(|ws|, p, lo) && Fits(NoCeiling(ws), p, lo);
        assert !Preferred(ws, p, lo, s);
        LaterIsNoWorse(ws, p, lo, s, d);
        ShareSign(BlockCarbon(ws, p, lo, d) - BlockCarbon(ws, p, s, d), d);
    }
  }

  /** A forecast that makes a longer window `b` look better than `a` and worse than it is. */
  function Tempting(ws: seq<Window>, a: nat, b: nat): (v: seq<Window>)
    requires a < b < |ws|
    ensures |v| == |ws|
  {
    var ha, hb := Hours(ws[a]), Hours(ws[b]);
    seq(|ws|, k requires 0 <= k < |ws| =>
      ws[k].(intensity := if k == a then 2.0 * hb else if k == b then ha + hb else 2.0 * hb + 1.0))
  }

  lemma {:induction false} OneWindow(ws: seq<Window>, p: Process, k: nat)
    requires k < |ws|
    ensures Intensity(ws, k, 1) == ws[k].intensity
    ensures BlockCarbon(ws, p, k, 1) == p.loadMw * Hours(ws[k]) * ws[k].intensity
  {
    hide Hours;
    assert Intensity(ws, k, 0) == 0.0 && BlockCarbon(ws, p, k, 0) == 0.0;
  }

  lemma {:induction false} Loss(ha: real, hb: real)
    requires 0.0 <= ha < hb
    ensures 1.0 * ha * (2.0 * hb) < 1.0 * hb * (ha + hb)
  {
    var x := ha * hb;
    assert 1.0 * ha * (2.0 * hb) == 2.0 * x;
    assert 1.0 * hb * (ha + hb) == x + hb * hb;
    ScaledStrictly(hb, ha, hb, hb * ha, hb * hb);
    assert hb * ha == x;
  }

  /** Without a ceiling a process of one window goes to the cleanest one. */
  lemma {:induction false} GoesToCleanest(v: seq<Window>, p: Process, b: nat)
    requires Duration(p) == 1 && StartLo(p) <= b < |v|
    requires forall k | 0 <= k < |v| && k != b :: v[b].intensity < v[k].intensity
    ensures BestStart(v, NoCeiling(v), p) == Some(b)
  {
    hide BlockCarbon, Intensity, BestBelow;
    assert Legal(|v|, p, b) && Fits(NoCeiling(v), p, b);
    var s := BestStart(v, NoCeiling(v), p).value;
    assert !Preferred(v, p, b, s);
    OneWindow(v, p, b);
    OneWindow(v, p, s);
  }

  lemma {:induction false} MovingLoses(v: seq<Window>, p: Process, b: nat)
    requires Duration(p) == 1 && StartLo(p) <= b < |v| && p.loadMw == 1.0
    requires var ha, hb := Hours(v[StartLo(p)]), Hours(v[b]);
             ha < hb && v[StartLo(p)].intensity == 2.0 * hb && v[b].intensity == ha + hb
    ensures PerWindowSaved(v, p, b) < 0.0
  {
    var a := StartLo(p);
    var ha, hb := Hours(v[a]), Hours(v[b]);
    assert ha >= 0.0;
    hide Hours, BlockCarbon, Intensity;
    OneWindow(v, p, a);
    OneWindow(v, p, b);
    Loss(ha, hb);
    ShareSign(BlockCarbon(v, p, a, 1) - BlockCarbon(v, p, b, 1), 1);
  }

  /** A process of one window that may start at `a` is moved to the longer `b`, and loses. */
  lemma {:induction false} TemptingLoses(ws: seq<Window>, a: nat, b: nat)
    requires a < b < |ws| && Hours(ws[a]) < Hours(ws[b])
    ensures SameTimes(ws, Tempting(ws, a, b)) && NonNegativeIntensities(Tempting(ws, a, b))
    ensures !SavesAlone(Tempting(ws, a, b), Process("p", "p", 1.0, 1, a))
  {
    var v, p := Tempting(ws, a, b), Process("p", "p", 1.0, 1, a);
    assert Hours(ws[a]) >= 0.0 && Hours(v[a]) == Hours(ws[a]) && Hours(v[b]) == Hours(ws[b]);
    hide Hours;
    GoesToCleanest(v, p, b);
    MovingLoses(v, p, b);
  }

  /** Comparing blocks by intensity never loses carbon without a ceiling, under any forecast of
      non-negative intensities and for any process of non-negative load, exactly when no window is
      longer than one before it. */
  lemma {:induction false} NoForecastLosesExactlyWhen(ws: seq<Window>)
    ensures (forall v: seq<Window>, p: Process | SameTimes(ws, v) && NonNegativeIntensities(v) && p.loadMw >= 0.0 ::
                 SavesAlone(v, p))
       <==> NeverLonger(ws)
  {
    hide SavesAlone, Hours, NonNegativeIntensities;
    if NeverLonger(ws) {
      forall v: seq<Window>, p: Process | SameTimes(ws, v) && NonNegativeIntensities(v) && p.loadMw >= 0.0
        ensures SavesAlone(v, p)
      {
        SameLengths(ws, v);
        ShorteningSaves(v, p);
      }
    } else {
      var a, b :| 0 <= a < b < |ws| && Hours(ws[a]) < Hours(ws[b]);
      TemptingLoses(ws, a, b);
    }
  }

  lemma {:induction false} SameLengths(ws: seq<Window>, v: seq<Window>)
    requires SameTimes(ws, v)
    ensures NeverLonger(ws) ==> NeverLonger(v)
  {
    assert forall k | 0 <= k < |ws| :: Hours(ws[k]) == Hours(v[k]);
  }

  // ---- The plan -----------------------------------------------------------------

  /** Windows over which a block of lower intensity is never a block of more carbon: all of one length,
      or never longer, with intensities that are not negative. */
  ghost predicate Comparable(ws: seq<Window>) {
    (exists hours: real :: hours >= 0.0 && EqualLengths(ws, hours)) || (NeverLonger(ws) && NonNegativeIntensities(ws))
  }

  lemma {:induction false} ComparableBlocks(ws: seq<Window>, p: Process, lo: nat, s: nat)
    requires Comparable(ws) && p.loadMw >= 0.0 && lo <= s && s + Duration(p) <= |ws|
    requires Intensity(ws, s, Duration(p)) <= Intensity(ws, lo, Duration(p))
    ensures BlockCarbon(ws, p, s, Duration(p)) <= BlockCarbon(ws, p, lo, Duration(p))
  {
    hide BlockCarbon, Intensity, NeverLonger, NonNegativeIntensities, EqualLengths;
    if NeverLonger(ws) && NonNegativeIntensities(ws) {
      LaterIsNoWorse(ws, p, lo, s, Duration(p));
    } else {
      var hours: real :| hours >= 0.0 && EqualLengths(ws, hours);
      CleanerIsNoWorse(ws, p, s, lo, hours);
    }
  }

  /** Also under a ceiling: a free legal block no dirtier than the earliest one is enough. */
  lemma {:induction false} NoDirtierBlockSaves(ws: seq<Window>, rem: seq<Cap>, p: Process)
    requires |rem| == |ws| && Comparable(ws) && p.loadMw >= 0.0 && BestStart(ws, rem, p).Some?
    requires exists t: nat :: FreeNoDirtierThanEarliest(ws, rem, p, t)
    ensures PerWindowSaved(ws, p, BestStart(ws, rem, p).value) >= 0.0
  {
    hide BlockCarbon, Intensity, Fits, Comparable, FreeNoDirtierThanEarliest, FreeCleanerThanEarliest;
    var s, lo, d := BestStart(ws, rem, p).value, StartLo(p), Duration(p);
    ChosenAgainstEarliest(ws, rem, p);
    ComparableBlocks(ws, p, lo, s);
    ShareSign(BlockCarbon(ws, p, lo, d) - BlockCarbon(ws, p, s, d), d);
  }

  /** The earliest legal block was free when each of the first `n` processes had its turn, and those
      that are scheduled have no negative load. */
  ghost predicate EarliestWasFree(ws: seq<Window>, caps: seq<Cap>, ps: seq<Process>, n: nat)
    requires |caps| == |ws| && n <= |ps|
  {
    n > 0 ==>
      && EarliestWasFree(ws, caps, ps, n - 1)
      && (StartAt(ws, caps, ps, n - 1).Some? ==>
            ps[n - 1].loadMw >= 0.0 && Fits(LedgerAt(ws, caps, ps, n - 1), ps[n - 1], StartLo(ps[n - 1])))
  }

  lemma {:induction false} ChosenIsNoWorse(ws: seq<Window>, caps: seq<Cap>, ps: seq<Process>, n: nat)
    requires |caps| == |ws| && n <= |ps| && Comparable(ws)
    requires EarliestWasFree(ws, caps, ps, n)
    ensures ChosenCarbon(ws, caps, ps, n) <= EarliestCarbon(ws, caps, ps, n)
  {
    hide Comparable, BlockCarbon;
    if n > 0 {
      ChosenIsNoWorse(ws, caps, ps, n - 1);
      match StartAt(ws, caps, ps, n - 1)
      case None =>
      case Some(s) =>
        var p := ps[n - 1];
        assert !Preferred(ws, p, StartLo(p), s);
        ComparableBlocks(ws, p, StartLo(p), s);
    }
  }

  lemma {:induction false} BlockCarbonNonNegative(ws: seq<Window>, p: Process, s: nat, d: nat)
    requires s + d <= |ws| && p.loadMw >= 0.0
    requires NonNegativeIntensities(ws)
    ensures BlockCarbon(ws, p, s, d) >= 0.0
  {
    if d > 0 {
      BlockCarbonNonNegative(ws, p, s, d - 1);
      var w := ws[s + d - 1];
      ProductSign(p.loadMw, Hours(w), p.loadMw * Hours(w));
      ProductSign(p.loadMw * Hours(w), w.intensity, WindowCarbon(p, w));
    }
  }

  lemma {:induction false} ChosenNonNegative(ws: seq<Window>, caps: seq<Cap>, ps: seq<Process>, n: nat)
    requires |caps| == |ws| && n <= |ps|
    requires EarliestWasFree(ws, caps, ps, n)
    requires NonNegativeIntensities(ws)
    ensures ChosenCarbon(ws, caps, ps, n) >= 0.0
  {
    if n > 0 {
      ChosenNonNegative(ws, caps, ps, n - 1);
      match StartAt(ws, caps, ps, n - 1)
      case None =>
      case Some(s) => BlockCarbonNonNegative(ws, ps[n - 1], s, Duration(ps[n - 1]));
    }
  }

  /** `Plan.saving_pct` (ecogrid/optimizer/solver.py:101-105). */
  function SavingPct(plan: Plan): real {
    if plan.baselineKg <= 0.0 then 0.0 else 100.0 * plan.savedKg / plan.baselineKg
  }

  lemma {:induction false} PercentageInRange(saved: real, baseline: real, pct: real)
    requires 0.0 <= saved <= baseline && baseline > 0.0 && pct == 100.0 * saved / baseline
    ensures 0.0 <= pct <= 100.0
  {
    assert pct * baseline == 100.0 * saved;
    if pct < 0.0 {
      ScaledStrictly(baseline, pct, 0.0, baseline * pct, 0.0);
    } else if pct > 100.0 {
      ScaledStrictly(baseline, 100.0, pct, baseline * 100.0, baseline * pct);
    }
  }

  lemma {:induction false} AddedUpPlanSaves(ws: seq<Window>, caps: seq<Cap>, sorted: seq<Process>, plan: Plan)
    requires |caps| == |ws| && AddsUp(ws, caps, sorted, plan) && Comparable(ws)
    requires EarliestWasFree(ws, caps, sorted, |sorted|)
    ensures plan.savedKg >= 0.0
    ensures NonNegativeIntensities(ws) ==> 0.0 <= SavingPct(plan) <= 100.0
  {
    hide ChosenCarbon, EarliestCarbon, Comparable;
    ChosenIsNoWorse(ws, caps, sorted, |sorted|);
    if NonNegativeIntensities(ws) && plan.baselineKg > 0.0 {
      ChosenNonNegative(ws, caps, sorted, |sorted|);
      PercentageInRange(plan.savedKg, plan.baselineKg, SavingPct(plan));
    }
  }

  /** If every scheduled process found its earliest block free, the plan saves, over windows of one
      length or over windows that never get longer with non-negative intensities; with non-negative
      intensities the percentage is a percentage. */
  lemma {:induction false} PlanSaves(ws: seq<Window>, ps: seq<Process>, capacity: Option<seq<Cap>>, runId: string,
          solver: string)
    requires SolveSpec(ws, ps, capacity, runId, solver).Ok? && Comparable(ws)
    requires EarliestWasFree(ws, Ceiling(ws, capacity), HeaviestFirst(ps), |ps|)
    ensures var plan := SolveSpec(ws, ps, capacity, runId, solver).value;
            plan.savedKg >= 0.0 && (NonNegativeIntensities(ws) ==> 0.0 <= SavingPct(plan) <= 100.0)
  {
    hide Comparable;
    PlanAddsUp(ws, ps, capacity, runId, solver);
    var plan := SolveSpec(ws, ps, capacity, runId, solver).value;
    AddedUpPlanSaves(ws, Ceiling(ws, capacity), HeaviestFirst(ps), plan);
  }

  // ---- Where "never negative" fails -----------------------------------------

  /** A tight ceiling: the clean first window has no room, so the process moves to a
      dirtier one, and its saving is negative. */
  lemma {:induction false} TightCeilingLoses(ws: seq<Window>, caps: seq<Cap>, p: Process)
    requires ws == [Window(0, 3600000000, 10.0), Window(3600000000, 7200000000, 90.0)]
    requires caps == [Finite(0.0), Finite(5.0)] && p == Process("p", "p", 5.0, 1, 0)
    ensures BestStart(ws, caps, p) == Some(1) && PerWindowSaved(ws, p, 1) < 0.0
  {
    assert !Free(caps[0], 5.0) && Free(caps[1], 5.0);
    assert !Fits(caps, p, 0) && Fits(caps, p, 1);
    assert Legal(2, p, 1);
    assert EqualLengths(ws, 1.0);
    assert Intensity(ws, 0, 1) == Intensity(ws, 0, 0) + 10.0;
    assert Intensity(ws, 1, 1) == Intensity(ws, 1, 0) + 90.0;
    DirtierIsWorse(ws, p, 1, 0, 1.0);
    ShareSign(BlockCarbon(ws, p, 0, 1) - BlockCarbon(ws, p, 1, 1), 1);
  }

  /** Unequal lengths: the solver compares intensities, not carbon, so even without a
      ceiling it can move a process to a block that emits more. */
  lemma {:induction false} UnequalLengthsLose(ws: seq<Window>, caps: seq<Cap>, p: Process)
    requires ws == [Window(0, 3600000000, 10.0), Window(3600000000, 10800000000, 9.0)]
    requires caps == [Unlimited, Unlimited] && p == Process("p", "p", 1.0, 1, 0)
    ensures BestStart(ws, caps, p) == Some(1) && PerWindowSaved(ws, p, 1) < 0.0
  {
    assert Fits(caps, p, 0) && Fits(caps, p, 1) && Legal(2, p, 0) && Legal(2, p, 1);
    assert Intensity(ws, 0, 1) == Intensity(ws, 0, 0) + 10.0;
    assert Intensity(ws, 1, 1) == Intensity(ws, 1, 0) + 9.0;
    assert Preferred(ws, p, 1, 0);
    assert Hours(ws[0]) == 1.0 && Hours(ws[1]) == 2.0;
    assert BlockCarbon(ws, p, 0, 1) == WindowCarbon(p, ws[0]) == 10.0;
    assert BlockCarbon(ws, p, 1, 1) == WindowCarbon(p, ws[1]) == 18.0;
    ShareSign(BlockCarbon(ws, p, 0, 1) - BlockCarbon(ws, p, 1, 1), 1);
  }
}
