/** Bounded retries: how long a send may take, counting timeouts and sleeps
    (ingest_grid.py:444-450, 875-924, ecogrid/plant/bridge.py:264-302). */
module Retry {
  import opened Common

  /** `base` doubled `n` times. */
  function Doubled(base: real, n: nat): real {
    if n == 0 then base else 2.0 * Doubled(base, n - 1)
  }

  function Ceiling(attempt: int, base: real, cap: real): real {
    MinReal(Doubled(base, if attempt <= 1 then 0 else attempt - 1), cap)
  }

  /** `backoff_delay`, with the random draw as a number from 0 to 1. */
  function BackoffDelay(attempt: int, base: real, cap: real, draw: real): real {
    var ceiling := Ceiling(attempt, base, cap);
    if ceiling > 0.0 then base * 0.5 + (ceiling - base * 0.5) * draw else 0.0
  }

  lemma {:induction false} Between(a: real, b: real, u: real)
    requires 0.0 <= u <= 1.0
    ensures MinReal(a, b) <= a + (b - a) * u <= MaxReal(a, b)
  {
    var p := (b - a) * u;
    if a <= b {
      Scaled(b - a, u, p);
    } else {
      ScaledDown(b - a, u, p);
    }
  }

  lemma {:induction false} Scaled(d: real, u: real, p: real)
    requires d >= 0.0 && 0.0 <= u <= 1.0 && p == d * u
    ensures 0.0 <= p <= d
  {
    NonNegativeProduct(d, u, p);
    NonNegativeProduct(d, 1.0 - u, d - p);
  }

  lemma {:induction false} ScaledDown(d: real, u: real, p: real)
    requires d <= 0.0 && 0.0 <= u <= 1.0 && p == d * u
    ensures d <= p <= 0.0
  {
    Scaled(-d, u, -p);
  }

  lemma {:induction false} NonNegativeProduct(x: real, y: real, xy: real)
    requires x >= 0.0 && y >= 0.0 && xy == x * y
    ensures xy >= 0.0
  {
  }

  lemma {:induction false} DoubledGrows(base: real, n: nat)
    requires base > 0.0
    ensures Doubled(base, n) >= base
  {
    if n > 0 {
      DoubledGrows(base, n - 1);
    }
  }

  /** The delay is at least half the base and at most its ceiling, unless the cap is below half
      the base. */
  lemma {:induction false} DelayIsBounded(attempt: int, base: real, cap: real, draw: real)
    requires cap >= base * 0.5 > 0.0 && 0.0 <= draw <= 1.0
    ensures base * 0.5 <= BackoffDelay(attempt, base, cap, draw) <= Ceiling(attempt, base, cap) <= cap
  {
    DoubledGrows(base, if attempt <= 1 then 0 else attempt - 1);
    Between(base * 0.5, Ceiling(attempt, base, cap), draw);
  }

  function PowerOfTwo(n: nat): nat {
    if n == 0 then 1 else 2 * PowerOfTwo(n - 1)
  }

  /** `base * 2 ^ n`. */
  function Exponential(base: real, n: nat): real {
    base * PowerOfTwo(n) as real
  }

  lemma {:induction false} DoubledMeans(base: real, n: nat)
    ensures Doubled(base, n) == Exponential(base, n)
  {
    if n > 0 {
      DoubledMeans(base, n - 1);
      var p := PowerOfTwo(n - 1);
      assert PowerOfTwo(n) as real == 2.0 * p as real;
      Twice(base, p as real);
    }
  }

  lemma {:induction false} Twice(x: real, y: real)
    ensures x * (2.0 * y) == 2.0 * (x * y)
  {
  }

  /** The range of the draw: from half the base to `min(base * 2 ^ (attempt - 1), cap)`, each reached, and
      halfway between them at its middle. */
  lemma {:induction false} DelayReaches(attempt: int, base: real, cap: real)
    requires attempt >= 1 && base > 0.0 && cap > 0.0
    ensures var top := MinReal(Exponential(base, attempt - 1), cap);
            && BackoffDelay(attempt, base, cap, 1.0) == top
            && BackoffDelay(attempt, base, cap, 0.0) == base * 0.5
            && BackoffDelay(attempt, base, cap, 0.5) == (base * 0.5 + top) * 0.5
  {
    DoubledMeans(base, attempt - 1);
    DoubledGrows(base, attempt - 1);
    hide BackoffDelay, Doubled, Exponential;
    Drawn(attempt, base, cap);
  }

  lemma {:induction false} Drawn(attempt: int, base: real, cap: real)
    requires Ceiling(attempt, base, cap) > 0.0
    ensures BackoffDelay(attempt, base, cap, 1.0) == Ceiling(attempt, base, cap)
    ensures BackoffDelay(attempt, base, cap, 0.0) == base * 0.5
    ensures BackoffDelay(attempt, base, cap, 0.5) == (base * 0.5 + Ceiling(attempt, base, cap)) * 0.5
  {
    hide Ceiling;
  }

  /** "Clamped to `cap`" fails, for some draw, exactly when the cap is below half the base while
      the ceiling is positive, or the cap is negative. */
  lemma {:induction false} DelayCanExceedCapExactlyWhen(attempt: int, base: real, cap: real)
    ensures (exists draw: real :: 0.0 <= draw <= 1.0 && BackoffDelay(attempt, base, cap, draw) > cap)
       <==> (if Ceiling(attempt, base, cap) > 0.0 then cap < base * 0.5 else cap < 0.0)
  {
    var ceiling := Ceiling(attempt, base, cap);
    forall draw: real | 0.0 <= draw <= 1.0 && BackoffDelay(attempt, base, cap, draw) > cap
      ensures if ceiling > 0.0 then cap < base * 0.5 else cap < 0.0 {
      Between(base * 0.5, ceiling, draw);
    }
    assert BackoffDelay(attempt, base, cap, 0.0) == if ceiling > 0.0 then base * 0.5 else 0.0;
  }

  // ---- A whole send -----------------------------------------------------------

  /** One attempt: how long it took, whether it was acknowledged, and the draw for the sleep
      after it. */
  datatype Attempt = Attempt(seconds: real, acked: bool, draw: real)

  /** What `wait_for` and `random.uniform` guarantee. */
  predicate Timed(script: seq<Attempt>, timeout: real) {
    forall i | 0 <= i < |script| :: 0.0 <= script[i].seconds <= timeout && 0.0 <= script[i].draw <= 1.0
  }

  datatype Backoff = Jittered(base: real, cap: real) | Plain(base: real, cap: real)

  /** The sleep after a failed attempt: with jitter in the grid worker, without in the bridge. */
  function Sleep(b: Backoff, attempt: int, draw: real): real {
    match b
    case Jittered(base, cap) => BackoffDelay(attempt, base, cap, draw)
    case Plain(base, cap) => Ceiling(attempt, base, cap)
  }

  predicate Sane(b: Backoff) {
    b.cap >= b.base * 0.5 > 0.0
  }

  function Times(n: int, x: real): real {
    n as real * x
  }

  /** What `k` sleeps may come to: `min(base * (2 ^ k - 1), k * cap)`. */
  function SleepBound(b: Backoff, k: nat): real {
    MinReal(Doubled(b.base, k) - b.base, Times(k, b.cap))
  }

  /** `n * timeout + min(base * (2 ^ (n - 1) - 1), (n - 1) * cap)`. */
  function TimeBound(b: Backoff, n: nat, timeout: real): real
    requires n >= 1
  {
    Times(n, timeout) + SleepBound(b, n - 1)
  }

  lemma {:induction false} OneMore(n: int, x: real)
    ensures Times(0, x) == 0.0 && Times(n - 1, x) + x == Times(n, x)
  {
    assert (n - 1) as real + 1.0 == n as real;
  }

  /** The bridge sleeps the base doubled once for each earlier attempt, or the cap if that is less; the grid
      worker at most that and at least half the base. */
  lemma {:induction false} SleepMeans(b: Backoff, attempt: int, draw: real)
    requires attempt >= 1 && Sane(b) && 0.0 <= draw <= 1.0
    ensures var longest := MinReal(Exponential(b.base, attempt - 1), b.cap);
            && (b.Plain? ==> Sleep(b, attempt, draw) == longest)
            && (b.Jittered? ==> b.base * 0.5 <= Sleep(b, attempt, draw) <= longest)
  {
    hide Exponential, Doubled, BackoffDelay;
    DoubledMeans(b.base, attempt - 1);
    DelayIsBounded(attempt, b.base, b.cap, draw);
  }

  /** The sleep after the `k`th attempt fits into the bound. */
  lemma {:induction false} SleepAdds(b: Backoff, k: nat, draw: real)
    requires Sane(b) && k >= 1 && 0.0 <= draw <= 1.0
    ensures 0.0 <= Sleep(b, k, draw) && SleepBound(b, k - 1) + Sleep(b, k, draw) <= SleepBound(b, k)
  {
    hide Times;
    DelayIsBounded(k, b.base, b.cap, draw);
    DoubledGrows(b.base, k - 1);
    OneMore(k, b.cap);
  }

  /** An earlier success takes no longer than the bound for all the attempts. */
  lemma {:induction false} BoundsGrow(k: nat, n: nat, timeout: real, b: Backoff)
    requires 1 <= k <= n && Sane(b) && timeout >= 0.0
    ensures Times(k, timeout) <= Times(n, timeout) && SleepBound(b, k - 1) <= SleepBound(b, n - 1)
    decreases n
  {
    hide Times, SleepBound, Sleep;
    if k < n {
      BoundsGrow(k, n - 1, timeout, b);
      OneMore(n, timeout);
      SleepAdds(b, n - 1, 0.0);
    }
  }

  lemma {:induction false} NoSleep(b: Backoff)
    ensures SleepBound(b, 0) == 0.0
  {
  }

  /** The time from the attempt with index `i` on: attempts until one is acknowledged, with a
      sleep after each failed one but the last. */
  function ElapsedFrom(b: Backoff, script: seq<Attempt>, i: nat): real
    requires i <= |script|
    decreases |script| - i
  {
    if i == |script| then 0.0
    else if script[i].acked then script[i].seconds
    else script[i].seconds + (if i + 1 < |script| then Sleep(b, i + 1, script[i].draw) else 0.0)
         + ElapsedFrom(b, script, i + 1)
  }

  /** `_send_with_retry`, and the bridge's `_publish`: the script holds as many attempts as the
      settings allow. */
  method SendWithRetry(b: Backoff, script: seq<Attempt>) returns (ok: bool, elapsed: real)
    ensures ok <==> exists i | 0 <= i < |script| :: script[i].acked
    ensures elapsed == ElapsedFrom(b, script, 0)
  {
    hide Sleep;
    var attempt := 1;
    ok, elapsed := false, 0.0;
    while attempt <= |script|
      invariant 1 <= attempt <= |script| + 1
      invariant forall i | 0 <= i < attempt - 1 :: !script[i].acked
      invariant elapsed + ElapsedFrom(b, script, attempt - 1) == ElapsedFrom(b, script, 0)
    {
      var tried := script[attempt - 1];
      elapsed := elapsed + tried.seconds;
      if tried.acked {
        return true, elapsed;
      }
      if attempt < |script| {
        elapsed := elapsed + Sleep(b, attempt, tried.draw);
      }
      attempt := attempt + 1;
    }
  }

  /** What the attempts from `i` to before `k` took. */
  function Tried(script: seq<Attempt>, i: nat, k: nat): real
    requires i <= k <= |script|
  {
    if i == k then 0.0 else Tried(script, i, k - 1) + script[k - 1].seconds
  }

  /** What the sleeps after them took. */
  function Slept(b: Backoff, script: seq<Attempt>, i: nat, k: nat): real
    requires i <= k <= |script|
  {
    if i == k then 0.0 else Slept(b, script, i, k - 1) + Sleep(b, k, script[k - 1].draw)
  }

  lemma {:induction false} FromTheFront(b: Backoff, script: seq<Attempt>, i: nat, k: nat)
    requires i < k <= |script|
    ensures Tried(script, i, k) == script[i].seconds + Tried(script, i + 1, k)
    ensures Slept(b, script, i, k) == Sleep(b, i + 1, script[i].draw) + Slept(b, script, i + 1, k)
    decreases k
  {
    hide Sleep;
    if i + 1 < k {
      FromTheFront(b, script, i, k - 1);
    } else {
      NothingYet(b, script, i);
      NothingYet(b, script, i + 1);
    }
  }

  lemma {:induction false} NothingYet(b: Backoff, script: seq<Attempt>, i: nat)
    requires i <= |script|
    ensures Tried(script, i, i) == 0.0 == Slept(b, script, i, i)
  {
  }

  /** The time is that of the attempts up to the first acknowledged one, or of all of them, and of one
      sleep after each of these but the last. */
  lemma {:induction false} ElapsedIs(b: Backoff, script: seq<Attempt>, i: nat, last: nat)
    requires i <= last < |script| && (script[last].acked || last == |script| - 1)
    requires forall j | i <= j < last :: !script[j].acked
    ensures ElapsedFrom(b, script, i) == Tried(script, i, last + 1) + Slept(b, script, i, last)
    decreases last - i
  {
    hide Sleep;
    FromTheFront(b, script, i, last + 1);
    NothingYet(b, script, last);
    NothingYet(b, script, last + 1);
    if i < last {
      ElapsedIs(b, script, i + 1, last);
      FromTheFront(b, script, i, last);
    }
  }

  lemma {:induction false} RestIsBounded(b: Backoff, script: seq<Attempt>, timeout: real, i: nat)
    requires Sane(b) && Timed(script, timeout) && i < |script|
    ensures 0.0 <= ElapsedFrom(b, script, i)
         <= Times(|script| - i, timeout) + SleepBound(b, |script| - 1) - SleepBound(b, i)
    decreases |script| - i
  {
    hide Sleep, Times, SleepBound, Sane;
    var n := |script|;
    assert 0.0 <= script[i].seconds <= timeout;
    OneMore(n - i, timeout);
    OneMore(1, timeout);
    BoundsGrow(1, n - i, timeout, b);
    BoundsGrow(i + 1, n, timeout, b);
    if !script[i].acked && i + 1 < n {
      SleepAdds(b, i + 1, script[i].draw);
      RestIsBounded(b, script, timeout, i + 1);
    }
  }

  /** With a cap of at least half a positive base, no outcome of the attempts takes longer. */
  lemma {:induction false} SendIsBounded(b: Backoff, script: seq<Attempt>, timeout: real)
    requires Sane(b) && Timed(script, timeout) && script != []
    ensures 0.0 <= ElapsedFrom(b, script, 0) <= TimeBound(b, |script|, timeout)
  {
    hide Times, SleepBound, Sane;
    NoSleep(b);
    RestIsBounded(b, script, timeout, 0);
  }

  /** With the settings that both senders come with (five attempts of fifteen seconds, a base of
      one second and a cap of thirty), a send is over within a minute and a half. */
  lemma {:induction false} StandardSendTakesAtMost(b: Backoff)
    requires b.base == 1.0 && b.cap == 30.0
    ensures Sane(b) && TimeBound(b, 5, 15.0) == 90.0
  {
    assert Doubled(1.0, 0) == 1.0 && Doubled(1.0, 1) == 2.0 && Doubled(1.0, 2) == 4.0;
    assert Doubled(1.0, 3) == 8.0 && Doubled(1.0, 4) == 16.0;
  }

  /** And the bridge takes that long when all its attempts time out: the sleeps are one, two, four and
      eight seconds, and there is none after the last. */
  lemma {:induction false} BridgeTakesThatLong(script: seq<Attempt>)
    requires |script| == 5 && forall i | 0 <= i < 5 :: script[i].seconds == 15.0 && !script[i].acked
    ensures ElapsedFrom(Plain(1.0, 30.0), script, 0) == 90.0
  {
    var b := Plain(1.0, 30.0);
    assert Doubled(1.0, 0) == 1.0 && Doubled(1.0, 1) == 2.0 && Doubled(1.0, 2) == 4.0 && Doubled(1.0, 3) == 8.0;
    assert ElapsedFrom(b, script, 4) == 15.0;
    assert ElapsedFrom(b, script, 3) == 38.0;
    assert ElapsedFrom(b, script, 2) == 57.0;
    assert ElapsedFrom(b, script, 1) == 74.0;
  }
}
