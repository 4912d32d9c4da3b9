/** The fixed-window rate limiter over a store whose entries expire
    (ecogrid/ratelimit.py:34-75). The store and the limiter share one clock. */
module RateLimiter {
  import opened Common

  /** One request; `up` says whether the store answered. */
  datatype Request = Request(identity: string, now: real, up: bool)

  datatype RateLimitResult = RateLimitResult(allowed: bool, limit: int, remaining: int, resetAfterSeconds: int)

  /** A counter and the moment the store forgets it. */
  datatype Counter = Counter(count: nat, expires: real)

  type Slot = (string, int)

  type Store = map<Slot, Counter>

  datatype Limits = Limits(limit: int, window: int, enabled: bool)

  /** What the settings allow (ecogrid/config.py:85-87). */
  predicate Sane(l: Limits) {
    l.limit >= 1 && l.window >= 1
  }

  function Bucket(window: int, now: real): int
    requires window >= 1
  {
    (now / window as real).Floor
  }

  /** `INCR`: an entry that has expired counts from nothing. */
  function Used(store: Store, slot: Slot, now: real): nat {
    1 + if slot in store && now < store[slot].expires then store[slot].count else 0
  }

  /** What the store still holds at `now`: an entry is gone from the moment it expires. */
  function Live(store: Store, now: real): Store {
    map slot | slot in store && store[slot].expires > now :: store[slot]
  }

  /** Entries that have expired make no difference. */
  lemma {:induction false} ExpiredEntriesDoNotCount(store: Store, slot: Slot, now: real)
    ensures Used(store, slot, now) == Used(Live(store, now), slot, now)
         == 1 + if slot in Live(store, now) then Live(store, now)[slot].count else 0
  {
  }

  /** `INCR` and then `EXPIRE` of one window and a second. */
  function Increment(store: Store, slot: Slot, now: real, window: int): Store {
    store[slot := Counter(Used(store, slot, now), now + (window + 1) as real)]
  }

  /** Seconds until the next window, as whole seconds, or one. */
  function ResetAfter(window: int, now: real): int
    requires window >= 1
  {
    var left := ((Bucket(window, now) + 1) * window) as real - now;
    if left.Floor != 0 then left.Floor else 1
  }

  /** `RateLimiter`, and the store it counts in. */
  class Limiter {
    var store: Store
    const limits: Limits

    constructor (limits: Limits)
      ensures this.limits == limits && store == map[]
    {
      this.limits, store := limits, map[];
    }

    /** `check`. Disabled, or with the store down, everything is allowed. */
    method Check(identity: string, now: real, up: bool) returns (r: RateLimitResult)
      requires Sane(limits)
      modifies this
      ensures store == After(limits, old(store), Request(identity, now, up))
      ensures r.allowed == Allows(limits, old(store), Request(identity, now, up)) && r.limit == limits.limit
      ensures limits.enabled && up ==>
                var used := Used(old(store), (identity, Bucket(limits.window, now)), now);
                && (r.allowed <==> used <= limits.limit)
                && r.resetAfterSeconds == ResetAfter(limits.window, now)
                && r.remaining == if limits.limit < used then 0 else limits.limit - used
      ensures !limits.enabled || !up ==>
                r.allowed && r.remaining == limits.limit && r.resetAfterSeconds == 0 && store == old(store)
    {
      if !limits.enabled {
        return RateLimitResult(true, limits.limit, limits.limit, 0);
      }
      var slot := (identity, Bucket(limits.window, now));
      if !up {
        return RateLimitResult(true, limits.limit, limits.limit, 0);
      }
      var used := Used(store, slot, now);
      store := Increment(store, slot, now, limits.window);
      var remaining := Max(0, limits.limit - used);
      r := RateLimitResult(used <= limits.limit, limits.limit, remaining, ResetAfter(limits.window, now));
    }
  }

  // ---- Runs -----------------------------------------------------------------

  function After(l: Limits, store: Store, q: Request): Store
    requires Sane(l)
  {
    if l.enabled && q.up then Increment(store, (q.identity, Bucket(l.window, q.now)), q.now, l.window) else store
  }

  predicate Allows(l: Limits, store: Store, q: Request)
    requires Sane(l)
  {
    l.enabled && q.up ==> Used(store, (q.identity, Bucket(l.window, q.now)), q.now) <= l.limit
  }

  function StoreAfter(l: Limits, qs: seq<Request>, n: nat): Store
    requires Sane(l) && n <= |qs|
  {
    if n == 0 then map[] else After(l, StoreAfter(l, qs, n - 1), qs[n - 1])
  }

  /** Whether the limiter let the `i`th request of the run through. */
  predicate Passed(l: Limits, qs: seq<Request>, i: nat)
    requires Sane(l) && i < |qs|
  {
    Allows(l, StoreAfter(l, qs, i), qs[i])
  }

  predicate Ordered(qs: seq<Request>) {
    forall i, j | 0 <= i <= j < |qs| :: qs[i].now <= qs[j].now
  }

  predicate InSlot(l: Limits, q: Request, id: string, b: int)
    requires Sane(l)
  {
    q.up && q.identity == id && Bucket(l.window, q.now) == b
  }

  /** How many of the first `n` requests reached the store for `id` in window `b`. */
  function Count(l: Limits, qs: seq<Request>, n: nat, id: string, b: int): nat
    requires Sane(l) && n <= |qs|
  {
    if n == 0 then 0 else Count(l, qs, n - 1, id, b) + if InSlot(l, qs[n - 1], id, b) then 1 else 0
  }

  lemma {:induction false} BucketBounds(window: int, now: real)
    requires window >= 1
    ensures var b := Bucket(window, now); (b * window) as real <= now < ((b + 1) * window) as real
  {
    var w := window as real;
    var q := now / w;
    var b := q.Floor;
    var low, high := b as real * w, (b + 1) as real * w;
    Quotient(now, w, q);
    Scale(b as real, q, w, low, now);
    ScaleStrictly(q, (b + 1) as real, w, now, high);
    Products(b, window);
    Products(b + 1, window);
  }

  lemma {:induction false} Quotient(x: real, w: real, q: real)
    requires w > 0.0 && q == x / w
    ensures x == q * w
  {
  }

  lemma {:induction false} Scale(a: real, b: real, w: real, aw: real, bw: real)
    requires a <= b && w > 0.0 && aw == a * w && bw == b * w
    ensures aw <= bw
  {
    Product(b - a, w, bw - aw);
  }

  lemma {:induction false} ScaleStrictly(a: real, b: real, w: real, aw: real, bw: real)
    requires a < b && w > 0.0 && aw == a * w && bw == b * w
    ensures aw < bw
  {
    Product(b - a, w, bw - aw);
  }

  lemma {:induction false} Product(x: real, y: real, xy: real)
    requires x >= 0.0 && y > 0.0 && xy == x * y
    ensures xy >= 0.0 && (x > 0.0 ==> xy > 0.0)
  {
  }

  lemma {:induction false} Products(b: int, window: int)
    ensures (b * window) as real == b as real * window as real
  {
  }

  /** A later moment is in the same window or a later one, and `n` windows later in exactly the
      `n`th next one. */
  lemma {:induction false} BucketGrows(window: int, s: real, t: real)
    requires window >= 1 && s <= t
    ensures Bucket(window, s) <= Bucket(window, t)
  {
    var w := window as real;
    Divide(s, t, w);
  }

  lemma {:induction false} Divide(s: real, t: real, w: real)
    requires s <= t && w > 0.0
    ensures s / w <= t / w
  {
  }

  lemma {:induction false} BucketAfter(window: int, s: real, n: nat)
    requires window >= 1
    ensures Bucket(window, s + (n * window) as real) == Bucket(window, s) + n
  {
    var w := window as real;
    Products(n, window);
    Shift(s, n as real, w);
    assert (s + (n * window) as real) / w == s / w + n as real;
    FloorShift(s / w, n);
  }

  lemma {:induction false} FloorShift(x: real, n: nat)
    ensures (x + n as real).Floor == x.Floor + n
  {
  }

  lemma {:induction false} Shift(s: real, n: real, w: real)
    requires w > 0.0
    ensures (s + n * w) / w == s / w + n
  {
  }

  /** The entry of a window holds its exact count, outlives the window and is forgotten no later than a
      second after the next one. */
  ghost predicate Exact(l: Limits, qs: seq<Request>, n: nat, id: string, b: int)
    requires Sane(l) && n <= |qs|
  {
    var c := Count(l, qs, n, id, b);
    var store := StoreAfter(l, qs, n);
    && (c == 0 ==> (id, b) !in store)
    && (c > 0 ==>
          && (id, b) in store && store[(id, b)].count == c
          && ((b + 1) * l.window) as real < store[(id, b)].expires < ((b + 2) * l.window + 1) as real)
  }

  lemma {:induction false} CountsAreExact(l: Limits, qs: seq<Request>, n: nat, id: string, b: int)
    requires Sane(l) && l.enabled && Ordered(qs) && n <= |qs|
    ensures Exact(l, qs, n, id, b)
  {
    if n > 0 {
      CountsAreExact(l, qs, n - 1, id, b);
      if InSlot(l, qs[n - 1], id, b) {
        hide Bucket;
        EntryOutlives(l.window, qs[n - 1].now);
      }
    }
  }

  lemma {:induction false} EntryOutlives(window: int, now: real)
    requires window >= 1
    ensures var b := Bucket(window, now);
            && now < ((b + 1) * window) as real < now + (window + 1) as real
            && now + (window + 1) as real < ((b + 2) * window + 1) as real
  {
    hide Bucket;
    BucketBounds(window, now);
    var b := Bucket(window, now);
    assert (b + 1) * window == b * window + window;
    assert (b + 2) * window == (b + 1) * window + window;
  }

  /** On a clock that never goes back, the expiry never loses a count: of the requests that reach
      the store for one identity in one window, exactly the first `limit` pass. */
  lemma {:induction false} FirstLimitPass(l: Limits, qs: seq<Request>, i: nat)
    requires Sane(l) && l.enabled && Ordered(qs) && i < |qs| && qs[i].up
    ensures var b := Bucket(l.window, qs[i].now);
            && (Passed(l, qs, i) <==> Count(l, qs, i, qs[i].identity, b) < l.limit)
            && Used(StoreAfter(l, qs, i), (qs[i].identity, b), qs[i].now) == Count(l, qs, i, qs[i].identity, b) + 1
  {
    hide Bucket, Count, StoreAfter;
    var b := Bucket(l.window, qs[i].now);
    CountsAreExact(l, qs, i, qs[i].identity, b);
    BucketBounds(l.window, qs[i].now);
  }

  // ---- How many pass in an interval -------------------------------------------

  /** How many of the first `n` requests passed for `id` through the store in window `b`. */
  function PassedIn(l: Limits, qs: seq<Request>, n: nat, id: string, b: int): nat
    requires Sane(l) && n <= |qs|
  {
    if n == 0 then 0
    else PassedIn(l, qs, n - 1, id, b) + if InSlot(l, qs[n - 1], id, b) && Passed(l, qs, n - 1) then 1 else 0
  }

  lemma {:induction false} PassedInIsBounded(l: Limits, qs: seq<Request>, n: nat, id: string, b: int)
    requires Sane(l) && l.enabled && Ordered(qs) && n <= |qs|
    ensures PassedIn(l, qs, n, id, b) == if Count(l, qs, n, id, b) < l.limit then Count(l, qs, n, id, b) else l.limit
  {
    hide Bucket, Passed;
    if n > 0 {
      PassedInIsBounded(l, qs, n - 1, id, b);
      if InSlot(l, qs[n - 1], id, b) {
        FirstLimitPass(l, qs, n - 1);
      }
    }
  }

  /** How many of the first `n` requests passed for `id` through the store from `lo` to `hi`. */
  function PassedBetween(l: Limits, qs: seq<Request>, n: nat, id: string, lo: real, hi: real): nat
    requires Sane(l) && n <= |qs|
  {
    if n == 0 then 0
    else PassedBetween(l, qs, n - 1, id, lo, hi)
         + if qs[n - 1].up && qs[n - 1].identity == id && lo <= qs[n - 1].now <= hi && Passed(l, qs, n - 1) then 1
           else 0
  }

  /** The same summed over the `m` windows from `b` on. */
  function PassedOver(l: Limits, qs: seq<Request>, n: nat, id: string, b: int, m: nat): nat
    requires Sane(l) && n <= |qs|
  {
    if m == 0 then 0 else PassedOver(l, qs, n, id, b, m - 1) + PassedIn(l, qs, n, id, b + m - 1)
  }

  lemma {:induction false} OneMoreRequest(l: Limits, qs: seq<Request>, n: nat, id: string, b: int, m: nat)
    requires Sane(l) && 0 < n <= |qs|
    ensures var q := qs[n - 1];
            PassedOver(l, qs, n, id, b, m) == PassedOver(l, qs, n - 1, id, b, m)
              + if q.up && q.identity == id && b <= Bucket(l.window, q.now) < b + m && Passed(l, qs, n - 1) then 1
                else 0
  {
    hide Bucket, Passed;
    if m > 0 {
      OneMoreRequest(l, qs, n, id, b, m - 1);
    }
  }

  lemma {:induction false} IntervalWithinWindows(l: Limits, qs: seq<Request>, n: nat, id: string, lo: real,
          hi: real, m: nat)
    requires Sane(l) && n <= |qs| && Bucket(l.window, hi) < Bucket(l.window, lo) + m
    ensures PassedBetween(l, qs, n, id, lo, hi) <= PassedOver(l, qs, n, id, Bucket(l.window, lo), m)
  {
    hide Bucket, Passed, PassedOver;
    if n > 0 {
      IntervalWithinWindows(l, qs, n - 1, id, lo, hi, m);
      OneMoreRequest(l, qs, n, id, Bucket(l.window, lo), m);
      if lo <= qs[n - 1].now <= hi {
        BucketGrows(l.window, lo, qs[n - 1].now);
        BucketGrows(l.window, qs[n - 1].now, hi);
      }
    }
  }

  lemma {:induction false} WindowsAreBounded(l: Limits, qs: seq<Request>, n: nat, id: string, b: int, m: nat)
    requires Sane(l) && l.enabled && Ordered(qs) && n <= |qs|
    ensures PassedOver(l, qs, n, id, b, m) <= m * l.limit
  {
    hide PassedIn, Count;
    if m > 0 {
      WindowsAreBounded(l, qs, n, id, b, m - 1);
      PassedInIsBounded(l, qs, n, id, b + m - 1);
      assert m * l.limit == (m - 1) * l.limit + l.limit;
    }
  }

  /** From any moment, no more than `(n + 1) * limit` requests of an identity pass the store in
      `n` window lengths: twice the limit in one. */
  lemma {:induction false} PassesAreBounded(l: Limits, qs: seq<Request>, id: string, lo: real, n: nat)
    requires Sane(l) && l.enabled && Ordered(qs)
    ensures PassedBetween(l, qs, |qs|, id, lo, lo + (n * l.window) as real) <= (n + 1) * l.limit
  {
    hide Bucket, PassedBetween, PassedOver;
    BucketAfter(l.window, lo, n);
    IntervalWithinWindows(l, qs, |qs|, id, lo, lo + (n * l.window) as real, n + 1);
    WindowsAreBounded(l, qs, |qs|, id, Bucket(l.window, lo), n + 1);
  }

  /** Requests just before and at a window's end. */
  function Burst(l: Limits, id: string): (qs: seq<Request>)
    requires Sane(l)
  {
    seq(2 * l.limit, i requires 0 <= i < 2 * l.limit =>
      Request(id, if i < l.limit then l.window as real - 0.5 else l.window as real, true))
  }

  lemma {:induction false} BurstCounts(l: Limits, id: string, n: nat)
    requires Sane(l) && n <= |Burst(l, id)|
    ensures Count(l, Burst(l, id), n, id, 0) == if n < l.limit then n else l.limit
    ensures Count(l, Burst(l, id), n, id, 1) == if n < l.limit then 0 else n - l.limit
  {
    hide Bucket;
    BurstBuckets(l.window);
    if n > 0 {
      BurstCounts(l, id, n - 1);
    }
  }

  lemma {:induction false} BurstBuckets(window: int)
    requires window >= 1
    ensures Bucket(window, window as real) == 1 && Bucket(window, window as real - 0.5) == 0
  {
    BucketBounds(window, window as real);
    BucketBounds(window, window as real - 0.5);
    BucketAfter(window, 0.0, 1);
    BucketGrows(window, 0.0, window as real - 0.5);
  }

  /** The bound is reached: twice the limit can pass within half a second. */
  lemma {:induction false} TwiceTheLimitCanPass(l: Limits, id: string, n: nat)
    requires Sane(l) && l.enabled && n <= |Burst(l, id)|
    ensures PassedBetween(l, Burst(l, id), n, id, l.window as real - 0.5, l.window as real) == n
  {
    hide Bucket, Passed, Count;
    BurstBuckets(l.window);
    if n > 0 {
      TwiceTheLimitCanPass(l, id, n - 1);
      BurstCounts(l, id, n - 1);
      FirstLimitPass(l, Burst(l, id), n - 1);
    }
  }

  /** Waiting the advised time reaches the next window exactly when what is left of this one is a
      whole number of seconds or less than one. With a second or more left it is at most that and
      less than a second short of it; with less left it is one second. */
  lemma {:induction false} AdviceIsEnoughExactlyWhen(window: int, now: real)
    requires window >= 1
    ensures var end := ((Bucket(window, now) + 1) * window) as real;
            now + ResetAfter(window, now) as real >= end
            <==> end - now < 1.0 || (end - now).Floor as real == end - now
    ensures 1 <= ResetAfter(window, now) <= window
    ensures var left := ((Bucket(window, now) + 1) * window) as real - now;
            if left >= 1.0 then ResetAfter(window, now) as real <= left < ResetAfter(window, now) as real + 1.0
            else ResetAfter(window, now) == 1
  {
    hide Bucket;
    BucketBounds(window, now);
    var b := Bucket(window, now);
    assert (b + 1) * window == b * window + window;
  }
}
