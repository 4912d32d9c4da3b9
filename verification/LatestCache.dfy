/** The one-entry cache of the newest window (ecogrid/cache.py:23-91), and the read that falls
    back to the table (ecogrid/api.py:401-429). */
module LatestCache {
  import opened Common

  /** A window as the API returns it. `start` is its parsed start, if that can be parsed;
      `body` is everything else. */
  datatype Payload = Payload(start: Option<int>, body: string)

  /** What may be found under the key. */
  datatype Content = Window(payload: Payload) | OtherJson | Corrupt

  /** The entry, and when the store drops it, if ever. */
  datatype Entry = Entry(content: Content, expires: Option<real>)

  /** Which commands the store answers during a call. */
  datatype Faults = Faults(get: bool, put: bool, delete: bool)

  const NO_FAULT := Faults(true, true, true)

  function Live(entry: Option<Entry>, now: real): Option<Content> {
    match entry
    case None => None
    case Some(e) => if e.expires.Some? && e.expires.value <= now then None else Some(e.content)
  }

  function Expiry(now: real, ttl: int): Option<real> {
    if ttl > 0 then Some(now + ttl as real) else None
  }

  /** Whether a stored window keeps `p` out. */
  predicate Blocks(found: Option<Content>, p: Payload) {
    && p.start.Some? && found.Some? && found.value.Window? && found.value.payload.start.Some?
    && found.value.payload.start.value >= p.start.value
  }

  /** What offering `p` leaves under the key when the store answers. */
  function Offered(entry: Option<Entry>, p: Payload, now: real, ttl: int): Option<Entry> {
    var found := Live(entry, now);
    if p.start.None? then entry
    else if Blocks(found, p) then entry
    else Some(Entry(Window(p), Expiry(now, ttl)))
  }

  /** `TelemetryCache`, and the key it owns. */
  class TelemetryCache {
    var entry: Option<Entry>
    const ttl: int

    constructor (ttl: int)
      ensures this.ttl == ttl && entry == None
    {
      this.ttl, entry := ttl, None;
    }

    /** `get_latest`. A corrupt entry is dropped. */
    method GetLatest(now: real, faults: Faults) returns (p: Option<Payload>)
      modifies this
      ensures p == if faults.get && Live(old(entry), now).Some? && Live(old(entry), now).value.Window?
                   then Some(Live(old(entry), now).value.payload) else None
      ensures entry == if faults.get && faults.delete && Live(old(entry), now) == Some(Corrupt) then None
                       else old(entry)
    {
      if !faults.get {
        return None;
      }
      var found := Live(entry, now);
      match found {
        case None => return None;
        case Some(Corrupt) => {
          Invalidate(faults);
          return None;
        }
        case Some(OtherJson) => return None;
        case Some(Window(payload)) => return Some(payload);
      }
    }

    /** `set_latest_if_newer`: a strictly newer start, or nothing readable to compare with. */
    method SetLatestIfNewer(p: Payload, now: real, faults: Faults) returns (stored: bool)
      modifies this
      ensures stored ==> entry == Some(Entry(Window(p), Expiry(now, ttl)))
      ensures stored <==> p.start.Some? && faults.put && !(faults.get && Blocks(Live(old(entry), now), p))
      ensures !stored ==>
                entry == old(entry) || (faults.get && faults.delete && Live(old(entry), now) == Some(Corrupt))
      ensures faults == NO_FAULT ==> entry == Offered(old(entry), p, now, ttl)
    {
      if p.start.None? {
        return false;
      }
      var current := GetLatest(now, faults);
      if current.Some? && current.value.start.Some? && current.value.start.value >= p.start.value {
        return false;
      }
      if !faults.put {
        return false;
      }
      entry := Some(Entry(Window(p), Expiry(now, ttl)));
      stored := true;
    }

    method Invalidate(faults: Faults)
      modifies this
      ensures entry == if faults.delete then None else old(entry)
    {
      if faults.delete {
        entry := None;
      }
    }

    /** `latest_telemetry`: a cached window that still validates, or else the newest row, which is
        then offered to the cache. `NotFound` is the 404 of an empty table. */
    method LatestTelemetry(newest: Option<Payload>, validates: Payload -> bool, now: real, faults: Faults)
      returns (r: Result<Payload, ReadError>)
      modifies this
      ensures var cached := if faults.get && Live(old(entry), now).Some? && Live(old(entry), now).value.Window?
                            then Some(Live(old(entry), now).value.payload) else None;
              && (cached.Some? && validates(cached.value) ==> r == Ok(cached.value) && entry == old(entry))
              && (!(cached.Some? && validates(cached.value)) ==>
                    r == if newest.None? then Err(NotFound) else Ok(newest.value))
              && (faults == NO_FAULT && newest.Some? && !(cached.Some? && validates(cached.value)) ==>
                    var evicted := cached.Some? || Live(old(entry), now) == Some(Corrupt);
                    entry == Offered(if evicted then None else old(entry), newest.value, now, ttl))
    {
      var cached := GetLatest(now, faults);
      if cached.Some? {
        if validates(cached.value) {
          return Ok(cached.value);
        }
        Invalidate(faults);
      }
      if newest.None? {
        return Err(NotFound);
      }
      var stored := SetLatestIfNewer(newest.value, now, faults);
      r := Ok(newest.value);
    }
  }

  datatype ReadError = NotFound

  // ---- Between two evictions ----------------------------------------------------

  /** An offer to the cache, or an eviction. */
  datatype Call = Offer(payload: Payload, now: real) | Evict

  function EntryAfter(ttl: int, calls: seq<Call>, n: nat): Option<Entry>
    requires n <= |calls|
  {
    if n == 0 then None
    else match calls[n - 1]
         case Evict => None
         case Offer(p, now) => Offered(EntryAfter(ttl, calls, n - 1), p, now, ttl)
  }

  /** From the call with index `from` up to the `n`th, nothing was evicted, by hand or by
      expiry: a call finds a live entry exactly when something that can be dated was offered
      since. */
  predicate Undisturbed(ttl: int, calls: seq<Call>, from: nat, n: nat)
    requires from <= n <= |calls|
  {
    forall i | from <= i < n ::
      calls[i].Offer? && (Live(EntryAfter(ttl, calls, i), calls[i].now).Some? <==> Dated(calls, from, i))
  }

  /** Some offer since `from` had a start that can be parsed. */
  predicate Dated(calls: seq<Call>, from: nat, n: nat)
    requires from <= n <= |calls|
  {
    exists i | from <= i < n :: calls[i].Offer? && calls[i].payload.start.Some?
  }

  /** `i` is the first offer since `from` with the greatest start. */
  predicate FirstGreatest(calls: seq<Call>, from: nat, n: nat, i: nat)
    requires from <= n <= |calls|
  {
    && from <= i < n && calls[i].Offer? && calls[i].payload.start.Some?
    && (forall j | from <= j < n && calls[j].Offer? && calls[j].payload.start.Some? ::
          calls[j].payload.start.value <= calls[i].payload.start.value)
    && (forall j | from <= j < i && calls[j].Offer? && calls[j].payload.start.Some? ::
          calls[j].payload.start.value < calls[i].payload.start.value)
  }

  /** Between two evictions the cache holds the first payload offered with the greatest start
      offered since the last one; so its start never falls, and a revision of the newest window
      does not replace what is there. */
  lemma {:induction false} CacheHoldsTheGreatest(ttl: int, calls: seq<Call>, from: nat, n: nat) returns (i: nat)
    requires from <= n <= |calls| && Undisturbed(ttl, calls, from, n) && Dated(calls, from, n)
    ensures FirstGreatest(calls, from, n, i)
    ensures EntryAfter(ttl, calls, n).Some? && EntryAfter(ttl, calls, n).value.content == Window(calls[i].payload)
  {
    hide FirstGreatest, Live, EntryAfter, Dated, Offered;
    DatedHasCalls(calls, from, n);
    var was := EntryAfter(ttl, calls, n - 1);
    assert calls[n - 1].Offer?;
    assert Live(was, calls[n - 1].now).Some? <==> Dated(calls, from, n - 1);
    LastOffer(ttl, calls, n);
    LastDated(calls, from, n);
    if !Dated(calls, from, n - 1) {
      i := n - 1;
      FirstOne(calls, from, n);
    } else {
      i := CacheHoldsTheGreatest(ttl, calls, from, n - 1);
      LiveContent(was, calls[n - 1].now);
      i := NextGreatest(calls, from, n, i);
    }
  }

  // ---- When nothing expires -----------------------------------------------------

  /** The clock does not go back. */
  predicate Ordered(calls: seq<Call>) {
    forall i, j | 0 <= i <= j < |calls| && calls[i].Offer? && calls[j].Offer? :: calls[i].now <= calls[j].now
  }

  /** The call with index `from` comes first, or follows an eviction, or comes so late that whatever
      was stored before it has expired. */
  predicate AfterEviction(ttl: int, calls: seq<Call>, from: nat)
    requires from < |calls|
  {
    || from == 0 || calls[from - 1].Evict?
    || (ttl > 0 && calls[from].Offer?
        && forall j | 0 <= j < from && calls[j].Offer? :: calls[j].now + ttl as real <= calls[from].now)
  }

  /** From there on there are only offers, all within one lifetime of an entry if entries expire. */
  predicate WithinLifetime(ttl: int, calls: seq<Call>, from: nat, n: nat)
    requires from < n <= |calls|
  {
    && (forall i | from <= i < n :: calls[i].Offer?)
    && (ttl > 0 ==> forall i | from <= i < n :: calls[i].now < calls[from].now + ttl as real)
  }

  /** An entry was stored at one of the calls, and its expiry counts from there. */
  lemma {:induction false} EntryHasOrigin(ttl: int, calls: seq<Call>, n: nat) returns (j: nat)
    requires n <= |calls| && EntryAfter(ttl, calls, n).Some?
    ensures j < n && calls[j].Offer? && calls[j].payload.start.Some? && forall i | j < i < n :: calls[i].Offer?
    ensures EntryAfter(ttl, calls, n) == Some(Entry(Window(calls[j].payload), Expiry(calls[j].now, ttl)))
  {
    if EntryAfter(ttl, calls, n) == EntryAfter(ttl, calls, n - 1) {
      j := EntryHasOrigin(ttl, calls, n - 1);
    } else {
      j := n - 1;
    }
  }

  /** If nothing that can be dated was offered since `from`, the entry is the one found there. */
  lemma {:induction false} UndatedStoresNothing(ttl: int, calls: seq<Call>, from: nat, i: nat)
    requires from <= i <= |calls| && !Dated(calls, from, i) && forall j | from <= j < i :: calls[j].Offer?
    ensures EntryAfter(ttl, calls, i) == EntryAfter(ttl, calls, from)
  {
    hide Live;
    if from < i {
      UndatedStoresNothing(ttl, calls, from, i - 1);
    }
  }

  lemma {:induction false} NothingLiveYet(ttl: int, calls: seq<Call>, from: nat, i: nat)
    requires Ordered(calls) && from <= i < |calls| && calls[i].Offer? && AfterEviction(ttl, calls, from)
    requires !Dated(calls, from, i) && forall j | from <= j < i :: calls[j].Offer?
    ensures Live(EntryAfter(ttl, calls, i), calls[i].now).None?
  {
    hide Dated;
    UndatedStoresNothing(ttl, calls, from, i);
    if EntryAfter(ttl, calls, from).Some? {
      var j := EntryHasOrigin(ttl, calls, from);
    }
  }

  lemma {:induction false} LiveOnceDated(ttl: int, calls: seq<Call>, from: nat, i: nat)
    requires Ordered(calls) && from < i < |calls| && WithinLifetime(ttl, calls, from, i + 1)
    requires AfterEviction(ttl, calls, from) && Dated(calls, from, i)
    ensures EntryAfter(ttl, calls, i).Some? && Live(EntryAfter(ttl, calls, i), calls[i].now).Some?
    decreases i
  {
    hide Dated;
    var e := StoredSince(ttl, calls, from, i);
  }

  /** Something stored since `from` is what the entry is. */
  lemma {:induction false} StoredSince(ttl: int, calls: seq<Call>, from: nat, i: nat) returns (e: nat)
    requires Ordered(calls) && from < i < |calls| && WithinLifetime(ttl, calls, from, i + 1)
    requires AfterEviction(ttl, calls, from) && Dated(calls, from, i)
    ensures from <= e < i && EntryAfter(ttl, calls, i).Some?
    ensures EntryAfter(ttl, calls, i).value.expires == Expiry(calls[e].now, ttl)
    decreases i
  {
    hide Dated, AfterEviction, Live;
    LastDated(calls, from, i);
    if Dated(calls, from, i - 1) {
      DatedHasCalls(calls, from, i - 1);
      e := StoredSince(ttl, calls, from, i - 1);
      if EntryAfter(ttl, calls, i) != EntryAfter(ttl, calls, i - 1) {
        e := i - 1;
      }
    } else {
      NothingLiveYet(ttl, calls, from, i - 1);
      e := i - 1;
    }
  }

  /** On a clock that does not go back, the calls that follow an eviction within one lifetime of an
      entry are undisturbed. */
  lemma {:induction false} WithinLifetimeIsUndisturbed(ttl: int, calls: seq<Call>, from: nat, n: nat)
    requires Ordered(calls) && from < n <= |calls|
    requires AfterEviction(ttl, calls, from) && WithinLifetime(ttl, calls, from, n)
    ensures Undisturbed(ttl, calls, from, n)
  {
    hide Dated, Live, EntryAfter, AfterEviction;
    forall i | from <= i < n
      ensures Live(EntryAfter(ttl, calls, i), calls[i].now).Some? <==> Dated(calls, from, i) {
      if Dated(calls, from, i) {
        DatedHasCalls(calls, from, i);
        LiveOnceDated(ttl, calls, from, i);
      } else {
        NothingLiveYet(ttl, calls, from, i);
      }
    }
  }

  /** So, from the clock and the lifetime alone, the cache then holds the first payload offered with
      the greatest start. */
  lemma {:induction false} GreatestWithinLifetime(ttl: int, calls: seq<Call>, from: nat, n: nat) returns (i: nat)
    requires Ordered(calls) && from < n <= |calls| && Dated(calls, from, n)
    requires AfterEviction(ttl, calls, from) && WithinLifetime(ttl, calls, from, n)
    ensures FirstGreatest(calls, from, n, i)
    ensures EntryAfter(ttl, calls, n).Some? && EntryAfter(ttl, calls, n).value.content == Window(calls[i].payload)
  {
    hide FirstGreatest, EntryAfter, Dated, AfterEviction, WithinLifetime, Undisturbed;
    WithinLifetimeIsUndisturbed(ttl, calls, from, n);
    i := CacheHoldsTheGreatest(ttl, calls, from, n);
  }

  lemma {:induction false} DatedHasCalls(calls: seq<Call>, from: nat, n: nat)
    requires from <= n <= |calls| && Dated(calls, from, n)
    ensures from < n
  {
  }

  lemma {:induction false} LiveContent(entry: Option<Entry>, now: real)
    ensures Live(entry, now).Some? ==> entry.Some? && Live(entry, now).value == entry.value.content
  {
  }

  /** What the last offer did. */
  lemma {:induction false} LastOffer(ttl: int, calls: seq<Call>, n: nat)
    requires 0 < n <= |calls| && calls[n - 1].Offer?
    ensures var p, found := calls[n - 1].payload, Live(EntryAfter(ttl, calls, n - 1), calls[n - 1].now);
            if p.start.None? || Blocks(found, p) then EntryAfter(ttl, calls, n) == EntryAfter(ttl, calls, n - 1)
            else EntryAfter(ttl, calls, n).Some? && EntryAfter(ttl, calls, n).value.content == Window(p)
  {
    hide Live;
  }

  lemma {:induction false} LastDated(calls: seq<Call>, from: nat, n: nat)
    requires from < n <= |calls| && calls[n - 1].Offer?
    ensures Dated(calls, from, n) <==> Dated(calls, from, n - 1) || calls[n - 1].payload.start.Some?
  {
  }

  lemma {:induction false} FirstOne(calls: seq<Call>, from: nat, n: nat)
    requires from < n <= |calls| && calls[n - 1].Offer? && calls[n - 1].payload.start.Some?
    requires !Dated(calls, from, n - 1)
    ensures FirstGreatest(calls, from, n, n - 1)
  {
  }

  lemma {:induction false} NextGreatest(calls: seq<Call>, from: nat, n: nat, was: nat) returns (i: nat)
    requires from < n <= |calls| && calls[n - 1].Offer? && FirstGreatest(calls, from, n - 1, was)
    ensures FirstGreatest(calls, from, n, i) && calls[was].Offer? && calls[was].payload.start.Some?
    ensures var last := calls[n - 1].payload.start;
            i == if last.Some? && calls[was].payload.start.value < last.value then n - 1 else was
  {
    var last := calls[n - 1].payload.start;
    i := if last.Some? && calls[was].payload.start.value < last.value then n - 1 else was;
  }
}
