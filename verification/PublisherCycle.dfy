/** What one cycle does to the spool, record by record (ingest_grid.py:926-983): exactly the
    records that no acknowledgement of this cycle answered are kept, in order, and then the bound
    cuts off the oldest. */
module PublisherCycle {
  import opened Common
  import opened Records
  import opened DedupeCache
  import opened PublisherProtocol

  /** The record whose turn it is: one of the spool or one of the fetch. */
  datatype Place = Spooled(j: nat) | Fetched(j: nat)

  function PlaceOf(s: State): Option<Place> {
    match s.phase
    case Idle => None
    case Replaying(_, at, _, _) => Some(Spooled(at))
    case Publishing(_, at, _, _) => Some(Fetched(at))
  }

  /** Among the first `n` events from `s`, `kind` happened when it was the turn of `place`. */
  ghost predicate Happened(cfg: Config, s: State, es: seq<Event>, n: nat, kind: Event, place: Place)
    requires n <= |es|
  {
    exists i | 0 <= i < n :: HappenedAt(cfg, s, es, i, kind, place)
  }

  ghost predicate HappenedAt(cfg: Config, s: State, es: seq<Event>, i: nat, kind: Event, place: Place)
    requires i < |es|
  {
    es[i] == kind && After(cfg, s, es, i).Some? && PlaceOf(After(cfg, s, es, i).value) == Some(place)
  }

  /** The record was acknowledged or, being unchanged, skipped. */
  ghost predicate Answered(cfg: Config, s: State, es: seq<Event>, n: nat, place: Place)
    requires n <= |es|
  {
    Happened(cfg, s, es, n, Ack, place) || Happened(cfg, s, es, n, Skip, place)
  }

  /** The first `m` records of the spool that no acknowledgement answered, in order. */
  ghost function SpoolKept(cfg: Config, s: State, es: seq<Event>, n: nat, m: nat): seq<Record>
    requires n <= |es| && m <= |s.spool|
  {
    if m == 0 then []
    else if Happened(cfg, s, es, n, Ack, Spooled(m - 1)) then SpoolKept(cfg, s, es, n, m - 1)
    else SpoolKept(cfg, s, es, n, m - 1) + [s.spool[m - 1]]
  }

  /** The first `m` fetched records that were neither acknowledged nor skipped, in order. */
  ghost function FetchKept(cfg: Config, s: State, es: seq<Event>, n: nat, fetched: seq<Record>, m: nat): seq<Record>
    requires n <= |es| && m <= |fetched|
  {
    if m == 0 then []
    else if Answered(cfg, s, es, n, Fetched(m - 1)) then FetchKept(cfg, s, es, n, fetched, m - 1)
    else FetchKept(cfg, s, es, n, fetched, m - 1) + [fetched[m - 1]]
  }

  /** What the bound leaves of the spool when failures are added to it. */
  function Bounded(cfg: Config, spool: seq<Record>, failures: seq<Record>): seq<Record> {
    if failures == [] then spool
    else (spool + failures)[Overflow(|spool| + |failures|, cfg.spoolMax)..]
  }

  /** Where the cycle that started at `s` stands after `n` events. */
  ghost predicate Stands(cfg: Config, s: State, es: seq<Event>, n: nat, t: State)
    requires n <= |es| && s.phase.Replaying?
  {
    var fetched := s.phase.fetched;
    match t.phase
    case Replaying(f, at, still, _) =>
      f == fetched && t.spool == s.spool && at <= |s.spool| && still == SpoolKept(cfg, s, es, n, at)
    case Publishing(f, at, failures, _) =>
      f == fetched && t.spool == SpoolKept(cfg, s, es, n, |s.spool|)
      && at <= |fetched| && failures == FetchKept(cfg, s, es, n, fetched, at)
    case Idle =>
      t.spool == Bounded(cfg, SpoolKept(cfg, s, es, n, |s.spool|), FetchKept(cfg, s, es, n, fetched, |fetched|))
  }

  /** No crash, and no further cycle. */
  predicate OneCycle(es: seq<Event>, n: nat)
    requires n <= |es|
  {
    forall i | 0 <= i < n :: !es[i].Crash? && !es[i].BeginCycle?
  }

  // ---- One more event -----------------------------------------------------------

  lemma {:induction false} OneMoreEvent(cfg: Config, s: State, es: seq<Event>, n: nat, kind: Event, place: Place)
    requires n < |es|
    ensures Happened(cfg, s, es, n + 1, kind, place)
        <==> Happened(cfg, s, es, n, kind, place) || HappenedAt(cfg, s, es, n, kind, place)
  {
    hide HappenedAt;
  }

  /** An event at a later place leaves what was kept of the places before it. */
  lemma {:induction false} SpoolKeptStays(cfg: Config, s: State, es: seq<Event>, n: nat, m: nat)
    requires n < |es| && m <= |s.spool|
    requires forall j | 0 <= j < m :: !HappenedAt(cfg, s, es, n, Ack, Spooled(j))
    ensures SpoolKept(cfg, s, es, n + 1, m) == SpoolKept(cfg, s, es, n, m)
  {
    hide Happened, HappenedAt;
    if m > 0 {
      SpoolKeptStays(cfg, s, es, n, m - 1);
      OneMoreEvent(cfg, s, es, n, Ack, Spooled(m - 1));
    }
  }

  lemma {:induction false} FetchKeptStays(cfg: Config, s: State, es: seq<Event>, n: nat, fetched: seq<Record>, m: nat)
    requires n < |es| && m <= |fetched|
    requires forall j | 0 <= j < m :: !HappenedAt(cfg, s, es, n, Ack, Fetched(j))
    requires forall j | 0 <= j < m :: !HappenedAt(cfg, s, es, n, Skip, Fetched(j))
    ensures FetchKept(cfg, s, es, n + 1, fetched, m) == FetchKept(cfg, s, es, n, fetched, m)
  {
    hide Happened, HappenedAt;
    if m > 0 {
      FetchKeptStays(cfg, s, es, n, fetched, m - 1);
      OneMoreEvent(cfg, s, es, n, Ack, Fetched(m - 1));
      OneMoreEvent(cfg, s, es, n, Skip, Fetched(m - 1));
    }
  }

  /** Nothing happened yet at the places whose turn is still to come. */
  ghost predicate NothingAhead(cfg: Config, s: State, es: seq<Event>, n: nat, t: State)
    requires n <= |es|
  {
    match t.phase
    case Replaying(_, at, _, _) =>
      (forall j: nat | at <= j :: !Happened(cfg, s, es, n, Ack, Spooled(j)))
      && forall j: nat :: !Answered(cfg, s, es, n, Fetched(j))
    case Publishing(_, at, _, _) => forall j: nat | at <= j :: !Answered(cfg, s, es, n, Fetched(j))
    case Idle => true
  }

  /** What an event of a running cycle does to the spool and to whose turn it is. */
  ghost predicate Moves(cfg: Config, u: State, e: Event, t: State) {
    match u.phase
    case Idle => t.phase == Idle && t.spool == u.spool && !e.Ack? && !e.Skip?
    case Replaying(f, at, still, _) =>
      if e.Ack? || e.GiveUp? then
        at < |u.spool| && t.spool == u.spool
        && t.phase == Replaying(f, at + 1, if e.Ack? then still else still + [u.spool[at]], false)
      else if e.EndReplay? then at == |u.spool| && t.spool == still && t.phase == Publishing(f, 0, [], false)
      else !e.Skip? && t.spool == u.spool && t.phase.Replaying? && t.phase == Replaying(f, at, still, t.phase.tried)
    case Publishing(f, at, failures, _) =>
      if e.Ack? || e.Skip? || e.GiveUp? then
        at < |f| && t.spool == u.spool
        && t.phase == Publishing(f, at + 1, if e.GiveUp? then failures + [f[at]] else failures, false)
      else if e.EndPublish? then at == |f| && t.phase == Idle && t.spool == Bounded(cfg, u.spool, failures)
      else t.spool == u.spool && t.phase.Publishing? && t.phase == Publishing(f, at, failures, t.phase.tried)
  }

  lemma {:induction false} AnswersMove(cfg: Config, u: State, e: Event)
    requires Shape(cfg, u) && Enabled(cfg, u, e) && (e.Ack? || e.GiveUp?)
    ensures Moves(cfg, u, e, Step(cfg, u, e))
  {
    hide Lookup, Remember, Append, Overflow, KeysOf, Quiet, OneEntryPerKey, Bounded, Unchanged, Addressed;
    var r := Current(u).value;
    CurrentIsAddressed(cfg, u);
  }

  lemma {:induction false} CurrentIsAddressed(cfg: Config, u: State)
    requires Shape(cfg, u) && Current(u).Some?
    ensures Current(u).value.key.partition < |u.logs|
  {
    hide Lookup, OneEntryPerKey;
  }

  lemma {:induction false} EndsMove(cfg: Config, u: State, e: Event)
    requires Shape(cfg, u) && Enabled(cfg, u, e) && (e.Skip? || e.EndReplay? || e.EndPublish?)
    ensures Moves(cfg, u, e, Step(cfg, u, e))
  {
    hide Lookup, Overflow, KeysOf, Quiet, OneEntryPerKey, Addressed;
  }

  lemma {:induction false} OthersMove(cfg: Config, u: State, e: Event)
    requires Enabled(cfg, u, e) && (e.FailAttempt? || e.Land? || e.Lose? || e.Noise?)
    ensures Moves(cfg, u, e, Step(cfg, u, e))
  {
    hide Append, Bounded, Quiet, Unchanged;
  }

  lemma {:induction false} EventsMove(cfg: Config, u: State, e: Event)
    requires Shape(cfg, u) && Enabled(cfg, u, e) && !e.Crash? && !e.BeginCycle?
    ensures Moves(cfg, u, e, Step(cfg, u, e))
  {
    hide Shape, Enabled, Step, Moves;
    match e {
      case Ack => AnswersMove(cfg, u, e);
      case GiveUp => AnswersMove(cfg, u, e);
      case Skip => EndsMove(cfg, u, e);
      case EndReplay => EndsMove(cfg, u, e);
      case EndPublish => EndsMove(cfg, u, e);
      case _ => OthersMove(cfg, u, e);
    }
  }

  /** What the next event adds to what happened. */
  lemma {:induction false} NextHappened(cfg: Config, s: State, es: seq<Event>, n: nat, u: State)
    requires n < |es| && After(cfg, s, es, n) == Some(u)
    ensures forall kind, place ::
              HappenedAt(cfg, s, es, n, kind, place) <==> es[n] == kind && PlaceOf(u) == Some(place)
    ensures forall kind, place ::
              Happened(cfg, s, es, n + 1, kind, place)
              <==> Happened(cfg, s, es, n, kind, place) || (es[n] == kind && PlaceOf(u) == Some(place))
  {
    hide Happened, After;
    forall kind, place
      ensures Happened(cfg, s, es, n + 1, kind, place)
         <==> Happened(cfg, s, es, n, kind, place) || (es[n] == kind && PlaceOf(u) == Some(place)) {
      OneMoreEvent(cfg, s, es, n, kind, place);
    }
  }

  lemma {:induction false} StillNothingAhead(cfg: Config, s: State, es: seq<Event>, n: nat, u: State, t: State)
    requires n < |es| && After(cfg, s, es, n) == Some(u)
    requires NothingAhead(cfg, s, es, n, u) && Moves(cfg, u, es[n], t)
    ensures NothingAhead(cfg, s, es, n + 1, t)
  {
    hide Happened, HappenedAt, After, Bounded;
    NextHappened(cfg, s, es, n, u);
  }

  /** Whether the record whose turn it is was answered, once its turn is over. */
  lemma {:induction false} AnswerOf(cfg: Config, s: State, es: seq<Event>, n: nat, u: State, place: Place)
    requires n < |es| && After(cfg, s, es, n) == Some(u) && PlaceOf(u) == Some(place)
    requires NothingAhead(cfg, s, es, n, u)
    ensures Happened(cfg, s, es, n + 1, Ack, place) <==> es[n].Ack?
    ensures u.phase.Publishing? ==> (Answered(cfg, s, es, n + 1, place) <==> es[n].Ack? || es[n].Skip?)
  {
    hide Happened, HappenedAt, After;
    NextHappened(cfg, s, es, n, u);
    if u.phase.Publishing? {
      assert !Answered(cfg, s, es, n, Fetched(u.phase.at));
    } else {
      assert !Happened(cfg, s, es, n, Ack, Spooled(u.phase.at));
    }
  }

  lemma {:induction false} EarlierPlacesStay(cfg: Config, s: State, es: seq<Event>, n: nat, u: State)
    requires n < |es| && s.phase.Replaying? && After(cfg, s, es, n) == Some(u) && Stands(cfg, s, es, n, u)
    ensures u.phase.Replaying? ==> SpoolKept(cfg, s, es, n + 1, u.phase.at) == SpoolKept(cfg, s, es, n, u.phase.at)
    ensures u.phase.Publishing? ==>
              && SpoolKept(cfg, s, es, n + 1, |s.spool|) == SpoolKept(cfg, s, es, n, |s.spool|)
              && FetchKept(cfg, s, es, n + 1, s.phase.fetched, u.phase.at)
                 == FetchKept(cfg, s, es, n, s.phase.fetched, u.phase.at)
  {
    hide Happened, HappenedAt, After, Bounded, SpoolKept, FetchKept;
    NextHappened(cfg, s, es, n, u);
    if u.phase.Replaying? {
      SpoolKeptStays(cfg, s, es, n, u.phase.at);
    } else if u.phase.Publishing? {
      SpoolKeptStays(cfg, s, es, n, |s.spool|);
      FetchKeptStays(cfg, s, es, n, s.phase.fetched, u.phase.at);
    }
  }

  lemma {:induction false} ReplayTurn(cfg: Config, s: State, es: seq<Event>, n: nat, u: State, t: State)
    requires n < |es| && s.phase.Replaying? && After(cfg, s, es, n) == Some(u) && u.phase.Replaying?
    requires Stands(cfg, s, es, n, u) && NothingAhead(cfg, s, es, n, u) && Moves(cfg, u, es[n], t)
    ensures Stands(cfg, s, es, n + 1, t)
  {
    hide Happened, HappenedAt, After, Bounded, NothingAhead, Answered;
    AnswerOf(cfg, s, es, n, u, Spooled(u.phase.at));
    EarlierPlacesStay(cfg, s, es, n, u);
  }

  lemma {:induction false} PublishTurn(cfg: Config, s: State, es: seq<Event>, n: nat, u: State, t: State)
    requires n < |es| && s.phase.Replaying? && After(cfg, s, es, n) == Some(u) && u.phase.Publishing?
    requires Stands(cfg, s, es, n, u) && NothingAhead(cfg, s, es, n, u) && Moves(cfg, u, es[n], t)
    ensures Stands(cfg, s, es, n + 1, t)
  {
    hide Happened, HappenedAt, After, Bounded, NothingAhead, Answered, SpoolKept;
    AnswerOf(cfg, s, es, n, u, Fetched(u.phase.at));
    EarlierPlacesStay(cfg, s, es, n, u);
  }

  lemma {:induction false} IdleTurn(cfg: Config, s: State, es: seq<Event>, n: nat, u: State, t: State)
    requires n < |es| && s.phase.Replaying? && After(cfg, s, es, n) == Some(u) && u.phase.Idle?
    requires Stands(cfg, s, es, n, u) && Moves(cfg, u, es[n], t)
    ensures Stands(cfg, s, es, n + 1, t)
  {
    hide Happened, After, Bounded, SpoolKept, FetchKept;
    SpoolKeptStays(cfg, s, es, n, |s.spool|);
    FetchKeptStays(cfg, s, es, n, s.phase.fetched, |s.phase.fetched|);
  }

  /** In a cycle without a crash, from its start on and whatever the sends met with: while the spool
      is replayed, the records kept so far are exactly those no acknowledgement answered; then they
      are the spool, and the failures are exactly the fetched records neither acknowledged nor
      skipped; and in the end the spool is both, in order, less the oldest that the bound cut off. */
  lemma {:induction false} CycleKeepsExactlyTheUnanswered(cfg: Config, s: State, es: seq<Event>, n: nat)
    requires Shape(cfg, s) && s.phase.Replaying? && s.phase == Replaying(s.phase.fetched, 0, [], false)
    requires n <= |es| && OneCycle(es, n) && After(cfg, s, es, n).Some?
    ensures var t := After(cfg, s, es, n).value;
            Shape(cfg, t) && Stands(cfg, s, es, n, t) && NothingAhead(cfg, s, es, n, t)
  {
    hide Shape, Enabled, Step, Moves, Stands, NothingAhead;
    if n == 0 {
      CycleStarts(cfg, s, es);
    } else {
      CycleKeepsExactlyTheUnanswered(cfg, s, es, n - 1);
      var u, e := After(cfg, s, es, n - 1).value, es[n - 1];
      StepKeepsShape(cfg, u, e);
      EventsMove(cfg, u, e);
      StillNothingAhead(cfg, s, es, n - 1, u, Step(cfg, u, e));
      match u.phase {
        case Idle => IdleTurn(cfg, s, es, n - 1, u, Step(cfg, u, e));
        case Replaying(_, _, _, _) => ReplayTurn(cfg, s, es, n - 1, u, Step(cfg, u, e));
        case Publishing(_, _, _, _) => PublishTurn(cfg, s, es, n - 1, u, Step(cfg, u, e));
      }
    }
  }

  lemma {:induction false} CycleStarts(cfg: Config, s: State, es: seq<Event>)
    requires s.phase.Replaying? && s.phase == Replaying(s.phase.fetched, 0, [], false)
    ensures Stands(cfg, s, es, 0, s) && NothingAhead(cfg, s, es, 0, s)
  {
  }

  // ---- Why a record leaves the spool ----------------------------------------------

  lemma {:induction false} SpoolKeptOr(cfg: Config, s: State, es: seq<Event>, n: nat, m: nat, j: nat)
    requires n <= |es| && j < m <= |s.spool|
    ensures Happened(cfg, s, es, n, Ack, Spooled(j)) || s.spool[j] in SpoolKept(cfg, s, es, n, m)
  {
    hide Happened;
    if j < m - 1 {
      SpoolKeptOr(cfg, s, es, n, m - 1, j);
    }
  }

  lemma {:induction false} FetchKeptOr(cfg: Config, s: State, es: seq<Event>, n: nat, fetched: seq<Record>, m: nat,
          j: nat)
    requires n <= |es| && j < m <= |fetched|
    ensures Answered(cfg, s, es, n, Fetched(j)) || fetched[j] in FetchKept(cfg, s, es, n, fetched, m)
  {
    hide Answered;
    if j < m - 1 {
      FetchKeptOr(cfg, s, es, n, fetched, m - 1, j);
    }
  }

  /** The records that the bound cuts off. */
  function CutOff(cfg: Config, spool: seq<Record>, failures: seq<Record>): seq<Record> {
    if failures == [] then [] else (spool + failures)[..Overflow(|spool| + |failures|, cfg.spoolMax)]
  }

  lemma {:induction false} BoundedOrCut(cfg: Config, spool: seq<Record>, failures: seq<Record>, r: Record)
    requires r in spool || r in failures
    ensures r in Bounded(cfg, spool, failures) || r in CutOff(cfg, spool, failures)
  {
    hide Overflow;
    var all := spool + failures;
    var cut := Overflow(|all|, cfg.spoolMax);
    assert all == all[..cut] + all[cut..];
    assert r in all;
  }

  /** Once a cycle has ended, every record it found in the spool was acknowledged in this replay, is
      still in the spool, or was among the oldest that the bound cut off. */
  lemma {:induction false} SpooledRecordsLeaveForAReason(cfg: Config, s: State, es: seq<Event>, n: nat, j: nat)
    requires Shape(cfg, s) && s.phase.Replaying? && s.phase == Replaying(s.phase.fetched, 0, [], false)
    requires n <= |es| && OneCycle(es, n) && After(cfg, s, es, n).Some? && After(cfg, s, es, n).value.phase.Idle?
    requires j < |s.spool|
    ensures var kept := SpoolKept(cfg, s, es, n, |s.spool|);
            var failures := FetchKept(cfg, s, es, n, s.phase.fetched, |s.phase.fetched|);
            || Happened(cfg, s, es, n, Ack, Spooled(j))
            || s.spool[j] in After(cfg, s, es, n).value.spool
            || s.spool[j] in CutOff(cfg, kept, failures)
  {
    hide Happened, After, Shape, Bounded, CutOff, NothingAhead, SpoolKept, FetchKept;
    CycleKeepsExactlyTheUnanswered(cfg, s, es, n);
    SpoolKeptOr(cfg, s, es, n, |s.spool|, j);
    var kept := SpoolKept(cfg, s, es, n, |s.spool|);
    if s.spool[j] in kept {
      BoundedOrCut(cfg, kept, FetchKept(cfg, s, es, n, s.phase.fetched, |s.phase.fetched|), s.spool[j]);
    }
  }

  /** And every record it fetched was acknowledged, was skipped as unchanged, is in the spool, or was
      cut off. */
  lemma {:induction false} FetchedRecordsAreKept(cfg: Config, s: State, es: seq<Event>, n: nat, j: nat)
    requires Shape(cfg, s) && s.phase.Replaying? && s.phase == Replaying(s.phase.fetched, 0, [], false)
    requires n <= |es| && OneCycle(es, n) && After(cfg, s, es, n).Some? && After(cfg, s, es, n).value.phase.Idle?
    requires j < |s.phase.fetched|
    ensures var kept := SpoolKept(cfg, s, es, n, |s.spool|);
            var failures := FetchKept(cfg, s, es, n, s.phase.fetched, |s.phase.fetched|);
            || Answered(cfg, s, es, n, Fetched(j))
            || s.phase.fetched[j] in After(cfg, s, es, n).value.spool
            || s.phase.fetched[j] in CutOff(cfg, kept, failures)
  {
    hide Answered, After, Shape, Bounded, CutOff, NothingAhead, SpoolKept, FetchKept;
    CycleKeepsExactlyTheUnanswered(cfg, s, es, n);
    FetchKeptOr(cfg, s, es, n, s.phase.fetched, |s.phase.fetched|, j);
    var failures := FetchKept(cfg, s, es, n, s.phase.fetched, |s.phase.fetched|);
    if s.phase.fetched[j] in failures {
      BoundedOrCut(cfg, SpoolKept(cfg, s, es, n, |s.spool|), failures, s.phase.fetched[j]);
    }
  }

  /** Outside the end of a replay and the end of a cycle nothing touches the spool: not a fetch, a
      send, a late landing or a crash. */
  lemma {:induction false} OnlyTheEndsTouchTheSpool(cfg: Config, s: State, e: Event)
    requires Enabled(cfg, s, e) && !e.EndReplay? && !e.EndPublish?
    ensures Step(cfg, s, e).spool == s.spool
  {
    hide Lookup, Remember, Append, Quiet;
  }
}
