/** What the dedupe dictionary saves: which fetched records are sent, and what a cycle leaves
    remembered for the next one (ingest_grid.py:938-958, 985-989, ecogrid/plant/bridge.py:236-254). */
module PublisherDedupe {
  import opened Common
  import opened Records
  import opened DedupeCache
  import opened PublisherProtocol
  import opened PublisherTurns

  /** The dictionary holds the digest of every one of the records. */
  ghost predicate AllRemembered(c: Cache, rs: seq<Record>) {
    forall i | 0 <= i < |rs| :: Lookup(c, rs[i].key) == Some(DigestOf(rs[i]))
  }

  // ---- One fetched record's turn ----------------------------------------------

  /** The turn of the `n`th fetched record. */
  ghost predicate TurnOf(cfg: Config, s: State, fetched: seq<Record>, n: nat) {
    && Shape(cfg, s) && s.inflight == multiset{} && s.phase.Publishing?
    && s.phase.fetched == fetched && s.phase.at == n && !s.phase.tried
  }

  /** A fetched record is skipped exactly when unchanged windows are suppressed and the dictionary holds
      its digest, and then leaves everything else as it was; otherwise it is sent. */
  lemma {:induction false} FetchedTurn(cfg: Config, s: State, fetched: seq<Record>, script: seq<Attempts>, n: nat)
    requires n < |fetched| && n < |script| && TurnOf(cfg, HandledUpTo(cfg, s, script, n), fetched, n)
    ensures TurnOf(cfg, HandledUpTo(cfg, s, script, n + 1), fetched, n + 1)
    ensures var t, t', r := HandledUpTo(cfg, s, script, n), HandledUpTo(cfg, s, script, n + 1), fetched[n];
            && r.key.partition < |t.logs|
            && if !cfg.publishUnchanged && Lookup(t.cache, r.key) == Some(DigestOf(r)) then
                 && t'.logs == t.logs && t'.cache == t.cache && t'.spool == t.spool
                 && t'.phase.failures == t.phase.failures
                 && Acks(cfg, s, script, n + 1) == Acks(cfg, s, script, n)
                 && Skips(cfg, s, script, n + 1) == Skips(cfg, s, script, n) + 1
               else
                 var ok := AckedFrom(script[n], 0);
                 && t'.logs == LogsAfter(t.logs, r, script[n], 0) && t'.spool == t.spool
                 && t'.cache == (if ok then Remember(t.cache, r.key, DigestOf(r), cfg.grid) else t.cache)
                 && t'.phase.failures == (if ok then t.phase.failures else t.phase.failures + [r])
                 && Acks(cfg, s, script, n + 1) == Acks(cfg, s, script, n) + (if ok then 1 else 0)
                 && Skips(cfg, s, script, n + 1) == Skips(cfg, s, script, n)
  {
    hide Shape, Do, Lookup, Remember, LogsAfter, AckedFrom;
    var t, r := HandledUpTo(cfg, s, script, n), fetched[n];
    Ready(cfg, t, r);
    if Unchanged(cfg, t) {
      SkipMeaning(cfg, t);
    } else {
      SentMeaning(cfg, t, r, script[n], 0);
      SentKeepsShape(cfg, t, script[n], r);
    }
  }

  // ---- A fetch that is remembered already ---------------------------------------

  lemma {:induction false} NothingToSend(cfg: Config, s: State, fetched: seq<Record>, script: seq<Attempts>, n: nat)
    requires n <= |fetched| && n <= |script| && TurnOf(cfg, s, fetched, 0)
    requires n > 0 ==> !cfg.publishUnchanged
    requires forall i | 0 <= i < n :: Lookup(s.cache, fetched[i].key) == Some(DigestOf(fetched[i]))
    ensures var t := HandledUpTo(cfg, s, script, n);
            && TurnOf(cfg, t, fetched, n)
            && t.logs == s.logs && t.cache == s.cache && t.spool == s.spool && t.phase.failures == s.phase.failures
    ensures Acks(cfg, s, script, n) == 0 && Skips(cfg, s, script, n) == n
  {
    hide TurnOf, Lookup;
    if n > 0 {
      NothingToSend(cfg, s, fetched, script, n - 1);
      FetchedTurn(cfg, s, fetched, script, n - 1);
    }
  }

  /** Publishing a fetch that the dictionary holds sends nothing, and every record of it is skipped. */
  lemma {:induction false} RememberedFetchIsNotSent(cfg: Config, s: State, fetched: seq<Record>, script: seq<Attempts>)
    requires |script| >= |fetched| && TurnOf(cfg, s, fetched, 0) && s.phase.failures == []
    requires !cfg.publishUnchanged && AllRemembered(s.cache, fetched)
    ensures var t := PublishSpec(cfg, s, fetched, script);
            t.logs == s.logs && t.cache == s.cache && t.spool == s.spool
    ensures HandledUpTo(cfg, s, script, |fetched|).phase == Publishing(fetched, |fetched|, [], false)
    ensures Acks(cfg, s, script, |fetched|) == 0 && Skips(cfg, s, script, |fetched|) == |fetched|
  {
    hide Lookup, Do, HandledUpTo, Acks, Skips, Shape;
    NothingToSend(cfg, s, fetched, script, |fetched|);
    EndPublishMeaning(cfg, HandledUpTo(cfg, s, script, |fetched|));
  }

  lemma {:induction false} FetchIsSilent(cfg: Config, s: State, fetched: seq<Record>, script: seq<Attempts>)
    requires |script| >= |fetched| && Shape(cfg, s) && s.inflight == multiset{}
    requires s.phase == Publishing(fetched, 0, [], false)
    ensures !cfg.publishUnchanged && AllRemembered(s.cache, fetched) ==>
              && PublishSpec(cfg, s, fetched, script).logs == s.logs
              && PublishSpec(cfg, s, fetched, script).cache == s.cache
              && HandledUpTo(cfg, s, script, |fetched|).phase == Publishing(fetched, |fetched|, [], false)
              && Acks(cfg, s, script, |fetched|) == 0
  {
    hide Shape, HandledUpTo, Acks, Skips, AllRemembered, PublishSpec;
    if !cfg.publishUnchanged && AllRemembered(s.cache, fetched) {
      RememberedFetchIsNotSent(cfg, s, fetched, script);
    }
  }

  /** No attempts for any record but the `i`th, whose first one is acknowledged. */
  function OnlyOne(size: nat, i: nat): (script: seq<Attempts>)
    ensures |script| == size
  {
    seq(size, j => if j == i then [Acked] else [])
  }

  lemma {:induction false} OneIsSent(cfg: Config, s: State, fetched: seq<Record>, i: nat, n: nat)
    requires i < n <= |fetched| && TurnOf(cfg, s, fetched, 0)
    requires forall j | 0 <= j < i :: Lookup(s.cache, fetched[j].key) == Some(DigestOf(fetched[j]))
    requires cfg.publishUnchanged ==> i == 0
    requires cfg.publishUnchanged || Lookup(s.cache, fetched[i].key) != Some(DigestOf(fetched[i]))
    ensures TurnOf(cfg, HandledUpTo(cfg, s, OnlyOne(|fetched|, i), n), fetched, n)
    ensures fetched[i].key.partition < |s.logs|
    ensures HandledUpTo(cfg, s, OnlyOne(|fetched|, i), n).logs
         == Append(s.logs, fetched[i].key.partition, Telemetry(fetched[i]))
    decreases n
  {
    hide TurnOf, Lookup, Append, Remember, LogsAfter, AckedFrom, HandledUpTo, Acks, Skips;
    var script := OnlyOne(|fetched|, i);
    if n - 1 > i {
      OneIsSent(cfg, s, fetched, i, n - 1);
      var t := HandledUpTo(cfg, s, script, n - 1);
      FetchedTurn(cfg, s, fetched, script, n - 1);
      FewAttempts(t.logs, fetched[n - 1]);
    } else {
      NothingToSend(cfg, s, fetched, script, i);
      FetchedTurn(cfg, s, fetched, script, i);
      FewAttempts(s.logs, fetched[i]);
    }
  }

  lemma {:induction false} FewAttempts(logs: seq<Log>, r: Record)
    requires r.key.partition < |logs|
    ensures LogsAfter(logs, r, [], 0) == logs
    ensures LogsAfter(logs, r, [Acked], 0) == Append(logs, r.key.partition, Telemetry(r))
  {
  }

  lemma {:induction false} AppendShows(logs: seq<Log>, p: nat, m: Message)
    requires p < |logs|
    ensures Append(logs, p, m) != logs
  {
    assert |Append(logs, p, m)[p]| == |logs[p]| + 1;
  }

  /** Publishing a fetch leaves the topic as it was, whatever the broker does, exactly when there is
      nothing to publish or unchanged windows are suppressed and the dictionary holds them all. */
  lemma {:induction false} NothingIsSentExactlyWhen(cfg: Config, s: State, fetched: seq<Record>)
    requires TurnOf(cfg, s, fetched, 0) && s.phase.failures == []
    ensures (forall script: seq<Attempts> | |script| == |fetched| ::
                 PublishSpec(cfg, s, fetched, script).logs == s.logs)
       <==> fetched == [] || (!cfg.publishUnchanged && AllRemembered(s.cache, fetched))
  {
    hide Lookup, Do, HandledUpTo, TurnOf, Append;
    if fetched == [] || (!cfg.publishUnchanged && AllRemembered(s.cache, fetched)) {
      forall script: seq<Attempts> | |script| == |fetched| ensures PublishSpec(cfg, s, fetched, script).logs == s.logs {
        if fetched == [] {
          NothingIsHandled(cfg, s, fetched, script);
        } else {
          RememberedFetchIsNotSent(cfg, s, fetched, script);
        }
      }
    } else {
      var i := if cfg.publishUnchanged then 0 else FirstForgotten(s.cache, fetched, |fetched|);
      var script := OnlyOne(|fetched|, i);
      OneIsSent(cfg, s, fetched, i, |fetched|);
      TurnsEnd(cfg, HandledUpTo(cfg, s, script, |fetched|), fetched);
      AppendShows(s.logs, fetched[i].key.partition, Telemetry(fetched[i]));
    }
  }

  lemma {:induction false} NothingIsHandled(cfg: Config, s: State, fetched: seq<Record>, script: seq<Attempts>)
    requires TurnOf(cfg, s, fetched, 0) && fetched == [] && |script| == 0
    ensures PublishSpec(cfg, s, fetched, script).logs == s.logs
  {
    EndPublishMeaning(cfg, s);
  }

  lemma {:induction false} TurnsEnd(cfg: Config, s: State, fetched: seq<Record>)
    requires TurnOf(cfg, s, fetched, |fetched|)
    ensures var t := Do(cfg, s, EndPublish); t.logs == s.logs && t.cache == s.cache && t.phase.Idle?
  {
    hide Do;
    EndPublishMeaning(cfg, s);
  }

  /** The first of the first `n` records that the dictionary does not hold, if there is one. */
  function FirstForgotten(c: Cache, rs: seq<Record>, n: nat): (i: nat)
    requires n <= |rs|
    ensures i <= n && (forall j | 0 <= j < i :: Lookup(c, rs[j].key) == Some(DigestOf(rs[j])))
    ensures i < n ==> Lookup(c, rs[i].key) != Some(DigestOf(rs[i]))
  {
    if n == 0 then 0
    else
      var i := FirstForgotten(c, rs, n - 1);
      if i < n - 1 || Lookup(c, rs[n - 1].key) != Some(DigestOf(rs[n - 1])) then i else n
  }

  // ---- What a cycle leaves remembered -------------------------------------------

  /** The dictionary is about the keys `ks` alone, which are few enough to be kept. */
  ghost predicate Roomy(c: Cache, ks: set<Key>, bounded: bool) {
    && OneEntryPerKey(c) && (forall i | 0 <= i < |c| :: c[i].key in ks)
    && (bounded ==> |ks| <= DEDUPE_CACHE_MAX)
  }

  lemma {:induction false} NoMoreThanKeys(c: Cache, ks: set<Key>)
    requires OneEntryPerKey(c) && forall i | 0 <= i < |c| :: c[i].key in ks
    ensures |c| <= |ks|
    decreases |c|
  {
    if c != [] {
      var n := |c| - 1;
      NoMoreThanKeys(c[..n], ks - {c[n].key});
    }
  }

  /** With room for every key nothing is forgotten. */
  lemma {:induction false} RoomyRemembers(c: Cache, ks: set<Key>, bounded: bool, k: Key, d: Digest)
    requires Roomy(c, ks, bounded) && k in ks
    ensures var c' := Remember(c, k, d, bounded);
            && Roomy(c', ks, bounded) && Lookup(c', k) == Some(d)
            && forall k' | k' != k :: Lookup(c', k') == Lookup(c, k')
  {
    hide Lookup;
    PutMeaning(c, k, d);
    if bounded {
      NoMoreThanKeys(Put(c, k, d), ks);
      WithinBound(Put(c, k, d));
    }
  }

  /** The cycle so far: the dictionary holds the last digest of every key handled, and nothing else
      has changed in it. */
  lemma {:induction false} HandledIsRemembered(cfg: Config, s: State, fetched: seq<Record>, script: seq<Attempts>,
          n: nat, ks: set<Key>)
    requires n <= |fetched| && n <= |script| && TurnOf(cfg, s, fetched, 0)
    requires Roomy(s.cache, ks, cfg.grid) && forall i | 0 <= i < |fetched| :: fetched[i].key in ks
    ensures var t := HandledUpTo(cfg, s, script, n);
            && TurnOf(cfg, t, fetched, n) && Roomy(t.cache, ks, cfg.grid)
            && |s.phase.failures| <= |t.phase.failures|
            && (t.phase.failures == [] ==>
                  forall k :: Lookup(t.cache, k)
                           == if LastAmong(fetched, n, k).Some? then LastAmong(fetched, n, k) else Lookup(s.cache, k))
  {
    hide TurnOf, Lookup, Roomy, Remember, LogsAfter;
    if n > 0 {
      HandledIsRemembered(cfg, s, fetched, script, n - 1, ks);
      FetchedTurn(cfg, s, fetched, script, n - 1);
      var t, r := HandledUpTo(cfg, s, script, n - 1), fetched[n - 1];
      RoomyRemembers(t.cache, ks, cfg.grid, r.key, DigestOf(r));
    }
  }

  // ---- The replay before it -------------------------------------------------------

  /** The turn of the `n`th spooled record. */
  ghost predicate ReplayTurnOf(cfg: Config, s: State, spool: seq<Record>, fetched: seq<Record>, n: nat) {
    && Shape(cfg, s) && s.inflight == multiset{} && s.spool == spool && s.phase.Replaying?
    && s.phase.fetched == fetched && s.phase.at == n && !s.phase.tried
  }

  /** A spooled record is always sent. */
  lemma {:induction false} SpooledTurn(cfg: Config, s: State, spool: seq<Record>, fetched: seq<Record>,
          script: seq<Attempts>, n: nat)
    requires n < |spool| && n < |script| && ReplayTurnOf(cfg, HandledUpTo(cfg, s, script, n), spool, fetched, n)
    ensures ReplayTurnOf(cfg, HandledUpTo(cfg, s, script, n + 1), spool, fetched, n + 1)
    ensures var t, t', r := HandledUpTo(cfg, s, script, n), HandledUpTo(cfg, s, script, n + 1), spool[n];
            var ok := AckedFrom(script[n], 0);
            && r.key.partition < |t.logs|
            && t'.logs == LogsAfter(t.logs, r, script[n], 0)
            && t'.cache == (if ok then Remember(t.cache, r.key, DigestOf(r), cfg.grid) else t.cache)
            && t'.phase.still == (if ok then t.phase.still else t.phase.still + [r])
            && Acks(cfg, s, script, n + 1) == Acks(cfg, s, script, n) + (if ok then 1 else 0)
  {
    hide Shape, Do, Lookup, Remember, LogsAfter, AckedFrom;
    var t, r := HandledUpTo(cfg, s, script, n), spool[n];
    Ready(cfg, t, r);
    SentMeaning(cfg, t, r, script[n], 0);
    SentKeepsShape(cfg, t, script[n], r);
  }

  predicate EachAcked(script: seq<Attempts>, n: nat)
    requires n <= |script|
  {
    forall i | 0 <= i < n :: AckedFrom(script[i], 0)
  }

  lemma {:induction false} ReplayedSoFar(cfg: Config, s: State, spool: seq<Record>, fetched: seq<Record>,
          script: seq<Attempts>, n: nat, ks: set<Key>)
    requires n <= |spool| && n <= |script| && ReplayTurnOf(cfg, s, spool, fetched, 0) && s.phase.still == []
    requires Roomy(s.cache, ks, cfg.grid) && forall i | 0 <= i < |spool| :: spool[i].key in ks
    ensures var t := HandledUpTo(cfg, s, script, n);
            && ReplayTurnOf(cfg, t, spool, fetched, n) && Roomy(t.cache, ks, cfg.grid)
            && (EachAcked(script, n) ==> t.phase.still == [])
  {
    hide ReplayTurnOf, Lookup, Roomy, Remember, LogsAfter, AckedFrom;
    if n > 0 {
      ReplayedSoFar(cfg, s, spool, fetched, script, n - 1, ks);
      SpooledTurn(cfg, s, spool, fetched, script, n - 1);
      var t, r := HandledUpTo(cfg, s, script, n - 1), spool[n - 1];
      RoomyRemembers(t.cache, ks, cfg.grid, r.key, DigestOf(r));
    } else {
      assert HandledUpTo(cfg, s, script, 0) == s;
      IsReplaying(cfg, s, spool, fetched, 0);
    }
  }

  lemma {:induction false} IsReplaying(cfg: Config, s: State, spool: seq<Record>, fetched: seq<Record>, n: nat)
    requires ReplayTurnOf(cfg, s, spool, fetched, n)
    ensures s.phase.Replaying?
  {
  }

  /** From the beginning of a cycle to the first turn of its fetch. */
  lemma {:induction false} ReplayLeadsToPublish(cfg: Config, s: State, fetched: seq<Record>, replay: seq<Attempts>,
          ks: set<Key>)
    requires Inv(cfg, s) && s.phase.Idle? && s.inflight == multiset{} && Addressed(s, fetched)
    requires |replay| >= |s.spool| && Roomy(s.cache, ks, cfg.grid)
    requires forall i | 0 <= i < |s.spool| :: s.spool[i].key in ks
    ensures var t := ReplaySpec(cfg, s, fetched, replay);
            && TurnOf(cfg, t, fetched, 0) && t.phase.failures == [] && Roomy(t.cache, ks, cfg.grid)
            && (EachAcked(replay, |s.spool|) ==> t.spool == [])
  {
    hide Inv, Shape, Do, HandledUpTo, Roomy, EachAcked;
    var begun := Do(cfg, s, BeginCycle(fetched));
    BeginCycleMeaning(cfg, s, fetched);
    ReplayedSoFar(cfg, begun, s.spool, fetched, replay, |s.spool|, ks);
    var t := HandledUpTo(cfg, begun, replay, |s.spool|);
    EndReplayMeaning(cfg, t);
  }

  lemma {:induction false} NothingHandledYet(cfg: Config, s: State, script: seq<Attempts>)
    ensures HandledUpTo(cfg, s, script, 0) == s && Acks(cfg, s, script, 0) == 0 == Skips(cfg, s, script, 0)
  {
  }

  lemma {:induction false} OneMoreTurn(cfg: Config, s: State, script: seq<Attempts>, n: nat)
    requires n < |script|
    ensures var t := HandledUpTo(cfg, s, script, n);
            if Unchanged(cfg, t) then
              && HandledUpTo(cfg, s, script, n + 1) == Do(cfg, t, Skip)
              && Acks(cfg, s, script, n + 1) == Acks(cfg, s, script, n)
              && Skips(cfg, s, script, n + 1) == Skips(cfg, s, script, n) + 1
            else
              && HandledUpTo(cfg, s, script, n + 1) == Sent(cfg, t, script[n], 0)
              && Acks(cfg, s, script, n + 1) == Acks(cfg, s, script, n) + (if AckedFrom(script[n], 0) then 1 else 0)
              && Skips(cfg, s, script, n + 1) == Skips(cfg, s, script, n)
  {
    hide Do, Unchanged, Sent, AckedFrom;
  }

  // ---- One cycle after another ----------------------------------------------------

  /** Every key that a cycle deals with. */
  function KeysAround(c: Cache, spool: seq<Record>, fetched: seq<Record>): set<Key> {
    (set i | 0 <= i < |c| :: c[i].key) + (set i | 0 <= i < |spool| :: spool[i].key)
    + (set i | 0 <= i < |fetched| :: fetched[i].key)
  }

  /** The dictionary is unbounded, or has room for all of them. */
  predicate RoomFor(cfg: Config, c: Cache, spool: seq<Record>, fetched: seq<Record>) {
    cfg.grid ==> |KeysAround(c, spool, fetched)| <= DEDUPE_CACHE_MAX
  }

  lemma {:induction false} RoomIsRoomy(cfg: Config, s: State, fetched: seq<Record>)
    requires Inv(cfg, s) && RoomFor(cfg, s.cache, s.spool, fetched)
    ensures Roomy(s.cache, KeysAround(s.cache, s.spool, fetched), cfg.grid)
  {
  }

  /** A cycle in which no fetched record failed leaves, for every key it fetched, the digest of the last
      record fetched for it in the dictionary, if that has room. */
  lemma {:induction false} CycleIsRemembered(cfg: Config, s: State, fetched: seq<Record>, replay: seq<Attempts>,
          publish: seq<Attempts>, k: Key)
    requires Inv(cfg, s) && s.phase.Idle? && s.inflight == multiset{} && Addressed(s, fetched)
    requires |replay| >= |s.spool| && |publish| >= |fetched| && RoomFor(cfg, s.cache, s.spool, fetched)
    ensures var t := ReplaySpec(cfg, s, fetched, replay);
            var u := HandledUpTo(cfg, t, publish, |fetched|);
            && u.phase.Publishing?
            && (u.phase.failures == [] && LastAmong(fetched, |fetched|, k).Some? ==>
                  Lookup(PublishSpec(cfg, t, fetched, publish).cache, k) == LastAmong(fetched, |fetched|, k))
  {
    hide Inv, Do, Lookup, HandledUpTo, ReplaySpec, Shape, Roomy;
    var ks := KeysAround(s.cache, s.spool, fetched);
    RoomIsRoomy(cfg, s, fetched);
    ReplayLeadsToPublish(cfg, s, fetched, replay, ks);
    var t := ReplaySpec(cfg, s, fetched, replay);
    HandledIsRemembered(cfg, t, fetched, publish, |fetched|, ks);
    TurnsEnd(cfg, HandledUpTo(cfg, t, publish, |fetched|), fetched);
  }

  lemma {:induction false} RememberedAfter(cfg: Config, s: State, fetched: seq<Record>, replay: seq<Attempts>,
          publish: seq<Attempts>)
    requires Inv(cfg, s) && s.phase.Idle? && s.inflight == multiset{} && Addressed(s, fetched)
    requires |replay| >= |s.spool| && |publish| >= |fetched|
    ensures var t := ReplaySpec(cfg, s, fetched, replay);
            var u := HandledUpTo(cfg, t, publish, |fetched|);
            u.phase.Publishing? && u.phase.failures == [] && RoomFor(cfg, s.cache, s.spool, fetched) ==>
              forall k | Occurs(fetched, 0, k) ::
                Lookup(PublishSpec(cfg, t, fetched, publish).cache, k) == LastAmong(fetched, |fetched|, k)
  {
    hide Inv, ReplaySpec, PublishSpec, HandledUpTo, Lookup, LastAmong, RoomFor;
    if RoomFor(cfg, s.cache, s.spool, fetched) {
      var t := ReplaySpec(cfg, s, fetched, replay);
      var u := HandledUpTo(cfg, t, publish, |fetched|);
      if u.phase.Publishing? && u.phase.failures == [] {
        forall k | Occurs(fetched, 0, k)
          ensures Lookup(PublishSpec(cfg, t, fetched, publish).cache, k) == LastAmong(fetched, |fetched|, k)
        {
          OccursHasLast(fetched, |fetched|, k);
          CycleIsRemembered(cfg, s, fetched, replay, publish, k);
        }
      }
    }
  }

  predicate DistinctKeys(rs: seq<Record>) {
    forall i, j | 0 <= i < j < |rs| :: rs[i].key != rs[j].key
  }

  lemma {:induction false} OnlyOfItsKey(rs: seq<Record>, n: nat, i: nat)
    requires i < n <= |rs| && DistinctKeys(rs)
    ensures LastAmong(rs, n, rs[i].key) == Some(DigestOf(rs[i]))
  {
    if i < n - 1 {
      OnlyOfItsKey(rs, n - 1, i);
    }
  }

  lemma {:induction false} EachSent(cfg: Config, s: State, fetched: seq<Record>, script: seq<Attempts>, n: nat)
    requires n <= |fetched| && n <= |script| && TurnOf(cfg, s, fetched, 0) && s.phase.failures == []
    requires EachAcked(script, n)
    ensures var t := HandledUpTo(cfg, s, script, n);
            TurnOf(cfg, t, fetched, n) && t.phase.failures == [] && t.spool == s.spool
  {
    hide TurnOf, Lookup, Remember, LogsAfter, AckedFrom;
    if n > 0 {
      EachSent(cfg, s, fetched, script, n - 1);
      FetchedTurn(cfg, s, fetched, script, n - 1);
    }
  }

  /** Fetching the same windows again right after a cycle in which every send was acknowledged sends
      nothing: topic, dictionary and spool stay as they were and every record is skipped, whatever
      the broker would have done. */
  lemma {:induction false} RepeatedCycleSendsNothing(cfg: Config, s: State, fetched: seq<Record>,
          replay: seq<Attempts>, publish: seq<Attempts>, replay': seq<Attempts>, publish': seq<Attempts>)
    requires Inv(cfg, s) && s.phase.Idle? && s.inflight == multiset{} && Addressed(s, fetched)
    requires |replay| >= |s.spool| && |publish| >= |fetched| && |publish'| >= |fetched|
    requires EachAcked(replay, |s.spool|) && EachAcked(publish, |fetched|)
    requires !cfg.publishUnchanged && DistinctKeys(fetched) && RoomFor(cfg, s.cache, s.spool, fetched)
    ensures var u := PublishSpec(cfg, ReplaySpec(cfg, s, fetched, replay), fetched, publish);
            && u.spool == [] && AllRemembered(u.cache, fetched)
            && var t := ReplaySpec(cfg, u, fetched, replay');
               var v := PublishSpec(cfg, t, fetched, publish');
            && v.logs == u.logs && v.cache == u.cache && v.spool == []
            && Acks(cfg, Do(cfg, u, BeginCycle(fetched)), replay', 0) == 0
            && Acks(cfg, t, publish', |fetched|) == 0 && Skips(cfg, t, publish', |fetched|) == |fetched|
  {
    hide Inv, Do, Lookup, HandledUpTo, Shape, Acks, Skips, RoomFor, EachAcked, LastAmong, Roomy, ReplaySpec;
    var t := ReplaySpec(cfg, s, fetched, replay);
    var u := PublishSpec(cfg, t, fetched, publish);
    FirstCycleEnds(cfg, s, fetched, replay, publish);
    forall i | 0 <= i < |fetched| ensures Lookup(u.cache, fetched[i].key) == Some(DigestOf(fetched[i])) {
      CycleIsRemembered(cfg, s, fetched, replay, publish, fetched[i].key);
      OnlyOfItsKey(fetched, |fetched|, i);
    }
    RememberedCycleSendsNothing(cfg, u, fetched, replay', publish');
  }

  lemma {:induction false} FirstCycleEnds(cfg: Config, s: State, fetched: seq<Record>,
          replay: seq<Attempts>, publish: seq<Attempts>)
    requires Inv(cfg, s) && s.phase.Idle? && s.inflight == multiset{} && Addressed(s, fetched)
    requires |replay| >= |s.spool| && |publish| >= |fetched| && RoomFor(cfg, s.cache, s.spool, fetched)
    requires EachAcked(replay, |s.spool|) && EachAcked(publish, |fetched|)
    ensures var t := ReplaySpec(cfg, s, fetched, replay);
            var u := PublishSpec(cfg, t, fetched, publish);
            && Inv(cfg, u) && u.phase.Idle? && u.inflight == multiset{} && u.spool == [] && Addressed(u, fetched)
            && HandledUpTo(cfg, t, publish, |fetched|).phase == Publishing(fetched, |fetched|, [], false)
  {
    hide Inv, Do, Lookup, HandledUpTo, Roomy, EachAcked, ReplaySpec, LastAmong, RoomFor;
    var ks := KeysAround(s.cache, s.spool, fetched);
    RoomIsRoomy(cfg, s, fetched);
    ReplayLeadsToPublish(cfg, s, fetched, replay, ks);
    var t := ReplaySpec(cfg, s, fetched, replay);
    EachSent(cfg, t, fetched, publish, |fetched|);
    EndPublishMeaning(cfg, HandledUpTo(cfg, t, publish, |fetched|));
    CycleKeepsInv(cfg, s, fetched, replay, publish);
  }

  /** A cycle with nothing spooled and everything fetched remembered sends nothing. */
  lemma {:induction false} RememberedCycleSendsNothing(cfg: Config, s: State, fetched: seq<Record>,
          replay: seq<Attempts>, publish: seq<Attempts>)
    requires Inv(cfg, s) && s.phase.Idle? && s.inflight == multiset{} && Addressed(s, fetched) && s.spool == []
    requires |publish| >= |fetched| && !cfg.publishUnchanged && AllRemembered(s.cache, fetched)
    ensures var t := ReplaySpec(cfg, s, fetched, replay);
            var u := PublishSpec(cfg, t, fetched, publish);
            && u.logs == s.logs && u.cache == s.cache && u.spool == []
            && HandledUpTo(cfg, t, publish, |fetched|).phase == Publishing(fetched, |fetched|, [], false)
            && Acks(cfg, Do(cfg, s, BeginCycle(fetched)), replay, 0) == 0
            && Acks(cfg, t, publish, |fetched|) == 0 && Skips(cfg, t, publish, |fetched|) == |fetched|
  {
    hide Inv, Do, Lookup, Shape, AllRemembered, Roomy;
    EmptyReplay(cfg, s, fetched, replay);
    var t := ReplaySpec(cfg, s, fetched, replay);
    RememberedFetchIsNotSent(cfg, t, fetched, publish);
  }

  lemma {:induction false} SilentCycle(cfg: Config, s: State, fetched: seq<Record>, replay: seq<Attempts>,
          publish: seq<Attempts>)
    requires Inv(cfg, s) && s.phase.Idle? && s.inflight == multiset{} && Addressed(s, fetched)
    requires |replay| >= |s.spool| && |publish| >= |fetched|
    ensures s.spool == [] && !cfg.publishUnchanged && AllRemembered(s.cache, fetched) ==>
              var t := ReplaySpec(cfg, s, fetched, replay);
              var u := PublishSpec(cfg, t, fetched, publish);
              && u.logs == s.logs && u.cache == s.cache && u.spool == []
              && HandledUpTo(cfg, t, publish, |fetched|).phase == Publishing(fetched, |fetched|, [], false)
              && Acks(cfg, Do(cfg, s, BeginCycle(fetched)), replay, 0) == 0
              && Acks(cfg, t, publish, |fetched|) == 0 && Skips(cfg, t, publish, |fetched|) == |fetched|
  {
    hide Inv, ReplaySpec, PublishSpec, HandledUpTo, Acks, Skips, AllRemembered;
    if s.spool == [] && !cfg.publishUnchanged && AllRemembered(s.cache, fetched) {
      RememberedCycleSendsNothing(cfg, s, fetched, replay, publish);
    }
  }

  /** With nothing spooled the replay does nothing. */
  lemma {:induction false} EmptyReplay(cfg: Config, s: State, fetched: seq<Record>, replay: seq<Attempts>)
    requires Inv(cfg, s) && s.phase.Idle? && s.inflight == multiset{} && Addressed(s, fetched) && s.spool == []
    ensures var t := ReplaySpec(cfg, s, fetched, replay);
            && TurnOf(cfg, t, fetched, 0) && t.phase.failures == []
            && t.logs == s.logs && t.cache == s.cache && t.spool == []
  {
    hide Inv, Shape, Do;
    var begun := Do(cfg, s, BeginCycle(fetched));
    BeginCycleMeaning(cfg, s, fetched);
    NothingHandledYet(cfg, begun, replay);
    EndReplayMeaning(cfg, begun);
  }

  // ---- A dictionary that is full --------------------------------------------------

  /** Acknowledging every one of `n` new keys fills an empty dictionary in their order. */
  lemma {:induction false} FillsInOrder(cfg: Config, s: State, fetched: seq<Record>, script: seq<Attempts>, n: nat)
    requires n <= |fetched| && n <= |script| && n <= DEDUPE_CACHE_MAX
    requires TurnOf(cfg, s, fetched, 0) && s.phase.failures == [] && s.cache == []
    requires DistinctKeys(fetched) && EachAcked(script, n)
    ensures var t := HandledUpTo(cfg, s, script, n);
            && TurnOf(cfg, t, fetched, n) && t.phase.failures == [] && t.spool == s.spool
            && |t.cache| == n && forall i | 0 <= i < n :: t.cache[i] == Entry(fetched[i].key, DigestOf(fetched[i]))
  {
    hide TurnOf, LogsAfter, AckedFrom, Lookup, Remember;
    if n > 0 {
      FillsInOrder(cfg, s, fetched, script, n - 1);
      FetchedTurn(cfg, s, fetched, script, n - 1);
      var t, r := HandledUpTo(cfg, s, script, n - 1), fetched[n - 1];
      NewKeyIsAppended(t.cache, r.key, DigestOf(r), cfg.grid);
    }
  }

  lemma {:induction false} NewKeyIsAppended(c: Cache, k: Key, d: Digest, bounded: bool)
    requires |c| < DEDUPE_CACHE_MAX && forall i | 0 <= i < |c| :: c[i].key != k
    ensures Lookup(c, k) == None && Remember(c, k, d, bounded) == c + [Entry(k, d)]
  {
    assert Find(c, |c|, k) == None;
  }

  /** The room is needed. In the grid worker, let a fetch of as many windows as the dictionary holds be
      acknowledged, then a fetch of the first of them, `r`, and a new one. The first keeps its place, so
      the new one pushes it out, and the next fetch of the two sends the first again. */
  lemma {:induction false} FullDictionaryForgets(cfg: Config, s: State, r: Record, x: Record, script: seq<Attempts>)
    requires cfg.grid && !cfg.publishUnchanged && |script| == 2 && EachAcked(script, 2)
    requires TurnOf(cfg, s, [r, x], 0) && s.phase.failures == [] && |s.cache| == DEDUPE_CACHE_MAX
    requires s.cache[0] == Entry(r.key, DigestOf(r)) && forall i | 0 <= i < |s.cache| :: s.cache[i].key != x.key
    ensures var t := HandledUpTo(cfg, s, script, 2);
            && TurnOf(cfg, t, [r, x], 2) && t.phase.failures == []
            && Lookup(t.cache, r.key) == None && Lookup(t.cache, x.key) == Some(DigestOf(x))
  {
    hide TurnOf, LogsAfter, AckedFrom;
    IsPublishing(cfg, s, [r, x]);
    LookupFinds(s.cache, 0);
    FetchedTurn(cfg, s, [r, x], script, 0);
    FetchedTurn(cfg, s, [r, x], script, 1);
    assert Find(s.cache, |s.cache|, x.key) == None;
    var c := Trim(s.cache + [Entry(x.key, DigestOf(x))]);
    assert c == s.cache[1..] + [Entry(x.key, DigestOf(x))];
    assert Find(c, |c|, r.key) == None;
  }

  lemma {:induction false} IsPublishing(cfg: Config, s: State, fetched: seq<Record>)
    requires TurnOf(cfg, s, fetched, 0)
    ensures OneEntryPerKey(s.cache)
  {
  }
}
