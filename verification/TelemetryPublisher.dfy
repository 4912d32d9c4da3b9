/** The publisher and the plant bridge as the source writes them: objects that update a
    dictionary, a spool and counters in loops. Each is proved to take the topic, the spool and
    the cache exactly where the protocol's events take them. */
module TelemetryPublisher {
  import opened Common
  import opened Records
  import opened DedupeCache
  import opened PublisherProtocol
  import opened PublisherTurns
  import opened PublisherDedupe

  /** The topic, one log per partition. */
  class Topic {
    var logs: seq<Log>

    constructor (logs: seq<Log>)
      ensures this.logs == logs
    {
      this.logs := logs;
    }

    /** `_send_with_retry`: bounded attempts, each with the fate the broker gives it. */
    method SendWithRetry(r: Record, fates: Attempts) returns (ok: bool)
      requires r.key.partition < |logs|
      modifies this
      ensures logs == LogsAfter(old(logs), r, fates, 0)
      ensures ok == AckedFrom(fates, 0)
    {
      var attempt := 0;
      while attempt < |fates|
        invariant attempt <= |fates| && |logs| == |old(logs)|
        invariant LogsAfter(logs, r, fates, attempt) == LogsAfter(old(logs), r, fates, 0)
        invariant AckedFrom(fates, attempt) == AckedFrom(fates, 0)
      {
        if !fates[attempt].FailedLost? {
          logs := Append(logs, r.key.partition, Telemetry(r));
        }
        if fates[attempt].Acked? {
          return true;
        }
        attempt := attempt + 1;
      }
      ok := false;
    }
  }

  /** The bounded on-disk spool, as a sequence of records. */
  class Spool {
    var records: seq<Record>
    const bound: int

    constructor (records: seq<Record>, bound: int)
      ensures this.records == records && this.bound == bound
    {
      this.records, this.bound := records, bound;
    }

    method Append(rs: seq<Record>)
      modifies this
      ensures records == if rs == [] then old(records)
                         else (old(records) + rs)[Overflow(|old(records)| + |rs|, bound)..]
    {
      if rs == [] {
        return;
      }
      records := records + rs;
      var cut := Overflow(|records|, bound);
      records := records[cut..];
    }

    method Replace(rs: seq<Record>)
      modifies this
      ensures records == rs
    {
      records := rs;
    }
  }

  /** `TelemetryPublisher`, and with `cfg.grid` false the sending half of `PlantBridge`. */
  class Publisher {
    const cfg: Config
    const topic: Topic
    const spool: Spool
    var cache: Cache
    var publishedTotal: nat
    var failedTotal: nat

    /** The protocol state that this object is in. */
    ghost var model: State

    ghost predicate Valid()
      reads this, topic, spool
    {
      && Inv(cfg, model) && model.phase.Idle? && Tracks() && spool.bound == cfg.spoolMax
    }

    ghost predicate Tracks()
      reads this, topic, spool
    {
      topic.logs == model.logs && spool.records == model.spool && cache == model.cache && model.inflight == multiset{}
    }

    /** A worker that starts, for the first time or again: the topic and the spool file are as the
        worker before it left them, the dictionary and the counters are not. */
    constructor (cfg: Config, topic: Topic, spool: Spool, ghost was: State)
      requires Inv(cfg, was) && was.inflight == multiset{}
      requires topic.logs == was.logs && spool.records == was.spool && spool.bound == cfg.spoolMax
      ensures Valid() && model == Step(cfg, was, Crash)
      ensures this.cfg == cfg && this.topic == topic && this.spool == spool
      ensures cache == [] && publishedTotal == 0 && failedTotal == 0
    {
      this.cfg, this.topic, this.spool := cfg, topic, spool;
      cache, publishedTotal, failedTotal := [], 0, 0;
      model := Step(cfg, was, Crash);
      new;
      StepKeepsInv(cfg, was, Crash);
    }

    /** `_dedupe[key] = digest`, then `_trim_dedupe`. */
    method RememberSent(r: Record)
      modifies this`cache
      ensures cache == Remember(old(cache), r.key, DigestOf(r), cfg.grid)
    {
      cache := Put(cache, r.key, DigestOf(r));
      if cfg.grid && |cache| > DEDUPE_CACHE_MAX {
        cache := cache[|cache| - DEDUPE_CACHE_MAX..];
      }
    }

    /** Sending the record whose turn it is, and remembering it if acknowledged. */
    method TrySend(r: Record, fates: Attempts) returns (ok: bool)
      requires Tracks() && Shape(cfg, model) && Current(model) == Some(r) && !Unchanged(cfg, model)
      modifies this`cache, this`model, topic
      ensures model == Sent(cfg, old(model), fates, 0) && Tracks() && Shape(cfg, model)
      ensures model.spool == old(model).spool
      ensures ok == AckedFrom(fates, 0) && model.phase == Finished(cfg, old(model), r, [], ok).phase
    {
      hide Shape, Unchanged, Current;
      Ready(cfg, model, r);
      SentMeaning(cfg, model, r, fates, 0);
      SentKeepsShape(cfg, model, fates, r);
      ok := topic.SendWithRetry(r, fates);
      if ok {
        RememberSent(r);
      }
      model := Sent(cfg, model, fates, 0);
    }

    /** The loop of `replay_spool`. */
    method ReplayPending(fetched: seq<Record>, script: seq<Attempts>) returns (replayed: nat, still: seq<Record>)
      requires Tracks() && Shape(cfg, model) && model.phase == Replaying(fetched, 0, [], false)
      requires |script| >= |spool.records|
      modifies this, topic
      ensures model == HandledUpTo(cfg, old(model), script, |spool.records|)
      ensures Tracks() && Shape(cfg, model) && model.phase == Replaying(fetched, |spool.records|, still, false)
      ensures replayed == Acks(cfg, old(model), script, |spool.records|) && replayed + |still| == |spool.records|
      ensures publishedTotal == old(publishedTotal) + replayed && failedTotal == old(failedTotal)
    {
      hide Shape, Do;
      replayed, still := 0, [];
      for i := 0 to |spool.records|
        invariant model == HandledUpTo(cfg, old(model), script, i)
        invariant Shape(cfg, model) && Tracks()
        invariant spool.records == old(spool.records) && model.phase == Replaying(fetched, i, still, false)
        invariant replayed == Acks(cfg, old(model), script, i) && replayed + |still| == i
        invariant publishedTotal == old(publishedTotal) + replayed && failedTotal == old(failedTotal)
      {
        var r := spool.records[i];
        var ok := TrySend(r, script[i]);
        if ok {
          replayed, publishedTotal := replayed + 1, publishedTotal + 1;
        } else {
          still := still + [r];
        }
      }
    }

    /** `replay_spool`: try every spooled record again and keep those that still fail. */
    method ReplaySpool(fetched: seq<Record>, script: seq<Attempts>) returns (replayed: nat)
      requires Valid() && Addressed(model, fetched) && |script| >= |spool.records|
      modifies this, topic, spool
      ensures model == ReplaySpec(cfg, old(model), fetched, script) && Tracks()
      ensures model.phase == Publishing(fetched, 0, [], false) && Shape(cfg, model)
      ensures replayed == Acks(cfg, Do(cfg, old(model), BeginCycle(fetched)), script, |old(spool.records)|)
      ensures replayed + |spool.records| == |old(spool.records)|
      ensures publishedTotal == old(publishedTotal) + replayed && failedTotal == old(failedTotal)
    {
      BeginCycleMeaning(cfg, model, fetched);
      model := Do(cfg, model, BeginCycle(fetched));
      hide Shape, Inv, Do, HandledUpTo, Acks;
      var still;
      replayed, still := ReplayPending(fetched, script);
      spool.Replace(still);
      EndReplayMeaning(cfg, model);
      model := Do(cfg, model, EndReplay);
    }

    /** `publish`: send what changed since it was last acknowledged, spool what fails. */
    method Publish(fetched: seq<Record>, script: seq<Attempts>) returns (published: nat, failed: nat)
      requires Tracks() && Shape(cfg, model) && model.phase == Publishing(fetched, 0, [], false)
      requires spool.bound == cfg.spoolMax && |script| >= |fetched|
      modifies this, topic, spool
      ensures model == PublishSpec(cfg, old(model), fetched, script) && Tracks() && model.phase.Idle?
      ensures published == Acks(cfg, old(model), script, |fetched|)
      ensures published + failed + Skips(cfg, old(model), script, |fetched|) == |fetched|
      ensures var t := HandledUpTo(cfg, old(model), script, |fetched|);
              t.phase.Publishing? && failed == |t.phase.failures|
      ensures failed == 0 ==> spool.records == old(spool.records)
      ensures publishedTotal == old(publishedTotal) + published && failedTotal == old(failedTotal) + failed
      ensures !cfg.publishUnchanged && AllRemembered(old(cache), fetched) ==>
                topic.logs == old(topic.logs) && cache == old(cache) && published == 0 && failed == 0
    {
      hide Shape, Do, AllRemembered, HandledUpTo, Acks, Skips;
      FetchIsSilent(cfg, model, fetched, script);
      NothingHandledYet(cfg, model, script);
      published := 0;
      var failures: seq<Record> := [];
      for i := 0 to |fetched|
        invariant model == HandledUpTo(cfg, old(model), script, i)
        invariant Shape(cfg, model) && Tracks()
        invariant spool.records == old(spool.records) && model.phase == Publishing(fetched, i, failures, false)
        invariant published == Acks(cfg, old(model), script, i)
        invariant published + |failures| + Skips(cfg, old(model), script, i) == i
        invariant publishedTotal == old(publishedTotal) + published && failedTotal == old(failedTotal) + |failures|
      {
        var r := fetched[i];
        OneMoreTurn(cfg, old(model), script, i);
        if !cfg.publishUnchanged && Lookup(cache, r.key) == Some(DigestOf(r)) {
          SkipMeaning(cfg, model);
          model := Do(cfg, model, Skip);
        } else {
          var ok := TrySend(r, script[i]);
          if ok {
            published, publishedTotal := published + 1, publishedTotal + 1;
          } else {
            failures := failures + [r];
            failedTotal := failedTotal + 1;
          }
        }
      }
      if failures != [] {
        spool.Append(failures);
      }
      failed := |failures|;
      EndPublishMeaning(cfg, model);
      model := Do(cfg, model, EndPublish);
    }

    /** One cycle: replay, then publish. The object stays a state of the protocol's runs, so
        everything proved of those runs holds of it. */
    method RunCycle(fetched: seq<Record>, replay: seq<Attempts>, publish: seq<Attempts>)
      returns (replayed: nat, published: nat, failed: nat)
      requires Valid() && Addressed(model, fetched) && |replay| >= |spool.records| && |publish| >= |fetched|
      modifies this, topic, spool
      ensures Valid()
      ensures model == PublishSpec(cfg, ReplaySpec(cfg, old(model), fetched, replay), fetched, publish)
      ensures replayed == Acks(cfg, Do(cfg, old(model), BeginCycle(fetched)), replay, |old(spool.records)|)
      ensures var middle := ReplaySpec(cfg, old(model), fetched, replay);
              && published == Acks(cfg, middle, publish, |fetched|)
              && published + failed + Skips(cfg, middle, publish, |fetched|) == |fetched|
      ensures publishedTotal == old(publishedTotal) + replayed + published && failedTotal == old(failedTotal) + failed
      ensures failed == 0 ==> replayed + |spool.records| == |old(spool.records)|
      ensures failed == 0 && RoomFor(cfg, old(cache), old(spool.records), fetched) ==>
                forall k | Occurs(fetched, 0, k) :: Lookup(cache, k) == LastAmong(fetched, |fetched|, k)
      ensures old(spool.records) == [] && !cfg.publishUnchanged && AllRemembered(old(cache), fetched) ==>
                && topic.logs == old(topic.logs) && cache == old(cache) && spool.records == []
                && replayed == 0 && published == 0 && failed == 0
    {
      hide Inv, ReplaySpec, PublishSpec, Acks, Skips, Do, Lookup, LastAmong, RoomFor, AllRemembered, HandledUpTo;
      CycleKeepsInv(cfg, model, fetched, replay, publish);
      RememberedAfter(cfg, model, fetched, replay, publish);
      SilentCycle(cfg, model, fetched, replay, publish);
      replayed := ReplaySpool(fetched, replay);
      published, failed := Publish(fetched, publish);
    }
  }

  /** What one cycle of the plant bridge reports. */
  datatype CycleStats = CycleStats(
    published: nat, skippedUnchanged: nat, replayed: nat, failed: nat, remainingSpooled: nat)

  /** `PlantBridge`: the same sending with an unbounded hash map, and per-cycle counters. */
  class PlantBridge {
    const sender: Publisher

    constructor (sender: Publisher)
      ensures this.sender == sender
    {
      this.sender := sender;
    }

    /** `run_once`: replay the spool, then publish the window, unless reading the source fails.
        The counters are the acknowledgements of the replay and of the window, the skips, the
        records that failed in either, and the size of the spool that the cycle leaves behind. */
    method RunOnce(source: Option<seq<Record>>, replay: seq<Attempts>, publish: seq<Attempts>)
      returns (stats: CycleStats)
      requires sender.Valid() && |replay| >= |sender.spool.records|
      requires source.Some? ==> Addressed(sender.model, source.value) && |publish| >= |source.value|
      modifies sender, sender.topic, sender.spool
      ensures sender.Valid()
      ensures var fetched := if source.Some? then source.value else [];
              var begun := Do(sender.cfg, old(sender.model), BeginCycle(fetched));
              var middle := ReplaySpec(sender.cfg, old(sender.model), fetched, replay);
              && sender.model == PublishSpec(sender.cfg, middle, fetched, publish)
              && stats.replayed == Acks(sender.cfg, begun, replay, |old(sender.spool.records)|)
              && stats.published == Acks(sender.cfg, middle, publish, |fetched|)
              && stats.skippedUnchanged == Skips(sender.cfg, middle, publish, |fetched|)
              && stats.published + stats.skippedUnchanged + stats.replayed + stats.failed
                 == |old(sender.spool.records)| + |fetched|
      ensures stats.remainingSpooled == |sender.spool.records|
      ensures source.Some? && stats.failed == 0
              && RoomFor(sender.cfg, old(sender.cache), old(sender.spool.records), source.value) ==>
                forall k | Occurs(source.value, 0, k) ::
                  Lookup(sender.cache, k) == LastAmong(source.value, |source.value|, k)
      ensures source.Some? && old(sender.spool.records) == [] && !sender.cfg.publishUnchanged
              && AllRemembered(old(sender.cache), source.value) ==>
                && sender.topic.logs == old(sender.topic.logs) && sender.cache == old(sender.cache)
                && stats == CycleStats(0, |source.value|, 0, 0, 0)
    {
      hide Inv, ReplaySpec, PublishSpec, Shape, Acks, Skips, Do, Lookup, LastAmong, RoomFor, AllRemembered, HandledUpTo;
      RememberedAfter(sender.cfg, sender.model, if source.Some? then source.value else [], replay, publish);
      SilentCycle(sender.cfg, sender.model, if source.Some? then source.value else [], replay, publish);
      var fetched := if source.Some? then source.value else [];
      CycleKeepsInv(sender.cfg, sender.model, fetched, replay, publish);
      var pending := |sender.spool.records|;
      var replayed := sender.ReplaySpool(fetched, replay);
      var left := |sender.spool.records|;
      var published, failed := sender.Publish(fetched, publish);
      var remaining := if failed > 0 then |sender.spool.records| else left;
      stats := CycleStats(published, |fetched| - published - failed, replayed, left + failed, remaining);
    }
  }
}
