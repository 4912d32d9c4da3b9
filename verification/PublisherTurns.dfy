/** The turns of a cycle: what sending, handling and skipping a record amount to, in the events of
    the protocol. Here every failed attempt settles at once, by landing or by being lost; late
    landings are the protocol's business. */
module PublisherTurns {
  import opened Common
  import opened Records
  import opened DedupeCache
  import opened PublisherProtocol

  /** What became of one send attempt. */
  datatype Fate = Acked | FailedLanded | FailedLost

  /** The attempts made for one record: as many as the source allows, ended by the first
      acknowledgement. */
  type Attempts = seq<Fate>

  predicate AckedFrom(fates: Attempts, i: nat)
    requires i <= |fates|
    decreases |fates| - i
  {
    i < |fates| && (fates[i].Acked? || AckedFrom(fates, i + 1))
  }

  /** The topic after the attempts from `i` on. */
  function LogsAfter(logs: seq<Log>, r: Record, fates: Attempts, i: nat): (logs': seq<Log>)
    requires i <= |fates| && r.key.partition < |logs|
    ensures |logs'| == |logs|
    decreases |fates| - i
  {
    if i == |fates| then logs
    else match fates[i]
         case Acked => Append(logs, r.key.partition, Telemetry(r))
         case FailedLanded => LogsAfter(Append(logs, r.key.partition, Telemetry(r)), r, fates, i + 1)
         case FailedLost => LogsAfter(logs, r, fates, i + 1)
  }

  // ---- The same in protocol events ------------------------------------------

  /** An event, if it is possible. */
  ghost function Do(cfg: Config, s: State, e: Event): State {
    if Enabled(cfg, s, e) then Step(cfg, s, e) else s
  }

  /** The events of sending the current record. */
  ghost function Sent(cfg: Config, s: State, fates: Attempts, i: nat): State
    requires i <= |fates|
    decreases |fates| - i
  {
    if i == |fates| then Do(cfg, s, GiveUp)
    else match fates[i]
         case Acked => Do(cfg, s, Ack)
         case FailedLanded =>
           var t := Do(cfg, s, FailAttempt);
           Sent(cfg, if Current(s).Some? then Do(cfg, t, Land(Current(s).value)) else t, fates, i + 1)
         case FailedLost =>
           var t := Do(cfg, s, FailAttempt);
           Sent(cfg, if Current(s).Some? then Do(cfg, t, Lose(Current(s).value)) else t, fates, i + 1)
  }

  /** The events of handling the first `n` records of the current phase. */
  ghost function HandledUpTo(cfg: Config, s: State, script: seq<Attempts>, n: nat): State
    requires n <= |script|
  {
    if n == 0 then s
    else
      var t := HandledUpTo(cfg, s, script, n - 1);
      if Unchanged(cfg, t) then Do(cfg, t, Skip) else Sent(cfg, t, script[n - 1], 0)
  }

  /** How many of the first `n` records of the phase were acknowledged. */
  ghost function Acks(cfg: Config, s: State, script: seq<Attempts>, n: nat): nat
    requires n <= |script|
  {
    if n == 0 then 0
    else Acks(cfg, s, script, n - 1)
         + if !Unchanged(cfg, HandledUpTo(cfg, s, script, n - 1)) && AckedFrom(script[n - 1], 0) then 1 else 0
  }

  /** How many of them were skipped as unchanged. */
  ghost function Skips(cfg: Config, s: State, script: seq<Attempts>, n: nat): nat
    requires n <= |script|
  {
    if n == 0 then 0
    else Skips(cfg, s, script, n - 1) + if Unchanged(cfg, HandledUpTo(cfg, s, script, n - 1)) then 1 else 0
  }

  ghost function ReplaySpec(cfg: Config, s: State, fetched: seq<Record>, script: seq<Attempts>): State
    requires |script| >= |s.spool|
  {
    Do(cfg, HandledUpTo(cfg, Do(cfg, s, BeginCycle(fetched)), script, |s.spool|), EndReplay)
  }

  ghost function PublishSpec(cfg: Config, s: State, fetched: seq<Record>, script: seq<Attempts>): State
    requires |script| >= |fetched|
  {
    Do(cfg, HandledUpTo(cfg, s, script, |fetched|), EndPublish)
  }

  lemma {:induction false} DoKeepsInv(cfg: Config, s: State, e: Event)
    requires Inv(cfg, s)
    ensures Inv(cfg, Do(cfg, s, e))
  {
    hide Inv, Step, Enabled;
    if Enabled(cfg, s, e) {
      StepKeepsInv(cfg, s, e);
    }
  }

  lemma {:induction false} SentKeepsInv(cfg: Config, s: State, fates: Attempts, i: nat)
    requires i <= |fates| && Inv(cfg, s)
    ensures Inv(cfg, Sent(cfg, s, fates, i))
    decreases |fates| - i
  {
    hide Inv, Do, Current;
    if i == |fates| {
      DoKeepsInv(cfg, s, GiveUp);
    } else {
      DoKeepsInv(cfg, s, Ack);
      DoKeepsInv(cfg, s, FailAttempt);
      var t := Do(cfg, s, FailAttempt);
      if Current(s).Some? {
        DoKeepsInv(cfg, t, Land(Current(s).value));
        DoKeepsInv(cfg, t, Lose(Current(s).value));
        SentKeepsInv(cfg, Do(cfg, t, Land(Current(s).value)), fates, i + 1);
        SentKeepsInv(cfg, Do(cfg, t, Lose(Current(s).value)), fates, i + 1);
      } else {
        SentKeepsInv(cfg, t, fates, i + 1);
      }
    }
  }

  lemma {:induction false} HandledKeepsInv(cfg: Config, s: State, script: seq<Attempts>, n: nat)
    requires n <= |script| && Inv(cfg, s)
    ensures Inv(cfg, HandledUpTo(cfg, s, script, n))
  {
    hide Inv, Do, Sent, Unchanged;
    if n > 0 {
      HandledKeepsInv(cfg, s, script, n - 1);
      var t := HandledUpTo(cfg, s, script, n - 1);
      DoKeepsInv(cfg, t, Skip);
      SentKeepsInv(cfg, t, script[n - 1], 0);
    }
  }

  /** A whole cycle of either worker keeps the protocol's invariant. */
  lemma {:induction false} CycleKeepsInv(cfg: Config, s: State, fetched: seq<Record>, replay: seq<Attempts>,
          publish: seq<Attempts>)
    requires Inv(cfg, s) && |replay| >= |s.spool| && |publish| >= |fetched|
    ensures Inv(cfg, PublishSpec(cfg, ReplaySpec(cfg, s, fetched, replay), fetched, publish))
  {
    hide Inv, Do, HandledUpTo;
    var t := Do(cfg, s, BeginCycle(fetched));
    DoKeepsInv(cfg, s, BeginCycle(fetched));
    HandledKeepsInv(cfg, t, replay, |s.spool|);
    DoKeepsInv(cfg, HandledUpTo(cfg, t, replay, |s.spool|), EndReplay);
    var u := ReplaySpec(cfg, s, fetched, replay);
    HandledKeepsInv(cfg, u, publish, |fetched|);
    DoKeepsInv(cfg, HandledUpTo(cfg, u, publish, |fetched|), EndPublish);
  }

  // ---- What handling one record amounts to ----------------------------------

  /** The state once the current record `r` has been acknowledged or given up. */
  ghost function Finished(cfg: Config, s: State, r: Record, logs: seq<Log>, acked: bool): State
    requires !s.phase.Idle?
  {
    var next := Advance(s.phase);
    if acked then
      s.(logs := logs, cache := Remember(s.cache, r.key, DigestOf(r), cfg.grid), phase := next,
         done := s.done + 1, dropped := s.dropped - {r.key})
    else
      s.(logs := logs,
         phase := (if next.Replaying? then next.(still := next.still + [r])
                   else next.(failures := next.failures + [r])),
         done := s.done + 1, clean := false)
  }

  lemma {:induction false} FailedAttempt(cfg: Config, s: State, r: Record, lands: bool)
    requires Current(s) == Some(r) && s.inflight == multiset{} && !Unchanged(cfg, s) && r.key.partition < |s.logs|
    ensures var logs := if lands then Append(s.logs, r.key.partition, Telemetry(r)) else s.logs;
            Do(cfg, Do(cfg, s, FailAttempt), if lands then Land(r) else Lose(r))
            == s.(logs := logs, phase := s.phase.(tried := true))
  {
    hide Lookup, Append;
    var t := Do(cfg, s, FailAttempt);
    assert r in t.inflight;
  }

  lemma {:induction false} LastEvent(cfg: Config, s: State, r: Record)
    requires Current(s) == Some(r) && s.inflight == multiset{} && !Unchanged(cfg, s) && r.key.partition < |s.logs|
    ensures Do(cfg, s, Ack) == Finished(cfg, s, r, Append(s.logs, r.key.partition, Telemetry(r)), true)
    ensures Do(cfg, s, GiveUp) == Finished(cfg, s, r, s.logs, false)
  {
    hide Lookup, Append, Remember, Unchanged;
  }

  lemma {:induction false} SentMeaning(cfg: Config, s: State, r: Record, fates: Attempts, i: nat)
    requires i <= |fates| && Current(s) == Some(r) && s.inflight == multiset{} && !Unchanged(cfg, s)
    requires r.key.partition < |s.logs|
    ensures Sent(cfg, s, fates, i) == Finished(cfg, s, r, LogsAfter(s.logs, r, fates, i), AckedFrom(fates, i))
    decreases |fates| - i
  {
    hide Lookup, Append, Remember, Do, Step, Enabled;
    LastEvent(cfg, s, r);
    if i < |fates| && !fates[i].Acked? {
      var lands := fates[i].FailedLanded?;
      FailedAttempt(cfg, s, r, lands);
      var t := s.(logs := if lands then Append(s.logs, r.key.partition, Telemetry(r)) else s.logs,
                  phase := s.phase.(tried := true));
      assert Current(t) == Some(r);
      SentMeaning(cfg, t, r, fates, i + 1);
    }
  }

  lemma {:induction false} BeginCycleMeaning(cfg: Config, s: State, fetched: seq<Record>)
    requires Inv(cfg, s) && s.phase.Idle? && Addressed(s, fetched)
    ensures Do(cfg, s, BeginCycle(fetched))
         == s.(phase := Replaying(fetched, 0, [], false),
               backlog := s.spool, fetch := fetched, done := 0, clean := true)
    ensures Shape(cfg, Do(cfg, s, BeginCycle(fetched)))
  {
    StepKeepsShape(cfg, s, BeginCycle(fetched));
  }

  lemma {:induction false} EndReplayMeaning(cfg: Config, s: State)
    requires Shape(cfg, s) && s.phase.Replaying? && s.phase.at == |s.spool|
    ensures Do(cfg, s, EndReplay) == s.(spool := s.phase.still, phase := Publishing(s.phase.fetched, 0, [], false))
    ensures Shape(cfg, Do(cfg, s, EndReplay))
  {
    hide Shape;
    StepKeepsShape(cfg, s, EndReplay);
  }

  lemma {:induction false} SkipMeaning(cfg: Config, s: State)
    requires Shape(cfg, s) && Unchanged(cfg, s)
    ensures Do(cfg, s, Skip) == s.(phase := Advance(s.phase), done := s.done + 1)
    ensures Shape(cfg, Do(cfg, s, Skip))
  {
    hide Shape;
    StepKeepsShape(cfg, s, Skip);
  }

  lemma {:induction false} EndPublishMeaning(cfg: Config, s: State)
    requires s.phase.Publishing? && s.phase.at == |s.phase.fetched|
    ensures var t := Do(cfg, s, EndPublish);
            && t.phase.Idle? && t.logs == s.logs && t.cache == s.cache && t.inflight == s.inflight
            && t.spool == if s.phase.failures == [] then s.spool
                          else (s.spool + s.phase.failures)[Overflow(|s.spool| + |s.phase.failures|, cfg.spoolMax)..]
  {
    hide Overflow, KeysOf;
  }

  lemma {:induction false} Ready(cfg: Config, s: State, r: Record)
    requires Shape(cfg, s) && Current(s) == Some(r)
    ensures r.key.partition < |s.logs|
  {
  }

  lemma {:induction false} SentKeepsShape(cfg: Config, s: State, fates: Attempts, r: Record)
    requires Shape(cfg, s) && Current(s) == Some(r) && s.inflight == multiset{} && !Unchanged(cfg, s)
    ensures Shape(cfg, Sent(cfg, s, fates, 0))
  {
    SentFromKeepsShape(cfg, s, fates, 0);
  }

  lemma {:induction false} DoKeepsShape(cfg: Config, s: State, e: Event)
    requires Shape(cfg, s)
    ensures Shape(cfg, Do(cfg, s, e))
  {
    hide Shape, Step, Enabled;
    if Enabled(cfg, s, e) {
      StepKeepsShape(cfg, s, e);
    }
  }

  lemma {:induction false} SentFromKeepsShape(cfg: Config, s: State, fates: Attempts, i: nat)
    requires i <= |fates| && Shape(cfg, s)
    ensures Shape(cfg, Sent(cfg, s, fates, i))
    decreases |fates| - i
  {
    hide Shape, Do, Current;
    DoKeepsShape(cfg, s, GiveUp);
    DoKeepsShape(cfg, s, Ack);
    DoKeepsShape(cfg, s, FailAttempt);
    if i < |fates| {
      var t := Do(cfg, s, FailAttempt);
      if Current(s).Some? {
        DoKeepsShape(cfg, t, Land(Current(s).value));
        DoKeepsShape(cfg, t, Lose(Current(s).value));
        SentFromKeepsShape(cfg, Do(cfg, t, Land(Current(s).value)), fates, i + 1);
        SentFromKeepsShape(cfg, Do(cfg, t, Lose(Current(s).value)), fates, i + 1);
      } else {
        SentFromKeepsShape(cfg, t, fates, i + 1);
      }
    }
  }
}
