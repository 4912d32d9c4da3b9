/** A consumer of the topic as a state machine: poll, handle, commit, stop and crash
    (ecogrid/consumer.py:316-362, 375-461, ecogrid/plant/consumer.py:146-158, 199-248).

    `commit()` is called without offsets, which is taken to commit the poll position. A consumer
    that restarts polls from what was committed. The table survives, since each write is one
    transaction. */
module ConsumerProtocol {
  import opened Common
  import opened Records
  import opened Ledger

  /** One partition: its log; the offset committed, the next one to handle and the next one to
      poll; and for the record the highest offset ever reached and which of those below it were
      settled (written, suppressed or rejected) or missed. */
  datatype Lane = Lane(
    log: Log, committed: nat, handled: nat, position: nat, high: nat, settled: set<nat>, missed: set<nat>)

  /** `stale` is history: the keys that a write failed for, or that a stop skipped, and that
      were not written since. */
  datatype State = State(lanes: seq<Lane>, table: Table, uncommitted: nat, stale: set<Key>)

  datatype Event =
    | Grow(logs: seq<Log>)
    | Poll(counts: seq<nat>)
    | Handle(partition: nat, now: int)
    | FailWrite(partition: nat)
    | Commit
    | Abort
    | Crash

  function Initial(partitions: nat): State {
    State(seq(partitions, _ => Lane([], 0, 0, 0, 0, {}, {})), map[], 0, {})
  }

  predicate BatchDone(s: State) {
    forall p | 0 <= p < |s.lanes| :: s.lanes[p].handled >= s.lanes[p].position
  }

  /** Keyed messages are where the partitioner puts them. */
  predicate Routed(log: Log, p: nat) {
    forall i | 0 <= i < |log| :: log[i].Telemetry? ==> log[i].record.key.partition == p
  }

  predicate InBatch(s: State, p: nat) {
    p < |s.lanes| && s.lanes[p].handled < s.lanes[p].position <= |s.lanes[p].log|
  }

  ghost predicate Enabled(s: State, e: Event) {
    match e
    case Grow(logs) =>
      |logs| == |s.lanes| && forall p | 0 <= p < |logs| :: LogExtends(s.lanes[p].log, logs[p]) && Routed(logs[p], p)
    case Poll(counts) =>
      |counts| == |s.lanes| && BatchDone(s)
      && forall p | 0 <= p < |counts| :: s.lanes[p].position + counts[p] <= |s.lanes[p].log|
    case Handle(p, _) => InBatch(s, p)
    case FailWrite(p) => InBatch(s, p) && s.lanes[p].log[s.lanes[p].handled].Telemetry?
    case Commit => BatchDone(s) && s.uncommitted > 0
    case Abort => true
    case Crash => true
  }

  function HandledIn(lane: Lane, ok: bool): Lane {
    lane.(handled := lane.handled + 1,
          high := if lane.high <= lane.handled then lane.handled + 1 else lane.high,
          settled := if ok then lane.settled + {lane.handled} else lane.settled,
          missed := if ok then lane.missed else lane.missed + {lane.handled})
  }

  /** Coming back at what was committed. */
  function Restarted(lane: Lane): Lane {
    lane.(handled := lane.committed, position := lane.committed)
  }

  function Offsets(lo: nat, hi: nat): (os: set<nat>)
    ensures forall o :: o in os <==> lo <= o < hi
  {
    if hi <= lo then {} else Offsets(lo, hi - 1) + {hi - 1}
  }

  /** What `stop` commits in the middle of a batch: the poll position, with what was never
      handled. */
  function Skipped(lane: Lane): Lane {
    lane.(committed := lane.position, handled := lane.position,
          high := if lane.high < lane.position then lane.position else lane.high,
          missed := lane.missed + Offsets(lane.handled, lane.position))
  }

  function SkippedKeys(lane: Lane): set<Key>
    requires lane.position <= |lane.log|
  {
    set o | lane.handled <= o < lane.position && lane.log[o].Telemetry? :: lane.log[o].record.key
  }

  ghost function Step(grid: bool, s: State, e: Event): State
    requires Enabled(s, e)
  {
    match e
    case Grow(logs) =>
      s.(lanes := seq(|s.lanes|, p requires 0 <= p < |s.lanes| => s.lanes[p].(log := logs[p])))
    case Poll(counts) =>
      s.(lanes := seq(|s.lanes|, p requires 0 <= p < |s.lanes| =>
                        s.lanes[p].(position := s.lanes[p].position + counts[p])))
    case Handle(p, now) =>
      var m := s.lanes[p].log[s.lanes[p].handled];
      var t := s.(lanes := s.lanes[p := HandledIn(s.lanes[p], true)], uncommitted := s.uncommitted + 1);
      if m.Telemetry? then
        t.(table := Upsert(grid, s.table, Delivery(m.record, now)), stale := s.stale - {m.record.key})
      else t
    case FailWrite(p) =>
      s.(lanes := s.lanes[p := HandledIn(s.lanes[p], false)],
         stale := s.stale + {s.lanes[p].log[s.lanes[p].handled].record.key})
    case Commit =>
      s.(lanes := seq(|s.lanes|, p requires 0 <= p < |s.lanes| => s.lanes[p].(committed := s.lanes[p].position)),
         uncommitted := 0)
    case Abort =>
      if s.uncommitted > 0 then
        s.(lanes := seq(|s.lanes|, p requires 0 <= p < |s.lanes| => Skipped(s.lanes[p])), uncommitted := 0,
           stale := s.stale + set p, k | 0 <= p < |s.lanes| && s.lanes[p].position <= |s.lanes[p].log|
                                          && k in SkippedKeys(s.lanes[p]) :: k)
      else s.(lanes := seq(|s.lanes|, p requires 0 <= p < |s.lanes| => Restarted(s.lanes[p])))
    case Crash =>
      s.(lanes := seq(|s.lanes|, p requires 0 <= p < |s.lanes| => Restarted(s.lanes[p])), uncommitted := 0)
  }

  // ---- Invariants -----------------------------------------------------------

  ghost predicate LaneShape(lane: Lane, p: nat) {
    && lane.committed <= lane.handled <= lane.position <= |lane.log| && lane.handled <= lane.high <= |lane.log|
    && Routed(lane.log, p)
    && forall o | 0 <= o < lane.high :: o in lane.settled || o in lane.missed
  }

  ghost predicate Shape(s: State) {
    forall p | 0 <= p < |s.lanes| :: LaneShape(s.lanes[p], p)
  }

  /** A row holds what its key had at some offset between the next to handle and the highest
      ever reached. */
  ghost predicate Matches(s: State, k: Key) {
    if k.partition < |s.lanes| then exists j: nat :: MatchesAt(s.lanes[k.partition], s.table, k, j) else k !in s.table
  }

  predicate MatchesAt(lane: Lane, t: Table, k: Key, j: nat) {
    lane.handled <= j <= lane.high && j <= |lane.log| && HashFor(t, k) == LastIn(lane.log, j, k)
  }

  /** A row is the content that its hash says it is. */
  ghost predicate Sound(grid: bool, t: Table, k: Key) {
    k in t ==> t[k].hash.key == k && t[k].hash.core == t[k].core && (grid ==> t[k].hash.meta == t[k].meta)
  }

  ghost predicate KeyInv(grid: bool, s: State, k: Key) {
    (k in s.stale || Matches(s, k)) && Sound(grid, s.table, k)
  }

  ghost predicate Inv(grid: bool, s: State) {
    Shape(s) && forall k :: KeyInv(grid, s, k)
  }

  lemma {:induction false} StepKeepsShape(grid: bool, s: State, e: Event)
    requires Shape(s) && Enabled(s, e)
    ensures Shape(Step(grid, s, e)) && |Step(grid, s, e).lanes| == |s.lanes|
  {
    hide Upsert, LogExtends, SkippedKeys, Routed;
    var t := Step(grid, s, e);
    forall p | 0 <= p < |t.lanes| ensures LaneShape(t.lanes[p], p) {
      assert LaneShape(s.lanes[p], p);
      if e.Grow? {
        GrowthExtends(s.lanes[p].log, e.logs[p]);
      }
    }
  }

  lemma {:induction false} GrowthExtends(before: Log, after: Log)
    requires LogExtends(before, after)
    ensures |before| <= |after|
  {
  }

  /** Passing a message of another key, with or without success. */
  lemma {:induction false} StaysMatched(s: State, t: State, p: nat, k: Key)
    requires InBatch(s, p) && s.lanes[p].handled <= s.lanes[p].high <= |s.lanes[p].log|
    requires k.partition < |s.lanes| && Matches(s, k)
    requires t.lanes == s.lanes[p := HandledIn(s.lanes[p], true)]
          || t.lanes == s.lanes[p := HandledIn(s.lanes[p], false)]
    requires HashFor(t.table, k) == HashFor(s.table, k) && !For(s.lanes[p].log[s.lanes[p].handled], k)
    ensures Matches(t, k)
  {
    hide LastIn, HashFor;
    var lane := s.lanes[k.partition];
    var j: nat :| MatchesAt(lane, s.table, k, j);
    LastInStep(s.lanes[p].log, s.lanes[p].handled, k);
    var j': nat := if k.partition == p && j == lane.handled then j + 1 else j;
    assert MatchesAt(t.lanes[k.partition], t.table, k, j');
  }

  lemma {:induction false} HandleKeepsKey(grid: bool, s: State, p: nat, now: int, k: Key)
    requires Shape(s) && Enabled(s, Handle(p, now)) && KeyInv(grid, s, k)
    ensures KeyInv(grid, Step(grid, s, Handle(p, now)), k)
  {
    hide LaneShape, LastIn;
    var lane := s.lanes[p];
    assert LaneShape(lane, p);
    LaneFacts(lane, p);
    var t := Step(grid, s, Handle(p, now));
    var m := lane.log[lane.handled];
    LastInStep(lane.log, lane.handled, k);
    if For(m, k) {
      assert MatchesAt(t.lanes[p], t.table, k, lane.handled + 1);
    } else {
      assert HashFor(t.table, k) == HashFor(s.table, k);
      if k !in s.stale && k.partition < |s.lanes| {
        StaysMatched(s, t, p, k);
      }
    }
  }

  lemma {:induction false} LaneFacts(lane: Lane, p: nat)
    requires LaneShape(lane, p)
    ensures lane.committed <= lane.handled <= lane.position <= |lane.log| && lane.handled <= lane.high <= |lane.log|
    ensures forall i | 0 <= i < |lane.log| :: lane.log[i].Telemetry? ==> lane.log[i].record.key.partition == p
  {
  }

  lemma {:induction false} LastInStep(log: Log, n: nat, k: Key)
    requires n < |log|
    ensures LastIn(log, n + 1, k) == if For(log[n], k) then Some(DigestOf(log[n].record)) else LastIn(log, n, k)
  {
  }

  lemma {:induction false} FailWriteKeepsKey(grid: bool, s: State, p: nat, k: Key)
    requires Shape(s) && Enabled(s, FailWrite(p)) && KeyInv(grid, s, k)
    ensures KeyInv(grid, Step(grid, s, FailWrite(p)), k)
  {
    hide LaneShape, LastIn;
    var lane := s.lanes[p];
    assert LaneShape(lane, p);
    LaneFacts(lane, p);
    var t := Step(grid, s, FailWrite(p));
    LastInStep(lane.log, lane.handled, k);
    if !For(lane.log[lane.handled], k) && k !in s.stale && k.partition < |s.lanes| {
      StaysMatched(s, t, p, k);
    }
  }

  lemma {:induction false} GrowKeepsKey(grid: bool, s: State, logs: seq<Log>, k: Key)
    requires Shape(s) && Enabled(s, Grow(logs)) && KeyInv(grid, s, k)
    ensures KeyInv(grid, Step(grid, s, Grow(logs)), k)
  {
    hide LaneShape, LastIn;
    if k !in s.stale && k.partition < |s.lanes| {
      var lane := s.lanes[k.partition];
      var j: nat :| MatchesAt(lane, s.table, k, j);
      LastInExtension(lane.log, logs[k.partition], j, k);
      assert MatchesAt(Step(grid, s, Grow(logs)).lanes[k.partition], s.table, k, j);
    }
  }

  /** Past messages of other keys, a key's last record stays the same. */
  lemma {:induction false} LastInPast(log: Log, i: nat, j: nat, k: Key)
    requires i <= j <= |log| && forall o | i <= o < j :: !For(log[o], k)
    ensures LastIn(log, j, k) == LastIn(log, i, k)
    decreases j
  {
    if i < j {
      LastInPast(log, i, j - 1, k);
    }
  }

  lemma {:induction false} AbortKeepsKey(grid: bool, s: State, k: Key)
    requires Shape(s) && s.uncommitted > 0 && KeyInv(grid, s, k)
    ensures KeyInv(grid, Step(grid, s, Abort), k)
  {
    hide LaneShape, LastIn, SkippedKeys;
    var t := Step(grid, s, Abort);
    if k !in t.stale && k.partition < |s.lanes| {
      var lane := s.lanes[k.partition];
      assert LaneShape(lane, k.partition);
      LaneFacts(lane, k.partition);
      assert k !in SkippedKeys(lane);
      NotSkipped(lane, k);
      var j: nat :| MatchesAt(lane, s.table, k, j);
      if j < lane.position {
        LastInPast(lane.log, j, lane.position, k);
        assert MatchesAt(t.lanes[k.partition], t.table, k, lane.position);
      } else {
        assert MatchesAt(t.lanes[k.partition], t.table, k, j);
      }
    }
  }

  lemma {:induction false} NotSkipped(lane: Lane, k: Key)
    requires lane.position <= |lane.log| && k !in SkippedKeys(lane)
    ensures forall o | lane.handled <= o < lane.position :: !For(lane.log[o], k)
  {
    assert forall o | lane.handled <= o < lane.position && lane.log[o].Telemetry? ::
        lane.log[o].record.key in SkippedKeys(lane);
  }

  lemma {:induction false} OthersKeepKey(grid: bool, s: State, e: Event, k: Key)
    requires Shape(s) && Enabled(s, e) && KeyInv(grid, s, k) && (e.Poll? || e.Commit? || e.Crash?)
    ensures KeyInv(grid, Step(grid, s, e), k)
  {
    hide LaneShape, LastIn;
    if k !in s.stale && k.partition < |s.lanes| {
      var lane := s.lanes[k.partition];
      assert LaneShape(lane, k.partition);
      LaneFacts(lane, k.partition);
      var j: nat :| MatchesAt(lane, s.table, k, j);
      assert MatchesAt(Step(grid, s, e).lanes[k.partition], s.table, k, j);
    }
  }

  lemma {:induction false} StepKeepsKey(grid: bool, s: State, e: Event, k: Key)
    requires Shape(s) && Enabled(s, e) && KeyInv(grid, s, k)
    ensures KeyInv(grid, Step(grid, s, e), k)
  {
    hide Shape, Step, KeyInv;
    match e {
      case Grow(logs) => GrowKeepsKey(grid, s, logs, k);
      case Handle(p, now) => HandleKeepsKey(grid, s, p, now, k);
      case FailWrite(p) => FailWriteKeepsKey(grid, s, p, k);
      case Abort => AbortOrCrashKeepsKey(grid, s, k);
      case _ => OthersKeepKey(grid, s, e, k);
    }
  }

  lemma {:induction false} AbortOrCrashKeepsKey(grid: bool, s: State, k: Key)
    requires Shape(s) && KeyInv(grid, s, k)
    ensures KeyInv(grid, Step(grid, s, Abort), k)
  {
    hide Shape, KeyInv;
    if s.uncommitted > 0 {
      AbortKeepsKey(grid, s, k);
    } else {
      OthersKeepKey(grid, s, Crash, k);
    }
  }

  lemma {:induction false} StepKeepsInv(grid: bool, s: State, e: Event)
    requires Inv(grid, s) && Enabled(s, e)
    ensures Inv(grid, Step(grid, s, e))
  {
    hide Shape, Step, Enabled, KeyInv;
    StepKeepsShape(grid, s, e);
    forall k ensures KeyInv(grid, Step(grid, s, e), k) {
      StepKeepsKey(grid, s, e, k);
    }
  }

  // ---- Runs -----------------------------------------------------------------

  ghost function After(grid: bool, s: State, es: seq<Event>, n: nat): Option<State>
    requires n <= |es|
  {
    if n == 0 then Some(s)
    else match After(grid, s, es, n - 1)
         case None => None
         case Some(t) => if Enabled(t, es[n - 1]) then Some(Step(grid, t, es[n - 1])) else None
  }

  lemma {:induction false} InitialInv(grid: bool, partitions: nat)
    ensures Inv(grid, Initial(partitions))
  {
    var s := Initial(partitions);
    forall k ensures KeyInv(grid, s, k) {
      if k.partition < partitions {
        assert MatchesAt(s.lanes[k.partition], s.table, k, 0);
      }
    }
  }

  lemma {:induction false} EveryRunKeepsInv(grid: bool, partitions: nat, es: seq<Event>, n: nat)
    requires n <= |es|
    ensures match After(grid, Initial(partitions), es, n) case Some(s) => Inv(grid, s) case None => true
  {
    hide Inv, Step, Enabled, Initial;
    if n == 0 {
      InitialInv(grid, partitions);
    } else {
      EveryRunKeepsInv(grid, partitions, es, n - 1);
      match After(grid, Initial(partitions), es, n - 1) {
        case None =>
        case Some(t) => if Enabled(t, es[n - 1]) { StepKeepsInv(grid, t, es[n - 1]); }
      }
    }
  }

  /** After any run of polls, handling, failed writes, commits, stops and crashes, every offset
      below the committed one was settled or is known to have been missed; and wherever the
      consumer is back at its high-water mark, the row of every key that is not stale is the
      key's last record so far. */
  lemma {:induction false} CommittedOffsetsAreAccountedFor(grid: bool, partitions: nat, es: seq<Event>, s: State,
          p: nat, k: Key)
    requires After(grid, Initial(partitions), es, |es|) == Some(s) && p < |s.lanes|
    ensures forall o | 0 <= o < s.lanes[p].committed :: o in s.lanes[p].settled || o in s.lanes[p].missed
    ensures k.partition == p && k !in s.stale && s.lanes[p].handled == s.lanes[p].high ==>
              s.lanes[p].high <= |s.lanes[p].log| && HashFor(s.table, k) == LastIn(s.lanes[p].log, s.lanes[p].high, k)
  {
    hide LastIn;
    EveryRunKeepsInv(grid, partitions, es, |es|);
    assert LaneShape(s.lanes[p], p) && KeyInv(grid, s, k);
  }

  /** At the end of the log every row that is not stale is the last record of its key, content
      and all. */
  lemma {:induction false} CaughtUpRowsAreLast(grid: bool, s: State, k: Key)
    requires Inv(grid, s) && k.partition < |s.lanes| && k !in s.stale
    requires s.lanes[k.partition].handled == |s.lanes[k.partition].log|
    ensures HashFor(s.table, k) == LastOf(s.lanes[k.partition].log, k)
    ensures Sound(grid, s.table, k)
  {
    hide LastIn;
    assert LaneShape(s.lanes[k.partition], k.partition) && KeyInv(grid, s, k);
  }

  /** An event that skips nothing: no failed write, and no stop that commits a batch half done. A
      stop is harmless when there is nothing to commit or when it comes between two batches, as it
      does when the commit of a finished batch has failed. */
  predicate Gentle(s: State, e: Event) {
    !e.FailWrite? && (e.Abort? ==> s.uncommitted == 0 || BatchDone(s))
  }

  /** The first `n` events of a run skip nothing. */
  ghost predicate Smooth(grid: bool, s: State, es: seq<Event>, n: nat)
    requires n <= |es|
  {
    n > 0 ==>
      && Smooth(grid, s, es, n - 1)
      && match After(grid, s, es, n - 1) case Some(t) => Gentle(t, es[n - 1]) case None => true
  }

  ghost predicate MissesNothing(s: State) {
    forall p | 0 <= p < |s.lanes| :: s.lanes[p].missed == {}
  }

  /** Every offset below the committed one was written, suppressed or rejected. */
  ghost predicate AllSettled(s: State) {
    forall p, o | 0 <= p < |s.lanes| && 0 <= o < s.lanes[p].committed :: o in s.lanes[p].settled
  }

  /** A step misses something exactly when it is a failed write, or a stop that commits a batch
      half done. */
  lemma {:induction false} StepMissesNothingExactlyWhen(grid: bool, s: State, e: Event)
    requires Shape(s) && Enabled(s, e)
    ensures MissesNothing(Step(grid, s, e)) <==> MissesNothing(s) && Gentle(s, e)
  {
    hide Upsert, LogExtends, SkippedKeys, Routed;
    var t := Step(grid, s, e);
    assert |t.lanes| == |s.lanes|;
    forall p | 0 <= p < |s.lanes| ensures s.lanes[p].missed <= t.lanes[p].missed {
    }
    if e.FailWrite? {
      assert s.lanes[e.partition].handled in t.lanes[e.partition].missed;
    } else if e.Abort? && s.uncommitted > 0 {
      forall p | 0 <= p < |s.lanes|
        ensures t.lanes[p].missed == s.lanes[p].missed + Offsets(s.lanes[p].handled, s.lanes[p].position) {
      }
      if !BatchDone(s) {
        var p :| 0 <= p < |s.lanes| && s.lanes[p].handled < s.lanes[p].position;
        assert s.lanes[p].handled in t.lanes[p].missed;
      }
    }
  }

  lemma {:induction false} GentleStepsAddNoStaleKey(grid: bool, s: State, e: Event)
    requires Shape(s) && Enabled(s, e) && Gentle(s, e)
    ensures Step(grid, s, e).stale <= s.stale
  {
    hide Upsert, LogExtends, Routed;
    if e.Abort? && s.uncommitted > 0 {
      forall p | 0 <= p < |s.lanes| && s.lanes[p].position <= |s.lanes[p].log| ensures SkippedKeys(s.lanes[p]) == {} {
      }
    }
  }

  lemma {:induction false} GrowKeepsStale(grid: bool, s: State, logs: seq<Log>)
    requires Enabled(s, Grow(logs))
    ensures Step(grid, s, Grow(logs)).stale == s.stale
  {
  }

  /** A run misses no offset exactly when no write failed in it and no stop committed a batch half
      done, whatever crashed. Then every offset below the committed one was settled, and no key is
      stale. */
  lemma {:induction false} RunMissesNothingExactlyWhen(grid: bool, partitions: nat, es: seq<Event>, n: nat)
    requires n <= |es| && After(grid, Initial(partitions), es, n).Some?
    ensures var s := After(grid, Initial(partitions), es, n).value;
            && (MissesNothing(s) <==> Smooth(grid, Initial(partitions), es, n))
            && (Smooth(grid, Initial(partitions), es, n) ==> s.stale == {} && AllSettled(s))
  {
    hide Step, Enabled, Gentle, Shape, KeyInv;
    EveryRunKeepsInv(grid, partitions, es, n);
    if n > 0 {
      RunMissesNothingExactlyWhen(grid, partitions, es, n - 1);
      EveryRunKeepsInv(grid, partitions, es, n - 1);
      var t := After(grid, Initial(partitions), es, n - 1).value;
      StepMissesNothingExactlyWhen(grid, t, es[n - 1]);
      if Gentle(t, es[n - 1]) {
        GentleStepsAddNoStaleKey(grid, t, es[n - 1]);
      }
    }
    SettledUnlessMissed(After(grid, Initial(partitions), es, n).value);
  }

  lemma {:induction false} SettledUnlessMissed(s: State)
    requires Shape(s)
    ensures MissesNothing(s) ==> AllSettled(s)
  {
    forall p, o | MissesNothing(s) && 0 <= p < |s.lanes| && 0 <= o < s.lanes[p].committed
      ensures o in s.lanes[p].settled {
      assert LaneShape(s.lanes[p], p);
    }
  }

  // ---- What the claim "left uncommitted for redelivery" comes to -------------

  lemma {:induction false} CommittedIsForGood(grid: bool, s: State, e: Event, p: nat)
    requires Shape(s) && Enabled(s, e) && p < |s.lanes|
    ensures s.lanes[p].committed <= Step(grid, s, e).lanes[p].committed <= Step(grid, s, e).lanes[p].handled
  {
    hide Upsert, LogExtends, SkippedKeys, Routed;
    assert LaneShape(s.lanes[p], p);
  }

  /** An offset that was passed without success comes back exactly by a crash, or by a stop with
      nothing to commit, and is given up exactly by the next commit, whatever caused that. As the
      committed offset never falls, it does not come back after that. */
  lemma {:induction false} PassedOffsetComesBackExactlyWhen(grid: bool, s: State, e: Event, p: nat, o: nat)
    requires Shape(s) && Enabled(s, e) && p < |s.lanes| && s.lanes[p].committed <= o < s.lanes[p].handled
    ensures Step(grid, s, e).lanes[p].handled <= o <==> GivesBack(s, e)
    ensures o < Step(grid, s, e).lanes[p].committed <==> GivesUp(s, e)
  {
    hide Upsert, LogExtends, SkippedKeys, Routed;
    assert LaneShape(s.lanes[p], p);
  }

  /** An offset that was polled but not handled when a stop comes is committed unhandled exactly
      when there is something to commit; otherwise the consumer comes back at or before it. */
  lemma {:induction false} StopSkipsAnOffsetExactlyWhen(grid: bool, s: State, p: nat, o: nat)
    requires Shape(s) && p < |s.lanes| && s.lanes[p].handled <= o < s.lanes[p].position
    ensures o < Step(grid, s, Abort).lanes[p].committed <==> s.uncommitted > 0
    ensures o < Step(grid, s, Abort).lanes[p].handled <==> s.uncommitted > 0
    ensures o in Step(grid, s, Abort).lanes[p].missed <==> s.uncommitted > 0 || o in s.lanes[p].missed
  {
    hide SkippedKeys, Routed;
    assert LaneShape(s.lanes[p], p);
  }

  /** What is settled and what is missed: an offset is settled by being handled, and missed by a write
      that fails or a stop that skips it, and by nothing else. */
  lemma {:induction false} StepSettlesExactly(grid: bool, s: State, e: Event, p: nat, o: nat)
    requires Enabled(s, e) && p < |s.lanes|
    ensures var was, now := s.lanes[p], Step(grid, s, e).lanes[p];
            && (o in now.settled <==> o in was.settled || (e.Handle? && e.partition == p && o == was.handled))
            && (o in now.missed <==>
                  || o in was.missed
                  || (e.FailWrite? && e.partition == p && o == was.handled)
                  || (e.Abort? && s.uncommitted > 0 && was.handled <= o < was.position))
  {
    hide Upsert, LogExtends, SkippedKeys, Routed, BatchDone;
  }

  /** A consumer that restarts has everything from the committed offset on before it; the log, the table
      and what is committed are as they were, and nothing is left to commit. */
  lemma {:induction false} RestartsWhereCommitted(grid: bool, s: State, e: Event, p: nat)
    requires p < |s.lanes| && (e.Crash? || (e.Abort? && s.uncommitted == 0))
    ensures var was, t := s.lanes[p], Step(grid, s, e);
            && t.lanes[p].handled == t.lanes[p].position == t.lanes[p].committed == was.committed
            && t.lanes[p].log == was.log && t.table == s.table && t.uncommitted == 0
  {
  }

  /** What is committed is never handled again, in any run. */
  lemma {:induction false} CommittedNeverComesBack(grid: bool, s: State, es: seq<Event>, n: nat, p: nat, o: nat)
    requires Shape(s) && p < |s.lanes| && o < s.lanes[p].committed && n <= |es| && After(grid, s, es, n).Some?
    ensures var t := After(grid, s, es, n).value;
            Shape(t) && |t.lanes| == |s.lanes| && o < t.lanes[p].committed <= t.lanes[p].handled
  {
    hide Shape, Step, Enabled;
    if n == 0 {
      CommittedIsHandled(s, p);
    } else {
      CommittedNeverComesBack(grid, s, es, n - 1, p, o);
      var t := After(grid, s, es, n - 1).value;
      StepKeepsShape(grid, t, es[n - 1]);
      CommittedIsForGood(grid, t, es[n - 1], p);
    }
  }

  lemma {:induction false} CommittedIsHandled(s: State, p: nat)
    requires Shape(s) && p < |s.lanes|
    ensures s.lanes[p].committed <= s.lanes[p].handled
  {
    assert LaneShape(s.lanes[p], p);
  }

  predicate GivesBack(s: State, e: Event) {
    e.Crash? || (e.Abort? && s.uncommitted == 0)
  }

  predicate GivesUp(s: State, e: Event) {
    e.Commit? || (e.Abort? && s.uncommitted > 0)
  }

  datatype Verdict = Open | BackFirst | CommittedFirst

  /** Which came first among the first `n` events: a restart or a commit. */
  ghost function FirstDecision(grid: bool, s: State, es: seq<Event>, n: nat): Verdict
    requires n <= |es|
  {
    if n == 0 then Open
    else match FirstDecision(grid, s, es, n - 1)
         case BackFirst => BackFirst
         case CommittedFirst => CommittedFirst
         case Open =>
           match After(grid, s, es, n - 1)
           case None => Open
           case Some(t) =>
             if GivesBack(t, es[n - 1]) then BackFirst else if GivesUp(t, es[n - 1]) then CommittedFirst else Open
  }

  /** After `n` events the consumer stands at or before offset `o`, which it will handle next
      or later. */
  ghost predicate StandsBefore(grid: bool, s: State, es: seq<Event>, n: nat, p: nat, o: nat)
    requires n <= |es|
  {
    match After(grid, s, es, n)
    case None => false
    case Some(t) => p < |t.lanes| && t.lanes[p].handled <= o
  }

  /** Whether an offset passed without success, such as that of a failed write, is ever delivered
      again: in any run, exactly when a restart came before the first commit. */
  lemma {:induction false} PassedOffsetIsRedeliveredExactlyWhen(grid: bool, s: State, es: seq<Event>, n: nat,
          p: nat, o: nat)
    requires Shape(s) && p < |s.lanes| && s.lanes[p].committed <= o < s.lanes[p].handled
    requires n <= |es| && After(grid, s, es, n).Some?
    ensures (exists i | 0 <= i <= n :: StandsBefore(grid, s, es, i, p, o)) <==> FirstDecision(grid, s, es, n).BackFirst?
    ensures var t := After(grid, s, es, n).value;
            && Shape(t) && |t.lanes| == |s.lanes|
            && (FirstDecision(grid, s, es, n).Open? ==> t.lanes[p].committed <= o < t.lanes[p].handled)
            && (FirstDecision(grid, s, es, n).CommittedFirst? ==> o < t.lanes[p].committed)
  {
    hide Shape, Step, Enabled;
    if n == 0 {
      assert !StandsBefore(grid, s, es, 0, p, o);
    } else {
      PassedOffsetIsRedeliveredExactlyWhen(grid, s, es, n - 1, p, o);
      var t, e := After(grid, s, es, n - 1).value, es[n - 1];
      StepKeepsShape(grid, t, e);
      CommittedIsForGood(grid, t, e, p);
      if FirstDecision(grid, s, es, n - 1).Open? {
        PassedOffsetComesBackExactlyWhen(grid, t, e, p, o);
      }
      assert StandsBefore(grid, s, es, n, p, o) <==> Step(grid, t, e).lanes[p].handled <= o;
    }
  }

  function Polled(log: Log): State {
    State([Lane(log, 0, 0, |log|, 0, {}, {})], map[], 0, {})
  }

  /** A consumer on one partition comes to have polled the whole of `log`. */
  ghost predicate PollsTo(grid: bool, log: Log) {
    After(grid, Initial(1), [Grow([log]), Poll([|log|])], 2) == Some(Polled(log))
  }

  lemma {:induction false} PollTwo(grid: bool, log: Log)
    requires |log| == 2 && Routed(log, 0)
    ensures PollsTo(grid, log)
  {
    var es := [Grow([log]), Poll([2])];
    var s := Initial(1);
    assert s.lanes == [Lane([], 0, 0, 0, 0, {}, {})];
    assert After(grid, s, es, 0) == Some(s);
    var t := State([Lane(log, 0, 0, 0, 0, {}, {})], map[], 0, {});
    assert Step(grid, s, es[0]).lanes == t.lanes;
    assert After(grid, s, es, 1) == Some(t);
    assert Step(grid, t, es[1]).lanes == [Lane(log, 0, 0, 2, 0, {}, {})];
  }

  /** A failed write is not redelivered when anything else in its batch succeeds: here the batch
      is committed past a record that no row holds. */
  lemma {:induction false} FailedWriteIsCommittedPast(grid: bool, a: Record, b: Record, now: int)
    requires a.key != b.key && a.key.partition == b.key.partition == 0
    ensures var log := [Telemetry(a), Telemetry(b)];
            var s := Step(grid, Step(grid, Polled(log), FailWrite(0)), Handle(0, now));
            && PollsTo(grid, log) && Enabled(Polled(log), FailWrite(0))
            && Enabled(Step(grid, Polled(log), FailWrite(0)), Handle(0, now))
            && Enabled(s, Commit)
            && Step(grid, s, Commit).lanes[0].committed == 2 && a.key !in Step(grid, s, Commit).table
  {
    PollTwo(grid, [Telemetry(a), Telemetry(b)]);
  }

  /** An exception that escapes in the middle of a batch makes `stop` commit the rest of it. */
  lemma {:induction false} StopMidBatchCommitsTheRest(grid: bool, a: Record, b: Record, now: int)
    requires a.key != b.key && a.key.partition == b.key.partition == 0
    ensures var log := [Telemetry(a), Telemetry(b)];
            && PollsTo(grid, log) && Enabled(Polled(log), Handle(0, now))
            && var s := Step(grid, Step(grid, Polled(log), Handle(0, now)), Abort);
            s.lanes[0].committed == 2 && b.key !in s.table && 1 in s.lanes[0].missed
  {
    PollTwo(grid, [Telemetry(a), Telemetry(b)]);
  }
}
