/** The two consumers as the source writes them: objects that handle a polled batch message by
    message, count as they go, and commit once (ecogrid/consumer.py:223-461,
    ecogrid/plant/consumer.py:102-248). Both are proved to move exactly as the protocol does. */
module TelemetryConsumer {
  import opened Common
  import opened Records
  import opened Ledger
  import opened ConsumerProtocol

  /** What becomes of the transaction for one message, and of a forward to the dead-letter
      topic. `Undone` failed once the upsert had been executed, `Refused` before that. */
  datatype Fate = Written(now: int) | Undone | Refused

  /** What `getmany` returned for one partition, with the fates its messages will meet. */
  datatype Batch = Batch(partition: nat, first: nat, messages: Log, fates: seq<Fate>, forwards: seq<bool>)

  datatype Stats = Stats(consumed: nat, inserted: nat, revised: nat, duplicates: nat, rejected: nat, deadLettered: nat)

  const ZERO := Stats(0, 0, 0, 0, 0, 0)

  /** A row of `ingest_audit`. */
  datatype AuditRow = AuditRow(lastOffset: int, consumed: nat, rejected: nat, applied: nat, suppressed: nat)

  type Audit = map<nat, AuditRow>

  /** `update_ingest_audit`: the offset never falls, the counters are the caller's. */
  function AuditUpsert(a: Audit, p: nat, offset: int, st: Stats): Audit {
    a[p := AuditRow(if p in a then Max(a[p].lastOffset, offset) else offset,
                    st.consumed, st.rejected, st.inserted + st.revised, st.duplicates)]
  }

  function Counted(st: Stats, outcome: Outcome): (st': Stats)
    ensures st'.deadLettered == st.deadLettered
  {
    match outcome
    case Inserted => st.(inserted := st.inserted + 1)
    case Revised => st.(revised := st.revised + 1)
    case Duplicate => st.(duplicates := st.duplicates + 1)
  }

  /** How the counters answer one message. The grid consumer counts an outcome as soon as the
      upsert was executed, the plant consumer once it is durable. */
  function Tally(grid: bool, st: Stats, t: Table, m: Message, fate: Fate): Stats {
    var seen := st.(consumed := st.consumed + 1);
    match m
    case Malformed(_) => seen.(rejected := seen.rejected + 1)
    case Telemetry(r) =>
      if fate.Written? || (grid && fate.Undone?) then Counted(seen, OutcomeOf(t, Delivery(r, 0))) else seen
  }

  function EventOf(p: nat, m: Message, fate: Fate): Event {
    match m
    case Malformed(_) => Handle(p, 0)
    case Telemetry(_) => match fate case Written(now) => Handle(p, now) case _ => FailWrite(p)
  }

  // ---- A batch in protocol events --------------------------------------------

  ghost function Do(grid: bool, s: State, e: Event): State {
    if Enabled(s, e) then Step(grid, s, e) else s
  }

  ghost function MessagesUpTo(grid: bool, s: State, b: Batch, n: nat): State
    requires n <= |b.messages| == |b.fates|
  {
    if n == 0 then s
    else Do(grid, MessagesUpTo(grid, s, b, n - 1), EventOf(b.partition, b.messages[n - 1], b.fates[n - 1]))
  }

  ghost function BatchesUpTo(grid: bool, s: State, bs: seq<Batch>, n: nat): State
    requires n <= |bs| && WellFormed(bs)
  {
    if n == 0 then s else MessagesUpTo(grid, BatchesUpTo(grid, s, bs, n - 1), bs[n - 1], |bs[n - 1].messages|)
  }

  /** Handling everything polled, then committing if there is anything to commit. */
  ghost function BatchSpec(grid: bool, s: State, bs: seq<Batch>): State
    requires WellFormed(bs)
  {
    Do(grid, BatchesUpTo(grid, s, bs, |bs|), Commit)
  }

  predicate WellFormed(bs: seq<Batch>) {
    && (forall i | 0 <= i < |bs| :: |bs[i].fates| == |bs[i].messages| == |bs[i].forwards|)
    && forall i, j | 0 <= i < j < |bs| :: bs[i].partition != bs[j].partition
  }

  /** `lane` has polled exactly `ms`, from the offset `first`, beyond what it handled. */
  predicate Awaits(lane: Lane, first: nat, ms: Log) {
    lane.handled == first && lane.handled <= lane.position <= |lane.log| && lane.log[lane.handled..lane.position] == ms
  }

  /** The batches from `n` on are what remains to be handled. */
  ghost predicate Remaining(s: State, bs: seq<Batch>, n: nat)
    requires n <= |bs|
  {
    && (forall i | n <= i < |bs| ::
          bs[i].partition < |s.lanes| && Awaits(s.lanes[bs[i].partition], bs[i].first, bs[i].messages))
    && forall p | 0 <= p < |s.lanes| :: Listed(bs, n, p) || s.lanes[p].handled >= s.lanes[p].position
  }

  ghost predicate Listed(bs: seq<Batch>, n: nat, p: nat) {
    exists i | n <= i < |bs| :: bs[i].partition == p
  }

  lemma {:induction false} OneMessage(grid: bool, s: State, b: Batch, i: nat)
    requires i < |b.messages| == |b.fates| && b.partition < |s.lanes|
    requires Awaits(s.lanes[b.partition], b.first + i, b.messages[i..])
    ensures var e := EventOf(b.partition, b.messages[i], b.fates[i]);
            var t := Do(grid, s, e);
            && InBatch(s, b.partition) && s.lanes[b.partition].log[s.lanes[b.partition].handled] == b.messages[i]
            && Enabled(s, e) && t == Step(grid, s, e)
            && |t.lanes| == |s.lanes| && Awaits(t.lanes[b.partition], b.first + i + 1, b.messages[i + 1..])
            && t.lanes[b.partition].committed == s.lanes[b.partition].committed
            && t.lanes[b.partition].position == s.lanes[b.partition].position
            && forall p | 0 <= p < |s.lanes| && p != b.partition :: t.lanes[p] == s.lanes[p]
  {
    hide Upsert;
    var lane := s.lanes[b.partition];
    assert lane.log[lane.handled..lane.position][0] == b.messages[i..][0];
    assert lane.log[lane.handled + 1..lane.position] == b.messages[i..][1..];
  }

  lemma {:induction false} OneStep(grid: bool, s: State, p: nat, m: Message, fate: Fate)
    requires InBatch(s, p) && s.lanes[p].log[s.lanes[p].handled] == m
    ensures var e := EventOf(p, m, fate);
            && Enabled(s, e)
            && Step(grid, s, e).table
               == (if m.Telemetry? && fate.Written? then Upsert(grid, s.table, Delivery(m.record, fate.now))
                   else s.table)
            && Step(grid, s, e).uncommitted == s.uncommitted + if m.Telemetry? && !fate.Written? then 0 else 1
  {
    hide Upsert;
  }

  lemma {:induction false} BatchKeepsInv(grid: bool, s: State, bs: seq<Batch>)
    requires WellFormed(bs) && Inv(grid, s)
    ensures Inv(grid, BatchSpec(grid, s, bs))
  {
    hide Inv, Do;
    BatchesKeepInv(grid, s, bs, |bs|);
    DoKeepsInv(grid, BatchesUpTo(grid, s, bs, |bs|), Commit);
  }

  lemma {:induction false} BatchesKeepInv(grid: bool, s: State, bs: seq<Batch>, n: nat)
    requires n <= |bs| && WellFormed(bs) && Inv(grid, s)
    ensures Inv(grid, BatchesUpTo(grid, s, bs, n))
  {
    hide Inv, MessagesUpTo;
    if n > 0 {
      BatchesKeepInv(grid, s, bs, n - 1);
      MessagesKeepInv(grid, BatchesUpTo(grid, s, bs, n - 1), bs[n - 1], |bs[n - 1].messages|);
    }
  }

  lemma {:induction false} MessagesKeepInv(grid: bool, s: State, b: Batch, n: nat)
    requires n <= |b.messages| == |b.fates| && Inv(grid, s)
    ensures Inv(grid, MessagesUpTo(grid, s, b, n))
  {
    hide Inv, Do;
    if n > 0 {
      MessagesKeepInv(grid, s, b, n - 1);
      DoKeepsInv(grid, MessagesUpTo(grid, s, b, n - 1), EventOf(b.partition, b.messages[n - 1], b.fates[n - 1]));
    }
  }

  lemma {:induction false} DoKeepsInv(grid: bool, s: State, e: Event)
    requires Inv(grid, s)
    ensures Inv(grid, Do(grid, s, e))
  {
    hide Inv, Step, Enabled;
    if Enabled(s, e) {
      StepKeepsInv(grid, s, e);
    }
  }

  lemma {:induction false} NextBatch(s: State, t: State, bs: seq<Batch>, n: nat)
    requires n < |bs| && WellFormed(bs) && Remaining(s, bs, n) && |t.lanes| == |s.lanes|
    requires Awaits(t.lanes[bs[n].partition], bs[n].first + |bs[n].messages|, [])
    requires forall p | 0 <= p < |s.lanes| && p != bs[n].partition :: t.lanes[p] == s.lanes[p]
    ensures Remaining(t, bs, n + 1)
  {
    var lane := t.lanes[bs[n].partition];
    assert |lane.log[lane.handled..lane.position]| == 0;
    forall p | 0 <= p < |t.lanes| ensures Listed(bs, n + 1, p) || t.lanes[p].handled >= t.lanes[p].position {
      if p != bs[n].partition && Listed(bs, n, p) {
        var i :| n <= i < |bs| && bs[i].partition == p;
        assert n + 1 <= i;
      }
    }
  }

  // ---- What a round commits ----------------------------------------------------

  /** The message was rejected or its write went through. */
  predicate Settles(m: Message, fate: Fate) {
    m.Malformed? || fate.Written?
  }

  function SettledIn(b: Batch, n: nat): nat
    requires n <= |b.messages| == |b.fates|
  {
    if n == 0 then 0 else SettledIn(b, n - 1) + if Settles(b.messages[n - 1], b.fates[n - 1]) then 1 else 0
  }

  function SettledInAll(bs: seq<Batch>, n: nat): nat
    requires n <= |bs| && WellFormed(bs)
  {
    if n == 0 then 0 else SettledInAll(bs, n - 1) + SettledIn(bs[n - 1], |bs[n - 1].messages|)
  }

  /** Nothing was polled or committed. */
  ghost predicate SameOffsets(s: State, t: State) {
    && |t.lanes| == |s.lanes|
    && forall p | 0 <= p < |s.lanes| ::
         t.lanes[p].committed == s.lanes[p].committed && t.lanes[p].position == s.lanes[p].position
  }

  lemma {:induction false} MessagesCount(grid: bool, s: State, b: Batch, n: nat)
    requires n <= |b.messages| == |b.fates| && b.partition < |s.lanes|
    requires Awaits(s.lanes[b.partition], b.first, b.messages)
    ensures var t := MessagesUpTo(grid, s, b, n);
            && SameOffsets(s, t) && Awaits(t.lanes[b.partition], b.first + n, b.messages[n..])
            && (forall p | 0 <= p < |s.lanes| && p != b.partition :: t.lanes[p] == s.lanes[p])
            && t.uncommitted == s.uncommitted + SettledIn(b, n)
  {
    hide Do, Step, Enabled, Awaits, InBatch;
    if n > 0 {
      MessagesCount(grid, s, b, n - 1);
      var t := MessagesUpTo(grid, s, b, n - 1);
      OneMessage(grid, t, b, n - 1);
      OneStep(grid, t, b.partition, b.messages[n - 1], b.fates[n - 1]);
    } else {
      assert b.messages[0..] == b.messages;
    }
  }

  lemma {:induction false} BatchesCount(grid: bool, s: State, bs: seq<Batch>, n: nat)
    requires n <= |bs| && WellFormed(bs) && Remaining(s, bs, 0)
    ensures var t := BatchesUpTo(grid, s, bs, n);
            && SameOffsets(s, t) && Remaining(t, bs, n) && t.uncommitted == s.uncommitted + SettledInAll(bs, n)
  {
    hide MessagesUpTo, Awaits, SettledIn;
    if n > 0 {
      BatchesCount(grid, s, bs, n - 1);
      var t, b := BatchesUpTo(grid, s, bs, n - 1), bs[n - 1];
      MessagesCount(grid, t, b, |b.messages|);
      assert b.messages[|b.messages|..] == [];
      NextBatch(t, MessagesUpTo(grid, t, b, |b.messages|), bs, n - 1);
    }
  }

  lemma {:induction false} SettledExactlyWhen(b: Batch, n: nat)
    requires n <= |b.messages| == |b.fates|
    ensures SettledIn(b, n) > 0 <==> exists j | 0 <= j < n :: Settles(b.messages[j], b.fates[j])
  {
    hide Settles;
    if n > 0 {
      SettledExactlyWhen(b, n - 1);
    }
  }

  lemma {:induction false} AllSettledExactlyWhen(bs: seq<Batch>, n: nat)
    requires n <= |bs| && WellFormed(bs)
    ensures SettledInAll(bs, n) > 0 <==> exists i | 0 <= i < n :: SettlesSome(bs[i])
  {
    if n > 0 {
      AllSettledExactlyWhen(bs, n - 1);
      SettledExactlyWhen(bs[n - 1], |bs[n - 1].messages|);
    }
  }

  predicate SettlesSome(b: Batch) {
    exists j | 0 <= j < |b.messages| && j < |b.fates| :: Settles(b.messages[j], b.fates[j])
  }

  /** A round handles everything polled. It commits the poll position of every partition if anything was
      left to commit or any message of the round was rejected or written; a round whose writes all failed
      commits nothing. */
  lemma {:induction false} RoundCommitsExactlyWhen(grid: bool, s: State, bs: seq<Batch>)
    requires WellFormed(bs) && Remaining(s, bs, 0)
    ensures var t := BatchSpec(grid, s, bs);
            var commits := s.uncommitted > 0 || exists i | 0 <= i < |bs| :: SettlesSome(bs[i]);
            && |t.lanes| == |s.lanes| && BatchDone(t)
            && forall p | 0 <= p < |s.lanes| ::
                 && t.lanes[p].position == s.lanes[p].position
                 && t.lanes[p].committed == if commits then s.lanes[p].position else s.lanes[p].committed
  {
    hide BatchesUpTo, SettledInAll, SettlesSome, Awaits, WellFormed;
    BatchesCount(grid, s, bs, |bs|);
    AllSettledExactlyWhen(bs, |bs|);
    CommitMeaning(grid, BatchesUpTo(grid, s, bs, |bs|));
  }

  lemma {:induction false} SameOutcome(t: Table, r: Record)
    ensures forall now :: OutcomeOf(t, Delivery(r, now)) == OutcomeOf(t, Delivery(r, 0))
  {
  }

  // ---- What the audit table is worth -----------------------------------------

  /** One call of `update_ingest_audit`. */
  datatype Report = Report(partition: nat, offset: int, counters: Stats)

  function AuditAfter(reports: seq<Report>, n: nat): Audit
    requires n <= |reports|
  {
    if n == 0 then map[]
    else
      var last := reports[n - 1];
      AuditUpsert(AuditAfter(reports, n - 1), last.partition, last.offset, last.counters)
  }

  predicate Reported(reports: seq<Report>, n: nat, p: nat, offset: int)
    requires n <= |reports|
  {
    exists i | 0 <= i < n :: reports[i].partition == p && reports[i].offset == offset
  }

  /** Whatever restarts and redeliveries put into the stream of reports, an audit row's offset is
      the greatest one ever reported for its partition, so it never falls; its counters are those
      of the last report alone. */
  lemma {:induction false} AuditOffsetIsGreatest(reports: seq<Report>, n: nat, p: nat)
    requires n <= |reports|
    ensures p in AuditAfter(reports, n) ==> Reported(reports, n, p, AuditAfter(reports, n)[p].lastOffset)
    ensures forall i | 0 <= i < n && reports[i].partition == p ::
              p in AuditAfter(reports, n) && reports[i].offset <= AuditAfter(reports, n)[p].lastOffset
    ensures n > 0 && reports[n - 1].partition == p ==>
              var row, st := AuditAfter(reports, n)[p], reports[n - 1].counters;
              row.consumed == st.consumed && row.rejected == st.rejected && row.applied == st.inserted + st.revised
              && row.suppressed == st.duplicates
  {
    if n > 0 {
      AuditOffsetIsGreatest(reports, n - 1, p);
      var was := AuditAfter(reports, n - 1);
      if p in was {
        var i :| 0 <= i < n - 1 && reports[i].partition == p && reports[i].offset == was[p].lastOffset;
        assert Reported(reports, n, p, was[p].lastOffset);
      }
      if reports[n - 1].partition == p {
        assert Reported(reports, n, p, reports[n - 1].offset);
      }
    }
  }

  // ---- What the counters are worth -------------------------------------------

  /** The counters and the table after the first `n` messages of a process's life. */
  datatype Life = Life(stats: Stats, table: Table)

  function LifeAfter(grid: bool, t: Table, ms: Log, fates: seq<Fate>, n: nat): Life
    requires n <= |ms| == |fates|
  {
    if n == 0 then Life(ZERO, t)
    else
      var was := LifeAfter(grid, t, ms, fates, n - 1);
      var m, fate := ms[n - 1], fates[n - 1];
      Life(Tally(grid, was.stats, was.table, m, fate),
           if m.Telemetry? && fate.Written? then Upsert(grid, was.table, Delivery(m.record, fate.now)) else was.table)
  }

  /** How many messages no outcome was counted for. */
  function Uncounted(grid: bool, ms: Log, fates: seq<Fate>, n: nat): nat
    requires n <= |ms| == |fates|
  {
    if n == 0 then 0
    else Uncounted(grid, ms, fates, n - 1)
         + if ms[n - 1].Telemetry? && (fates[n - 1].Refused? || (!grid && fates[n - 1].Undone?)) then 1 else 0
  }

  /** How many insertions, or how many revisions, were counted and then undone. */
  function Overcounted(grid: bool, t: Table, ms: Log, fates: seq<Fate>, n: nat, outcome: Outcome): nat
    requires n <= |ms| == |fates|
  {
    if n == 0 then 0
    else
      var was := LifeAfter(grid, t, ms, fates, n - 1).table;
      Overcounted(grid, t, ms, fates, n - 1, outcome)
      + if grid && ms[n - 1].Telemetry? && fates[n - 1].Undone?
           && OutcomeOf(was, Delivery(ms[n - 1].record, 0)) == outcome then 1 else 0
  }

  function Rejects(ms: Log, n: nat): nat
    requires n <= |ms|
  {
    if n == 0 then 0 else Rejects(ms, n - 1) + if ms[n - 1].Malformed? then 1 else 0
  }

  predicate Executed(grid: bool, m: Message, fate: Fate) {
    m.Telemetry? && (fate.Written? || (grid && fate.Undone?))
  }

  /** Whether the message was executed with that outcome, as a number. */
  function Counts(grid: bool, t: Table, m: Message, fate: Fate, outcome: Outcome): nat {
    if Executed(grid, m, fate) && OutcomeOf(t, Delivery(m.record, 0)) == outcome then 1 else 0
  }

  lemma {:induction false} OneTally(grid: bool, st: Stats, t: Table, m: Message, fate: Fate)
    ensures var st' := Tally(grid, st, t, m, fate);
            && st'.consumed == st.consumed + 1 && st'.deadLettered == st.deadLettered
            && st'.rejected == st.rejected + (if m.Malformed? then 1 else 0)
            && st'.inserted == st.inserted + Counts(grid, t, m, fate, Inserted)
            && st'.revised == st.revised + Counts(grid, t, m, fate, Revised)
            && st'.duplicates == st.duplicates + Counts(grid, t, m, fate, Duplicate)
  {
    hide OutcomeOf;
  }

  /** Every message consumed is counted under one outcome or failed to be written. The insertions
      counted are the rows that the table gained since the start of the process, and the revisions
      counted are what its revision counts gained, each plus, in the grid consumer, those counted
      before their transaction failed. */
  lemma {:induction false} CountersMatchTheTable(grid: bool, t: Table, ms: Log, fates: seq<Fate>, n: nat)
    requires n <= |ms| == |fates|
    ensures var life := LifeAfter(grid, t, ms, fates, n);
            var st := life.stats;
            && st.consumed == n && st.rejected == Rejects(ms, n) && st.deadLettered == 0
            && st.inserted + st.revised + st.duplicates + st.rejected + Uncounted(grid, ms, fates, n) == n
            && |t| + st.inserted == |life.table| + Overcounted(grid, t, ms, fates, n, Inserted)
            && Revisions(t) + st.revised == Revisions(life.table) + Overcounted(grid, t, ms, fates, n, Revised)
  {
    hide Upsert, Revisions, OutcomeOf, Tally;
    if n > 0 {
      CountersMatchTheTable(grid, t, ms, fates, n - 1);
      var was := LifeAfter(grid, t, ms, fates, n - 1);
      OneTally(grid, was.stats, was.table, ms[n - 1], fates[n - 1]);
      if ms[n - 1].Telemetry? {
        SameOutcome(was.table, ms[n - 1].record);
        if fates[n - 1].Written? {
          UpsertWrites(grid, was.table, Delivery(ms[n - 1].record, fates[n - 1].now));
        }
      }
    }
  }

  // ---- The objects -----------------------------------------------------------

  /** `TelemetryConsumer`, and the part of its database that it writes. */
  class TelemetryConsumer {
    var table: Table
    var audit: Audit
    var stats: Stats
    var partitionStats: map<nat, Stats>
    var uncommitted: nat

    /** The protocol state that this object is in. */
    ghost var model: State

    ghost predicate Valid()
      reads this
    {
      Inv(true, model) && Tracks()
    }

    ghost predicate Tracks()
      reads this
    {
      table == model.table && uncommitted == model.uncommitted
    }

    /** A restart: the counters start again, the database does not. */
    constructor (table: Table, audit: Audit, ghost was: State)
      requires Inv(true, was) && table == was.table
      ensures Valid() && model == Step(true, was, Crash)
      ensures this.audit == audit && stats == ZERO && partitionStats == map[]
    {
      this.table, this.audit := table, audit;
      stats, partitionStats, uncommitted := ZERO, map[], 0;
      model := Step(true, was, Crash);
      new;
      StepKeepsInv(true, was, Crash);
    }

    /** `_handle_message`. The counters of the message's partition are what its audit row gets,
        in the same transaction as the upsert; a write that fails leaves neither, and leaves the
        message out of what is there to commit. */
    method HandleMessage(p: nat, offset: nat, m: Message, fate: Fate, forwarded: bool) returns (offer: Option<Record>)
      requires Tracks() && InBatch(model, p) && model.lanes[p].handled == offset && model.lanes[p].log[offset] == m
      modifies this
      ensures Tracks() && model == Step(true, old(model), EventOf(p, m, fate))
      ensures stats == Tally(true, old(stats), old(table), m, fate).(deadLettered := stats.deadLettered)
      ensures p in old(partitionStats) ==>
                partitionStats == old(partitionStats)[p := Tally(true, old(partitionStats[p]), old(table), m, fate)]
      ensures p !in old(partitionStats) ==>
                partitionStats == old(partitionStats)[p := Tally(true, ZERO, old(table), m, fate)]
      ensures stats.deadLettered == old(stats).deadLettered + if m.Malformed? && forwarded then 1 else 0
      ensures audit == if m.Telemetry? && fate.Written?
                       then AuditUpsert(old(audit), p, offset, partitionStats[p]) else old(audit)
      ensures offer == if m.Telemetry? && fate.Written?
                          && !OutcomeOf(old(table), Delivery(m.record, fate.now)).Duplicate?
                       then Some(m.record) else None
    {
      hide Upsert, AuditUpsert, OutcomeOf, Counted, Step, Enabled, InBatch;
      OneStep(true, model, p, m, fate);
      offer := None;
      var seen := if p in partitionStats then partitionStats[p] else ZERO;
      stats, seen := stats.(consumed := stats.consumed + 1), seen.(consumed := seen.consumed + 1);
      match m {
        case Malformed(_) => {
          stats, seen := stats.(rejected := stats.rejected + 1), seen.(rejected := seen.rejected + 1);
          if forwarded {
            stats := stats.(deadLettered := stats.deadLettered + 1);
          }
          partitionStats, uncommitted := partitionStats[p := seen], uncommitted + 1;
          model := Step(true, model, Handle(p, 0));
        }
        case Telemetry(r) => {
          var outcome := OutcomeOf(table, Delivery(r, 0));
          SameOutcome(table, r);
          if !fate.Refused? {
            stats, seen := Counted(stats, outcome), Counted(seen, outcome);
          }
          partitionStats := partitionStats[p := seen];
          match fate {
            case Written(now) => {
              table := Upsert(true, table, Delivery(r, now));
              audit := AuditUpsert(audit, p, offset, seen);
              uncommitted := uncommitted + 1;
              model := Step(true, model, Handle(p, now));
              if !outcome.Duplicate? {
                offer := Some(r);
              }
            }
            case _ => {
              model := Step(true, model, FailWrite(p));
            }
          }
        }
      }
    }

    /** One round of `run`: handle what was polled, partition by partition and in order, and then
        commit the poll position if anything was written, suppressed or rejected. */
    method HandleBatches(bs: seq<Batch>)
      requires Valid() && WellFormed(bs) && Remaining(model, bs, 0)
      modifies this
      ensures Valid() && model == BatchSpec(true, old(model), bs) && uncommitted == 0 && BatchDone(model)
      ensures |model.lanes| == |old(model).lanes|
      ensures forall p | 0 <= p < |model.lanes| ::
                model.lanes[p].committed
                == if old(uncommitted) > 0 || exists i | 0 <= i < |bs| :: SettlesSome(bs[i])
                   then old(model).lanes[p].position else old(model).lanes[p].committed
    {
      hide Inv, Do, Tally, SettlesSome, MessagesUpTo, BatchDone;
      BatchKeepsInv(true, model, bs);
      RoundCommitsExactlyWhen(true, model, bs);
      for n := 0 to |bs|
        invariant Tracks() && model == BatchesUpTo(true, old(model), bs, n) && Remaining(model, bs, n)
      {
        HandleBatch(bs[n]);
        NextBatch(BatchesUpTo(true, old(model), bs, n), model, bs, n);
      }
      CommitMeaning(true, model);
      if uncommitted > 0 {
        uncommitted := 0;
      }
      model := Do(true, model, Commit);
    }

    method HandleBatch(b: Batch)
      requires Tracks() && |b.fates| == |b.messages| == |b.forwards|
      requires b.partition < |model.lanes| && Awaits(model.lanes[b.partition], b.first, b.messages)
      modifies this
      ensures Tracks() && model == MessagesUpTo(true, old(model), b, |b.messages|)
      ensures |model.lanes| == |old(model).lanes| && Awaits(model.lanes[b.partition], b.first + |b.messages|, [])
      ensures forall p | 0 <= p < |model.lanes| && p != b.partition :: model.lanes[p] == old(model).lanes[p]
    {
      hide Do, Tally, AuditUpsert;
      assert b.messages[0..] == b.messages;
      for i := 0 to |b.messages|
        invariant Tracks() && model == MessagesUpTo(true, old(model), b, i)
        invariant |model.lanes| == |old(model).lanes| && Awaits(model.lanes[b.partition], b.first + i, b.messages[i..])
        invariant forall p | 0 <= p < |model.lanes| && p != b.partition :: model.lanes[p] == old(model).lanes[p]
      {
        OneMessage(true, model, b, i);
        var offer := HandleMessage(b.partition, b.first + i, b.messages[i], b.fates[i], b.forwards[i]);
      }
    }
  }

  lemma {:induction false} CommitMeaning(grid: bool, s: State)
    requires forall p | 0 <= p < |s.lanes| :: s.lanes[p].handled >= s.lanes[p].position
    ensures var t := Do(grid, s, Commit);
            t.table == s.table && t.uncommitted == 0 && BatchDone(t)
  {
  }

  /** `PlantConsumer`: the same loop without audit rows, counting only what became durable. */
  class PlantConsumer {
    var table: Table
    var stats: Stats
    var uncommitted: nat
    ghost var model: State

    ghost predicate Valid()
      reads this
    {
      Inv(false, model) && Tracks()
    }

    ghost predicate Tracks()
      reads this
    {
      table == model.table && uncommitted == model.uncommitted
    }

    constructor (table: Table, ghost was: State)
      requires Inv(false, was) && table == was.table
      ensures Valid() && model == Step(false, was, Crash) && stats == ZERO
    {
      this.table, stats, uncommitted := table, ZERO, 0;
      model := Step(false, was, Crash);
      new;
      StepKeepsInv(false, was, Crash);
    }

    method HandleMessage(p: nat, m: Message, fate: Fate)
      requires Tracks() && InBatch(model, p) && model.lanes[p].log[model.lanes[p].handled] == m
      modifies this
      ensures Tracks() && model == Step(false, old(model), EventOf(p, m, fate))
      ensures stats == Tally(false, old(stats), old(table), m, fate)
    {
      hide Upsert, OutcomeOf, Counted, Step, Enabled, InBatch;
      OneStep(false, model, p, m, fate);
      stats := stats.(consumed := stats.consumed + 1);
      if m.Malformed? {
        stats, uncommitted := stats.(rejected := stats.rejected + 1), uncommitted + 1;
        model := Step(false, model, Handle(p, 0));
        return;
      }
      if !fate.Written? {
        model := Step(false, model, FailWrite(p));
        return;
      }
      var d := Delivery(m.record, fate.now);
      SameOutcome(table, m.record);
      stats := Counted(stats, OutcomeOf(table, d));
      table, uncommitted := Upsert(false, table, d), uncommitted + 1;
      model := Step(false, model, Handle(p, fate.now));
    }

    method HandleBatches(bs: seq<Batch>)
      requires Valid() && WellFormed(bs) && Remaining(model, bs, 0)
      modifies this
      ensures Valid() && model == BatchSpec(false, old(model), bs) && uncommitted == 0 && BatchDone(model)
      ensures |model.lanes| == |old(model).lanes|
      ensures forall p | 0 <= p < |model.lanes| ::
                model.lanes[p].committed
                == if old(uncommitted) > 0 || exists i | 0 <= i < |bs| :: SettlesSome(bs[i])
                   then old(model).lanes[p].position else old(model).lanes[p].committed
    {
      hide Inv, Do, Tally, SettlesSome, MessagesUpTo, BatchDone;
      BatchKeepsInv(false, model, bs);
      RoundCommitsExactlyWhen(false, model, bs);
      for n := 0 to |bs|
        invariant Tracks() && model == BatchesUpTo(false, old(model), bs, n) && Remaining(model, bs, n)
      {
        HandleBatch(bs[n]);
        NextBatch(BatchesUpTo(false, old(model), bs, n), model, bs, n);
      }
      CommitMeaning(false, model);
      if uncommitted > 0 {
        uncommitted := 0;
      }
      model := Do(false, model, Commit);
    }

    method HandleBatch(b: Batch)
      requires Tracks() && |b.fates| == |b.messages|
      requires b.partition < |model.lanes| && Awaits(model.lanes[b.partition], b.first, b.messages)
      modifies this
      ensures Tracks() && model == MessagesUpTo(false, old(model), b, |b.messages|)
      ensures |model.lanes| == |old(model).lanes| && Awaits(model.lanes[b.partition], b.first + |b.messages|, [])
      ensures forall p | 0 <= p < |model.lanes| && p != b.partition :: model.lanes[p] == old(model).lanes[p]
    {
      hide Do, Tally;
      assert b.messages[0..] == b.messages;
      for i := 0 to |b.messages|
        invariant Tracks() && model == MessagesUpTo(false, old(model), b, i)
        invariant |model.lanes| == |old(model).lanes| && Awaits(model.lanes[b.partition], b.first + i, b.messages[i..])
        invariant forall p | 0 <= p < |model.lanes| && p != b.partition :: model.lanes[p] == old(model).lanes[p]
      {
        OneMessage(false, model, b, i);
        HandleMessage(b.partition, b.messages[i], b.fates[i]);
      }
    }
  }
}
