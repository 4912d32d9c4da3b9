/** The whole pipeline: publisher, topic and consumer side by side, in any interleaving
    (ingest_grid.py:926-983, 1073-1137, ecogrid/consumer.py:127-176, 335-461, and their twins
    for the plants). `cfg.grid` selects the worker on both sides. */
module Pipeline {
  import opened Common
  import opened Records
  import opened Ledger
  import P = PublisherProtocol
  import C = ConsumerProtocol

  datatype State = State(pub: P.State, con: C.State)

  datatype Event = Worker(p: P.Event) | Consumer(c: C.Event)

  /** Any spool may be on disk at the start; the topic and the table are empty. */
  function Initial(partitions: nat, spool: seq<Record>): State {
    State(P.Initial(partitions, spool), C.Initial(partitions))
  }

  ghost predicate Enabled(cfg: P.Config, s: State, e: Event) {
    match e
    case Worker(p) => P.Enabled(cfg, s.pub, p) && C.Enabled(s.con, C.Grow(P.Step(cfg, s.pub, p).logs))
    case Consumer(c) => !c.Grow? && C.Enabled(s.con, c)
  }

  /** What the worker does to the topic is what the consumer sees grow. */
  ghost function Step(cfg: P.Config, s: State, e: Event): State
    requires Enabled(cfg, s, e)
  {
    match e
    case Worker(p) =>
      var pub := P.Step(cfg, s.pub, p);
      State(pub, C.Step(cfg.grid, s.con, C.Grow(pub.logs)))
    case Consumer(c) => s.(con := C.Step(cfg.grid, s.con, c))
  }

  ghost predicate OneTopic(s: State) {
    |s.con.lanes| == |s.pub.logs| && forall p | 0 <= p < |s.pub.logs| :: s.con.lanes[p].log == s.pub.logs[p]
  }

  ghost predicate Inv(cfg: P.Config, s: State) {
    P.Inv(cfg, s.pub) && C.Inv(cfg.grid, s.con) && OneTopic(s)
  }

  // ---- The topic only grows, at the keys' partitions --------------------------

  lemma {:induction false} AppendGrows(logs: seq<Log>, p: nat, m: Message)
    requires p < |logs| && (m.Telemetry? ==> m.record.key.partition == p)
    requires forall i | 0 <= i < |logs| :: C.Routed(logs[i], i)
    ensures forall i | 0 <= i < |logs| ::
              LogExtends(logs[i], P.Append(logs, p, m)[i]) && C.Routed(P.Append(logs, p, m)[i], i)
  {
  }

  lemma {:induction false} WorkerOnlyAppends(cfg: P.Config, s: P.State, e: P.Event)
    requires P.Shape(cfg, s) && P.Enabled(cfg, s, e)
    requires forall i | 0 <= i < |s.logs| :: C.Routed(s.logs[i], i)
    ensures var t := P.Step(cfg, s, e);
            && |t.logs| == |s.logs|
            && forall i | 0 <= i < |s.logs| :: LogExtends(s.logs[i], t.logs[i]) && C.Routed(t.logs[i], i)
  {
    hide C.Routed, P.Append, LogExtends, P.Quiet, P.Unchanged, P.Overflow, P.KeysOf;
    SameLogs(s.logs);
    match e {
      case Ack =>
        var r := P.Current(s).value;
        if r.key.partition < |s.logs| {
          AppendGrows(s.logs, r.key.partition, Telemetry(r));
        }
      case Land(copy) => AppendGrows(s.logs, copy.key.partition, Telemetry(copy));
      case Noise(p, raw) => AppendGrows(s.logs, p, Malformed(raw));
      case _ =>
    }
  }

  lemma {:induction false} SameLogs(logs: seq<Log>)
    ensures forall i | 0 <= i < |logs| :: LogExtends(logs[i], logs[i])
  {
  }

  /** The consumer never stands in the worker's way. */
  lemma {:induction false} WorkerIsNeverBlocked(cfg: P.Config, s: State, e: P.Event)
    requires Inv(cfg, s) && P.Enabled(cfg, s.pub, e)
    ensures Enabled(cfg, s, Worker(e))
  {
    hide P.Enabled, P.Step, LogExtends, C.Routed;
    forall p | 0 <= p < |s.pub.logs| ensures C.Routed(s.pub.logs[p], p) {
      assert C.LaneShape(s.con.lanes[p], p);
    }
    WorkerOnlyAppends(cfg, s.pub, e);
  }

  lemma {:induction false} StepKeepsInv(cfg: P.Config, s: State, e: Event)
    requires Inv(cfg, s) && Enabled(cfg, s, e)
    ensures Inv(cfg, Step(cfg, s, e))
  {
    hide P.Inv, C.Inv, P.Step, P.Enabled, C.Enabled, C.Step;
    match e {
      case Worker(p) =>
        P.StepKeepsInv(cfg, s.pub, p);
        var logs := P.Step(cfg, s.pub, p).logs;
        C.StepKeepsInv(cfg.grid, s.con, C.Grow(logs));
        GrowSetsLogs(cfg.grid, s.con, logs);
      case Consumer(c) =>
        C.StepKeepsInv(cfg.grid, s.con, c);
        OthersKeepLogs(cfg.grid, s.con, c);
    }
  }

  lemma {:induction false} GrowSetsLogs(grid: bool, s: C.State, logs: seq<Log>)
    requires C.Enabled(s, C.Grow(logs))
    ensures var t := C.Step(grid, s, C.Grow(logs));
            |t.lanes| == |logs| && forall p | 0 <= p < |logs| :: t.lanes[p].log == logs[p]
  {
  }

  lemma {:induction false} OthersKeepLogs(grid: bool, s: C.State, c: C.Event)
    requires C.Enabled(s, c) && !c.Grow?
    ensures var t := C.Step(grid, s, c);
            |t.lanes| == |s.lanes| && forall p | 0 <= p < |s.lanes| :: t.lanes[p].log == s.lanes[p].log
  {
    hide Upsert, C.SkippedKeys;
  }

  // ---- Runs -----------------------------------------------------------------

  ghost function After(cfg: P.Config, s: State, es: seq<Event>, n: nat): Option<State>
    requires n <= |es|
  {
    if n == 0 then Some(s)
    else match After(cfg, s, es, n - 1)
         case None => None
         case Some(t) => if Enabled(cfg, t, es[n - 1]) then Some(Step(cfg, t, es[n - 1])) else None
  }

  lemma {:induction false} EveryRunKeepsInv(cfg: P.Config, partitions: nat, spool: seq<Record>, es: seq<Event>, n: nat)
    requires P.Addressed(P.Initial(partitions, spool), spool) && n <= |es|
    ensures match After(cfg, Initial(partitions, spool), es, n) case Some(s) => Inv(cfg, s) case None => true
  {
    hide Inv, Step, Enabled, P.Addressed, Initial;
    if n == 0 {
      InitialInv(cfg, partitions, spool);
    } else {
      EveryRunKeepsInv(cfg, partitions, spool, es, n - 1);
      match After(cfg, Initial(partitions, spool), es, n - 1) {
        case None =>
        case Some(t) => if Enabled(cfg, t, es[n - 1]) { StepKeepsInv(cfg, t, es[n - 1]); }
      }
    }
  }

  lemma {:induction false} InitialInv(cfg: P.Config, partitions: nat, spool: seq<Record>)
    requires P.Addressed(P.Initial(partitions, spool), spool)
    ensures Inv(cfg, Initial(partitions, spool))
  {
    hide P.Inv, C.Inv;
    P.InitialInv(cfg, partitions, spool);
    C.InitialInv(cfg.grid, partitions);
  }

  /** The row of a record of `rs`, the last one for its key, up to the times kept with it. */
  ghost predicate RowIsLast(grid: bool, t: Table, rs: seq<Record>, k: Key) {
    && k in t && Some(t[k].hash) == LastAmong(rs, |rs|, k)
    && t[k].core == t[k].hash.core && (grid ==> t[k].meta == t[k].hash.meta)
  }

  /** End to end. Take any interleaving of fetches, spool replays, ambiguous sends, worker
      crashes, polls, writes, commits and consumer crashes. Once a cycle has ended with all its
      sends acknowledged and the consumer is at the end of the key's partition, the row of every
      key that cycle fetched is the last record fetched for it, unless the spool bound dropped a
      record of the key or the consumer missed one; and no copy still in flight can undo that. */
  lemma {:induction false} FetchedRecordsReachTheLedger(cfg: P.Config, partitions: nat, spool: seq<Record>,
          es: seq<Event>, s: State, k: Key)
    requires P.Addressed(P.Initial(partitions, spool), spool)
    requires After(cfg, Initial(partitions, spool), es, |es|) == Some(s)
    requires s.pub.phase.Idle? && s.pub.clean && Occurs(s.pub.fetch, 0, k) && k !in s.pub.dropped
    requires k.partition < |s.con.lanes| && s.con.lanes[k.partition].handled == |s.con.lanes[k.partition].log|
    requires k !in s.con.stale
    ensures RowIsLast(cfg.grid, s.con.table, s.pub.fetch, k) && P.Quiet(s.pub, k)
  {
    hide P.Inv, C.Inv, LastIn, LastAmong, P.Quiet;
    EveryRunKeepsInv(cfg, partitions, spool, es, |es|);
    P.InvDelivers(cfg, s.pub, k);
    C.CaughtUpRowsAreLast(cfg.grid, s.con, k);
    FoundHasLast(s.pub.fetch, k);
  }

  lemma {:induction false} FoundHasLast(rs: seq<Record>, k: Key)
    requires Occurs(rs, 0, k)
    ensures LastAmong(rs, |rs|, k).Some?
  {
    OccursHasLast(rs, |rs|, k);
  }

  // ---- Runs that drop and miss nothing ----------------------------------------

  /** An event that drops nothing from the spool and skips nothing on the topic. */
  predicate Gentle(cfg: P.Config, s: State, e: Event) {
    match e
    case Worker(p) => !P.Cuts(cfg, s.pub, p)
    case Consumer(c) => C.Gentle(s.con, c)
  }

  ghost predicate Smooth(cfg: P.Config, s: State, es: seq<Event>, n: nat)
    requires n <= |es|
  {
    n > 0 ==>
      && Smooth(cfg, s, es, n - 1)
      && match After(cfg, s, es, n - 1) case Some(t) => Gentle(cfg, t, es[n - 1]) case None => true
  }

  lemma {:induction false} GentleStepsMissNothing(cfg: P.Config, s: State, e: Event)
    requires Inv(cfg, s) && Enabled(cfg, s, e) && Gentle(cfg, s, e)
    ensures Step(cfg, s, e).pub.dropped <= s.pub.dropped && Step(cfg, s, e).con.stale <= s.con.stale
  {
    hide P.Step, P.Enabled, C.Step, C.Enabled, C.Gentle, P.Cuts, C.Shape, P.Shape, C.KeyInv;
    match e {
      case Worker(p) =>
        P.OnlyACutDrops(cfg, s.pub, p);
        C.GrowKeepsStale(cfg.grid, s.con, P.Step(cfg, s.pub, p).logs);
      case Consumer(c) => C.GentleStepsAddNoStaleKey(cfg.grid, s.con, c);
    }
  }

  /** In a run whose spool never overflows, in which no write fails and no stop commits a batch
      half done, no key is excepted from the delivery claim. */
  lemma {:induction false} SmoothRunsExceptNothing(cfg: P.Config, partitions: nat, spool: seq<Record>,
          es: seq<Event>, n: nat)
    requires P.Addressed(P.Initial(partitions, spool), spool) && n <= |es|
    requires Smooth(cfg, Initial(partitions, spool), es, n) && After(cfg, Initial(partitions, spool), es, n).Some?
    ensures var s := After(cfg, Initial(partitions, spool), es, n).value; s.pub.dropped == {} && s.con.stale == {}
  {
    hide Step, Enabled, Gentle, Inv, P.Addressed;
    if n > 0 {
      SmoothRunsExceptNothing(cfg, partitions, spool, es, n - 1);
      EveryRunKeepsInv(cfg, partitions, spool, es, n - 1);
      GentleStepsMissNothing(cfg, After(cfg, Initial(partitions, spool), es, n - 1).value, es[n - 1]);
    }
  }

  /** End to end, for runs of any length without overflow of the spool, failed writes or stops that
      commit a batch half done, whatever crashed or was sent twice: once a cycle has ended with all
      its sends acknowledged and the consumer is at the end of a fetched key's partition, that key's
      row is the last record fetched for it. */
  lemma {:induction false} SmoothRunsReachTheLedger(cfg: P.Config, partitions: nat, spool: seq<Record>,
          es: seq<Event>, s: State, k: Key)
    requires P.Addressed(P.Initial(partitions, spool), spool)
    requires After(cfg, Initial(partitions, spool), es, |es|) == Some(s)
    requires Smooth(cfg, Initial(partitions, spool), es, |es|)
    requires s.pub.phase.Idle? && s.pub.clean && Occurs(s.pub.fetch, 0, k)
    requires k.partition < |s.con.lanes| && s.con.lanes[k.partition].handled == |s.con.lanes[k.partition].log|
    ensures RowIsLast(cfg.grid, s.con.table, s.pub.fetch, k) && P.Quiet(s.pub, k)
  {
    hide Step, Enabled, Smooth, RowIsLast, P.Quiet, P.Addressed;
    SmoothRunsExceptNothing(cfg, partitions, spool, es, |es|);
    FetchedRecordsReachTheLedger(cfg, partitions, spool, es, s, k);
  }

  /** How many records the first `n` events fetched. */
  function FetchedBy(es: seq<Event>, n: nat): nat
    requires n <= |es|
  {
    if n == 0 then 0
    else FetchedBy(es, n - 1) + if es[n - 1].Worker? && es[n - 1].p.BeginCycle? then |es[n - 1].p.records| else 0
  }

  /** No write fails and no exception stops the consumer; it may crash at any time. */
  predicate WritesSucceed(es: seq<Event>) {
    forall i | 0 <= i < |es| :: es[i].Consumer? ==> !es[i].c.FailWrite? && !es[i].c.Abort?
  }

  /** A run in which every write succeeds, with a spool that has room for all that was ever
      fetched, is smooth. */
  lemma {:induction false} RoomForAllIsSmooth(cfg: P.Config, partitions: nat, spool: seq<Record>, es: seq<Event>,
          n: nat)
    requires n <= |es| && After(cfg, Initial(partitions, spool), es, n).Some?
    requires WritesSucceed(es) && |spool| + FetchedBy(es, n) <= cfg.spoolMax
    ensures Smooth(cfg, Initial(partitions, spool), es, n)
    ensures P.Within(After(cfg, Initial(partitions, spool), es, n).value.pub, |spool| + FetchedBy(es, n))
  {
    hide P.Step, P.Enabled, C.Step, C.Enabled, P.Cuts, P.Within;
    if n > 0 {
      RoomForAllIsSmooth(cfg, partitions, spool, es, n - 1);
      if es[n - 1].Worker? {
        var t := After(cfg, Initial(partitions, spool), es, n - 1).value;
        P.StepStaysWithin(cfg, t.pub, es[n - 1].p, |spool| + FetchedBy(es, n - 1));
      }
    } else {
      StartsWithin(partitions, spool);
    }
  }

  lemma {:induction false} StartsWithin(partitions: nat, spool: seq<Record>)
    ensures P.Within(P.Initial(partitions, spool), |spool|)
  {
  }

  /** The same, from the events alone: every write succeeds, no exception stops the consumer, and
      the spool has room for all that was fetched. */
  lemma {:induction false} EveryFetchedRecordReachesTheLedger(cfg: P.Config, partitions: nat, spool: seq<Record>,
          es: seq<Event>, s: State, k: Key)
    requires P.Addressed(P.Initial(partitions, spool), spool)
    requires After(cfg, Initial(partitions, spool), es, |es|) == Some(s)
    requires WritesSucceed(es) && |spool| + FetchedBy(es, |es|) <= cfg.spoolMax
    requires s.pub.phase.Idle? && s.pub.clean && Occurs(s.pub.fetch, 0, k)
    requires k.partition < |s.con.lanes| && s.con.lanes[k.partition].handled == |s.con.lanes[k.partition].log|
    ensures RowIsLast(cfg.grid, s.con.table, s.pub.fetch, k) && P.Quiet(s.pub, k)
  {
    hide Step, Enabled, Smooth, RowIsLast, P.Quiet, P.Addressed, WritesSucceed;
    RoomForAllIsSmooth(cfg, partitions, spool, es, |es|);
    SmoothRunsReachTheLedger(cfg, partitions, spool, es, s, k);
  }
}
