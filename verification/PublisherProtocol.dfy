/** The at-least-once publisher as a state machine: fetch, spool replay, publish, sends whose
    failure is ambiguous, and crashes (ingest_grid.py:926-990, 1073-1137; the plant bridge,
    ecogrid/plant/bridge.py:212-262, is the same machine without a cache bound).

    A send attempt that is not acknowledged leaves a copy in flight. The copy may land at any
    later time or be lost; the one assumption is in the guard of `Ack`: a copy lands, if at
    all, before the next acknowledged send of its key. */
module PublisherProtocol {
  import opened Common
  import opened Records
  import opened DedupeCache

  /** `grid` selects the bounded cache of the grid worker; the plant bridge has no bound and
      always skips unchanged records. */
  datatype Config = Config(grid: bool, publishUnchanged: bool, spoolMax: int)

  datatype Phase =
    | Idle
    | Replaying(fetched: seq<Record>, at: nat, still: seq<Record>, tried: bool)
    | Publishing(fetched: seq<Record>, at: nat, failures: seq<Record>, tried: bool)

  /** `logs` is the topic, one log per partition. `spool` is on disk and survives a crash;
      `cache` and `phase` do not. The rest is history: the spool and the fetch that the last
      cycle took in, how far it got, whether every send so far was acknowledged, and the keys
      of records that the spool bound dropped and no acknowledged send has made good since. */
  datatype State = State(
    logs: seq<Log>, inflight: multiset<Record>, cache: Cache, spool: seq<Record>, phase: Phase,
    backlog: seq<Record>, fetch: seq<Record>, done: nat, clean: bool, dropped: set<Key>)

  datatype Event =
    | BeginCycle(records: seq<Record>)
    | FailAttempt | Ack | GiveUp | Skip
    | EndReplay | EndPublish
    | Land(copy: Record) | Lose(copy: Record)
    | Crash
    | Noise(partition: nat, raw: string)

  function Initial(partitions: nat, spool: seq<Record>): State {
    State(seq(partitions, _ => []), multiset{}, [], spool, Idle, [], [], 0, false, {})
  }

  /** Everything the last cycle set out to send, in order. */
  function Intake(s: State): seq<Record> {
    s.backlog + s.fetch
  }

  function Current(s: State): Option<Record> {
    match s.phase
    case Idle => None
    case Replaying(_, at, _, _) => if at < |s.spool| then Some(s.spool[at]) else None
    case Publishing(fetched, at, _, _) => if at < |fetched| then Some(fetched[at]) else None
  }

  predicate Tried(s: State) {
    !s.phase.Idle? && s.phase.tried
  }

  /** An unchanged record is not sent at all. */
  predicate Unchanged(cfg: Config, s: State) {
    s.phase.Publishing? && !s.phase.tried && !cfg.publishUnchanged && Current(s).Some?
    && Lookup(s.cache, Current(s).value.key) == Some(DigestOf(Current(s).value))
  }

  predicate Quiet(s: State, k: Key) {
    forall r | r in s.inflight :: r.key != k
  }

  predicate Addressed(s: State, rs: seq<Record>) {
    forall i | 0 <= i < |rs| :: rs[i].key.partition < |s.logs|
  }

  predicate Enabled(cfg: Config, s: State, e: Event) {
    match e
    case BeginCycle(records) => s.phase.Idle? && Addressed(s, records)
    case FailAttempt => Current(s).Some? && !Unchanged(cfg, s)
    case Ack => Current(s).Some? && !Unchanged(cfg, s) && Quiet(s, Current(s).value.key)
    case GiveUp => Current(s).Some? && !Unchanged(cfg, s)
    case Skip => Unchanged(cfg, s)
    case EndReplay => s.phase.Replaying? && s.phase.at >= |s.spool|
    case EndPublish => s.phase.Publishing? && s.phase.at >= |s.phase.fetched|
    case Land(copy) => copy in s.inflight && copy.key.partition < |s.logs|
    case Lose(copy) => copy in s.inflight
    case Crash => true
    case Noise(p, _) => p < |s.logs|
  }

  function Append(logs: seq<Log>, p: nat, m: Message): (logs': seq<Log>)
    requires p < |logs|
    ensures |logs'| == |logs|
  {
    logs[p := logs[p] + [m]]
  }

  /** How many of `n` lines the bound drops, oldest first: Python's `lines[-bound:]`. A bound
      of zero keeps everything and a negative one drops that many lines. */
  function Overflow(n: nat, bound: int): (cut: nat)
    ensures cut <= n
    ensures bound >= 1 ==> n - cut <= bound && (n <= bound ==> cut == 0)
  {
    if n <= bound then 0
    else if bound > 0 then n - bound
    else if bound == 0 then 0
    else if -bound <= n then -bound else n
  }

  function KeysOf(rs: seq<Record>, n: nat): set<Key>
    requires n <= |rs|
  {
    set j | 0 <= j < n :: rs[j].key
  }

  function Advance(phase: Phase): Phase
    requires !phase.Idle?
  {
    phase.(at := phase.at + 1, tried := false)
  }

  function Step(cfg: Config, s: State, e: Event): State
    requires Enabled(cfg, s, e)
  {
    match e
    case BeginCycle(records) =>
      s.(phase := Replaying(records, 0, [], false), backlog := s.spool, fetch := records, done := 0, clean := true)
    case FailAttempt =>
      s.(inflight := s.inflight + multiset{Current(s).value}, phase := s.phase.(tried := true))
    case Ack =>
      var r := Current(s).value;
      if r.key.partition >= |s.logs| then s
      else
        s.(logs := Append(s.logs, r.key.partition, Telemetry(r)),
           cache := Remember(s.cache, r.key, DigestOf(r), cfg.grid),
           phase := Advance(s.phase), done := s.done + 1, dropped := s.dropped - {r.key})
    case GiveUp =>
      var r := Current(s).value;
      var next := Advance(s.phase);
      s.(phase := if next.Replaying? then next.(still := next.still + [r]) else next.(failures := next.failures + [r]),
         done := s.done + 1, clean := false)
    case Skip =>
      s.(phase := Advance(s.phase), done := s.done + 1)
    case EndReplay =>
      s.(spool := s.phase.still, phase := Publishing(s.phase.fetched, 0, [], false))
    case EndPublish =>
      if s.phase.failures == [] then s.(phase := Idle)
      else
        var lines := s.spool + s.phase.failures;
        var cut := Overflow(|lines|, cfg.spoolMax);
        s.(spool := lines[cut..], phase := Idle, dropped := s.dropped + KeysOf(lines, cut))
    case Land(copy) =>
      s.(logs := Append(s.logs, copy.key.partition, Telemetry(copy)), inflight := s.inflight - multiset{copy})
    case Lose(copy) =>
      s.(inflight := s.inflight - multiset{copy})
    case Crash =>
      s.(cache := [], phase := Idle, backlog := [], fetch := [], done := 0, clean := false, dropped := {})
    case Noise(p, raw) =>
      s.(logs := Append(s.logs, p, Malformed(raw)))
  }

  // ---- Shape ----------------------------------------------------------------

  ghost predicate Shape(cfg: Config, s: State) {
    && Addressed(s, s.spool)
    && (forall r | r in s.inflight :: r.key.partition < |s.logs|)
    && OneEntryPerKey(s.cache) && (cfg.grid ==> |s.cache| <= DEDUPE_CACHE_MAX)
    && (forall k :: Lookup(s.cache, k).Some? ==> k.partition < |s.logs|)
    && (match s.phase
        case Idle => true
        case Replaying(fetched, at, still, tried) =>
          at <= |s.spool| && (tried ==> at < |s.spool|) && Addressed(s, fetched) && Addressed(s, still)
        case Publishing(fetched, at, failures, tried) =>
          at <= |fetched| && (tried ==> at < |fetched|) && Addressed(s, fetched) && Addressed(s, failures))
  }

  lemma {:induction false} AckKeepsShape(cfg: Config, s: State)
    requires Shape(cfg, s) && Enabled(cfg, s, Ack)
    ensures Shape(cfg, Step(cfg, s, Ack))
  {
    hide Lookup, Remember, Overflow, KeysOf, OneEntryPerKey, Unchanged, Quiet;
    var r := Current(s).value;
    RememberMeaning(s.cache, r.key, DigestOf(r), cfg.grid);
  }

  lemma {:induction false} EndPublishKeepsShape(cfg: Config, s: State)
    requires Shape(cfg, s) && Enabled(cfg, s, EndPublish)
    ensures Shape(cfg, Step(cfg, s, EndPublish))
  {
    hide Lookup, Remember, KeysOf, OneEntryPerKey, Unchanged, Quiet;
    var lines := s.spool + s.phase.failures;
    assert Addressed(s, lines);
  }

  lemma {:induction false} EnvironmentKeepsShape(cfg: Config, s: State, e: Event)
    requires Shape(cfg, s) && Enabled(cfg, s, e) && (e.Land? || e.Lose? || e.Noise?)
    ensures Shape(cfg, Step(cfg, s, e))
  {
    hide Lookup, OneEntryPerKey, Unchanged, Quiet;
  }

  lemma {:induction false} AttemptKeepsShape(cfg: Config, s: State, e: Event)
    requires Shape(cfg, s) && Enabled(cfg, s, e) && (e.FailAttempt? || e.GiveUp?)
    ensures Shape(cfg, Step(cfg, s, e))
  {
    hide Lookup, OneEntryPerKey, Unchanged, Quiet;
  }

  lemma {:induction false} PassageKeepsShape(cfg: Config, s: State, e: Event)
    requires Shape(cfg, s) && Enabled(cfg, s, e) && (e.BeginCycle? || e.EndReplay? || e.Skip?)
    ensures Shape(cfg, Step(cfg, s, e))
  {
    hide Lookup, OneEntryPerKey, Quiet;
  }

  lemma {:induction false} StepKeepsShape(cfg: Config, s: State, e: Event)
    requires Shape(cfg, s) && Enabled(cfg, s, e)
    ensures Shape(cfg, Step(cfg, s, e))
  {
    hide Shape, Step, Enabled;
    match e {
      case Ack => AckKeepsShape(cfg, s);
      case EndPublish => EndPublishKeepsShape(cfg, s);
      case Crash => CrashKeepsShape(cfg, s);
      case FailAttempt => AttemptKeepsShape(cfg, s, e);
      case GiveUp => AttemptKeepsShape(cfg, s, e);
      case Skip => PassageKeepsShape(cfg, s, e);
      case BeginCycle(_) => PassageKeepsShape(cfg, s, e);
      case EndReplay => PassageKeepsShape(cfg, s, e);
      case _ => EnvironmentKeepsShape(cfg, s, e);
    }
  }

  lemma {:induction false} CrashKeepsShape(cfg: Config, s: State)
    requires Shape(cfg, s)
    ensures Shape(cfg, Step(cfg, s, Crash))
  {
    EmptyCache();
  }

  lemma {:induction false} EmptyCache()
    ensures OneEntryPerKey([]) && forall k :: Lookup([], k).None?
  {
  }

  // ---- The invariant, key by key --------------------------------------------

  /** A record of `k` is waiting to be sent again. */
  ghost predicate Pending(s: State, k: Key) {
    match s.phase
    case Idle => Occurs(s.spool, 0, k)
    case Replaying(_, at, still, _) => Occurs(s.spool, at, k) || Occurs(still, 0, k)
    case Publishing(fetched, at, failures, tried) =>
      Occurs(s.spool, 0, k) || Occurs(failures, 0, k) || (tried && at < |fetched| && fetched[at].key == k)
  }

  ghost predicate Ends(s: State, k: Key, d: Option<Digest>) {
    k.partition < |s.logs| && LastOf(s.logs[k.partition], k) == d
  }

  /** A remembered digest is the topic's last one for its key, with nothing in flight, unless
      a record of that key is pending or was dropped by the spool bound. */
  ghost predicate Agrees(s: State, k: Key) {
    Lookup(s.cache, k).Some? && !Pending(s, k) && k !in s.dropped ==> Ends(s, k, Lookup(s.cache, k)) && Quiet(s, k)
  }

  /** In a cycle whose sends were all acknowledged so far, the topic ends, for every key already
      handled, with the last handled record of that key, and nothing of it is in flight; only
      a key whose next record is being attempted may differ. */
  ghost predicate Handled(s: State, k: Key) {
    s.clean && s.done <= |Intake(s)| && k !in s.dropped && LastAmong(Intake(s), s.done, k).Some? ==>
      || (Tried(s) && Current(s).Some? && Current(s).value.key == k)
      || (Ends(s, k, LastAmong(Intake(s), s.done, k)) && Quiet(s, k))
  }

  /** Where a clean cycle stands in what it took in. */
  ghost predicate Progress(s: State) {
    s.clean ==>
      && s.done <= |Intake(s)|
      && (match s.phase
          case Idle => s.done == |Intake(s)| && s.spool == []
          case Replaying(fetched, at, still, _) => s.done == at && still == [] && Intake(s) == s.spool + fetched
          case Publishing(fetched, at, failures, _) =>
            && s.spool == [] && failures == [] && at <= |fetched| && at <= s.done
            && s.done + |fetched| - at == |Intake(s)|
            && forall j | 0 <= j < |fetched| :: Intake(s)[|Intake(s)| - |fetched| + j] == fetched[j])
  }

  lemma {:induction false} SendKeepsProgress(cfg: Config, s: State, e: Event)
    requires Shape(cfg, s) && Enabled(cfg, s, e) && Progress(s) && (e.Ack? || e.Skip?)
    ensures Progress(Step(cfg, s, e))
  {
    hide Lookup, Remember, Append, DigestOf, Quiet, Addressed, OneEntryPerKey;
  }

  lemma {:induction false} PassageKeepsProgress(cfg: Config, s: State, e: Event)
    requires Shape(cfg, s) && Enabled(cfg, s, e) && Progress(s)
    requires e.BeginCycle? || e.EndReplay? || e.EndPublish?
    ensures Progress(Step(cfg, s, e))
  {
    hide Lookup, Overflow, KeysOf, Quiet, OneEntryPerKey;
  }

  lemma {:induction false} OtherStepsKeepProgress(cfg: Config, s: State, e: Event)
    requires Shape(cfg, s) && Enabled(cfg, s, e) && Progress(s)
    requires e.FailAttempt? || e.GiveUp? || e.Land? || e.Lose? || e.Crash? || e.Noise?
    ensures Progress(Step(cfg, s, e))
  {
    hide Lookup, Append, Quiet, Addressed, OneEntryPerKey;
  }

  lemma {:induction false} StepKeepsProgress(cfg: Config, s: State, e: Event)
    requires Shape(cfg, s) && Enabled(cfg, s, e) && Progress(s)
    ensures Progress(Step(cfg, s, e))
  {
    hide Shape, Step, Enabled, Progress;
    match e {
      case Ack => SendKeepsProgress(cfg, s, e);
      case Skip => SendKeepsProgress(cfg, s, e);
      case BeginCycle(_) => PassageKeepsProgress(cfg, s, e);
      case EndReplay => PassageKeepsProgress(cfg, s, e);
      case EndPublish => PassageKeepsProgress(cfg, s, e);
      case _ => OtherStepsKeepProgress(cfg, s, e);
    }
  }

  /** The next record of a clean cycle is the next one taken in. */
  lemma {:induction false} CurrentIsNextTaken(cfg: Config, s: State)
    requires Shape(cfg, s) && Progress(s) && s.clean && Current(s).Some?
    ensures s.done < |Intake(s)| && Intake(s)[s.done] == Current(s).value
  {
  }

  // ---- Each event keeps it --------------------------------------------------

  lemma {:induction false} AckKeeps(cfg: Config, s: State, k: Key)
    requires Shape(cfg, s) && Progress(s) && Enabled(cfg, s, Ack) && Agrees(s, k) && Handled(s, k)
    ensures Agrees(Step(cfg, s, Ack), k) && Handled(Step(cfg, s, Ack), k)
  {
    hide Lookup, Remember, OneEntryPerKey, Unchanged, LastIn;
    hide Overflow, KeysOf;
    var r, s' := Current(s).value, Step(cfg, s, Ack);
    RememberMeaning(s.cache, r.key, DigestOf(r), cfg.grid);
    LastOfAppend(s.logs[r.key.partition], Telemetry(r), k);
    if s.clean {
      CurrentIsNextTaken(cfg, s);
    }
    hide Progress, Shape, LastOf, Occurs, Addressed;
    if k != r.key {
      PendingElsewhere(s, k, r);
    }
  }

  /** Moving past a record of another key does not change what is pending for `k`. */
  lemma {:induction false} PendingElsewhere(s: State, k: Key, r: Record)
    requires Current(s) == Some(r) && k != r.key
    ensures Pending(s, k) <==> Pending(s.(phase := Advance(s.phase)), k)
  {
  }

  lemma {:induction false} FailAttemptKeeps(cfg: Config, s: State, k: Key)
    requires Shape(cfg, s) && Progress(s) && Enabled(cfg, s, FailAttempt) && Agrees(s, k) && Handled(s, k)
    ensures Agrees(Step(cfg, s, FailAttempt), k) && Handled(Step(cfg, s, FailAttempt), k)
  {
    hide Lookup, OneEntryPerKey, Unchanged, LastIn;
    var r, s' := Current(s).value, Step(cfg, s, FailAttempt);
    if k == r.key {
      assert Pending(s', k);
    }
  }

  lemma {:induction false} GiveUpKeeps(cfg: Config, s: State, k: Key)
    requires Shape(cfg, s) && Progress(s) && Enabled(cfg, s, GiveUp) && Agrees(s, k)
    ensures Agrees(Step(cfg, s, GiveUp), k) && Handled(Step(cfg, s, GiveUp), k)
  {
    hide Lookup, OneEntryPerKey, Unchanged, LastIn;
    var r, s' := Current(s).value, Step(cfg, s, GiveUp);
    if k == r.key {
      var waiting := if s'.phase.Replaying? then s'.phase.still else s'.phase.failures;
      assert waiting[|waiting| - 1] == r;
      assert Pending(s', k);
    } else if Pending(s, k) {
      match s.phase {
        case Replaying(_, at, still, _) =>
          if Occurs(still, 0, k) {
            var j :| 0 <= j < |still| && still[j].key == k;
            assert s'.phase.still[j].key == k;
          }
        case Publishing(_, _, failures, _) =>
          if Occurs(failures, 0, k) {
            var j :| 0 <= j < |failures| && failures[j].key == k;
            assert s'.phase.failures[j].key == k;
          }
      }
    }
  }

  lemma {:induction false} SkipKeeps(cfg: Config, s: State, k: Key)
    requires Shape(cfg, s) && Progress(s) && Enabled(cfg, s, Skip) && Agrees(s, k) && Handled(s, k)
    ensures Agrees(Step(cfg, s, Skip), k) && Handled(Step(cfg, s, Skip), k)
  {
    if s.clean {
      CurrentIsNextTaken(cfg, s);
      NothingIsPending(s, k);
    }
    hide Lookup, OneEntryPerKey, LastIn, LastOf, Occurs, Shape, Progress, Quiet;
  }

  /** A clean cycle that publishes keeps nothing for another try. */
  lemma {:induction false} NothingIsPending(s: State, k: Key)
    requires Progress(s) && s.clean && s.phase.Publishing? && !s.phase.tried
    ensures !Pending(s, k)
  {
  }

  lemma {:induction false} EndReplayKeeps(cfg: Config, s: State, k: Key)
    requires Shape(cfg, s) && Progress(s) && Enabled(cfg, s, EndReplay) && Agrees(s, k) && Handled(s, k)
    ensures Agrees(Step(cfg, s, EndReplay), k) && Handled(Step(cfg, s, EndReplay), k)
  {
    hide Lookup, OneEntryPerKey, LastIn;
  }

  lemma {:induction false} EndPublishKeeps(cfg: Config, s: State, k: Key)
    requires Shape(cfg, s) && Progress(s) && Enabled(cfg, s, EndPublish) && Agrees(s, k) && Handled(s, k)
    ensures Agrees(Step(cfg, s, EndPublish), k) && Handled(Step(cfg, s, EndPublish), k)
  {
    hide Lookup, OneEntryPerKey, LastIn;
    var s' := Step(cfg, s, EndPublish);
    var failures := s.phase.failures;
    if failures != [] && Pending(s, k) && k !in s'.dropped {
      var lines := s.spool + failures;
      var cut := Overflow(|lines|, cfg.spoolMax);
      var j := PositionIn(s.spool, failures, k);
      assert j >= cut;
      assert s'.spool[j - cut] == lines[j];
    }
  }

  lemma {:induction false} PositionIn(a: seq<Record>, b: seq<Record>, k: Key) returns (j: nat)
    requires Occurs(a, 0, k) || Occurs(b, 0, k)
    ensures j < |a + b| && (a + b)[j].key == k
  {
    if Occurs(a, 0, k) {
      j :| 0 <= j < |a| && a[j].key == k;
    } else {
      var i :| 0 <= i < |b| && b[i].key == k;
      j := |a| + i;
    }
  }

  lemma {:induction false} EnvironmentKeeps(cfg: Config, s: State, e: Event, k: Key)
    requires e.Land? || e.Lose? || e.Noise?
    requires Shape(cfg, s) && Progress(s) && Enabled(cfg, s, e) && Agrees(s, k) && Handled(s, k)
    ensures Agrees(Step(cfg, s, e), k) && Handled(Step(cfg, s, e), k)
  {
    hide Lookup, OneEntryPerKey, LastIn, LastAmong, Unchanged, Shape, Progress, Occurs;
    match e {
      case Land(copy) =>
        LastOfAppend(s.logs[copy.key.partition], Telemetry(copy), k);
        assert copy.key == k ==> !Quiet(s, k);
      case Lose(copy) =>
      case Noise(p, raw) => LastOfAppend(s.logs[p], Malformed(raw), k);
    }
  }

  // ---- Nothing is lost without an overflow ----------------------------------

  /** The content `d` was appended to the topic at some point. */
  ghost predicate OnTopic(s: State, d: Digest) {
    d.key.partition < |s.logs|
    && exists i :: 0 <= i < |s.logs[d.key.partition]| && Carries(s.logs[d.key.partition][i], d)
  }

  predicate Carries(m: Message, d: Digest) {
    m.Telemetry? && DigestOf(m.record) == d
  }

  /** Every remembered digest is on the topic, and so is every record already handled in the
      current phase unless it is kept for another try. */
  ghost predicate Accounted(s: State) {
    && (forall k :: Lookup(s.cache, k).Some? ==> OnTopic(s, Lookup(s.cache, k).value))
    && (match s.phase
        case Idle => true
        case Replaying(_, at, still, _) =>
          at <= |s.spool| && forall j | 0 <= j < at :: OnTopic(s, DigestOf(s.spool[j])) || s.spool[j] in still
        case Publishing(fetched, at, failures, _) =>
          at <= |fetched| && forall j | 0 <= j < at :: OnTopic(s, DigestOf(fetched[j])) || fetched[j] in failures)
  }

  lemma {:induction false} TopicOnlyGrows(s: State, s': State, p: nat, m: Message, d: Digest)
    requires p < |s.logs| && s'.logs == Append(s.logs, p, m)
    ensures OnTopic(s, d) ==> OnTopic(s', d)
    ensures Carries(m, d) && d.key.partition == p ==> OnTopic(s', d)
  {
    if OnTopic(s, d) {
      var i :| 0 <= i < |s.logs[d.key.partition]| && Carries(s.logs[d.key.partition][i], d);
      assert Carries(s'.logs[d.key.partition][i], d);
    }
    if Carries(m, d) && d.key.partition == p {
      assert Carries(s'.logs[p][|s.logs[p]|], d);
    }
  }

  lemma {:induction false} AckKeepsAccounts(cfg: Config, s: State)
    requires Shape(cfg, s) && Enabled(cfg, s, Ack) && Accounted(s)
    ensures Accounted(Step(cfg, s, Ack))
  {
    hide Lookup, Remember, OneEntryPerKey, Unchanged, OnTopic, Append;
    var r, s' := Current(s).value, Step(cfg, s, Ack);
    RememberMeaning(s.cache, r.key, DigestOf(r), cfg.grid);
    forall d: Digest ensures OnTopic(s, d) ==> OnTopic(s', d) {
      TopicOnlyGrows(s, s', r.key.partition, Telemetry(r), d);
    }
    TopicOnlyGrows(s, s', r.key.partition, Telemetry(r), DigestOf(r));
    forall k | Lookup(s'.cache, k).Some? ensures OnTopic(s', Lookup(s'.cache, k).value) {
      assert k == r.key || Lookup(s'.cache, k) == Lookup(s.cache, k);
    }
  }

  lemma {:induction false} AppendKeepsAccounts(cfg: Config, s: State, e: Event)
    requires Shape(cfg, s) && Enabled(cfg, s, e) && Accounted(s) && (e.Land? || e.Noise?)
    ensures Accounted(Step(cfg, s, e))
  {
    hide Lookup, OneEntryPerKey, Unchanged, OnTopic, Append;
    var s' := Step(cfg, s, e);
    var p, m := if e.Land? then e.copy.key.partition else e.partition,
                if e.Land? then Telemetry(e.copy) else Malformed(e.raw);
    forall d: Digest ensures OnTopic(s, d) ==> OnTopic(s', d) {
      TopicOnlyGrows(s, s', p, m, d);
    }
  }

  lemma {:induction false} SameTopic(s: State, s': State)
    requires s.logs == s'.logs
    ensures forall d :: OnTopic(s, d) <==> OnTopic(s', d)
  {
  }

  lemma {:induction false} SkipKeepsAccounts(cfg: Config, s: State)
    requires Shape(cfg, s) && Enabled(cfg, s, Skip) && Accounted(s)
    ensures Accounted(Step(cfg, s, Skip))
  {
    hide OneEntryPerKey, OnTopic, Quiet;
    SameTopic(s, Step(cfg, s, Skip));
  }

  lemma {:induction false} GiveUpKeepsAccounts(cfg: Config, s: State)
    requires Shape(cfg, s) && Enabled(cfg, s, GiveUp) && Accounted(s)
    ensures Accounted(Step(cfg, s, GiveUp))
  {
    hide Lookup, OneEntryPerKey, OnTopic, Unchanged;
    SameTopic(s, Step(cfg, s, GiveUp));
  }

  lemma {:induction false} PassageKeepsAccounts(cfg: Config, s: State, e: Event)
    requires Shape(cfg, s) && Enabled(cfg, s, e) && Accounted(s)
    requires e.BeginCycle? || e.EndReplay? || e.EndPublish?
    ensures Accounted(Step(cfg, s, e))
  {
    hide Lookup, OneEntryPerKey, OnTopic, Quiet, Overflow, KeysOf, Unchanged, Addressed;
    SameTopic(s, Step(cfg, s, e));
  }

  lemma {:induction false} AttemptKeepsAccounts(cfg: Config, s: State, e: Event)
    requires Enabled(cfg, s, e) && Accounted(s) && (e.FailAttempt? || e.Lose?)
    ensures Accounted(Step(cfg, s, e))
  {
    hide Lookup, OnTopic, Quiet, Unchanged;
    SameTopic(s, Step(cfg, s, e));
  }

  lemma {:induction false} StepKeepsAccounts(cfg: Config, s: State, e: Event)
    requires Shape(cfg, s) && Enabled(cfg, s, e) && Accounted(s)
    ensures Accounted(Step(cfg, s, e))
  {
    hide Shape, Accounted;
    match e {
      case Ack => AckKeepsAccounts(cfg, s);
      case Land(_) => AppendKeepsAccounts(cfg, s, e);
      case Noise(_, _) => AppendKeepsAccounts(cfg, s, e);
      case Crash => CrashKeepsAccounts(cfg, s);
      case Skip => SkipKeepsAccounts(cfg, s);
      case GiveUp => GiveUpKeepsAccounts(cfg, s);
      case FailAttempt => AttemptKeepsAccounts(cfg, s, e);
      case Lose(_) => AttemptKeepsAccounts(cfg, s, e);
      case _ => PassageKeepsAccounts(cfg, s, e);
    }
  }

  lemma {:induction false} CrashKeepsAccounts(cfg: Config, s: State)
    ensures Accounted(Step(cfg, s, Crash))
  {
    EmptyCache();
  }

  /** The content of a record that leaves the spool in a step is on the topic, unless the record
      was among the oldest lines that the bound cut off. */
  lemma {:induction false} LeavingRecordsAreOnTheTopic(cfg: Config, s: State, e: Event, j: nat)
    requires Shape(cfg, s) && Enabled(cfg, s, e) && Accounted(s)
    requires j < |s.spool| && s.spool[j] !in Step(cfg, s, e).spool
    ensures OnTopic(Step(cfg, s, e), DigestOf(s.spool[j]))
         || (e.EndPublish? && j < Overflow(|s.spool| + |s.phase.failures|, cfg.spoolMax))
  {
    hide Lookup, OneEntryPerKey, OnTopic, Quiet, KeysOf, Unchanged;
    if e.EndReplay? {
      SameTopic(s, Step(cfg, s, e));
    } else if e.EndPublish? {
      var lines := s.spool + s.phase.failures;
      var cut := Overflow(|lines|, cfg.spoolMax);
      if cut <= j {
        KeptByCut(s.spool, s.phase.failures, cut, j);
      }
    }
  }

  /** The end of a cycle whose failures overflow the spool. */
  predicate Cuts(cfg: Config, s: State, e: Event) {
    && e.EndPublish? && s.phase.Publishing? && s.phase.failures != []
    && 0 < Overflow(|s.spool| + |s.phase.failures|, cfg.spoolMax)
  }

  /** No other event drops a key, and that one always does. */
  lemma {:induction false} OnlyACutDrops(cfg: Config, s: State, e: Event)
    requires Enabled(cfg, s, e)
    ensures !Cuts(cfg, s, e) ==> Step(cfg, s, e).dropped <= s.dropped
    ensures Cuts(cfg, s, e) ==> Step(cfg, s, e).dropped != {}
  {
    hide Lookup, Remember, Unchanged, Quiet, Append;
    if Cuts(cfg, s, e) {
      assert (s.spool + s.phase.failures)[0].key in Step(cfg, s, e).dropped;
    }
  }

  /** The spool, with what the current cycle may still add to it, is no more than `room` records. */
  predicate Within(s: State, room: nat) {
    match s.phase
    case Idle => |s.spool| <= room
    case Replaying(fetched, at, still, _) => |s.spool| + |fetched| <= room && |still| <= at <= |s.spool|
    case Publishing(fetched, at, failures, _) => |s.spool| + |fetched| <= room && |failures| <= at <= |fetched|
  }

  lemma {:induction false} TurnStaysWithin(cfg: Config, s: State, e: Event, room: nat)
    requires Enabled(cfg, s, e) && Within(s, room) && (e.FailAttempt? || e.Ack? || e.GiveUp? || e.Skip?)
    ensures Within(Step(cfg, s, e), room)
  {
    hide Lookup, Remember, Quiet, Append, KeysOf, Addressed, Overflow;
  }

  lemma {:induction false} OthersStayWithin(cfg: Config, s: State, e: Event, room: nat)
    requires Enabled(cfg, s, e) && Within(s, room) && !e.FailAttempt? && !e.Ack? && !e.GiveUp? && !e.Skip?
    ensures Within(Step(cfg, s, e), room + if e.BeginCycle? then |e.records| else 0)
  {
    hide Append, KeysOf, Addressed, Overflow, Unchanged;
  }

  /** Only a fetch can add to the spool, and with room for all of them nothing is cut. */
  lemma {:induction false} StepStaysWithin(cfg: Config, s: State, e: Event, room: nat)
    requires Enabled(cfg, s, e) && Within(s, room)
    ensures Within(Step(cfg, s, e), room + if e.BeginCycle? then |e.records| else 0)
    ensures room <= cfg.spoolMax ==> !Cuts(cfg, s, e)
  {
    hide Step, Enabled;
    if e.FailAttempt? || e.Ack? || e.GiveUp? || e.Skip? {
      TurnStaysWithin(cfg, s, e, room);
    } else {
      OthersStayWithin(cfg, s, e, room);
    }
  }

  lemma {:induction false} KeptByCut(a: seq<Record>, b: seq<Record>, cut: nat, j: nat)
    requires cut <= j < |a|
    ensures a[j] in (a + b)[cut..]
  {
    assert (a + b)[cut..][j - cut] == a[j];
  }

  /** When a cycle ends, the content of everything it fetched is on the topic or in the spool,
      unless the bound cut it off. */
  lemma {:induction false} EndedFetchIsOnTheTopicOrKept(cfg: Config, s: State, r: Record)
    requires Shape(cfg, s) && Enabled(cfg, s, EndPublish) && Accounted(s) && r in s.phase.fetched
    ensures var s' := Step(cfg, s, EndPublish);
            OnTopic(s', DigestOf(r)) || r in s'.spool || r.key in s'.dropped
  {
    hide Lookup, OneEntryPerKey, OnTopic, Quiet, Unchanged;
    var s' := Step(cfg, s, EndPublish);
    SameTopic(s, s');
    var j :| 0 <= j < |s.phase.fetched| && s.phase.fetched[j] == r;
    if !OnTopic(s, DigestOf(r)) {
      var i :| 0 <= i < |s.phase.failures| && s.phase.failures[i] == r;
      var lines := s.spool + s.phase.failures;
      var cut := Overflow(|lines|, cfg.spoolMax);
      assert lines[|s.spool| + i] == r;
      if |s.spool| + i >= cut {
        assert s'.spool[|s.spool| + i - cut] == r;
      }
    }
  }

  // ---- Runs -----------------------------------------------------------------

  /** The state after the first `n` events, if each was possible when it came. */
  ghost function After(cfg: Config, s: State, es: seq<Event>, n: nat): Option<State>
    requires n <= |es|
  {
    if n == 0 then Some(s)
    else match After(cfg, s, es, n - 1)
         case None => None
         case Some(t) => if Enabled(cfg, t, es[n - 1]) then Some(Step(cfg, t, es[n - 1])) else None
  }

  ghost predicate Inv(cfg: Config, s: State) {
    Shape(cfg, s) && Progress(s) && Accounted(s) && forall k :: Agrees(s, k) && Handled(s, k)
  }

  lemma {:induction false} StepKeepsKey(cfg: Config, s: State, e: Event, k: Key)
    requires Shape(cfg, s) && Progress(s) && Enabled(cfg, s, e) && Agrees(s, k) && Handled(s, k)
    ensures Agrees(Step(cfg, s, e), k) && Handled(Step(cfg, s, e), k)
  {
    hide Shape, Progress, Step, Enabled, Agrees, Handled;
    match e {
      case BeginCycle(records) => BeginCycleKeeps(cfg, s, records, k);
      case FailAttempt => FailAttemptKeeps(cfg, s, k);
      case Ack => AckKeeps(cfg, s, k);
      case GiveUp => GiveUpKeeps(cfg, s, k);
      case Skip => SkipKeeps(cfg, s, k);
      case EndReplay => EndReplayKeeps(cfg, s, k);
      case EndPublish => EndPublishKeeps(cfg, s, k);
      case Crash => CrashKeeps(cfg, s, k);
      case _ => EnvironmentKeeps(cfg, s, e, k);
    }
  }

  lemma {:induction false} BeginCycleKeeps(cfg: Config, s: State, records: seq<Record>, k: Key)
    requires Enabled(cfg, s, BeginCycle(records)) && Agrees(s, k)
    ensures Agrees(Step(cfg, s, BeginCycle(records)), k) && Handled(Step(cfg, s, BeginCycle(records)), k)
  {
    hide Lookup, LastIn;
  }

  lemma {:induction false} CrashKeeps(cfg: Config, s: State, k: Key)
    ensures Agrees(Step(cfg, s, Crash), k) && Handled(Step(cfg, s, Crash), k)
  {
    EmptyCache();
  }

  lemma {:induction false} StepKeepsInv(cfg: Config, s: State, e: Event)
    requires Inv(cfg, s) && Enabled(cfg, s, e)
    ensures Inv(cfg, Step(cfg, s, e))
  {
    hide Shape, Progress, Step, Enabled, Agrees, Handled, Accounted;
    StepKeepsShape(cfg, s, e);
    StepKeepsProgress(cfg, s, e);
    StepKeepsAccounts(cfg, s, e);
    forall k ensures Agrees(Step(cfg, s, e), k) && Handled(Step(cfg, s, e), k) {
      StepKeepsKey(cfg, s, e, k);
    }
  }

  lemma {:induction false} InitialInv(cfg: Config, partitions: nat, spool: seq<Record>)
    requires Addressed(Initial(partitions, spool), spool)
    ensures Inv(cfg, Initial(partitions, spool))
  {
    EmptyCache();
  }

  /** The invariant holds after any run of fetches, replays, sends of any outcome, overflows,
      late landings and crashes, from any spool found on disk. */
  lemma {:induction false} EveryRunKeepsInv(cfg: Config, partitions: nat, spool: seq<Record>, es: seq<Event>, n: nat)
    requires Addressed(Initial(partitions, spool), spool) && n <= |es|
    ensures match After(cfg, Initial(partitions, spool), es, n) case Some(s) => Inv(cfg, s) case None => true
  {
    hide Inv, Step, Enabled, Addressed;
    if n == 0 {
      InitialInv(cfg, partitions, spool);
    } else {
      EveryRunKeepsInv(cfg, partitions, spool, es, n - 1);
      match After(cfg, Initial(partitions, spool), es, n - 1) {
        case None =>
        case Some(t) => if Enabled(cfg, t, es[n - 1]) { StepKeepsInv(cfg, t, es[n - 1]); }
      }
    }
  }

  /** What the topic holds, for `k`, once a cycle has had every send acknowledged. */
  ghost predicate Delivered(s: State, k: Key) {
    && (Occurs(s.fetch, 0, k) ==> Ends(s, k, LastAmong(s.fetch, |s.fetch|, k)) && Quiet(s, k))
    && (Occurs(s.backlog, 0, k) && !Occurs(s.fetch, 0, k) ==>
          Ends(s, k, LastAmong(s.backlog, |s.backlog|, k)) && Quiet(s, k))
  }

  /** After any run, a cycle that ended with all its sends acknowledged has emptied the spool.
      The topic's last record of every key it fetched is the last one fetched; for a key it
      only replayed, it is the last one spooled. No copy of either is still in flight. */
  lemma {:induction false} CleanCycleDelivers(cfg: Config, partitions: nat, spool: seq<Record>, es: seq<Event>,
          s: State, k: Key)
    requires Addressed(Initial(partitions, spool), spool)
    requires After(cfg, Initial(partitions, spool), es, |es|) == Some(s)
    requires s.phase.Idle? && s.clean && k !in s.dropped
    ensures s.spool == [] && Delivered(s, k)
  {
    EveryRunKeepsInv(cfg, partitions, spool, es, |es|);
    InvDelivers(cfg, s, k);
  }

  lemma {:induction false} InvOfKey(cfg: Config, s: State, k: Key)
    requires Inv(cfg, s)
    ensures Progress(s) && Handled(s, k)
  {
  }

  /** The last record of a key in the whole intake is the last one fetched, if there is one, else
      the last one spooled. */
  lemma {:induction false} LastOfIntake(backlog: seq<Record>, fetch: seq<Record>, k: Key)
    ensures var all := backlog + fetch;
            && (Occurs(fetch, 0, k) ==>
                  LastAmong(all, |all|, k).Some? && LastAmong(all, |all|, k) == LastAmong(fetch, |fetch|, k))
            && (Occurs(backlog, 0, k) && !Occurs(fetch, 0, k) ==>
                  LastAmong(all, |all|, k).Some? && LastAmong(all, |all|, k) == LastAmong(backlog, |backlog|, k))
  {
    hide LastAmong;
    var all := backlog + fetch;
    OccursHasLast(all, |all|, k);
    if Occurs(fetch, 0, k) {
      var j :| 0 <= j < |fetch| && fetch[j].key == k;
      assert all[|backlog| + j].key == k;
      LastAmongTail(all, fetch, |backlog|, k);
    } else if Occurs(backlog, 0, k) {
      var j :| 0 <= j < |backlog| && backlog[j].key == k;
      assert all[j].key == k;
      LastAmongHead(backlog, fetch, |all|, k);
    }
  }

  lemma {:induction false} InvDelivers(cfg: Config, s: State, k: Key)
    requires Inv(cfg, s) && s.phase.Idle? && s.clean && k !in s.dropped
    ensures s.spool == [] && Delivered(s, k)
  {
    hide Inv, LastAmong, Quiet, Ends, Occurs;
    InvOfKey(cfg, s, k);
    LastOfIntake(s.backlog, s.fetch, k);
  }

  /** After any run and at any moment, a remembered digest is the topic's last one for its
      key unless a record of the key is pending or was dropped by the bound. */
  lemma {:induction false} RememberedDigestsAreCurrent(cfg: Config, partitions: nat, spool: seq<Record>,
          es: seq<Event>, s: State, k: Key)
    requires Addressed(Initial(partitions, spool), spool)
    requires After(cfg, Initial(partitions, spool), es, |es|) == Some(s)
    requires Lookup(s.cache, k).Some? && !Pending(s, k) && k !in s.dropped
    ensures Ends(s, k, Lookup(s.cache, k)) && Quiet(s, k)
  {
    EveryRunKeepsInv(cfg, partitions, spool, es, |es|);
    assert Agrees(s, k);
  }
}
