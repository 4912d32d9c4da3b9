/** Where the publisher's delivery claim stops: two runs from an empty topic, and what a replayed key
    ends in. */
module PublisherLimits {
  import opened Common
  import opened Records
  import opened DedupeCache
  import opened PublisherProtocol

  lemma {:induction false} Extend(cfg: Config, s: State, es: seq<Event>, t: State, e: Event)
    returns (es': seq<Event>, t': State)
    requires After(cfg, s, es, |es|) == Some(t) && Enabled(cfg, t, e)
    ensures es' == es + [e] && t' == Step(cfg, t, e)
    ensures After(cfg, s, es', |es'|) == Some(t')
  {
    hide Enabled, Step;
    es', t' := es + [e], Step(cfg, t, e);
    SameStart(cfg, s, es, es', |es|);
  }

  lemma {:induction false} SameStart(cfg: Config, s: State, a: seq<Event>, b: seq<Event>, n: nat)
    requires n <= |a| && n <= |b| && forall i | 0 <= i < n :: a[i] == b[i]
    ensures After(cfg, s, a, n) == After(cfg, s, b, n)
  {
    hide Step, Enabled;
    if n > 0 {
      SameStart(cfg, s, a, b, n - 1);
    }
  }

  /** A whole fetch of one record, sent at once. */
  lemma {:induction false} SendOne(cfg: Config, s: State, es: seq<Event>, t: State, r: Record)
    returns (es': seq<Event>, t': State)
    requires After(cfg, s, es, |es|) == Some(t)
    requires t.phase.Idle? && t.spool == [] && t.inflight == multiset{} && r.key.partition < |t.logs|
    requires Lookup(t.cache, r.key) != Some(DigestOf(r))
    ensures After(cfg, s, es', |es'|) == Some(t')
    ensures t'.phase.Idle? && t'.spool == [] && t'.inflight == multiset{}
    ensures t'.logs == Append(t.logs, r.key.partition, Telemetry(r))
    ensures t'.cache == Remember(t.cache, r.key, DigestOf(r), cfg.grid)
    ensures t'.dropped == t.dropped - {r.key}
  {
    hide Lookup, Remember, Append, After;
    es', t' := Extend(cfg, s, es, t, BeginCycle([r]));
    es', t' := Extend(cfg, s, es', t', EndReplay);
    es', t' := Extend(cfg, s, es', t', Ack);
    es', t' := Extend(cfg, s, es', t', EndPublish);
  }

  lemma {:induction false} Nothing(cfg: Config, s: State)
    ensures After(cfg, s, [], 0) == Some(s)
  {
  }

  lemma {:induction false} OneLog(ms: Log, m: Message)
    ensures Append([ms], 0, m) == [ms + [m]]
  {
  }

  /** A fetch of `r` whose only send is given up and never lands; what the spool already held
      is given up too. */
  lemma {:induction false} GiveUpOn(cfg: Config, s0: State, es: seq<Event>, t: State, r: Record)
    returns (es': seq<Event>, t': State)
    requires After(cfg, s0, es, |es|) == Some(t) && cfg.spoolMax >= 1
    requires t.phase.Idle? && t.spool == [] && t.cache == [] && r.key.partition < |t.logs|
    ensures After(cfg, s0, es', |es'|) == Some(t') && |es'| == |es| + 4 && es'[|es|] == BeginCycle([r])
    ensures t'.phase.Idle? && t'.spool == [r] && t'.logs == t.logs && t'.inflight == t.inflight && t'.cache == []
    ensures t'.dropped == t.dropped
  {
    hide After;
    EmptyCache();
    es', t' := Extend(cfg, s0, es, t, BeginCycle([r]));
    es', t' := Extend(cfg, s0, es', t', EndReplay);
    es', t' := Extend(cfg, s0, es', t', GiveUp);
    es', t' := Extend(cfg, s0, es', t', EndPublish);
  }

  /** A fetch of `r`, sent at once, while the replay of the one spooled record is given up. */
  lemma {:induction false} SendPast(cfg: Config, s0: State, es: seq<Event>, t: State, r: Record)
    returns (es': seq<Event>, t': State)
    requires After(cfg, s0, es, |es|) == Some(t)
    requires t.phase.Idle? && |t.spool| == 1 && t.cache == [] && t.inflight == multiset{} && r.key.partition < |t.logs|
    ensures After(cfg, s0, es', |es'|) == Some(t') && |es'| == |es| + 5 && es <= es' && es'[|es|] == BeginCycle([r])
    ensures t'.phase.Idle? && t'.spool == t.spool && t'.inflight == multiset{} && t'.dropped == t.dropped - {r.key}
    ensures t'.logs == Append(t.logs, r.key.partition, Telemetry(r))
    ensures t'.cache == Remember([], r.key, DigestOf(r), cfg.grid)
  {
    hide After, Remember, Append;
    EmptyCache();
    es', t' := Extend(cfg, s0, es, t, BeginCycle([r]));
    es', t' := Extend(cfg, s0, es', t', GiveUp);
    es', t' := Extend(cfg, s0, es', t', EndReplay);
    es', t' := Extend(cfg, s0, es', t', Ack);
    es', t' := Extend(cfg, s0, es', t', EndPublish);
    assert t'.spool == t.spool;
  }

  /** The cache after the first acknowledgement. */
  lemma {:induction false} FirstRemembered(k: Key, d: Digest, bounded: bool)
    ensures var c := Remember([], k, d, bounded);
            && OneEntryPerKey(c) && |c| == 1 && Lookup(c, k) == Some(d)
            && forall k' | k' != k :: Lookup(c, k') == None
  {
    EmptyCache();
    PutMeaning([], k, d);
    WithinBound(Put([], k, d));
  }

  /** A cycle that replays the one spooled record and sends one of another key, both at once. */
  lemma {:induction false} ReplayAndSend(cfg: Config, s0: State, es: seq<Event>, t: State, x: Record)
    returns (es': seq<Event>, t': State)
    requires After(cfg, s0, es, |es|) == Some(t)
    requires t.phase.Idle? && |t.spool| == 1 && t.inflight == multiset{} && t.spool[0].key.partition < |t.logs|
    requires x.key.partition < |t.logs| && x.key != t.spool[0].key
    requires OneEntryPerKey(t.cache) && (cfg.grid ==> |t.cache| <= DEDUPE_CACHE_MAX) && Lookup(t.cache, x.key) == None
    ensures After(cfg, s0, es', |es'|) == Some(t') && es <= es'
    ensures t'.phase.Idle? && t'.clean && t'.dropped == t.dropped - {t.spool[0].key} - {x.key}
    ensures t'.backlog == t.spool && t'.fetch == [x]
    ensures t'.logs == Append(Append(t.logs, t.spool[0].key.partition, Telemetry(t.spool[0])),
                              x.key.partition, Telemetry(x))
  {
    hide After, Remember, Append, Lookup;
    RememberMeaning(t.cache, t.spool[0].key, DigestOf(t.spool[0]), cfg.grid);
    es', t' := Extend(cfg, s0, es, t, BeginCycle([x]));
    es', t' := Extend(cfg, s0, es', t', Ack);
    es', t' := Extend(cfg, s0, es', t', EndReplay);
    es', t' := Extend(cfg, s0, es', t', Ack);
    es', t' := Extend(cfg, s0, es', t', EndPublish);
  }

  /** The claim needs the record to be in the cycle's own fetch: an old version left in the
      spool is replayed after a newer one was fetched and acknowledged, and the topic goes
      back to it, although every send of that last cycle was acknowledged. */
  lemma {:induction false} StaleReplayReverts(cfg: Config, older: Record, newer: Record, x: Record)
    returns (es: seq<Event>, s: State)
    requires cfg.spoolMax >= 1 && older.key == newer.key == Key(0, "window") && x.key == Key(0, "other")
    ensures After(cfg, Initial(1, []), es, |es|) == Some(s)
    ensures |es| > 4 && es[4] == BeginCycle([newer])
    ensures s.phase.Idle? && s.clean && s.dropped == {} && s.fetch == [x]
    ensures s.logs == [[Telemetry(newer), Telemetry(older), Telemetry(x)]]
    ensures LastOf(s.logs[0], newer.key) == Some(DigestOf(older))
  {
    hide Append, After, LastOf, Lookup, OneEntryPerKey;
    var s0 := Initial(1, []);
    assert s0.logs == [[]];
    Nothing(cfg, s0);
    es, s := GiveUpOn(cfg, s0, [], s0, older);
    es, s := SendPast(cfg, s0, es, s, newer);
    FirstRemembered(newer.key, DigestOf(newer), cfg.grid);
    es, s := ReplayAndSend(cfg, s0, es, s, x);
    var one, two := [Telemetry(newer)], [Telemetry(newer), Telemetry(older)];
    OneLog([], Telemetry(newer));
    OneLog(one, Telemetry(older));
    OneLog(two, Telemetry(x));
    assert [] + [Telemetry(newer)] == one && one + [Telemetry(older)] == two;
    assert two + [Telemetry(x)] == [Telemetry(newer), Telemetry(older), Telemetry(x)];
    LastOfAppend(one, Telemetry(older), newer.key);
    LastOfAppend(two, Telemetry(x), newer.key);
  }

  /** What a key ends in that a clean cycle only replayed: it is the newest version fetched, `newest`,
      exactly when that is the last one spooled. */
  lemma {:induction false} ReplayedKeyIsCurrentExactlyWhen(cfg: Config, partitions: nat, spool: seq<Record>,
          es: seq<Event>, s: State, newest: Record)
    requires Addressed(Initial(partitions, spool), spool)
    requires After(cfg, Initial(partitions, spool), es, |es|) == Some(s)
    requires s.phase.Idle? && s.clean && newest.key !in s.dropped
    requires Occurs(s.backlog, 0, newest.key) && !Occurs(s.fetch, 0, newest.key)
    ensures newest.key.partition < |s.logs|
    ensures LastOf(s.logs[newest.key.partition], newest.key) == Some(DigestOf(newest))
       <==> LastAmong(s.backlog, |s.backlog|, newest.key) == Some(DigestOf(newest))
  {
    hide After, LastOf, LastAmong;
    CleanCycleDelivers(cfg, partitions, spool, es, s, newest.key);
  }

  lemma {:induction false} FirstOfTwo(r: Record, x: Record)
    ensures KeysOf([r, x], 1) == {r.key} && [r, x][1..] == [x]
  {
    assert [r, x][0].key in KeysOf([r, x], 1);
  }

  /** A fetch of `r` and `x` in which both sends are given up but that of `r` lands, with room
      in the spool for one of them. */
  lemma {:induction false} LandAndDrop(cfg: Config, s0: State, es: seq<Event>, t: State, r: Record, x: Record)
    returns (es': seq<Event>, t': State)
    requires After(cfg, s0, es, |es|) == Some(t) && cfg.spoolMax == 1
    requires t.phase.Idle? && t.spool == [] && t.inflight == multiset{}
    requires r.key.partition < |t.logs| && x.key.partition < |t.logs|
    requires Lookup(t.cache, r.key) != Some(DigestOf(r)) && Lookup(t.cache, x.key) != Some(DigestOf(x))
    ensures After(cfg, s0, es', |es'|) == Some(t')
    ensures t'.phase.Idle? && t'.spool == [x] && t'.inflight == multiset{} && t'.cache == t.cache
    ensures t'.dropped == t.dropped + {r.key}
    ensures t'.logs == Append(t.logs, r.key.partition, Telemetry(r))
  {
    hide After, Lookup, Append, KeysOf, Remember;
    es', t' := Extend(cfg, s0, es, t, BeginCycle([r, x]));
    es', t' := Extend(cfg, s0, es', t', EndReplay);
    es', t' := Extend(cfg, s0, es', t', FailAttempt);
    assert r in t'.inflight;
    es', t' := Extend(cfg, s0, es', t', Land(r));
    es', t' := Extend(cfg, s0, es', t', GiveUp);
    es', t' := Extend(cfg, s0, es', t', GiveUp);
    assert t'.spool + t'.phase.failures == [r, x];
    FirstOfTwo(r, x);
    es', t' := Extend(cfg, s0, es', t', EndPublish);
  }

  /** A cycle that replays the one spooled record and skips its fetch as unchanged. */
  lemma {:induction false} ReplayThenSkip(cfg: Config, s0: State, es: seq<Event>, t: State, r: Record)
    returns (es': seq<Event>, t': State)
    requires After(cfg, s0, es, |es|) == Some(t) && !cfg.publishUnchanged && |t.cache| < DEDUPE_CACHE_MAX
    requires t.phase.Idle? && |t.spool| == 1 && t.inflight == multiset{} && t.spool[0].key.partition < |t.logs|
    requires r.key.partition < |t.logs| && t.spool[0].key != r.key
    requires OneEntryPerKey(t.cache) && Lookup(t.cache, r.key) == Some(DigestOf(r))
    ensures After(cfg, s0, es', |es'|) == Some(t')
    ensures t'.phase.Idle? && t'.clean && t'.fetch == [r] && t'.dropped == t.dropped - {t.spool[0].key}
    ensures t'.logs == Append(t.logs, t.spool[0].key.partition, Telemetry(t.spool[0]))
  {
    hide After, Lookup, Append;
    PutMeaning(t.cache, t.spool[0].key, DigestOf(t.spool[0]));
    WithinBound(Put(t.cache, t.spool[0].key, DigestOf(t.spool[0])));
    es', t' := Extend(cfg, s0, es, t, BeginCycle([r]));
    es', t' := Extend(cfg, s0, es', t', Ack);
    es', t' := Extend(cfg, s0, es', t', EndReplay);
    es', t' := Extend(cfg, s0, es', t', Skip);
    es', t' := Extend(cfg, s0, es', t', EndPublish);
  }

  /** The claim needs the key not to have been dropped: a spool bound of one drops the record
      whose send failed but landed, the cache still names the version before it, and a fetch
      of that version is skipped as unchanged. Every send of the last cycle was acknowledged
      and yet the topic does not end with what was fetched. */
  lemma {:induction false} OverflowHidesALandedRecord(v1: Record, v2: Record, x: Record)
    returns (es: seq<Event>, s: State)
    requires v1.key == v2.key == Key(0, "window") && x.key == Key(0, "other") && DigestOf(v1) != DigestOf(v2)
    ensures After(Config(true, false, 1), Initial(1, []), es, |es|) == Some(s)
    ensures s.phase.Idle? && s.clean && s.fetch == [v1] && s.dropped == {v1.key}
    ensures s.logs != [] && LastOf(s.logs[0], v1.key) == Some(DigestOf(v2))
  {
    hide Append, After, LastOf, Lookup;
    var cfg, s0 := Config(true, false, 1), Initial(1, []);
    assert s0.logs == [[]];
    EmptyCache();
    Nothing(cfg, s0);
    es, s := SendOne(cfg, s0, [], s0, v1);
    FirstRemembered(v1.key, DigestOf(v1), true);
    es, s := LandAndDrop(cfg, s0, es, s, v2, x);
    es, s := ReplayThenSkip(cfg, s0, es, s, v1);
    OneLog([], Telemetry(v1));
    OneLog([] + [Telemetry(v1)], Telemetry(v2));
    OneLog([] + [Telemetry(v1)] + [Telemetry(v2)], Telemetry(x));
    LastOfAppend([] + [Telemetry(v1)] + [Telemetry(v2)], Telemetry(x), v1.key);
    LastOfAppend([] + [Telemetry(v1)], Telemetry(v2), v1.key);
  }
}
