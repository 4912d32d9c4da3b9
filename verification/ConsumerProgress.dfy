/** Progress: a consumer that is let run handles and commits all there is. */
module ConsumerProgress {
  import opened Common
  import opened Records
  import opened Ledger
  import opened ConsumerProtocol

  /** Everything in the logs was handled and committed. */
  predicate AllCommitted(s: State) {
    forall p | 0 <= p < |s.lanes| :: s.lanes[p].committed == s.lanes[p].handled == |s.lanes[p].log|
  }

  predicate AllPolled(s: State) {
    forall p | 0 <= p < |s.lanes| :: s.lanes[p].handled <= s.lanes[p].position == |s.lanes[p].log|
  }

  /** What was handled since the last commit is known to be uncommitted. */
  predicate CountsUncommitted(s: State) {
    s.uncommitted == 0 ==> forall p | 0 <= p < |s.lanes| :: s.lanes[p].committed == s.lanes[p].handled
  }

  predicate SameLogs(s: State, t: State) {
    |t.lanes| == |s.lanes| && forall p | 0 <= p < |s.lanes| :: t.lanes[p].log == s.lanes[p].log
  }

  /** How many messages of the first `n` lanes are to be handled. */
  function Left(lanes: seq<Lane>, n: nat): nat
    requires n <= |lanes| && forall p | 0 <= p < |lanes| :: lanes[p].handled <= |lanes[p].log|
  {
    if n == 0 then 0 else Left(lanes, n - 1) + |lanes[n - 1].log| - lanes[n - 1].handled
  }

  lemma {:induction false} OneLess(lanes: seq<Lane>, lanes': seq<Lane>, p: nat, n: nat)
    requires |lanes'| == |lanes| && p < |lanes| && n <= |lanes|
    requires forall q | 0 <= q < |lanes| :: lanes[q].handled <= |lanes[q].log| && lanes'[q].log == lanes[q].log
    requires lanes'[p].handled == lanes[p].handled + 1 <= |lanes[p].log|
    requires forall q | 0 <= q < |lanes| && q != p :: lanes'[q].handled == lanes[q].handled
    ensures Left(lanes', n) == Left(lanes, n) - if p < n then 1 else 0
  {
    if n > 0 {
      OneLess(lanes, lanes', p, n - 1);
    }
  }

  lemma {:induction false} Extend(grid: bool, s0: State, es: seq<Event>, s: State, e: Event)
    returns (es': seq<Event>, t: State)
    requires After(grid, s0, es, |es|) == Some(s) && Enabled(s, e)
    ensures es' == es + [e] && t == Step(grid, s, e) && After(grid, s0, es', |es'|) == Some(t)
  {
    hide Enabled, Step;
    es', t := es + [e], Step(grid, s, e);
    SameStart(grid, s0, es, es', |es|);
  }

  lemma {:induction false} SameStart(grid: bool, s: State, a: seq<Event>, b: seq<Event>, n: nat)
    requires n <= |a| && n <= |b| && forall i | 0 <= i < n :: a[i] == b[i]
    ensures After(grid, s, a, n) == After(grid, s, b, n)
  {
    hide Enabled, Step;
    if n > 0 {
      SameStart(grid, s, a, b, n - 1);
    }
  }

  lemma {:induction false} HandleOne(grid: bool, s: State, p: nat, now: int)
    requires AllPolled(s) && p < |s.lanes| && s.lanes[p].handled < |s.lanes[p].log|
    ensures Enabled(s, Handle(p, now))
    ensures var t := Step(grid, s, Handle(p, now));
            && AllPolled(t) && SameLogs(s, t) && CountsUncommitted(t)
            && Left(t.lanes, |t.lanes|) == Left(s.lanes, |s.lanes|) - 1
  {
    hide Upsert;
    OneLess(s.lanes, Step(grid, s, Handle(p, now)).lanes, p, |s.lanes|);
  }

  /** What was polled can be handled, message by message. */
  lemma {:induction false} HandleRest(grid: bool, s0: State, es: seq<Event>, s: State, now: int)
    returns (es': seq<Event>, t: State)
    requires After(grid, s0, es, |es|) == Some(s) && AllPolled(s) && CountsUncommitted(s)
    ensures es <= es' && After(grid, s0, es', |es'|) == Some(t) && SameLogs(s, t)
    ensures AllPolled(t) && CountsUncommitted(t) && BatchDone(t)
    decreases Left(s.lanes, |s.lanes|)
  {
    hide Enabled, Step, CountsUncommitted;
    if p :| 0 <= p < |s.lanes| && s.lanes[p].handled < |s.lanes[p].log| {
      HandleOne(grid, s, p, now);
      es', t := Extend(grid, s0, es, s, Handle(p, now));
      es', t := HandleRest(grid, s0, es', t, now);
    } else {
      es', t := es, s;
    }
  }

  /** All that the logs hold beyond the poll positions. */
  function ToPoll(s: State): (counts: seq<nat>)
    requires forall p | 0 <= p < |s.lanes| :: s.lanes[p].position <= |s.lanes[p].log|
  {
    seq(|s.lanes|, p requires 0 <= p < |s.lanes| => |s.lanes[p].log| - s.lanes[p].position)
  }

  /** From wherever a run has come, a restart, a poll, the handling of what was polled and a commit, if
      there is anything to commit, leave nothing of the logs unhandled or uncommitted. */
  lemma {:induction false} AlwaysCatchesUp(grid: bool, s0: State, es: seq<Event>, s: State, now: int)
    returns (es': seq<Event>, t: State)
    requires After(grid, s0, es, |es|) == Some(s) && Shape(s)
    ensures es <= es' && After(grid, s0, es', |es'|) == Some(t) && SameLogs(s, t) && AllCommitted(t)
  {
    es', t := Extend(grid, s0, es, s, Crash);
    Restart(grid, s);
    es', t := Extend(grid, s0, es', t, Poll(ToPoll(t)));
    hide Enabled, Step, Shape;
    es', t := HandleRest(grid, s0, es', t, now);
    if t.uncommitted > 0 {
      CommitAll(grid, t);
      es', t := Extend(grid, s0, es', t, Commit);
    }
  }

  lemma {:induction false} Restart(grid: bool, s: State)
    requires Shape(s)
    ensures var t := Step(grid, s, Crash);
            && (forall p | 0 <= p < |t.lanes| :: t.lanes[p].position <= |t.lanes[p].log|)
            && Enabled(t, Poll(ToPoll(t)))
            && var u := Step(grid, t, Poll(ToPoll(t)));
            SameLogs(s, u) && AllPolled(u) && CountsUncommitted(u)
  {
    hide Routed;
    forall p | 0 <= p < |s.lanes| ensures s.lanes[p].committed <= |s.lanes[p].log| {
      assert LaneShape(s.lanes[p], p);
    }
  }

  lemma {:induction false} CommitAll(grid: bool, s: State)
    requires AllPolled(s) && BatchDone(s) && s.uncommitted > 0
    ensures Enabled(s, Commit) && SameLogs(s, Step(grid, s, Commit)) && AllCommitted(Step(grid, s, Commit))
  {
  }
}
