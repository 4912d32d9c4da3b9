/** The consumers' ledger: an upsert guarded by the content hash, folded over whatever the
    topic delivers (ecogrid/consumer.py:91-215, ecogrid/plant/consumer.py:55-99). */
module Ledger {
  import opened Common
  import opened Records

  /** A row of either telemetry table, without its key columns. */
  datatype Row = Row(
    core: string, meta: string, hash: Digest, ingestedAt: int, firstSeen: int, lastSeen: int, revisions: nat)

  type Table = map<Key, Row>

  /** A record handed to the upsert when the database clock shows `now`. */
  datatype Delivery = Delivery(record: Record, now: int)

  datatype Outcome = Inserted | Revised | Duplicate

  /** The row an upsert leaves. `grid` is the grid table, whose upsert rewrites every hashed
      column; the plant table's leaves the schema version and the source as first inserted. */
  function Merge(grid: bool, row: Option<Row>, d: Delivery): Row {
    var r := d.record;
    match row
    case None => Row(r.core, r.meta, DigestOf(r), r.ingestedAt, d.now, d.now, 0)
    case Some(was) =>
      if was.hash == DigestOf(r) then was
      else Row(r.core, if grid then r.meta else was.meta, DigestOf(r),
               r.ingestedAt, was.firstSeen, d.now, was.revisions + 1)
  }

  function RowFor(t: Table, k: Key): Option<Row> {
    if k in t then Some(t[k]) else None
  }

  function Upsert(grid: bool, t: Table, d: Delivery): Table {
    t[d.record.key := Merge(grid, RowFor(t, d.record.key), d)]
  }

  /** What the statement's RETURNING clause tells the consumer: no row, a row never revised, or
      one that was. */
  function OutcomeOf(t: Table, d: Delivery): Outcome {
    match RowFor(t, d.record.key)
    case None => Inserted
    case Some(row) => if row.hash == DigestOf(d.record) then Duplicate else Revised
  }

  function LedgerAfter(grid: bool, ds: seq<Delivery>, n: nat): Table
    requires n <= |ds|
  {
    if n == 0 then map[] else Upsert(grid, LedgerAfter(grid, ds, n - 1), ds[n - 1])
  }

  // ---- One key at a time ----------------------------------------------------

  /** The deliveries for one key, in order. */
  function OfKey(ds: seq<Delivery>, n: nat, k: Key): (s: seq<Delivery>)
    requires n <= |ds|
    ensures forall i | 0 <= i < |s| :: s[i].record.key == k
  {
    if n == 0 then []
    else if ds[n - 1].record.key == k then OfKey(ds, n - 1, k) + [ds[n - 1]]
    else OfKey(ds, n - 1, k)
  }

  /** One row's fold. */
  function RowAfter(grid: bool, s: seq<Delivery>, n: nat): Option<Row>
    requires n <= |s|
  {
    if n == 0 then None else Some(Merge(grid, RowAfter(grid, s, n - 1), s[n - 1]))
  }

  lemma {:induction false} RowAfterPrefix(grid: bool, s: seq<Delivery>, d: Delivery, n: nat)
    requires n <= |s|
    ensures RowAfter(grid, s + [d], n) == RowAfter(grid, s, n)
  {
    hide Merge;
    if n > 0 {
      RowAfterPrefix(grid, s, d, n - 1);
    }
  }

  /** A row depends on the deliveries of its own key alone. */
  lemma {:induction false} RowIsFoldOfItsKey(grid: bool, ds: seq<Delivery>, n: nat, k: Key)
    requires n <= |ds|
    ensures RowFor(LedgerAfter(grid, ds, n), k) == RowAfter(grid, OfKey(ds, n, k), |OfKey(ds, n, k)|)
  {
    hide Merge;
    if n > 0 {
      RowIsFoldOfItsKey(grid, ds, n - 1, k);
      RowAfterPrefix(grid, OfKey(ds, n - 1, k), ds[n - 1], |OfKey(ds, n - 1, k)|);
    }
  }

  /** However partitions with disjoint keys are interleaved, the ledger is the same. */
  lemma {:induction false} InterleavingDoesNotMatter(grid: bool, a: seq<Delivery>, b: seq<Delivery>)
    requires forall k :: OfKey(a, |a|, k) == OfKey(b, |b|, k)
    ensures LedgerAfter(grid, a, |a|) == LedgerAfter(grid, b, |b|)
  {
    hide LedgerAfter, OfKey, RowAfter;
    var t, u := LedgerAfter(grid, a, |a|), LedgerAfter(grid, b, |b|);
    forall k ensures RowFor(t, k) == RowFor(u, k) {
      RowIsFoldOfItsKey(grid, a, |a|, k);
      RowIsFoldOfItsKey(grid, b, |b|, k);
    }
    assert forall k :: k in t <==> RowFor(t, k).Some?;
    assert forall k :: k in u <==> RowFor(u, k).Some?;
    forall k | k in t ensures t[k] == u[k] {
      assert RowFor(t, k) == RowFor(u, k);
    }
  }

  // ---- What the columns mean ------------------------------------------------

  /** How often the digest changed between neighbours among the first `n` deliveries. */
  function Changes(s: seq<Delivery>, n: nat): nat
    requires n <= |s|
  {
    if n <= 1 then 0
    else Changes(s, n - 1) + if DigestOf(s[n - 1].record) != DigestOf(s[n - 2].record) then 1 else 0
  }

  /** The delivery that began the last run of equal digests. */
  function LastChange(s: seq<Delivery>, n: nat): (i: nat)
    requires 1 <= n <= |s|
    ensures i < n
  {
    if n == 1 then 0
    else if DigestOf(s[n - 1].record) != DigestOf(s[n - 2].record) then n - 1
    else LastChange(s, n - 1)
  }

  /** Every column of a row, said of the deliveries for its key: the content and hash are those
      of the last one, the revision count is the number of times the digest changed, the first
      sighting is that of the first delivery for good, and the ingestion and last-seen times are
      those of the last change. */
  lemma {:induction false} ColumnsMean(grid: bool, s: seq<Delivery>, n: nat)
    requires 1 <= n <= |s| && forall i | 0 <= i < |s| :: s[i].record.key == s[0].record.key
    ensures RowAfter(grid, s, n) == Some(Row(
      s[n - 1].record.core, if grid then s[n - 1].record.meta else s[0].record.meta, DigestOf(s[n - 1].record),
      s[LastChange(s, n)].record.ingestedAt, s[0].now, s[LastChange(s, n)].now, Changes(s, n)))
  {
    if n == 1 {
      assert RowAfter(grid, s, 0) == None;
    } else {
      ColumnsMean(grid, s, n - 1);
    }
  }

  /** The hash kept with a row is the hash of the row itself: always in the grid table, and in
      the plant table exactly when the last delivery for the key came with the schema version
      and the source of the first. */
  lemma {:induction false} StoredHashIsHashOfRow(grid: bool, s: seq<Delivery>, n: nat)
    requires 1 <= n <= |s| && forall i | 0 <= i < |s| :: s[i].record.key == s[0].record.key
    ensures var row := RowAfter(grid, s, n).value;
            row.hash == Digest(s[0].record.key, row.core, row.meta)
            <==> grid || s[n - 1].record.meta == s[0].record.meta
  {
    hide RowAfter;
    ColumnsMean(grid, s, n);
  }

  lemma {:induction false} ChangesPrefix(s: seq<Delivery>, t: seq<Delivery>, n: nat)
    requires n <= |s| && n <= |t| && forall i | 0 <= i < n :: s[i] == t[i]
    ensures Changes(s, n) == Changes(t, n)
  {
    if n > 1 {
      ChangesPrefix(s, t, n - 1);
    }
  }

  /** From the `m`th delivery to the `n`th the count stays exactly when the digest does. */
  lemma {:induction false} CountStaysExactlyWhen(s: seq<Delivery>, m: nat, n: nat)
    requires 1 <= m <= n <= |s|
    ensures Changes(s, m) <= Changes(s, n)
    ensures Changes(s, n) == Changes(s, m)
       <==> forall j | m <= j < n :: DigestOf(s[j].record) == DigestOf(s[m - 1].record)
    decreases n
  {
    if m < n {
      CountStaysExactlyWhen(s, m, n - 1);
      assert Changes(s, n - 1) == Changes(s, m) && m < n - 1 ==> DigestOf(s[n - 2].record) == DigestOf(s[m - 1].record);
    }
  }

  /** `again` redelivers what `s` holds from `a` on, at any times. */
  predicate Redelivers(s: seq<Delivery>, a: nat, again: seq<Delivery>)
    requires a <= |s|
  {
    |again| == |s| - a && forall i | 0 <= i < |again| :: again[i].record == s[a + i].record
  }

  /** Redelivering the last of a key's deliveries leaves its revision count as it was exactly when they
      all had the digest of the very last one. */
  lemma {:induction false} RedeliveredBatchCountsExactlyWhen(grid: bool, s: seq<Delivery>, a: nat, again: seq<Delivery>)
    requires s != [] && a <= |s| && Redelivers(s, a, again)
    requires forall i | 0 <= i < |s| :: s[i].record.key == s[0].record.key
    ensures RowAfter(grid, s + again, |s + again|).value.revisions == RowAfter(grid, s, |s|).value.revisions
       <==> forall i | a <= i < |s| :: DigestOf(s[i].record) == DigestOf(s[|s| - 1].record)
    ensures RowAfter(grid, s + again, |s + again|).value.hash == RowAfter(grid, s, |s|).value.hash
  {
    hide RowAfter, Changes;
    var all := s + again;
    assert forall i | 0 <= i < |all| :: all[i] == if i < |s| then s[i] else again[i - |s|];
    ColumnsMean(grid, s, |s|);
    ColumnsMean(grid, all, |all|);
    ChangesPrefix(s, all, |s|);
    CountStaysExactlyWhen(all, |s|, |all|);
    forall i | a <= i < |s| ensures all[|s| + i - a].record == s[i].record {
    }
    forall j | |s| <= j < |all| ensures all[j].record == s[a + j - |s|].record {
    }
  }

  /** Redelivering `v1, v2` after `v2` counts two more revisions, though nothing was revised. */
  lemma {:induction false} RedeliveredBatchCountsAgain(grid: bool, v1: Record, v2: Record)
    requires v1.key == v2.key && DigestOf(v1) != DigestOf(v2)
    ensures var ds := [Delivery(v1, 1), Delivery(v2, 2), Delivery(v1, 3), Delivery(v2, 4)];
            && LedgerAfter(grid, ds, 2)[v1.key].revisions == 1 && LedgerAfter(grid, ds, 4)[v1.key].revisions == 3
            && LedgerAfter(grid, ds, 2)[v1.key].hash == LedgerAfter(grid, ds, 4)[v1.key].hash
  {
    var ds := [Delivery(v1, 1), Delivery(v2, 2), Delivery(v1, 3), Delivery(v2, 4)];
    var t1 := Upsert(grid, map[], ds[0]);
    var t2 := Upsert(grid, t1, ds[1]);
    var t3 := Upsert(grid, t2, ds[2]);
    assert LedgerAfter(grid, ds, 0) == map[] && LedgerAfter(grid, ds, 1) == t1;
    assert LedgerAfter(grid, ds, 2) == t2 && t2[v1.key].revisions == 1;
    assert LedgerAfter(grid, ds, 3) == t3 && t3[v1.key].revisions == 2;
  }

  // ---- Duplicates -----------------------------------------------------------

  /** The deliveries that are not suppressed: each repeats no record that was the last of its
      key. */
  function Compress(ds: seq<Delivery>, n: nat): (c: seq<Delivery>)
    requires n <= |ds|
    ensures |c| <= n
  {
    if n == 0 then []
    else if LastDelivered(ds, n - 1, ds[n - 1].record.key) == Some(DigestOf(ds[n - 1].record)) then Compress(ds, n - 1)
    else Compress(ds, n - 1) + [ds[n - 1]]
  }

  function LastDelivered(ds: seq<Delivery>, n: nat, k: Key): Option<Digest>
    requires n <= |ds|
  {
    if n == 0 then None
    else if ds[n - 1].record.key == k then Some(DigestOf(ds[n - 1].record))
    else LastDelivered(ds, n - 1, k)
  }

  function HashFor(t: Table, k: Key): Option<Digest> {
    if k in t then Some(t[k].hash) else None
  }

  lemma {:induction false} HashIsLastDelivered(grid: bool, ds: seq<Delivery>, n: nat, k: Key)
    requires n <= |ds|
    ensures HashFor(LedgerAfter(grid, ds, n), k) == LastDelivered(ds, n, k)
  {
    if n > 0 {
      HashIsLastDelivered(grid, ds, n - 1, k);
    }
  }

  lemma {:induction false} DuplicateChangesNothing(grid: bool, t: Table, d: Delivery)
    requires HashFor(t, d.record.key) == Some(DigestOf(d.record))
    ensures Upsert(grid, t, d) == t && OutcomeOf(t, d).Duplicate?
  {
  }

  lemma {:induction false} LedgerPrefix(grid: bool, a: seq<Delivery>, b: seq<Delivery>, n: nat)
    requires n <= |a| && n <= |b| && forall i | 0 <= i < n :: a[i] == b[i]
    ensures LedgerAfter(grid, a, n) == LedgerAfter(grid, b, n)
  {
    hide Upsert;
    if n > 0 {
      LedgerPrefix(grid, a, b, n - 1);
    }
  }

  /** Suppressed deliveries leave no trace: the ledger is that of the others alone. */
  lemma {:induction false} SuppressedDeliveriesLeaveNoTrace(grid: bool, ds: seq<Delivery>, n: nat)
    requires n <= |ds|
    ensures LedgerAfter(grid, Compress(ds, n), |Compress(ds, n)|) == LedgerAfter(grid, ds, n)
  {
    if n > 0 {
      hide Upsert, HashFor;
      SuppressedDeliveriesLeaveNoTrace(grid, ds, n - 1);
      HashIsLastDelivered(grid, ds, n - 1, ds[n - 1].record.key);
      if LastDelivered(ds, n - 1, ds[n - 1].record.key) == Some(DigestOf(ds[n - 1].record)) {
        DuplicateChangesNothing(grid, LedgerAfter(grid, ds, n - 1), ds[n - 1]);
      } else {
        LedgerPrefix(grid, Compress(ds, n - 1), Compress(ds, n), |Compress(ds, n - 1)|);
      }
    }
  }

  /** Delivering a record again before anything else of its key changes nothing, now or later,
      whatever was delivered in between for other keys. */
  lemma {:induction false} AdjacentRedeliveryIsInvisible(grid: bool, ds: seq<Delivery>, at: nat, again: Delivery,
          n: nat)
    requires at <= n <= |ds| && LastDelivered(ds, at, again.record.key) == Some(DigestOf(again.record))
    ensures LedgerAfter(grid, ds[..at] + [again] + ds[at..], n + 1) == LedgerAfter(grid, ds, n)
    decreases n
  {
    hide Upsert, HashFor;
    var more := ds[..at] + [again] + ds[at..];
    if n == at {
      LedgerPrefix(grid, more, ds, at);
      HashIsLastDelivered(grid, ds, at, again.record.key);
      assert more[n] == again;
      DuplicateChangesNothing(grid, LedgerAfter(grid, ds, at), again);
    } else {
      AdjacentRedeliveryIsInvisible(grid, ds, at, again, n - 1);
      assert more[n] == ds[n - 1];
    }
  }

  // ---- Conservation ---------------------------------------------------------

  /** The sum of `revisions` over the rows. */
  ghost function Revisions(t: Table): nat {
    if t == map[] then 0
    else
      var k :| k in t;
      t[k].revisions + Revisions(t - {k})
  }

  /** The sum of `1 + revisions`. */
  ghost function Writes(t: Table): nat {
    |t| + Revisions(t)
  }

  lemma {:induction false} RevisionsAt(t: Table, k: Key)
    requires k in t
    ensures Revisions(t) == t[k].revisions + Revisions(t - {k})
    decreases |t|
  {
    var j :| j in t && Revisions(t) == t[j].revisions + Revisions(t - {j});
    if j != k {
      RevisionsAt(t - {j}, k);
      RevisionsAt(t - {k}, j);
      assert t - {j} - {k} == t - {k} - {j};
    }
  }

  /** A delivery adds a row, or a revision, or nothing, as its outcome says. */
  lemma {:induction false} UpsertWrites(grid: bool, t: Table, d: Delivery)
    ensures |Upsert(grid, t, d)| == |t| + if OutcomeOf(t, d).Inserted? then 1 else 0
    ensures Revisions(Upsert(grid, t, d)) == Revisions(t) + if OutcomeOf(t, d).Revised? then 1 else 0
    ensures Writes(Upsert(grid, t, d)) == Writes(t) + if OutcomeOf(t, d).Duplicate? then 0 else 1
  {
    var k := d.record.key;
    var row := Merge(grid, RowFor(t, k), d);
    assert row.revisions == if k !in t then 0 else t[k].revisions + if OutcomeOf(t, d).Revised? then 1 else 0;
    PutRevisions(t, k, row);
  }

  lemma {:induction false} PutRevisions(t: Table, k: Key, row: Row)
    ensures Revisions(t[k := row]) == row.revisions + Revisions(t) - if k in t then t[k].revisions else 0
    ensures |t[k := row]| == |t| + if k in t then 0 else 1
  {
    hide Revisions;
    var u := t[k := row];
    RevisionsAt(u, k);
    assert u - {k} == t - {k};
    if k in t {
      RevisionsAt(t, k);
      assert u.Keys == t.Keys;
    } else {
      assert t - {k} == t;
      assert u.Keys == t.Keys + {k};
    }
  }

  /** Every delivery is a row, a revision of one, or a suppressed duplicate. */
  lemma {:induction false} DeliveriesAreConserved(grid: bool, ds: seq<Delivery>, n: nat)
    requires n <= |ds|
    ensures Writes(LedgerAfter(grid, ds, n)) == |Compress(ds, n)|
    ensures n == Writes(LedgerAfter(grid, ds, n)) + Duplicates(grid, ds, n)
  {
    hide Upsert, HashFor;
    if n > 0 {
      DeliveriesAreConserved(grid, ds, n - 1);
      var t := LedgerAfter(grid, ds, n - 1);
      UpsertWrites(grid, t, ds[n - 1]);
      HashIsLastDelivered(grid, ds, n - 1, ds[n - 1].record.key);
      DuplicateExactlyWhen(t, ds[n - 1]);
    }
  }

  lemma {:induction false} DuplicateExactlyWhen(t: Table, d: Delivery)
    ensures OutcomeOf(t, d).Duplicate? <==> HashFor(t, d.record.key) == Some(DigestOf(d.record))
  {
  }

  /** How many of the first `n` deliveries were reported as duplicates. */
  function Duplicates(grid: bool, ds: seq<Delivery>, n: nat): nat
    requires n <= |ds|
  {
    if n == 0 then 0
    else Duplicates(grid, ds, n - 1) + if OutcomeOf(LedgerAfter(grid, ds, n - 1), ds[n - 1]).Duplicate? then 1 else 0
  }
}
