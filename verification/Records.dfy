/** Telemetry records, their digests, and the last record of a key in a list or a log. */
module Records {
  import opened Common

  /** A Kafka key, with the partition the producer's partitioner sends it to. */
  datatype Key = Key(partition: nat, name: string)

  /** A record of the event contract. `core` is the canonical text of the fields every
      upsert rewrites, `meta` that of the schema version and source. */
  datatype Record = Record(key: Key, core: string, meta: string, ingestedAt: int)

  /** The content hash, taken to be injective on everything but the ingestion time. */
  datatype Digest = Digest(key: Key, core: string, meta: string)

  function DigestOf(r: Record): Digest {
    Digest(r.key, r.core, r.meta)
  }

  /** What a consumer finds in a partition. */
  datatype Message = Telemetry(record: Record) | Malformed(raw: string)

  type Log = seq<Message>

  predicate For(m: Message, k: Key) {
    m.Telemetry? && m.record.key == k
  }

  /** The digest of the last record for `k` among the first `n` messages. */
  function LastIn(log: Log, n: nat, k: Key): Option<Digest>
    requires n <= |log|
  {
    if n == 0 then None
    else if For(log[n - 1], k) then Some(DigestOf(log[n - 1].record))
    else LastIn(log, n - 1, k)
  }

  function LastOf(log: Log, k: Key): Option<Digest> {
    LastIn(log, |log|, k)
  }

  /** The digest of the last record for `k` among the first `n` of `rs`. */
  function LastAmong(rs: seq<Record>, n: nat, k: Key): Option<Digest>
    requires n <= |rs|
  {
    if n == 0 then None
    else if rs[n - 1].key == k then Some(DigestOf(rs[n - 1]))
    else LastAmong(rs, n - 1, k)
  }

  ghost predicate Occurs(rs: seq<Record>, from: nat, k: Key) {
    exists j | from <= j < |rs| :: rs[j].key == k
  }

  ghost predicate LogExtends(before: Log, after: Log) {
    |before| <= |after| && forall i | 0 <= i < |before| :: before[i] == after[i]
  }

  lemma {:induction false} LastInExtension(before: Log, after: Log, n: nat, k: Key)
    requires LogExtends(before, after) && n <= |before|
    ensures LastIn(after, n, k) == LastIn(before, n, k)
  {
    if n > 0 {
      LastInExtension(before, after, n - 1, k);
    }
  }

  /** Appending a message changes the last record of its own key only. */
  lemma {:induction false} LastOfAppend(log: Log, m: Message, k: Key)
    ensures LastOf(log + [m], k) == if For(m, k) then Some(DigestOf(m.record)) else LastOf(log, k)
  {
    LastInExtension(log, log + [m], |log|, k);
  }

  lemma {:induction false} LastAmongPrefix(a: seq<Record>, b: seq<Record>, n: nat, k: Key)
    requires n <= |a| && n <= |b| && forall i | 0 <= i < n :: a[i] == b[i]
    ensures LastAmong(a, n, k) == LastAmong(b, n, k)
  {
    if n > 0 {
      LastAmongPrefix(a, b, n - 1, k);
    }
  }

  /** A key that occurs from `from` on has its last record there. */
  lemma {:induction false} LastAmongTail(rs: seq<Record>, tail: seq<Record>, from: nat, k: Key)
    requires from <= |rs| && |tail| == |rs| - from && forall i | 0 <= i < |tail| :: tail[i] == rs[from + i]
    requires Occurs(tail, 0, k)
    ensures LastAmong(rs, |rs|, k) == LastAmong(tail, |tail|, k)
  {
    TailStep(rs, tail, from, |tail|, k);
  }

  lemma {:induction false} TailStep(rs: seq<Record>, tail: seq<Record>, from: nat, n: nat, k: Key)
    requires from <= |rs| && |tail| == |rs| - from && forall i | 0 <= i < |tail| :: tail[i] == rs[from + i]
    requires n <= |tail| && exists j | 0 <= j < n :: tail[j].key == k
    ensures LastAmong(rs, from + n, k) == LastAmong(tail, n, k)
  {
    if tail[n - 1].key != k {
      TailStep(rs, tail, from, n - 1, k);
    }
  }

  lemma {:induction false} OccursHasLast(rs: seq<Record>, n: nat, k: Key)
    requires n <= |rs|
    ensures LastAmong(rs, n, k).Some? <==> exists j | 0 <= j < n :: rs[j].key == k
  {
    if n > 0 && rs[n - 1].key != k {
      OccursHasLast(rs, n - 1, k);
    }
  }

  /** A key that does not occur in the tail has its last record before it. */
  lemma {:induction false} LastAmongHead(head: seq<Record>, tail: seq<Record>, n: nat, k: Key)
    requires |head| <= n <= |head + tail| && !Occurs(tail, 0, k)
    ensures LastAmong(head + tail, n, k) == LastAmong(head, |head|, k)
  {
    if n == |head| {
      LastAmongPrefix(head + tail, head, |head|, k);
    } else {
      assert (head + tail)[n - 1] == tail[n - 1 - |head|];
      LastAmongHead(head, tail, n - 1, k);
    }
  }
}
