/** The publisher's bounded dedupe cache: an insertion-ordered dictionary from key to the
    digest last acknowledged (ingest_grid.py:758, 949-950, 985-989). */
module DedupeCache {
  import opened Common
  import opened Records

  const DEDUPE_CACHE_MAX: nat := 1024

  datatype Entry = Entry(key: Key, digest: Digest)

  type Cache = seq<Entry>

  /** The position of `k` among the first `n` entries. */
  function Find(c: Cache, n: nat, k: Key): (at: Option<nat>)
    requires n <= |c|
    ensures at.Some? ==> at.value < n && c[at.value].key == k
    ensures at.None? ==> forall i | 0 <= i < n :: c[i].key != k
  {
    if n == 0 then None else if c[n - 1].key == k then Some(n - 1) else Find(c, n - 1, k)
  }

  function Lookup(c: Cache, k: Key): Option<Digest> {
    match Find(c, |c|, k)
    case None => None
    case Some(i) => Some(c[i].digest)
  }

  ghost predicate OneEntryPerKey(c: Cache) {
    forall i, j | 0 <= i < j < |c| :: c[i].key != c[j].key
  }

  lemma {:induction false} LookupFinds(c: Cache, i: nat)
    requires OneEntryPerKey(c) && i < |c|
    ensures Lookup(c, c[i].key) == Some(c[i].digest)
  {
  }

  /** Assignment: an existing key keeps its position. */
  function Put(c: Cache, k: Key, d: Digest): Cache {
    match Find(c, |c|, k)
    case None => c + [Entry(k, d)]
    case Some(i) => c[i := Entry(k, d)]
  }

  /** Dropping the oldest entries beyond the bound. */
  function Trim(c: Cache): Cache {
    if |c| <= DEDUPE_CACHE_MAX then c else c[|c| - DEDUPE_CACHE_MAX..]
  }

  function Remember(c: Cache, k: Key, d: Digest, bounded: bool): Cache {
    if bounded then Trim(Put(c, k, d)) else Put(c, k, d)
  }

  /** Assignment sets one key, in its place if it has one and at the end otherwise. */
  lemma {:induction false} PutMeaning(c: Cache, k: Key, d: Digest)
    requires OneEntryPerKey(c)
    ensures OneEntryPerKey(Put(c, k, d)) && |c| <= |Put(c, k, d)| <= |c| + 1
    ensures |Put(c, k, d)| > |c| <==> forall i | 0 <= i < |c| :: c[i].key != k
    ensures |Put(c, k, d)| > |c| ==> Put(c, k, d)[|c|].key == k
    ensures forall i | 0 <= i < |c| :: Put(c, k, d)[i].key == c[i].key
    ensures Lookup(Put(c, k, d), k) == Some(d)
    ensures forall k' | k' != k :: Lookup(Put(c, k, d), k') == Lookup(c, k')
  {
    var c' := Put(c, k, d);
    match Find(c, |c|, k) {
      case None => LookupFinds(c', |c|);
      case Some(i) => LookupFinds(c', i);
    }
    forall k' | k' != k ensures Lookup(c', k') == Lookup(c, k') {
      match Find(c, |c|, k')
      case None => assert Find(c', |c'|, k') == None;
      case Some(i) => LookupFinds(c', i);
    }
  }

  lemma {:induction false} TrimIsSuffix(c: Cache) returns (cut: nat)
    requires OneEntryPerKey(c)
    ensures cut <= |c| && (cut == |c| - DEDUPE_CACHE_MAX || (cut == 0 && |c| <= DEDUPE_CACHE_MAX))
    ensures |Trim(c)| == |c| - cut && OneEntryPerKey(Trim(c))
    ensures forall i | 0 <= i < |Trim(c)| :: Trim(c)[i] == c[cut + i]
  {
    cut := |c| - |Trim(c)|;
  }

  /** Trimming keeps the newest entries with their digests and forgets exactly the others. */
  lemma {:induction false} TrimMeaning(c: Cache, i: nat)
    requires OneEntryPerKey(c) && i < |c|
    ensures OneEntryPerKey(Trim(c)) && |Trim(c)| <= DEDUPE_CACHE_MAX
    ensures Lookup(Trim(c), c[i].key) == if |c| - DEDUPE_CACHE_MAX <= i then Some(c[i].digest) else None
  {
    hide Trim;
    var cut := TrimIsSuffix(c);
    var t := Trim(c);
    if cut <= i {
      LookupFinds(t, i - cut);
    } else {
      assert Find(t, |t|, c[i].key) == None;
    }
  }

  /** A trimmed dictionary has no digest that was not there. */
  lemma {:induction false} TrimAddsNothing(c: Cache, k: Key)
    requires OneEntryPerKey(c)
    ensures OneEntryPerKey(Trim(c)) && |Trim(c)| <= DEDUPE_CACHE_MAX
    ensures Lookup(Trim(c), k) == Lookup(c, k) || Lookup(Trim(c), k) == None
  {
    hide Trim;
    var cut := TrimIsSuffix(c);
    match Find(Trim(c), |Trim(c)|, k)
    case None =>
    case Some(i) => LookupFinds(c, cut + i);
  }

  /** A send just acknowledged is remembered with its digest; every other key keeps its
      digest or is forgotten; the bound holds whenever it is in force. */
  lemma {:induction false} RememberMeaning(c: Cache, k: Key, d: Digest, bounded: bool)
    requires OneEntryPerKey(c) && (bounded ==> |c| <= DEDUPE_CACHE_MAX)
    ensures var c' := Remember(c, k, d, bounded);
            && OneEntryPerKey(c') && (bounded ==> |c'| <= DEDUPE_CACHE_MAX)
            && Lookup(c', k) == Some(d)
            && forall k' | k' != k :: Lookup(c', k') == Lookup(c, k') || Lookup(c', k') == None
  {
    hide Lookup, Trim;
    var put := Put(c, k, d);
    PutMeaning(c, k, d);
    if bounded {
      if |put| == |c| {
        WithinBound(put);
      } else {
        TrimAddsNothing(put, k);
        TrimMeaning(put, |c|);
        LookupFinds(put, |c|);
      }
      forall k' | k' != k ensures Lookup(Trim(put), k') == Lookup(c, k') || Lookup(Trim(put), k') == None {
        TrimAddsNothing(put, k');
      }
    }
  }

  lemma {:induction false} WithinBound(c: Cache)
    requires |c| <= DEDUPE_CACHE_MAX
    ensures Trim(c) == c
  {
  }
}
