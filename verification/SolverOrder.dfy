/** Order: the portfolio may be listed in any order. */
module SolverOrder {
  import opened Common
  import opened Solver

  // ---- Text and process keys ------------------------------------------------

  lemma {:induction false} TextAsymmetric(a: string, b: string, i: nat)
    requires i <= |a| && i <= |b| && TextBefore(a, b, i)
    ensures !TextBefore(b, a, i)
    decreases |a| - i
  {
    if i < |a| && a[i] == b[i] {
      TextAsymmetric(a, b, i + 1);
    }
  }

  lemma {:induction false} TextTransitive(a: string, b: string, c: string, i: nat)
    requires i <= |a| && i <= |b| && i <= |c| && TextBefore(a, b, i) && TextBefore(b, c, i)
    ensures TextBefore(a, c, i)
    decreases |a| - i
  {
    if i < |a| && a[i] == b[i] == c[i] {
      TextTransitive(a, b, c, i + 1);
    }
  }

  lemma {:induction false} TextConnected(a: string, b: string, i: nat)
    requires i <= |a| && i <= |b| && a[..i] == b[..i] && a != b
    ensures TextBefore(a, b, i) || TextBefore(b, a, i)
    decreases |a| - i
  {
    if i == |a| || i == |b| {
      assert a[..|a|] == a && b[..|b|] == b;
    } else if a[i] == b[i] {
      assert a[..i + 1] == a[..i] + [a[i]] && b[..i + 1] == b[..i] + [b[i]];
      TextConnected(a, b, i + 1);
    }
  }

  /** On processes with different ids, "goes before" is a strict total order. */
  lemma {:induction false} KeysConnected(a: Process, b: Process)
    requires a.id != b.id
    ensures GoesBefore(a, b) || GoesBefore(b, a)
  {
    TextConnected(a.id, b.id, 0);
  }

  lemma {:induction false} KeysTransitive(a: Process, b: Process, c: Process)
    requires GoesBefore(a, b) && GoesBefore(b, c)
    ensures GoesBefore(a, c)
  {
    if a.loadMw == b.loadMw == c.loadMw {
      TextTransitive(a.id, b.id, c.id, 0);
    }
  }

  lemma {:induction false} KeysAsymmetric(a: Process, b: Process)
    requires GoesBefore(a, b)
    ensures !GoesBefore(b, a)
  {
    if a.loadMw == b.loadMw {
      TextAsymmetric(a.id, b.id, 0);
    }
  }

  // ---- The sort -------------------------------------------------------------

  ghost predicate DistinctIds(ps: seq<Process>) {
    forall i, j | 0 <= i < j < |ps| :: ps[i].id != ps[j].id
  }

  ghost predicate StrictlySorted(ps: seq<Process>) {
    forall i, j | 0 <= i < j < |ps| :: GoesBefore(ps[i], ps[j])
  }

  lemma {:induction false} SortKeepsElements(ps: seq<Process>, n: nat)
    requires n <= |ps|
    ensures multiset(SortedUpTo(ps, n)) == multiset(ps[..n])
  {
    hide GoesBefore, InsertAt;
    if n > 0 {
      SortKeepsElements(ps, n - 1);
      PrefixElements(ps, n);
      var before := SortedUpTo(ps, n - 1);
      InsertedElements(before, Slot(before, ps[n - 1], n - 1), ps[n - 1]);
    }
  }

  /** No later process goes before an earlier one. */
  ghost predicate Sorted(ps: seq<Process>) {
    forall i, j | 0 <= i < j < |ps| :: !GoesBefore(ps[j], ps[i])
  }

  /** The sort key does not tell the two apart. */
  predicate Tied(a: Process, b: Process) {
    a.loadMw == b.loadMw && a.id == b.id
  }

  lemma {:induction false} TiedExactlyWhen(a: Process, b: Process)
    ensures Tied(a, b) <==> !GoesBefore(a, b) && !GoesBefore(b, a)
  {
    if a.id != b.id {
      KeysConnected(a, b);
    } else {
      NotBeforeItself(a.id, 0);
    }
  }

  lemma {:induction false} NotBeforeItself(a: string, i: nat)
    requires i <= |a|
    ensures !TextBefore(a, a, i)
    decreases |a| - i
  {
    if i < |a| {
      NotBeforeItself(a, i + 1);
    }
  }

  /** "Does not go before" is transitive. */
  lemma {:induction false} NotBeforeTransitive(a: Process, b: Process, c: Process)
    requires !GoesBefore(b, a) && !GoesBefore(c, b)
    ensures !GoesBefore(c, a)
  {
    TiedExactlyWhen(a, b);
    TiedExactlyWhen(b, c);
    if GoesBefore(c, a) && GoesBefore(a, b) {
      KeysTransitive(c, a, b);
    }
  }

  lemma {:induction false} InsertSorts(before: seq<Process>, p: Process, k: nat)
    requires Sorted(before) && k == Slot(before, p, |before|)
    ensures Sorted(InsertAt(before, k, p))
  {
    hide GoesBefore, InsertAt;
    forall i | 0 <= i < k ensures !GoesBefore(p, before[i]) {
      if i < k - 1 {
        NotBeforeTransitive(before[i], before[k - 1], p);
      }
    }
    forall i | k <= i < |before| ensures !GoesBefore(before[i], p) {
      KeysAsymmetric(p, before[i]);
    }
  }

  /** The sort sorts, whatever ids are shared. */
  lemma {:induction false} SortSorts(ps: seq<Process>, n: nat)
    requires n <= |ps|
    ensures Sorted(SortedUpTo(ps, n))
  {
    hide GoesBefore, Slot, Sorted, InsertAt;
    if n > 0 {
      SortSorts(ps, n - 1);
      var before := SortedUpTo(ps, n - 1);
      var k := Slot(before, ps[n - 1], n - 1);
      InsertSorts(before, ps[n - 1], k);
    } else {
      SortsNothing();
    }
  }

  lemma {:induction false} SortsNothing()
    ensures Sorted([])
  {
  }

  /** With distinct ids the order is strict. */
  lemma {:induction false} DistinctIdsSortStrictly(ps: seq<Process>)
    requires DistinctIds(ps)
    ensures StrictlySorted(HeaviestFirst(ps))
  {
    hide SortedUpTo, GoesBefore;
    var sorted := HeaviestFirst(ps);
    SortSorts(ps, |ps|);
    SortKeepsElements(ps, |ps|);
    assert ps[..|ps|] == ps;
    forall i, j | 0 <= i < j < |sorted| ensures GoesBefore(sorted[i], sorted[j]) {
      TiedExactlyWhen(sorted[i], sorted[j]);
      DistinctInAnyOrder(ps, sorted, i, j);
    }
  }

  lemma {:induction false} DistinctInAnyOrder(ps: seq<Process>, qs: seq<Process>, i: nat, j: nat)
    requires multiset(ps) == multiset(qs) && DistinctIds(ps) && i < j < |qs|
    ensures qs[i].id != qs[j].id
  {
    assert qs[i] in multiset(qs) && qs[j] in multiset(qs);
    var k :| 0 <= k < |ps| && ps[k] == qs[i];
    var l :| 0 <= l < |ps| && ps[l] == qs[j];
    if k == l {
      TwiceIn(qs, i, j);
      OnceIn(ps, k);
    }
  }

  lemma {:induction false} TwiceIn(qs: seq<Process>, i: nat, j: nat)
    requires i < j < |qs| && qs[i] == qs[j]
    ensures multiset(qs)[qs[i]] >= 2
  {
    assert qs == qs[..j] + [qs[j]] + qs[j + 1..];
    assert qs[..j][i] == qs[i];
    assert qs[i] in multiset(qs[..j]);
  }

  lemma {:induction false} OnceIn(ps: seq<Process>, k: nat)
    requires DistinctIds(ps) && k < |ps|
    ensures multiset(ps)[ps[k]] == 1
  {
    assert ps == ps[..k] + [ps[k]] + ps[k + 1..];
    assert ps[k] !in ps[..k] && ps[k] !in ps[k + 1..];
  }

  /** Processes that the sort key does not tell apart are the same process. */
  ghost predicate TiesAreEqual(ps: seq<Process>) {
    forall p, q | p in ps && q in ps :: Tied(p, q) ==> p == q
  }

  lemma {:induction false} LastIsTheSame(a: seq<Process>, b: seq<Process>)
    requires Sorted(a) && Sorted(b) && multiset(a) == multiset(b) && a != [] && TiesAreEqual(a)
    ensures b != [] && a[|a| - 1] == b[|b| - 1]
  {
    hide GoesBefore, Tied;
    SameSize(a, b);
    var x, y := a[|a| - 1], b[|b| - 1];
    assert x in multiset(b) && y in multiset(a);
    var i :| 0 <= i < |b| && b[i] == x;
    var j :| 0 <= j < |a| && a[j] == y;
    TiedExactlyWhen(x, y);
    assert i == |b| - 1 || !GoesBefore(y, b[i]);
    assert j == |a| - 1 || !GoesBefore(x, a[j]);
  }

  /** If no two different processes are tied, the sorted arrangement is determined by its
      elements. */
  lemma {:induction false} SortedArrangementIsUnique(a: seq<Process>, b: seq<Process>)
    requires Sorted(a) && Sorted(b) && multiset(a) == multiset(b) && TiesAreEqual(a)
    ensures a == b
    decreases |a|
  {
    hide GoesBefore, Tied;
    SameSize(a, b);
    if a != [] {
      LastIsTheSame(a, b);
      ElementsButLast(a);
      ElementsButLast(b);
      SortedArrangementIsUnique(a[..|a| - 1], b[..|b| - 1]);
    }
  }

  lemma {:induction false} ElementsButLast(a: seq<Process>)
    requires a != []
    ensures multiset(a[..|a| - 1]) == multiset(a) - multiset{a[|a| - 1]}
  {
    assert a == a[..|a| - 1] + [a[|a| - 1]];
  }

  lemma {:induction false} SameSize(a: seq<Process>, b: seq<Process>)
    requires multiset(a) == multiset(b)
    ensures |a| == |b|
  {
    assert |multiset(a)| == |a| && |multiset(b)| == |b|;
  }

  lemma {:induction false} SameElements(a: seq<Process>, b: seq<Process>)
    requires multiset(a) == multiset(b)
    ensures TiesAreEqual(a) ==> TiesAreEqual(b)
  {
    assert forall p :: p in b ==> p in multiset(b) && p in multiset(a) && p in a;
  }

  lemma {:induction false} SameElementsSortTheSame(ps: seq<Process>, qs: seq<Process>)
    requires multiset(ps) == multiset(qs) && TiesAreEqual(ps)
    ensures HeaviestFirst(ps) == HeaviestFirst(qs)
  {
    hide TiesAreEqual, Sorted;
    assert ps[..|ps|] == ps && qs[..|qs|] == qs;
    SortSorts(ps, |ps|);
    SortSorts(qs, |qs|);
    SortKeepsElements(ps, |ps|);
    SortKeepsElements(qs, |qs|);
    SameElements(ps, HeaviestFirst(ps));
    SortedArrangementIsUnique(HeaviestFirst(ps), HeaviestFirst(qs));
  }

  /** If no two different processes share both load and id, any permutation of the portfolio yields
      the same plan: the same decisions in the same order, totals, unscheduled list and notes. */
  lemma {:induction false} PlanIgnoresListingOrder(
      ws: seq<Window>, ps: seq<Process>, qs: seq<Process>, capacity: Option<seq<Cap>>, runId: string, solver: string)
    requires multiset(ps) == multiset(qs) && TiesAreEqual(ps)
    ensures SolveSpec(ws, ps, capacity, runId, solver) == SolveSpec(ws, qs, capacity, runId, solver)
  {
    hide BooksAt;
    SameSize(ps, qs);
    SameElementsSortTheSame(ps, qs);
  }

  // ---- Ties are kept in the order of listing ------------------------------------

  /** `i` is where the first process tied with `p` is. */
  ghost predicate FirstTied(s: seq<Process>, n: nat, p: Process, i: nat)
    requires n <= |s|
  {
    i < n && Tied(s[i], p) && forall j | 0 <= j < i :: !Tied(s[j], p)
  }

  lemma {:induction false} InsertKeepsFirst(before: seq<Process>, r: Process, k: nat, p: Process, i: nat)
    returns (i': nat)
    requires k == Slot(before, r, |before|) && FirstTied(before, |before|, p, i)
    ensures FirstTied(InsertAt(before, k, r), |before| + 1, p, i') && InsertAt(before, k, r)[i'] == before[i]
  {
    hide GoesBefore, InsertAt, Tied;
    forall j | k <= j < |before| ensures !Tied(r, before[j]) {
      TiedExactlyWhen(r, before[j]);
    }
    TiesCompose(r, before[i], p);
    i' := if i < k then i else i + 1;
  }

  lemma {:induction false} TiesCompose(a: Process, b: Process, c: Process)
    ensures Tied(a, c) && Tied(b, c) ==> Tied(a, b)
  {
  }

  lemma {:induction false} InsertIsFirst(before: seq<Process>, r: Process, k: nat, p: Process)
    requires k <= |before| && Tied(r, p) && forall j | 0 <= j < |before| :: !Tied(before[j], p)
    ensures FirstTied(InsertAt(before, k, r), |before| + 1, p, k)
  {
    hide InsertAt, Tied;
  }

  lemma {:induction false} NoneTiedBefore(ps: seq<Process>, n: nat, p: Process)
    requires n <= |ps| && forall j | 0 <= j < n :: !Tied(ps[j], p)
    ensures forall j | 0 <= j < n :: !Tied(SortedUpTo(ps, n)[j], p)
  {
    hide SortedUpTo, Tied;
    var sorted := SortedUpTo(ps, n);
    SortKeepsElements(ps, n);
    forall j | 0 <= j < n ensures !Tied(sorted[j], p) {
      assert sorted[j] in multiset(sorted);
      assert sorted[j] in ps[..n];
    }
  }

  /** Of the processes tied with `p`, the sort puts the one listed first in front. */
  lemma {:induction false} SortKeepsFirst(ps: seq<Process>, n: nat, p: Process, i: nat) returns (i': nat)
    requires n <= |ps| && FirstTied(ps, n, p, i)
    ensures FirstTied(SortedUpTo(ps, n), n, p, i') && SortedUpTo(ps, n)[i'] == ps[i]
  {
    hide GoesBefore, Slot, Tied, InsertAt;
    var before := SortedUpTo(ps, n - 1);
    var r := ps[n - 1];
    var k := Slot(before, r, n - 1);
    if i < n - 1 {
      i' := SortKeepsFirst(ps, n - 1, p, i);
      i' := InsertKeepsFirst(before, r, k, p, i');
    } else {
      NoneTiedBefore(ps, n - 1, p);
      InsertIsFirst(before, r, k, p);
      i' := k;
    }
  }

  /** The sort tells two listings apart that begin with different processes tied with each other. */
  lemma {:induction false} FirstShows(a: seq<Process>, b: seq<Process>)
    requires a != [] && b != [] && Tied(a[0], b[0]) && a[0] != b[0]
    ensures HeaviestFirst(a) != HeaviestFirst(b)
  {
    hide SortedUpTo;
    var i := SortKeepsFirst(a, |a|, a[0], 0);
    var j := SortKeepsFirst(b, |b|, a[0], 0);
    if HeaviestFirst(a) == HeaviestFirst(b) {
      FirstTiedIsUnique(HeaviestFirst(a), |a|, a[0], i, j);
    }
  }

  lemma {:induction false} FirstTiedIsUnique(s: seq<Process>, n: nat, p: Process, i: nat, j: nat)
    requires n <= |s| && FirstTied(s, n, p, i) && FirstTied(s, n, p, j)
    ensures i == j
  {
  }

  lemma {:induction false} InFront(ps: seq<Process>, i: nat, j: nat) returns (rest: seq<Process>)
    requires i < j < |ps|
    ensures multiset([ps[i], ps[j]] + rest) == multiset(ps) == multiset([ps[j], ps[i]] + rest)
  {
    rest := ps[..i] + ps[i + 1..j] + ps[j + 1..];
    assert ps == ps[..i] + [ps[i]] + ps[i + 1..j] + [ps[j]] + ps[j + 1..];
  }

  lemma {:induction false} SomeListingSortsDifferently(ps: seq<Process>, i: nat, j: nat) returns (qs: seq<Process>)
    requires i < j < |ps| && Tied(ps[i], ps[j]) && ps[i] != ps[j]
    ensures multiset(qs) == multiset(ps) && HeaviestFirst(qs) != HeaviestFirst(ps)
  {
    hide HeaviestFirst;
    var rest := InFront(ps, i, j);
    var a, b := [ps[i], ps[j]] + rest, [ps[j], ps[i]] + rest;
    FirstShows(a, b);
    qs := if HeaviestFirst(a) != HeaviestFirst(ps) then a else b;
  }

  /** The processes are taken in the same order from every listing of a portfolio exactly when no two
      different ones of them share both load and id. */
  lemma {:induction false} OrderIgnoresListingExactlyWhen(ps: seq<Process>)
    ensures (forall qs | multiset(qs) == multiset(ps) :: HeaviestFirst(qs) == HeaviestFirst(ps)) <==> TiesAreEqual(ps)
  {
    hide HeaviestFirst;
    if TiesAreEqual(ps) {
      forall qs | multiset(qs) == multiset(ps) ensures HeaviestFirst(qs) == HeaviestFirst(ps) {
        SameElementsSortTheSame(ps, qs);
      }
    } else {
      var p, q :| p in ps && q in ps && Tied(p, q) && p != q;
      var i :| 0 <= i < |ps| && ps[i] == p;
      var j :| 0 <= j < |ps| && ps[j] == q;
      var qs := SomeListingSortsDifferently(ps, if i < j then i else j, if i < j then j else i);
    }
  }

  /** A different order can be a different plan: two one-window processes with the same id
      and load, one of which may not start at once, compete for two windows of 1 MW. */
  lemma {:induction false} SharedIdShowsListingOrder(ws: seq<Window>, caps: seq<Cap>, p: Process, q: Process)
    requires ws == [Window(0, 1, 2.0), Window(1, 2, 1.0)] && caps == [Finite(1.0), Finite(1.0)]
    requires p == Process("x", "p", 1.0, 1, 0) && q == Process("x", "q", 1.0, 1, 1)
    ensures HeaviestFirst([p, q]) == [p, q] && HeaviestFirst([q, p]) == [q, p]
    ensures StartAt(ws, caps, [p, q], 0) == Some(1) && StartAt(ws, caps, [p, q], 1) == None
    ensures StartAt(ws, caps, [q, p], 0) == Some(1) && StartAt(ws, caps, [q, p], 1) == Some(0)
  {
    assert !GoesBefore(p, q) && !GoesBefore(q, p);
    TwoStaySorted(p, q);
    TwoStaySorted(q, p);
    assert Intensity(ws, 0, 1) == Intensity(ws, 0, 0) + 2.0;
    assert Intensity(ws, 1, 1) == Intensity(ws, 1, 0) + 1.0;
    assert Fits(caps, p, 0) && Fits(caps, p, 1) && Fits(caps, q, 1);
    assert Legal(2, p, 0) && Legal(2, p, 1) && Legal(2, q, 1) && Preferred(ws, p, 1, 0);
    assert BestStart(ws, caps, p) == Some(1) && BestStart(ws, caps, q) == Some(1);
    var rem := Occupy(caps, p, 1);
    assert rem == Occupy(caps, q, 1) == [Finite(1.0), Finite(0.0)];
    assert !Free(rem[1], 1.0);
    assert !Fits(rem, q, 1) && Fits(rem, p, 0) && !Fits(rem, p, 1);
    FirstTurn(ws, caps, [p, q], 1);
    FirstTurn(ws, caps, [q, p], 1);
  }

  lemma {:induction false} FirstTurn(ws: seq<Window>, caps: seq<Cap>, ps: seq<Process>, s: nat)
    requires |caps| == |ws| && ps != [] && BestStart(ws, caps, ps[0]) == Some(s)
    ensures StartAt(ws, caps, ps, 0) == Some(s)
    ensures LedgerAt(ws, caps, ps, 1) == Occupy(caps, ps[0], s)
  {
    hide BestStart;
    assert LedgerAt(ws, caps, ps, 0) == caps;
  }

  lemma {:induction false} TwoStaySorted(p: Process, q: Process)
    requires !GoesBefore(q, p)
    ensures HeaviestFirst([p, q]) == [p, q]
  {
    var ps := [p, q];
    assert SortedUpTo(ps, 0) == [];
    assert SortedUpTo(ps, 1) == [p];
    assert Slot([p], q, 1) == 1;
    assert SortedUpTo(ps, 2) == InsertAt([p], 1, q);
  }
}
