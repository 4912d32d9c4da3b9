/** Keyset paging over a table that changes between the pages
    (ecogrid/api.py:438-477, 657-679). */
module Keyset {
  import opened Common

  /** The key of a telemetry row; for the grid table, which has one row a window, the plant is
      the empty text. */
  datatype RowId = RowId(plant: string, from: int)

  /** The columns that the grid endpoint filters on. */
  datatype Columns = Columns(to: int, carbonIndex: string, forecastOnly: bool)

  type Table = map<RowId, Columns>

  datatype Query = Query(
    from: Option<int>, to: Option<int>, carbonIndex: Option<string>, settledOnly: bool, plant: Option<string>)

  predicate Matches(q: Query, id: RowId, row: Columns) {
    && (q.from.Some? ==> id.from >= q.from.value)
    && (q.to.Some? ==> row.to <= q.to.value)
    && (q.carbonIndex.Some? ==> row.carbonIndex == q.carbonIndex.value)
    && (q.settledOnly ==> !row.forecastOnly)
    && (q.plant.Some? ==> id.plant == q.plant.value)
  }

  function Selected(t: Table, q: Query): set<RowId> {
    set id | id in t && Matches(q, id, t[id])
  }

  /** What each filter, added to a query, leaves of its selection; without any, everything is selected. */
  lemma {:induction false} FiltersNarrow(t: Table, q: Query, id: RowId, from: int, to: int, band: string, plant: string)
    ensures Selected(t, Query(None, None, None, false, None)) == t.Keys
    ensures id in Selected(t, q.(from := Some(from))) <==> id in Selected(t, q.(from := None)) && id.from >= from
    ensures id in Selected(t, q.(to := Some(to))) <==> id in Selected(t, q.(to := None)) && t[id].to <= to
    ensures id in Selected(t, q.(carbonIndex := Some(band)))
       <==> id in Selected(t, q.(carbonIndex := None)) && t[id].carbonIndex == band
    ensures id in Selected(t, q.(settledOnly := true))
       <==> id in Selected(t, q.(settledOnly := false)) && !t[id].forecastOnly
    ensures id in Selected(t, q.(plant := Some(plant))) <==> id in Selected(t, q.(plant := None)) && id.plant == plant
  {
    assert forall k | k in t :: Matches(Query(None, None, None, false, None), k, t[k]);
  }

  function PageSize(limit: Option<int>, standard: int, most: int): (size: int)
    requires standard >= 1 && most >= 1 && (limit.Some? ==> limit.value >= 1)
    ensures 1 <= size <= most
    ensures limit.Some? ==> size <= limit.value && (limit.value <= most ==> size == limit.value)
    ensures limit.None? && standard <= most ==> size == standard
    ensures (if limit.Some? then limit.value else standard) > most ==> size == most
  {
    var asked := if limit.Some? then limit.value else standard;
    if most < asked then most else asked
  }

  function Below(rows: set<RowId>, before: Option<int>): set<RowId> {
    set r | r in rows && (before.Some? ==> r.from < before.value)
  }

  /** What the database may answer: the newest `size` rows in descending order of their start,
      equal starts in any order. */
  ghost predicate IsPage(rows: set<RowId>, size: nat, items: seq<RowId>) {
    && |items| <= size && (forall i | 0 <= i < |items| :: items[i] in rows)
    && (forall i, j | 0 <= i < j < |items| :: items[i] != items[j] && items[i].from >= items[j].from)
    && (|items| < size ==> forall r | r in rows :: r in items)
    && (forall r, i | r in rows && r !in items && 0 <= i < |items| :: r.from <= items[i].from)
  }

  /** The cursor that page `i` was asked for with: the start of the last row before it. */
  function Cursor(pages: seq<seq<RowId>>, i: nat): Option<int>
    requires i <= |pages|
  {
    if i == 0 || pages[i - 1] == [] then None else Some(pages[i - 1][|pages[i - 1]| - 1].from)
  }

  /** Pages fetched one after the other by `next_cursor`, the `i`th from the rows that match at
      that time. A page that is not full has no next cursor. */
  ghost predicate IsWalk(snaps: seq<set<RowId>>, size: nat, pages: seq<seq<RowId>>) {
    size >= 1 && |pages| <= |snaps| && forall i | 0 <= i < |pages| :: IsTurn(snaps, size, pages, i)
  }

  ghost predicate IsTurn(snaps: seq<set<RowId>>, size: nat, pages: seq<seq<RowId>>, i: nat)
    requires i < |pages| <= |snaps|
  {
    && IsPage(Below(snaps[i], Cursor(pages, i)), size, pages[i])
    && (i < |pages| - 1 ==> |pages[i]| == size)
  }

  predicate Ended(size: nat, pages: seq<seq<RowId>>) {
    |pages| > 0 && |pages[|pages| - 1]| < size
  }

  /** No two rows start together. */
  predicate Untied(rows: set<RowId>) {
    forall r, s | r in rows && s in rows :: r.from == s.from ==> r == s
  }

  /** The grid table's key is the start alone. */
  predicate GridTable(t: Table) {
    forall id | id in t :: id.plant == ""
  }

  lemma {:induction false} GridRowsAreUntied(t: Table, q: Query)
    requires GridTable(t)
    ensures Untied(Selected(t, q))
  {
  }

  lemma {:induction false} OnePlantIsUntied(t: Table, q: Query)
    requires q.plant.Some?
    ensures Untied(Selected(t, q))
  {
  }

  /** The database can always answer. */
  lemma {:induction false} PageExists(rows: set<RowId>, size: nat) returns (items: seq<RowId>)
    ensures IsPage(rows, size, items)
  {
    if size == 0 || rows == {} {
      items := [];
    } else {
      var top := Newest(rows);
      var rest := PageExists(rows - {top}, size - 1);
      items := [top] + rest;
      forall i, j | 0 <= i < j < |items| ensures items[i] != items[j] && items[i].from >= items[j].from {
        assert items[j] == rest[j - 1];
      }
    }
  }

  lemma {:induction false} Newest(rows: set<RowId>) returns (top: RowId)
    requires rows != {}
    ensures top in rows && forall r | r in rows :: r.from <= top.from
  {
    var some :| some in rows;
    if rows == {some} {
      top := some;
    } else {
      var rest := rows - {some};
      assert rows == rest + {some};
      top := Newest(rest);
      if top.from < some.from {
        top := some;
      }
      forall r | r in rows ensures r.from <= top.from {
        assert r == some || r in rest;
      }
    }
  }

  // ---- Order ----------------------------------------------------------------

  lemma {:induction false} PageAt(snaps: seq<set<RowId>>, size: nat, pages: seq<seq<RowId>>, i: nat)
    requires IsWalk(snaps, size, pages) && i < |pages|
    ensures |pages| <= |snaps| && size >= 1 && IsPage(Below(snaps[i], Cursor(pages, i)), size, pages[i])
    ensures i < |pages| - 1 ==> |pages[i]| == size
  {
    hide IsPage, Below, Cursor;
    assert IsTurn(snaps, size, pages, i);
  }

  /** What a page says about one row. */
  lemma {:induction false} RowInPage(rows: set<RowId>, size: nat, items: seq<RowId>, r: RowId)
    requires IsPage(rows, size, items) && items != []
    ensures items[|items| - 1] in rows
    ensures r in items ==> r in rows && r.from >= items[|items| - 1].from
    ensures r in rows && r !in items ==> |items| == size && r.from <= items[|items| - 1].from
  {
  }

  /** Every row of a page starts before every row of the pages before it. */
  lemma {:induction false} PagesDescend(snaps: seq<set<RowId>>, size: nat, pages: seq<seq<RowId>>, i: nat, j: nat,
          r: RowId, s: RowId)
    requires IsWalk(snaps, size, pages) && i < j < |pages| && r in pages[i] && s in pages[j]
    ensures s.from < r.from
    decreases j
  {
    hide IsWalk, IsPage;
    PageAt(snaps, size, pages, j);
    PageAt(snaps, size, pages, j - 1);
    var last := pages[j - 1][|pages[j - 1]| - 1];
    RowInPage(Below(snaps[j], Cursor(pages, j)), size, pages[j], s);
    RowInPage(Below(snaps[j - 1], Cursor(pages, j - 1)), size, pages[j - 1], r);
    if i < j - 1 {
      PagesDescend(snaps, size, pages, i, j - 1, r, last);
    }
  }

  /** Within a page, too, when no two rows start together. */
  lemma {:induction false} PageDescends(rows: set<RowId>, size: nat, items: seq<RowId>, i: nat, j: nat)
    requires IsPage(rows, size, items) && Untied(rows) && i < j < |items|
    ensures items[j].from < items[i].from
  {
  }

  /** No row is returned twice, whatever happens to the table in between. */
  lemma {:induction false} NothingTwice(snaps: seq<set<RowId>>, size: nat, pages: seq<seq<RowId>>, i: nat, a: nat,
          j: nat, b: nat)
    requires IsWalk(snaps, size, pages) && i < |pages| && a < |pages[i]| && j < |pages| && b < |pages[j]|
    requires pages[i][a] == pages[j][b]
    ensures i == j && a == b
  {
    hide IsWalk, Below, Cursor;
    if i < j {
      PagesDescend(snaps, size, pages, i, j, pages[i][a], pages[j][b]);
    } else if j < i {
      PagesDescend(snaps, size, pages, j, i, pages[j][b], pages[i][a]);
    } else {
      PageAt(snaps, size, pages, i);
    }
  }

  // ---- Completeness -----------------------------------------------------------

  ghost predicate FoundBefore(pages: seq<seq<RowId>>, i: nat, r: RowId)
    requires i <= |pages|
  {
    exists k | 0 <= k < i :: r in pages[k]
  }

  lemma {:induction false} StillBelow(snaps: seq<set<RowId>>, size: nat, pages: seq<seq<RowId>>, i: nat, r: RowId)
    requires IsWalk(snaps, size, pages) && i <= |pages| && (forall k | 0 <= k < i :: Untied(snaps[k]) && r in snaps[k])
    requires forall k | 0 <= k < i :: |pages[k]| == size
    ensures FoundBefore(pages, i, r) || (Cursor(pages, i).Some? ==> r.from < Cursor(pages, i).value)
  {
    hide IsWalk, IsPage;
    if i > 0 {
      StillBelow(snaps, size, pages, i - 1, r);
      PageAt(snaps, size, pages, i - 1);
      if r !in pages[i - 1] && !FoundBefore(pages, i - 1, r) {
        var rows := Below(snaps[i - 1], Cursor(pages, i - 1));
        var last := pages[i - 1][|pages[i - 1]| - 1];
        RowInPage(rows, size, pages[i - 1], r);
        RowInPage(rows, size, pages[i - 1], last);
        assert last in snaps[i - 1] && last.from != r.from;
      }
    }
  }

  /** A walk that ended returned every row that matched throughout, exactly once, whatever was
      inserted, revised or deleted meanwhile, as long as no two rows ever started together. */
  lemma {:induction false} NothingIsMissed(snaps: seq<set<RowId>>, size: nat, pages: seq<seq<RowId>>, r: RowId)
    requires IsWalk(snaps, size, pages) && Ended(size, pages)
    requires forall i | 0 <= i < |pages| :: Untied(snaps[i]) && r in snaps[i]
    ensures exists i | 0 <= i < |pages| :: r in pages[i]
  {
    hide IsWalk, Untied;
    var last := |pages| - 1;
    forall k | 0 <= k < last ensures |pages[k]| == size {
      PageAt(snaps, size, pages, k);
    }
    StillBelow(snaps, size, pages, last, r);
    PageAt(snaps, size, pages, last);
    if !FoundBefore(pages, last, r) {
      assert r in Below(snaps[last], Cursor(pages, last));
      assert r in pages[last];
    }
  }

  /** The rows that a query selects from each table. */
  function Snapshots(tables: seq<Table>, q: Query): seq<set<RowId>> {
    seq(|tables|, i requires 0 <= i < |tables| => Selected(tables[i], q))
  }

  /** `list_telemetry` with any filters, and `list_plant` with a plant filter: following
      `next_cursor` to the end returns every row that matched throughout in exactly one place. */
  lemma {:induction false} EveryRowExactlyOnce(tables: seq<Table>, q: Query, size: nat, pages: seq<seq<RowId>>,
          r: RowId)
    returns (i: nat, a: nat)
    requires IsWalk(Snapshots(tables, q), size, pages) && Ended(size, pages)
    requires q.plant.Some? || forall k | 0 <= k < |tables| :: GridTable(tables[k])
    requires forall k | 0 <= k < |pages| :: r in Selected(tables[k], q)
    ensures i < |pages| && a < |pages[i]| && pages[i][a] == r
    ensures forall j, b | 0 <= j < |pages| && 0 <= b < |pages[j]| && pages[j][b] == r :: j == i && b == a
  {
    hide IsWalk, Selected, Untied;
    var snaps := Snapshots(tables, q);
    forall k | 0 <= k < |snaps| ensures Untied(snaps[k]) {
      if q.plant.Some? {
        OnePlantIsUntied(tables[k], q);
      } else {
        GridRowsAreUntied(tables[k], q);
      }
    }
    WalkFits(snaps, size, pages);
    NothingIsMissed(snaps, size, pages, r);
    i :| 0 <= i < |pages| && r in pages[i];
    a :| 0 <= a < |pages[i]| && pages[i][a] == r;
    forall j: nat, b: nat | j < |pages| && b < |pages[j]| && pages[j][b] == r ensures j == i && b == a {
      NothingTwice(snaps, size, pages, i, a, j, b);
    }
  }

  lemma {:induction false} WalkFits(snaps: seq<set<RowId>>, size: nat, pages: seq<seq<RowId>>)
    requires IsWalk(snaps, size, pages)
    ensures |pages| <= |snaps|
  {
  }

  // ---- Termination ------------------------------------------------------------

  function RowsOf(items: seq<RowId>): set<RowId> {
    set r | r in items
  }

  /** The rows of the first `n` pages. */
  function RowsUpTo(pages: seq<seq<RowId>>, n: nat): set<RowId>
    requires n <= |pages|
  {
    if n == 0 then {} else RowsUpTo(pages, n - 1) + RowsOf(pages[n - 1])
  }

  lemma {:induction false} DistinctCount(items: seq<RowId>)
    requires forall i, j | 0 <= i < j < |items| :: items[i] != items[j]
    ensures |RowsOf(items)| == |items|
  {
    if items != [] {
      var n := |items| - 1;
      DistinctCount(items[..n]);
      assert RowsOf(items) == RowsOf(items[..n]) + {items[n]};
    }
  }

  lemma {:induction false} FoundInPage(pages: seq<seq<RowId>>, n: nat, r: RowId) returns (k: nat)
    requires n <= |pages| && r in RowsUpTo(pages, n)
    ensures k < n && r in pages[k]
  {
    if r in pages[n - 1] {
      k := n - 1;
    } else {
      k := FoundInPage(pages, n - 1, r);
    }
  }

  /** Pages do not overlap. */
  lemma {:induction false} FullPagesCount(snaps: seq<set<RowId>>, size: nat, pages: seq<seq<RowId>>, n: nat)
    requires IsWalk(snaps, size, pages) && n <= |pages| && forall i | 0 <= i < n :: |pages[i]| == size
    ensures |RowsUpTo(pages, n)| == n * size
  {
    hide IsWalk;
    if n > 0 {
      FullPagesCount(snaps, size, pages, n - 1);
      PageAddsItsRows(snaps, size, pages, n - 1);
      assert n * size == (n - 1) * size + size;
    }
  }

  lemma {:induction false} RowsFitInto(snaps: seq<set<RowId>>, size: nat, pages: seq<seq<RowId>>, n: nat,
          all: set<RowId>)
    requires IsWalk(snaps, size, pages) && 1 <= n <= |pages| <= |snaps|
    requires forall i | 1 <= i < n :: Below(snaps[i], Cursor(pages, i)) <= all
    ensures RowsUpTo(pages, n) <= RowsOf(pages[0]) + all
  {
    hide IsWalk, Below, Cursor;
    if n > 1 {
      RowsFitInto(snaps, size, pages, n - 1, all);
      PageAt(snaps, size, pages, n - 1);
      assert RowsOf(pages[n - 1]) <= Below(snaps[n - 1], Cursor(pages, n - 1));
    } else {
      assert RowsUpTo(pages, 0) == {};
    }
  }

  /** If the rows that ever match below the cursor are those of a finite set `all`, no walk has
      more than `|all| / size + 1` full pages, however many rows are inserted above the cursor. */
  lemma {:induction false} WalksEnd(snaps: seq<set<RowId>>, size: nat, pages: seq<seq<RowId>>, n: nat, all: set<RowId>)
    requires IsWalk(snaps, size, pages) && n <= |pages| <= |snaps| && forall i | 0 <= i < n :: |pages[i]| == size
    requires forall i | 1 <= i < n :: Below(snaps[i], Cursor(pages, i)) <= all
    ensures n * size <= size + |all|
  {
    hide IsWalk, Below, Cursor;
    if n > 0 {
      FullPagesCount(snaps, size, pages, n);
      RowsFitInto(snaps, size, pages, n, all);
      PageAt(snaps, size, pages, 0);
      DistinctCount(pages[0]);
      Smaller(RowsUpTo(pages, n), RowsOf(pages[0]) + all);
    }
  }

  lemma {:induction false} PageAddsItsRows(snaps: seq<set<RowId>>, size: nat, pages: seq<seq<RowId>>, i: nat)
    requires IsWalk(snaps, size, pages) && i < |pages|
    ensures |pages| <= |snaps| && RowsOf(pages[i]) <= snaps[i]
    ensures |RowsUpTo(pages, i + 1)| == |RowsUpTo(pages, i)| + |pages[i]|
  {
    hide IsWalk, Cursor;
    var page := pages[i];
    PageAt(snaps, size, pages, i);
    DistinctCount(page);
    forall r | r in RowsUpTo(pages, i) ensures r !in page {
      var k := FoundInPage(pages, i, r);
      if r in page {
        PagesDescend(snaps, size, pages, k, i, r, r);
      }
    }
    assert RowsUpTo(pages, i) !! RowsOf(page);
  }

  lemma {:induction false} Smaller(a: set<RowId>, b: set<RowId>)
    requires a <= b
    ensures |a| <= |b|
  {
    assert b == a + (b - a);
  }

  // ---- Ties -----------------------------------------------------------------

  /** The rows that a page neither returns nor leaves for the next cursor. */
  function LeftBehind(rows: set<RowId>, items: seq<RowId>): set<RowId>
    requires items != []
  {
    set r | r in rows && r !in items && r.from >= items[|items| - 1].from
  }

  /** The rows that start no earlier than `w`. */
  function Since(rows: set<RowId>, w: int): set<RowId> {
    set r | r in rows && r.from >= w
  }

  /** Some moment has exactly `k` pages of rows at or after it: no tie straddles the end of the
      `k`th page. */
  ghost predicate CutsAt(rows: set<RowId>, size: nat, k: nat) {
    exists w: int :: |Since(rows, w)| == k * size
  }

  /** If exactly as many rows start at or after some moment as were taken, newest first, then all
      rows as new as the oldest taken were taken. */
  lemma {:induction false} NoTieIsSplit(rows: set<RowId>, taken: set<RowId>, last: RowId, w: int)
    requires taken <= Since(rows, last.from) && last in taken
    requires forall r | r in rows && r !in taken :: r.from <= last.from
    requires |Since(rows, w)| == |taken|
    ensures taken == Since(rows, last.from)
  {
    if w <= last.from {
      assert taken <= Since(rows, w);
      SameWhenAsMany(taken, Since(rows, w));
    } else {
      assert Since(rows, w) <= taken && last !in Since(rows, w);
      Fewer(Since(rows, w), taken, last);
    }
  }

  lemma {:induction false} SameWhenAsMany(a: set<RowId>, b: set<RowId>)
    requires a <= b && |a| == |b|
    ensures a == b
  {
    assert b == a + (b - a);
  }

  lemma {:induction false} Fewer(a: set<RowId>, b: set<RowId>, r: RowId)
    requires a <= b && r in b && r !in a
    ensures |a| < |b|
  {
    Smaller(a, b - {r});
  }

  /** Without a plant filter several rows start together. Whatever order the database gives them,
      a full page loses rows exactly when no moment has as many rows at or after it as a page
      holds; and those it loses all start with its last row. */
  lemma {:induction false} TiesAreLostExactlyWhen(rows: set<RowId>, size: nat, items: seq<RowId>)
    requires IsPage(rows, size, items) && |items| == size >= 1
    ensures LeftBehind(rows, items) == {} <==> CutsAt(rows, size, 1)
    ensures forall r | r in LeftBehind(rows, items) :: r.from == items[size - 1].from
  {
    hide IsPage;
    var last := items[size - 1];
    var upper := Since(rows, last.from);
    forall r
      ensures (r in items ==> r in rows && r.from >= last.from) && (r in rows && r !in items ==> r.from <= last.from) {
      RowInPage(rows, size, items, r);
    }
    ItemsCount(rows, size, items);
    assert upper == RowsOf(items) + LeftBehind(rows, items);
    assert RowsOf(items) !! LeftBehind(rows, items);
    if LeftBehind(rows, items) == {} {
      assert |Since(rows, last.from)| == 1 * size;
    }
    if CutsAt(rows, size, 1) {
      var w: int :| |Since(rows, w)| == 1 * size;
      NoTieIsSplit(rows, RowsOf(items), last, w);
    }
  }

  /** All rows returned before the `k`th cursor start at or after it. */
  lemma {:induction false} ReturnedAreSince(snaps: seq<set<RowId>>, size: nat, pages: seq<seq<RowId>>, rows: set<RowId>,
          k: nat)
    requires IsWalk(snaps, size, pages) && 1 <= k <= |pages| && |pages[k - 1]| == size
    requires forall i | 0 <= i < |pages| :: i < |snaps| && snaps[i] == rows
    ensures Cursor(pages, k).Some? && RowsUpTo(pages, k) <= Since(rows, Cursor(pages, k).value)
  {
    hide IsWalk, IsPage;
    PageAt(snaps, size, pages, k - 1);
    var last := pages[k - 1][size - 1];
    forall r | r in RowsUpTo(pages, k) ensures r in rows && r.from >= last.from {
      var j := FoundInPage(pages, k, r);
      PageAt(snaps, size, pages, j);
      RowInPage(Below(snaps[j], Cursor(pages, j)), size, pages[j], r);
      if j < k - 1 {
        PagesDescend(snaps, size, pages, j, k - 1, r, last);
      }
    }
  }

  /** If no tie straddles the end of any full page, nothing was left behind before the `k`th. */
  lemma {:induction false} NothingLeftBefore(snaps: seq<set<RowId>>, size: nat, pages: seq<seq<RowId>>,
          rows: set<RowId>,
          k: nat)
    requires IsWalk(snaps, size, pages) && k <= |pages| && forall i | 0 <= i < k :: |pages[i]| == size
    requires forall i | 0 <= i < |pages| :: i < |snaps| && snaps[i] == rows
    requires forall j | 1 <= j && j * size <= |rows| :: CutsAt(rows, size, j)
    ensures Below(rows, Cursor(pages, k)) == rows - RowsUpTo(pages, k) && RowsUpTo(pages, k) <= rows
  {
    hide IsWalk, IsPage, CutsAt;
    if k > 0 {
      NothingLeftBefore(snaps, size, pages, rows, k - 1);
      PageAt(snaps, size, pages, k - 1);
      ReturnedAreSince(snaps, size, pages, rows, k);
      FullPagesCount(snaps, size, pages, k);
      var taken, last := RowsUpTo(pages, k), pages[k - 1][size - 1];
      Smaller(taken, rows);
      forall r | r in rows && r !in taken ensures r.from <= last.from {
        RowInPage(Below(rows, Cursor(pages, k - 1)), size, pages[k - 1], r);
      }
      var w := MomentOf(rows, size, k);
      NoTieIsSplit(rows, taken, last, w);
    }
  }

  lemma {:induction false} MomentOf(rows: set<RowId>, size: nat, k: nat) returns (w: int)
    requires CutsAt(rows, size, k)
    ensures |Since(rows, w)| == k * size
  {
    w :| |Since(rows, w)| == k * size;
  }

  /** If everything is returned, the `k`th cursor is such a moment. */
  lemma {:induction false} CursorsCut(snaps: seq<set<RowId>>, size: nat, pages: seq<seq<RowId>>, rows: set<RowId>,
          k: nat)
    requires IsWalk(snaps, size, pages) && 1 <= k < |pages| && RowsUpTo(pages, |pages|) == rows
    requires forall i | 0 <= i < |pages| :: i < |snaps| && snaps[i] == rows
    ensures CutsAt(rows, size, k)
  {
    hide IsWalk, IsPage;
    forall i | 0 <= i < k ensures |pages[i]| == size {
      PageAt(snaps, size, pages, i);
    }
    PageAt(snaps, size, pages, 0);
    FullPagesCount(snaps, size, pages, k);
    ReturnedAreSince(snaps, size, pages, rows, k);
    var w, last := Cursor(pages, k).value, pages[k - 1][size - 1];
    forall r | r in Since(rows, w) ensures r in RowsUpTo(pages, k) {
      var j := FoundInPage(pages, |pages|, r);
      if j >= k {
        PagesDescend(snaps, size, pages, k - 1, j, last, r);
      } else {
        PageIsAmongThem(pages, k, j);
      }
    }
    assert RowsUpTo(pages, k) == Since(rows, w);
  }

  lemma {:induction false} PageIsAmongThem(pages: seq<seq<RowId>>, n: nat, j: nat)
    requires j < n <= |pages|
    ensures RowsOf(pages[j]) <= RowsUpTo(pages, n)
  {
    if j < n - 1 {
      PageIsAmongThem(pages, n - 1, j);
    }
  }

  /** Paging over an unchanging table, such as all plants' rows, returns every row exactly when,
      for every number of full pages that the table could fill, some moment has exactly that many
      rows at or after it. This depends on the rows and the page size alone, whatever order the
      database gives to rows that start together. */
  lemma {:induction false} UnchangingWalkIsCompleteExactlyWhen(snaps: seq<set<RowId>>, size: nat,
          pages: seq<seq<RowId>>, rows: set<RowId>)
    requires IsWalk(snaps, size, pages) && Ended(size, pages)
    requires forall i | 0 <= i < |pages| :: i < |snaps| && snaps[i] == rows
    ensures RowsUpTo(pages, |pages|) == rows <==> forall k | 1 <= k && k * size <= |rows| :: CutsAt(rows, size, k)
  {
    hide IsWalk, IsPage, CutsAt;
    var last := |pages| - 1;
    forall i | 0 <= i < last ensures |pages[i]| == size {
      PageAt(snaps, size, pages, i);
    }
    FullPagesCount(snaps, size, pages, last);
    PageAddsItsRows(snaps, size, pages, last);
    if RowsUpTo(pages, |pages|) == rows {
      forall k | 1 <= k && k * size <= |rows| ensures CutsAt(rows, size, k) {
        MorePagesMoreRows(k, size, last);
        CursorsCut(snaps, size, pages, rows, k);
      }
    }
    if forall k | 1 <= k && k * size <= |rows| :: CutsAt(rows, size, k) {
      NothingLeftBefore(snaps, size, pages, rows, last);
      LastPageIsTheRest(snaps, size, pages);
      assert RowsUpTo(pages, |pages|) == rows;
    }
  }

  lemma {:induction false} MorePagesMoreRows(k: nat, size: nat, n: nat)
    ensures k > n ==> k * size >= n * size + size
  {
    if k > n {
      OnePageMore(k, size);
      if k > n + 1 {
        MorePagesMoreRows(k - 1, size, n);
      }
    }
  }

  lemma {:induction false} OnePageMore(k: nat, size: nat)
    requires k >= 1
    ensures k * size == (k - 1) * size + size
  {
  }

  lemma {:induction false} LastPageIsTheRest(snaps: seq<set<RowId>>, size: nat, pages: seq<seq<RowId>>)
    requires IsWalk(snaps, size, pages) && Ended(size, pages)
    ensures |pages| <= |snaps|
    ensures RowsOf(pages[|pages| - 1]) == Below(snaps[|pages| - 1], Cursor(pages, |pages| - 1))
  {
    hide IsWalk, Below, Cursor;
    PageAt(snaps, size, pages, |pages| - 1);
  }

  lemma {:induction false} ItemsCount(rows: set<RowId>, size: nat, items: seq<RowId>)
    requires IsPage(rows, size, items)
    ensures |RowsOf(items)| == |items|
  {
    DistinctCount(items);
  }

  lemma {:induction false} PageFits(rows: set<RowId>, size: nat, items: seq<RowId>)
    requires IsPage(rows, size, items)
    ensures |items| <= |rows|
  {
    DistinctCount(items);
    Smaller(RowsOf(items), rows);
  }

  /** Two plants, one window, pages of one row: the second plant's row is never returned, though
      it was there throughout. */
  lemma {:induction false} UnfilteredPagingSkipsAPlant(a: RowId, b: RowId)
    requires a.from == b.from && a != b
    ensures var rows := {a, b};
            IsWalk([rows, rows], 1, [[a], []]) && Ended(1, [[a], []]) && b in rows
    ensures forall pages :: IsWalk([{a, b}, {a, b}], 1, pages) && |pages| == 2 ==> pages[1] == []
  {
    var rows := {a, b};
    var pages := [[a], []];
    assert Cursor(pages, 0) == None && Cursor(pages, 1) == Some(a.from);
    assert Below(rows, None) == rows && Below(rows, Some(a.from)) == {};
    assert IsTurn([rows, rows], 1, pages, 0) && IsTurn([rows, rows], 1, pages, 1);
    forall pages | IsWalk([rows, rows], 1, pages) && |pages| == 2 ensures pages[1] == [] {
      PageAt([rows, rows], 1, pages, 0);
      PageAt([rows, rows], 1, pages, 1);
      assert pages[0][0] in rows;
      assert Below(rows, Cursor(pages, 1)) == {};
      PageFits({}, 1, pages[1]);
    }
  }
}
