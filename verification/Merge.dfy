/** The merge of the two upstream feeds into one record a window (ingest_grid.py:358-436).
    Percentages are reals; the source rounds them to three places. */
module Merge {
  import opened Common

  const RENEWABLE_FUELS := {"wind", "solar", "hydro", "biomass"}
  const LOW_CARBON_FUELS := RENEWABLE_FUELS + {"nuclear"}
  const FOSSIL_FUELS := {"gas", "coal"}

  datatype FuelMixEntry = FuelMixEntry(fuel: string, perc: real)

  datatype IntensityWindow = IntensityWindow(from: int, to: int, forecast: int, actual: Option<int>, index: string)

  datatype GenerationWindow = GenerationWindow(from: int, to: int, mix: seq<FuelMixEntry>)

  /** A fuel mix: a dictionary in the order its fuels were first seen. */
  type Mix = seq<FuelMixEntry>

  datatype GridTelemetry = GridTelemetry(
    from: int, to: int, forecast: int, actual: Option<int>, index: string, mix: Mix,
    renewable: real, lowCarbon: real, fossil: real, forecastOnly: bool, mixMissing: bool, ingestedAt: int)

  /** Pydantic refuses a record with a share above 100. */
  datatype MergeError = ShareOutOfRange(from: int)

  type Span = (int, int)

  // ---- Mixes ----------------------------------------------------------------

  function Put(mix: Mix, e: FuelMixEntry, n: nat): (m: Mix)
    requires n <= |mix|
  {
    if n == 0 then mix + [e]
    else if mix[n - 1].fuel == e.fuel then mix[n - 1 := e]
    else Put(mix, e, n - 1)
  }

  /** One entry a fuel, the last percentage given for it. */
  function Collapse(entries: seq<FuelMixEntry>, n: nat): Mix
    requires n <= |entries|
  {
    if n == 0 then []
    else var m := Collapse(entries, n - 1); Put(m, entries[n - 1], |m|)
  }

  /** What the fuels of `fuels` add up to. */
  function Share(mix: Mix, n: nat, fuels: set<string>): real
    requires n <= |mix|
  {
    if n == 0 then 0.0
    else Share(mix, n - 1, fuels) + if mix[n - 1].fuel in fuels then mix[n - 1].perc else 0.0
  }

  predicate NonNegative(mix: Mix) {
    forall i | 0 <= i < |mix| :: mix[i].perc >= 0.0
  }

  predicate OnePerFuel(mix: Mix) {
    forall i, j | 0 <= i < j < |mix| :: mix[i].fuel != mix[j].fuel
  }

  /** The entry for `fuel` given last. */
  function LastGiven(entries: seq<FuelMixEntry>, n: nat, fuel: string): Option<FuelMixEntry>
    requires n <= |entries|
  {
    if n == 0 then None
    else if entries[n - 1].fuel == fuel then Some(entries[n - 1])
    else LastGiven(entries, n - 1, fuel)
  }

  lemma {:induction false} PutMeans(mix: Mix, e: FuelMixEntry, n: nat)
    requires n <= |mix| && OnePerFuel(mix) && forall i | n <= i < |mix| :: mix[i].fuel != e.fuel
    ensures OnePerFuel(Put(mix, e, n))
    ensures forall x :: x in Put(mix, e, n) <==> x == e || (x in mix && x.fuel != e.fuel)
  {
    if n > 0 && mix[n - 1].fuel != e.fuel {
      PutMeans(mix, e, n - 1);
    } else if n > 0 {
      var m := mix[n - 1 := e];
      forall x ensures x in m <==> x == e || (x in mix && x.fuel != e.fuel) {
        if x in mix && x.fuel != e.fuel {
          var i :| 0 <= i < |mix| && mix[i] == x;
          assert m[i] == x;
        }
        assert m[n - 1] == e;
      }
    }
  }

  /** Collapsing keeps, for every fuel named, the last entry given for it and nothing else. */
  lemma {:induction false} CollapseKeepsTheLast(entries: seq<FuelMixEntry>, n: nat)
    requires n <= |entries|
    ensures OnePerFuel(Collapse(entries, n))
    ensures forall x :: x in Collapse(entries, n) <==> LastGiven(entries, n, x.fuel) == Some(x)
  {
    if n > 0 {
      hide OnePerFuel;
      CollapseKeepsTheLast(entries, n - 1);
      var m := Collapse(entries, n - 1);
      PutMeans(m, entries[n - 1], |m|);
    } else {
      assert Collapse(entries, 0) == [];
    }
  }

  lemma {:induction false} LastGivenIsGiven(entries: seq<FuelMixEntry>, n: nat, fuel: string)
    requires n <= |entries|
    ensures LastGiven(entries, n, fuel).Some? ==> LastGiven(entries, n, fuel).value in entries
  {
    if n > 0 && entries[n - 1].fuel != fuel {
      LastGivenIsGiven(entries, n - 1, fuel);
    }
  }

  lemma {:induction false} CollapseIsNonNegative(entries: seq<FuelMixEntry>)
    requires NonNegative(entries)
    ensures NonNegative(Collapse(entries, |entries|))
  {
    var m := Collapse(entries, |entries|);
    CollapseKeepsTheLast(entries, |entries|);
    forall i | 0 <= i < |m| ensures m[i].perc >= 0.0 {
      assert m[i] in m;
      LastGivenIsGiven(entries, |entries|, m[i].fuel);
    }
  }

  lemma {:induction false} SharesAreOrdered(mix: Mix, n: nat)
    requires NonNegative(mix) && n <= |mix|
    ensures 0.0 <= Share(mix, n, RENEWABLE_FUELS) <= Share(mix, n, LOW_CARBON_FUELS)
    ensures 0.0 <= Share(mix, n, FOSSIL_FUELS)
  {
    if n > 0 {
      SharesAreOrdered(mix, n - 1);
    }
  }

  /** The percentage of one fuel, zero if it is not named. */
  function PercentageOf(mix: Mix, n: nat, fuel: string): real
    requires n <= |mix|
  {
    if n == 0 then 0.0 else if mix[n - 1].fuel == fuel then mix[n - 1].perc else PercentageOf(mix, n - 1, fuel)
  }

  lemma {:induction false} OneMoreFuel(mix: Mix, n: nat, fuels: set<string>, fuel: string)
    requires OnePerFuel(mix) && n <= |mix| && fuel !in fuels
    ensures Share(mix, n, fuels + {fuel}) == Share(mix, n, fuels) + PercentageOf(mix, n, fuel)
  {
    if n > 0 {
      OneMoreFuel(mix, n - 1, fuels, fuel);
      if mix[n - 1].fuel == fuel {
        NotNamed(mix, n - 1, fuel);
      }
    }
  }

  lemma {:induction false} NotNamed(mix: Mix, n: nat, fuel: string)
    requires n <= |mix| && forall i | 0 <= i < n :: mix[i].fuel != fuel
    ensures PercentageOf(mix, n, fuel) == 0.0
  {
    if n > 0 {
      NotNamed(mix, n - 1, fuel);
    }
  }

  /** A mix's own entries are the percentages of their fuels. */
  lemma {:induction false} PercentageIsNamed(mix: Mix, n: nat, i: nat)
    requires OnePerFuel(mix) && i < n <= |mix|
    ensures PercentageOf(mix, n, mix[i].fuel) == mix[i].perc
  {
    if i < n - 1 {
      PercentageIsNamed(mix, n - 1, i);
    }
  }

  lemma {:induction false} NoFuels(mix: Mix, n: nat)
    requires n <= |mix|
    ensures Share(mix, n, {}) == 0.0
  {
    if n > 0 {
      NoFuels(mix, n - 1);
    }
  }

  /** The three shares, fuel by fuel. */
  lemma {:induction false} SharesAreSums(mix: Mix)
    requires OnePerFuel(mix)
    ensures var p := (fuel: string) => PercentageOf(mix, |mix|, fuel);
            && Share(mix, |mix|, RENEWABLE_FUELS) == p("wind") + p("solar") + p("hydro") + p("biomass")
            && Share(mix, |mix|, LOW_CARBON_FUELS) == Share(mix, |mix|, RENEWABLE_FUELS) + p("nuclear")
            && Share(mix, |mix|, FOSSIL_FUELS) == p("gas") + p("coal")
  {
    hide Share, PercentageOf, OnePerFuel;
    NoFuels(mix, |mix|);
    OneMoreFuel(mix, |mix|, {}, "wind");
    OneMoreFuel(mix, |mix|, {"wind"}, "solar");
    OneMoreFuel(mix, |mix|, {"wind", "solar"}, "hydro");
    OneMoreFuel(mix, |mix|, {"wind", "solar", "hydro"}, "biomass");
    OneMoreFuel(mix, |mix|, RENEWABLE_FUELS, "nuclear");
    OneMoreFuel(mix, |mix|, {}, "gas");
    OneMoreFuel(mix, |mix|, {"gas"}, "coal");
    assert {} + {"wind"} == {"wind"} && {"wind"} + {"solar"} == {"wind", "solar"};
    assert {"wind", "solar"} + {"hydro"} == {"wind", "solar", "hydro"};
    assert {"wind", "solar", "hydro"} + {"biomass"} == RENEWABLE_FUELS;
    assert {} + {"gas"} == {"gas"} && {"gas"} + {"coal"} == FOSSIL_FUELS;
  }

  // ---- Merging --------------------------------------------------------------

  function SpanOf(w: IntensityWindow): Span {
    (w.from, w.to)
  }

  /** The generation windows by their span, the last one for a repeated span. */
  function MixBySpan(generation: seq<GenerationWindow>, n: nat): map<Span, seq<FuelMixEntry>>
    requires n <= |generation|
  {
    if n == 0 then map[]
    else MixBySpan(generation, n - 1)[(generation[n - 1].from, generation[n - 1].to) := generation[n - 1].mix]
  }

  /** The record of a window, given the entries found for it, if any. */
  function Joined(w: IntensityWindow, entries: Option<seq<FuelMixEntry>>, observedAt: int): GridTelemetry {
    var mix := if entries.Some? then Collapse(entries.value, |entries.value|) else [];
    GridTelemetry(w.from, w.to, w.forecast, w.actual, w.index, mix,
                  Share(mix, |mix|, RENEWABLE_FUELS), Share(mix, |mix|, LOW_CARBON_FUELS),
                  Share(mix, |mix|, FOSSIL_FUELS),
                  w.actual.None?, mix == [], observedAt)
  }

  predicate InRange(r: GridTelemetry) {
    0.0 <= r.renewable <= 100.0 && 0.0 <= r.lowCarbon <= 100.0 && 0.0 <= r.fossil <= 100.0
  }

  predicate SeenBefore(intensity: seq<IntensityWindow>, i: nat)
    requires i < |intensity|
  {
    exists j | 0 <= j < i :: SpanOf(intensity[j]) == SpanOf(intensity[i])
  }

  function Find(generation: seq<GenerationWindow>, n: nat, span: Span): Option<seq<FuelMixEntry>>
    requires n <= |generation|
  {
    if n == 0 then None
    else if (generation[n - 1].from, generation[n - 1].to) == span then Some(generation[n - 1].mix)
    else Find(generation, n - 1, span)
  }

  /** The record of the `i`th window. The dictionary is popped, so only the first window of a
      repeated span finds its mix. */
  function RecordAt(intensity: seq<IntensityWindow>, generation: seq<GenerationWindow>, observedAt: int,
          i: nat): GridTelemetry
    requires i < |intensity|
  {
    Joined(intensity[i],
           if SeenBefore(intensity, i) then None else Find(generation, |generation|, SpanOf(intensity[i])), observedAt)
  }

  /** The first `n` records, or the first of them that is refused. */
  function RecordsUpTo(intensity: seq<IntensityWindow>, generation: seq<GenerationWindow>, observedAt: int, n: nat)
    : (r: Result<seq<GridTelemetry>, MergeError>)
    requires n <= |intensity|
    ensures r.Ok? ==> |r.value| == n
  {
    if n == 0 then Ok([])
    else match RecordsUpTo(intensity, generation, observedAt, n - 1)
         case Err(e) => Err(e)
         case Ok(rs) =>
           var next := RecordAt(intensity, generation, observedAt, n - 1);
           if InRange(next) then Ok(rs + [next]) else Err(ShareOutOfRange(next.from))
  }

  /** Where a record goes among `n` sorted ones: after those that start no later. */
  function Place(rs: seq<GridTelemetry>, n: nat, r: GridTelemetry): (k: nat)
    requires n <= |rs|
    ensures k <= n
  {
    if n > 0 && rs[n - 1].from > r.from then Place(rs, n - 1, r) else n
  }

  /** A stable sort by the start of the window. */
  function SortedByStart(rs: seq<GridTelemetry>, n: nat): (s: seq<GridTelemetry>)
    requires n <= |rs|
    ensures |s| == n
  {
    if n == 0 then []
    else
      var s := SortedByStart(rs, n - 1);
      var k := Place(s, n - 1, rs[n - 1]);
      InsertAt(s, k, rs[n - 1])
  }

  function MergeSpec(intensity: seq<IntensityWindow>, generation: seq<GenerationWindow>, observedAt: int)
    : Result<seq<GridTelemetry>, MergeError>
  {
    match RecordsUpTo(intensity, generation, observedAt, |intensity|)
    case Err(e) => Err(e)
    case Ok(rs) => Ok(SortedByStart(rs, |rs|))
  }

  lemma {:induction false} FindIsLookup(generation: seq<GenerationWindow>, n: nat, span: Span)
    requires n <= |generation|
    ensures Find(generation, n, span)
         == if span in MixBySpan(generation, n) then Some(MixBySpan(generation, n)[span]) else None
  {
    if n > 0 {
      FindIsLookup(generation, n - 1, span);
    }
  }

  /** `merge_telemetry`: a dictionary of mixes, popped window by window. */
  method MergeTelemetry(intensity: seq<IntensityWindow>, generation: seq<GenerationWindow>, observedAt: int)
    returns (r: Result<seq<GridTelemetry>, MergeError>)
    ensures r == MergeSpec(intensity, generation, observedAt)
  {
    hide Joined, InRange, SortedByStart;
    var mixBySpan: map<Span, seq<FuelMixEntry>> := map[];
    for j := 0 to |generation|
      invariant mixBySpan == MixBySpan(generation, j)
    {
      mixBySpan := mixBySpan[(generation[j].from, generation[j].to) := generation[j].mix];
    }
    ghost var all := mixBySpan;
    var records: seq<GridTelemetry> := [];
    for i := 0 to |intensity|
      invariant RecordsUpTo(intensity, generation, observedAt, i) == Ok(records)
      invariant forall span :: span in mixBySpan <==>
                  span in all && forall j | 0 <= j < i :: SpanOf(intensity[j]) != span
      invariant forall span | span in mixBySpan :: mixBySpan[span] == all[span]
    {
      var span := SpanOf(intensity[i]);
      FindIsLookup(generation, |generation|, span);
      var entries := if span in mixBySpan then Some(mixBySpan[span]) else None;
      mixBySpan := mixBySpan - {span};
      var next := Joined(intensity[i], entries, observedAt);
      assert next == RecordAt(intensity, generation, observedAt, i);
      if !InRange(next) {
        FirstError(intensity, generation, observedAt, i + 1, |intensity|);
        return Err(ShareOutOfRange(next.from));
      }
      records := records + [next];
    }
    r := Ok(SortedByStart(records, |records|));
  }

  lemma {:induction false} FirstError(intensity: seq<IntensityWindow>, generation: seq<GenerationWindow>,
          observedAt: int, i: nat, n: nat)
    requires i <= n <= |intensity| && RecordsUpTo(intensity, generation, observedAt, i).Err?
    ensures RecordsUpTo(intensity, generation, observedAt, n) == RecordsUpTo(intensity, generation, observedAt, i)
    decreases n
  {
    if i < n {
      FirstError(intensity, generation, observedAt, i, n - 1);
    }
  }

  // ---- A left outer join ------------------------------------------------------

  predicate DistinctSpans(intensity: seq<IntensityWindow>) {
    forall i, j | 0 <= i < j < |intensity| :: SpanOf(intensity[i]) != SpanOf(intensity[j])
  }

  /** The record that a join gives a window. */
  function JoinOf(w: IntensityWindow, generation: seq<GenerationWindow>, observedAt: int): GridTelemetry {
    Joined(w, Find(generation, |generation|, SpanOf(w)), observedAt)
  }

  /** The record that the `i`th window is to come out as: joined, or, for a window listed before,
      joined with nothing. */
  function JoinAt(intensity: seq<IntensityWindow>, generation: seq<GenerationWindow>, observedAt: int, i: nat)
    : GridTelemetry
    requires i < |intensity|
  {
    JoinOf(intensity[i],
           if exists j :: 0 <= j < i && SpanOf(intensity[j]) == SpanOf(intensity[i]) then [] else generation,
           observedAt)
  }

  predicate SortedStarts(rs: seq<GridTelemetry>) {
    forall i, j | 0 <= i < j < |rs| :: rs[i].from <= rs[j].from
  }

  lemma {:induction false} PlaceSplits(rs: seq<GridTelemetry>, n: nat, r: GridTelemetry)
    requires n <= |rs| && SortedStarts(rs)
    ensures forall i | 0 <= i < Place(rs, n, r) :: rs[i].from <= r.from
    ensures forall i | Place(rs, n, r) <= i < n :: rs[i].from > r.from
  {
    if n > 0 && rs[n - 1].from > r.from {
      PlaceSplits(rs, n - 1, r);
    }
  }

  lemma {:induction false} SortSorts(rs: seq<GridTelemetry>, n: nat)
    requires n <= |rs|
    ensures SortedStarts(SortedByStart(rs, n)) && multiset(SortedByStart(rs, n)) == multiset(rs[..n])
  {
    hide Place, InsertAt, SortedStarts;
    if n > 0 {
      SortSorts(rs, n - 1);
      var s := SortedByStart(rs, n - 1);
      var k := Place(s, n - 1, rs[n - 1]);
      PlaceSplits(s, n - 1, rs[n - 1]);
      Inserted(s, k, rs[n - 1]);
      PrefixElements(rs, n);
    } else {
      NothingIsSorted(rs);
    }
  }

  lemma {:induction false} NothingIsSorted(rs: seq<GridTelemetry>)
    ensures SortedStarts(SortedByStart(rs, 0)) && SortedByStart(rs, 0) == rs[..0]
  {
  }

  lemma {:induction false} Inserted(s: seq<GridTelemetry>, k: nat, r: GridTelemetry)
    requires SortedStarts(s) && k <= |s|
    requires (forall i | 0 <= i < k :: s[i].from <= r.from) && (forall i | k <= i < |s| :: s[i].from > r.from)
    ensures SortedStarts(InsertAt(s, k, r)) && multiset(InsertAt(s, k, r)) == multiset(s) + multiset{r}
  {
    InsertedElements(s, k, r);
    hide InsertAt;
  }

  lemma {:induction false} RecordsAt(intensity: seq<IntensityWindow>, generation: seq<GenerationWindow>,
          observedAt: int, n: nat)
    requires n <= |intensity| && RecordsUpTo(intensity, generation, observedAt, n).Ok?
    ensures var rs := RecordsUpTo(intensity, generation, observedAt, n).value;
            forall i | 0 <= i < n :: rs[i] == RecordAt(intensity, generation, observedAt, i)
  {
    hide RecordAt, InRange;
    if n > 0 {
      RecordsAt(intensity, generation, observedAt, n - 1);
    }
  }

  /** Every window comes out exactly once, joined to the generation window of its span or flagged as
      missing one, as is a window listed before; the records are in order of their start. */
  lemma {:induction false} MergeIsALeftOuterJoin(intensity: seq<IntensityWindow>,
          generation: seq<GenerationWindow>, observedAt: int)
    requires MergeSpec(intensity, generation, observedAt).Ok?
    ensures var out := MergeSpec(intensity, generation, observedAt).value;
            && SortedStarts(out)
            && multiset(out) == multiset(seq(|intensity|, i requires 0 <= i < |intensity| =>
                                               JoinAt(intensity, generation, observedAt, i)))
    ensures DistinctSpans(intensity) ==>
              forall i | 0 <= i < |intensity| ::
                JoinAt(intensity, generation, observedAt, i) == JoinOf(intensity[i], generation, observedAt)
  {
    hide Joined, InRange, SortedByStart;
    var rs := RecordsUpTo(intensity, generation, observedAt, |intensity|).value;
    RecordsAt(intensity, generation, observedAt, |intensity|);
    SortSorts(rs, |rs|);
    assert rs[..|rs|] == rs;
    assert rs == seq(|intensity|, i requires 0 <= i < |intensity| => JoinAt(intensity, generation, observedAt, i));
  }

  /** What a joined record says: the window's own readings and the time of the merge, the last
      percentage given for each fuel of the matching mix, flagged as missing exactly when nothing was
      found or what was found was empty, and the three shares, fuel by fuel. */
  lemma {:induction false} JoinedRecordMeans(w: IntensityWindow, generation: seq<GenerationWindow>, observedAt: int)
    ensures var r := JoinOf(w, generation, observedAt);
            var found := Find(generation, |generation|, SpanOf(w));
            var p := (fuel: string) => PercentageOf(r.mix, |r.mix|, fuel);
            && r.from == w.from && r.to == w.to && r.ingestedAt == observedAt
            && r.forecast == w.forecast && r.actual == w.actual && r.index == w.index
            && (r.forecastOnly <==> w.actual.None?)
            && (r.mixMissing <==> found.None? || found.value == [])
            && OnePerFuel(r.mix)
            && (forall x :: x in r.mix <==> found.Some? && LastGiven(found.value, |found.value|, x.fuel) == Some(x))
            && r.renewable == p("wind") + p("solar") + p("hydro") + p("biomass")
            && r.lowCarbon == p("wind") + p("solar") + p("hydro") + p("biomass") + p("nuclear")
            && r.fossil == p("gas") + p("coal")
  {
    var found := Find(generation, |generation|, SpanOf(w));
    hide Share, PercentageOf;
    var r := JoinOf(w, generation, observedAt);
    if found.Some? {
      CollapseKeepsTheLast(found.value, |found.value|);
      CollapseIsEmptyExactlyWhen(found.value, |found.value|);
    }
    SharesAreSums(r.mix);
  }

  /** The low-carbon share covers the renewable one. */
  lemma {:induction false} JoinedSharesAreOrdered(w: IntensityWindow, generation: seq<GenerationWindow>,
          observedAt: int)
    requires forall j | 0 <= j < |generation| :: NonNegative(generation[j].mix)
    ensures var r := JoinOf(w, generation, observedAt); 0.0 <= r.renewable <= r.lowCarbon && 0.0 <= r.fossil
  {
    hide Share;
    var found := Find(generation, |generation|, SpanOf(w));
    FindFinds(generation, |generation|, SpanOf(w));
    if found.Some? {
      CollapseIsNonNegative(found.value);
    }
    var mix := JoinOf(w, generation, observedAt).mix;
    SharesAreOrdered(mix, |mix|);
  }

  lemma {:induction false} CollapseIsEmptyExactlyWhen(entries: seq<FuelMixEntry>, n: nat)
    requires n <= |entries|
    ensures Collapse(entries, n) == [] <==> n == 0
  {
    if n > 0 {
      var m := Collapse(entries, n - 1);
      PutIsNotEmpty(m, entries[n - 1], |m|);
    }
  }

  lemma {:induction false} PutIsNotEmpty(mix: Mix, e: FuelMixEntry, n: nat)
    requires n <= |mix|
    ensures Put(mix, e, n) != []
  {
    if n > 0 {
      PutIsNotEmpty(mix, e, n - 1);
    }
  }

  /** The mix found is that of the last window of the span. */
  lemma {:induction false} FindFinds(generation: seq<GenerationWindow>, n: nat, span: Span)
    requires n <= |generation|
    ensures Find(generation, n, span).Some? ==>
              exists j | 0 <= j < n ::
                && (generation[j].from, generation[j].to) == span
                && generation[j].mix == Find(generation, n, span).value
                && forall k | j < k < n :: (generation[k].from, generation[k].to) != span
    ensures Find(generation, n, span).None? ==> forall j | 0 <= j < n :: (generation[j].from, generation[j].to) != span
  {
    if n > 0 && (generation[n - 1].from, generation[n - 1].to) != span {
      FindFinds(generation, n - 1, span);
    }
  }

  /** The whole merge is refused exactly when some window's low-carbon or fossil share is over a
      hundred; the error names the first such window. */
  lemma {:induction false} MergeFailsExactlyWhen(intensity: seq<IntensityWindow>,
          generation: seq<GenerationWindow>, observedAt: int)
    requires forall j | 0 <= j < |generation| :: NonNegative(generation[j].mix)
    ensures match MergeSpec(intensity, generation, observedAt)
            case Ok(_) => forall i | 0 <= i < |intensity| :: !Excessive(JoinAt(intensity, generation, observedAt, i))
            case Err(e) =>
              exists i | 0 <= i < |intensity| ::
                && Excessive(JoinAt(intensity, generation, observedAt, i)) && e == ShareOutOfRange(intensity[i].from)
                && forall j | 0 <= j < i :: !Excessive(JoinAt(intensity, generation, observedAt, j))
  {
    hide JoinOf, SortedByStart, RecordsUpTo, Excessive, JoinAt, InRange;
    RefusedExactlyWhen(intensity, generation, observedAt, |intensity|);
    forall i | 0 <= i < |intensity|
      ensures var r := JoinAt(intensity, generation, observedAt, i); InRange(r) <==> !Excessive(r)
    {
      RangeIsNoExcess(intensity, generation, observedAt, i);
    }
  }

  predicate Excessive(r: GridTelemetry) {
    r.lowCarbon > 100.0 || r.fossil > 100.0
  }

  lemma {:induction false} RangeIsNoExcess(intensity: seq<IntensityWindow>, generation: seq<GenerationWindow>,
          observedAt: int, i: nat)
    requires i < |intensity| && forall j | 0 <= j < |generation| :: NonNegative(generation[j].mix)
    ensures var r := JoinAt(intensity, generation, observedAt, i); InRange(r) <==> !Excessive(r)
  {
    hide JoinOf;
    JoinedSharesAreOrdered(intensity[i], generation, observedAt);
    JoinedSharesAreOrdered(intensity[i], [], observedAt);
  }

  lemma {:induction false} RecordIsJoin(intensity: seq<IntensityWindow>, generation: seq<GenerationWindow>,
          observedAt: int, i: nat)
    requires i < |intensity|
    ensures RecordAt(intensity, generation, observedAt, i) == JoinAt(intensity, generation, observedAt, i)
    ensures JoinAt(intensity, generation, observedAt, i).from == intensity[i].from
  {
    hide Collapse, Share;
  }

  lemma {:induction false} RefusedExactlyWhen(intensity: seq<IntensityWindow>, generation: seq<GenerationWindow>,
          observedAt: int, n: nat)
    requires n <= |intensity|
    ensures match RecordsUpTo(intensity, generation, observedAt, n)
            case Ok(_) => forall i | 0 <= i < n :: InRange(JoinAt(intensity, generation, observedAt, i))
            case Err(e) =>
              exists i | 0 <= i < n ::
                && !InRange(JoinAt(intensity, generation, observedAt, i)) && e == ShareOutOfRange(intensity[i].from)
                && forall j | 0 <= j < i :: InRange(JoinAt(intensity, generation, observedAt, j))
  {
    hide RecordAt, JoinAt, InRange;
    if n > 0 {
      RefusedExactlyWhen(intensity, generation, observedAt, n - 1);
      RecordIsJoin(intensity, generation, observedAt, n - 1);
    }
  }

  // ---- Order of the inputs ------------------------------------------------------

  /** The order of the generation windows does not matter if their spans are distinct. */
  lemma {:induction false} GenerationOrderDoesNotMatter(intensity: seq<IntensityWindow>, a: seq<GenerationWindow>,
          b: seq<GenerationWindow>, observedAt: int)
    requires multiset(a) == multiset(b)
    requires forall i, j | 0 <= i < j < |a| :: (a[i].from, a[i].to) != (a[j].from, a[j].to)
    ensures MergeSpec(intensity, a, observedAt) == MergeSpec(intensity, b, observedAt)
  {
    hide RecordAt, SortedByStart;
    forall i | 0 <= i < |intensity|
      ensures RecordAt(intensity, a, observedAt, i) == RecordAt(intensity, b, observedAt, i) {
      SameFind(a, b, SpanOf(intensity[i]));
      SameRecord(intensity, a, b, observedAt, i);
    }
    SameRecords(intensity, a, b, observedAt, |intensity|);
  }

  lemma {:induction false} SameRecord(intensity: seq<IntensityWindow>, a: seq<GenerationWindow>,
          b: seq<GenerationWindow>, observedAt: int, i: nat)
    requires i < |intensity| && Find(a, |a|, SpanOf(intensity[i])) == Find(b, |b|, SpanOf(intensity[i]))
    ensures RecordAt(intensity, a, observedAt, i) == RecordAt(intensity, b, observedAt, i)
  {
    hide Joined;
  }

  lemma {:induction false} SameRecords(intensity: seq<IntensityWindow>, a: seq<GenerationWindow>,
          b: seq<GenerationWindow>, observedAt: int, n: nat)
    requires n <= |intensity|
    requires forall i | 0 <= i < |intensity| ::
               RecordAt(intensity, a, observedAt, i) == RecordAt(intensity, b, observedAt, i)
    ensures RecordsUpTo(intensity, a, observedAt, n) == RecordsUpTo(intensity, b, observedAt, n)
  {
    hide RecordAt, InRange;
    if n > 0 {
      SameRecords(intensity, a, b, observedAt, n - 1);
    }
  }

  lemma {:induction false} SameFind(a: seq<GenerationWindow>, b: seq<GenerationWindow>, span: Span)
    requires multiset(a) == multiset(b)
    requires forall i, j | 0 <= i < j < |a| :: (a[i].from, a[i].to) != (a[j].from, a[j].to)
    ensures Find(a, |a|, span) == Find(b, |b|, span)
  {
    FindFinds(a, |a|, span);
    FindFinds(b, |b|, span);
    if Find(a, |a|, span).Some? {
      var i :| 0 <= i < |a| && (a[i].from, a[i].to) == span && a[i].mix == Find(a, |a|, span).value;
      assert a[i] in multiset(a);
      assert a[i] in b;
    }
    if Find(b, |b|, span).Some? {
      var j :| 0 <= j < |b| && (b[j].from, b[j].to) == span && b[j].mix == Find(b, |b|, span).value;
      assert b[j] in multiset(b);
      assert b[j] in a;
    }
  }

  predicate DistinctStarts(intensity: seq<IntensityWindow>) {
    forall i, j | 0 <= i < j < |intensity| :: intensity[i].from != intensity[j].from
  }

  predicate StrictStarts(rs: seq<GridTelemetry>) {
    forall i, j | 0 <= i < j < |rs| :: rs[i].from < rs[j].from
  }

  lemma {:induction false} InsertedStrictly(s: seq<GridTelemetry>, k: nat, r: GridTelemetry)
    requires StrictStarts(s) && k <= |s|
    requires (forall i | 0 <= i < k :: s[i].from < r.from) && (forall i | k <= i < |s| :: s[i].from > r.from)
    ensures StrictStarts(InsertAt(s, k, r)) && forall x :: x in InsertAt(s, k, r) <==> x == r || x in s
  {
    hide InsertAt;
    var t := InsertAt(s, k, r);
    forall x ensures x in t <==> x == r || x in s {
      InsertedElements(s, k, r);
      assert x in t <==> x in multiset(t);
      assert x in s <==> x in multiset(s);
    }
  }

  lemma {:induction false} SortIsStrict(rs: seq<GridTelemetry>, n: nat)
    requires n <= |rs| && forall i, j | 0 <= i < j < |rs| :: rs[i].from != rs[j].from
    ensures StrictStarts(SortedByStart(rs, n)) && forall x :: x in SortedByStart(rs, n) <==> x in rs[..n]
  {
    hide Place, InsertAt;
    if n > 0 {
      SortIsStrict(rs, n - 1);
      var s := SortedByStart(rs, n - 1);
      var r := rs[n - 1];
      StrictIsSorted(s);
      PlaceSplits(s, n - 1, r);
      PrefixMembers(rs, n);
      forall i | 0 <= i < |s| ensures s[i].from != r.from {
        assert s[i] in s;
      }
      hide StrictStarts, SortedStarts;
      InsertedStrictly(s, Place(s, n - 1, r), r);
    }
  }

  lemma {:induction false} StrictIsSorted(s: seq<GridTelemetry>)
    requires StrictStarts(s)
    ensures SortedStarts(s)
  {
  }

  lemma {:induction false} PrefixMembers(rs: seq<GridTelemetry>, n: nat)
    requires 0 < n <= |rs|
    ensures forall x :: x in rs[..n] <==> x in rs[..n - 1] || x == rs[n - 1]
    ensures (forall i, j | 0 <= i < j < |rs| :: rs[i].from != rs[j].from)
            ==> forall x | x in rs[..n - 1] :: x.from != rs[n - 1].from
  {
    assert rs[..n] == rs[..n - 1] + [rs[n - 1]];
  }

  lemma {:induction false} StrictArrangementIsUnique(a: seq<GridTelemetry>, b: seq<GridTelemetry>)
    requires StrictStarts(a) && StrictStarts(b) && forall x :: x in a <==> x in b
    ensures a == b
  {
    if a != [] {
      var n, m := |a| - 1, |b| - 1;
      assert a[n] in b;
      assert b[m] in a;
      assert a[n] == b[m];
      forall x ensures x in a[..n] <==> x in b[..m] {
        assert x in a <==> x in a[..n] || x == a[n];
        assert x in b <==> x in b[..m] || x == b[m];
      }
      StrictArrangementIsUnique(a[..n], b[..m]);
      assert a == a[..n] + [a[n]] && b == b[..m] + [b[m]];
    } else {
      SomethingIn(b);
    }
  }

  lemma {:induction false} SomethingIn(b: seq<GridTelemetry>)
    ensures b != [] ==> exists x :: x in b
  {
    if b != [] {
      assert b[0] in b;
    }
  }

  lemma {:induction false} FirstOfItsStart(intensity: seq<IntensityWindow>, generation: seq<GenerationWindow>,
          observedAt: int, i: nat)
    requires DistinctStarts(intensity) && i < |intensity|
    ensures JoinAt(intensity, generation, observedAt, i) == JoinOf(intensity[i], generation, observedAt)
    ensures JoinOf(intensity[i], generation, observedAt).from == intensity[i].from
  {
    hide Find, Collapse, Share;
  }

  lemma {:induction false} RecordsAreJoins(intensity: seq<IntensityWindow>, generation: seq<GenerationWindow>,
          observedAt: int)
    requires DistinctStarts(intensity) && RecordsUpTo(intensity, generation, observedAt, |intensity|).Ok?
    ensures var rs := RecordsUpTo(intensity, generation, observedAt, |intensity|).value;
            && (forall i | 0 <= i < |rs| :: rs[i] == JoinOf(intensity[i], generation, observedAt))
            && forall i, j | 0 <= i < j < |rs| :: rs[i].from != rs[j].from
  {
    hide JoinAt, JoinOf, RecordAt, RecordsUpTo;
    RecordsAt(intensity, generation, observedAt, |intensity|);
    var rs := RecordsUpTo(intensity, generation, observedAt, |intensity|).value;
    forall i | 0 <= i < |rs|
      ensures rs[i] == JoinOf(intensity[i], generation, observedAt) && rs[i].from == intensity[i].from
    {
      RecordIsJoin(intensity, generation, observedAt, i);
      FirstOfItsStart(intensity, generation, observedAt, i);
    }
  }

  /** When no two windows start together, the merge is their joins in order of the start. */
  lemma {:induction false} MergeIsTheJoinsInOrder(intensity: seq<IntensityWindow>,
          generation: seq<GenerationWindow>, observedAt: int)
    requires DistinctStarts(intensity)
    ensures MergeSpec(intensity, generation, observedAt).Ok? <==>
              forall w | w in intensity :: InRange(JoinOf(w, generation, observedAt))
    ensures MergeSpec(intensity, generation, observedAt).Ok? ==>
              var out := MergeSpec(intensity, generation, observedAt).value;
              && StrictStarts(out)
              && forall x :: x in out <==> exists w | w in intensity :: x == JoinOf(w, generation, observedAt)
  {
    hide JoinAt, JoinOf, InRange, SortedByStart, RecordsUpTo;
    RefusedExactlyWhen(intensity, generation, observedAt, |intensity|);
    forall i | 0 <= i < |intensity|
      ensures JoinAt(intensity, generation, observedAt, i) == JoinOf(intensity[i], generation, observedAt)
    {
      FirstOfItsStart(intensity, generation, observedAt, i);
    }
    if MergeSpec(intensity, generation, observedAt).Ok? {
      var rs := RecordsUpTo(intensity, generation, observedAt, |intensity|).value;
      RecordsAreJoins(intensity, generation, observedAt);
      SortIsStrict(rs, |rs|);
      assert rs[..|rs|] == rs;
      forall w | w in intensity ensures JoinOf(w, generation, observedAt) in rs {
        var i :| 0 <= i < |intensity| && intensity[i] == w;
        assert rs[i] == JoinOf(w, generation, observedAt);
      }
    }
  }

  /** Nor does the order of the intensity windows, if no two start together: a permuted list is
      refused when the original is, and otherwise gives the same records in the same order. */
  lemma {:induction false} IntensityOrderDoesNotMatter(a: seq<IntensityWindow>, b: seq<IntensityWindow>,
          generation: seq<GenerationWindow>, observedAt: int)
    requires DistinctStarts(a) && DistinctStarts(b) && forall w :: w in a <==> w in b
    ensures var x, y := MergeSpec(a, generation, observedAt), MergeSpec(b, generation, observedAt);
            (x.Ok? <==> y.Ok?) && (x.Ok? ==> x == y)
  {
    hide JoinOf, MergeSpec, InRange;
    MergeIsTheJoinsInOrder(a, generation, observedAt);
    MergeIsTheJoinsInOrder(b, generation, observedAt);
    var x, y := MergeSpec(a, generation, observedAt), MergeSpec(b, generation, observedAt);
    if x.Ok? && y.Ok? {
      StrictArrangementIsUnique(x.value, y.value);
    }
  }

  /** With distinct spans but a common start, the records come out as listed. */
  lemma {:induction false} CommonStartShowsListingOrder(a: IntensityWindow, b: IntensityWindow, observedAt: int)
    requires a.from == b.from && a.to != b.to
    ensures MergeSpec([a, b], [], observedAt) != MergeSpec([b, a], [], observedAt)
  {
    OneAfterTheOther(a, b, observedAt);
    OneAfterTheOther(b, a, observedAt);
  }

  lemma {:induction false} OneAfterTheOther(a: IntensityWindow, b: IntensityWindow, observedAt: int)
    requires a.from == b.from && a.to != b.to
    ensures MergeSpec([a, b], [], observedAt) == Ok([Joined(a, None, observedAt), Joined(b, None, observedAt)])
  {
    var x, y := Joined(a, None, observedAt), Joined(b, None, observedAt);
    var both := [a, b];
    assert InRange(x) && InRange(y);
    assert !SeenBefore(both, 1) && both[1] == b;
    assert RecordAt(both, [], observedAt, 0) == x && RecordAt(both, [], observedAt, 1) == y;
    assert RecordsUpTo([a, b], [], observedAt, 0) == Ok([]);
    assert [] + [x] == [x] && [x] + [y] == [x, y];
    assert RecordsUpTo([a, b], [], observedAt, 1) == Ok([x]);
    assert RecordsUpTo([a, b], [], observedAt, 2) == Ok([x, y]);
    assert InsertAt([], 0, x) == [x] && InsertAt([x], 1, y) == [x, y];
    assert SortedByStart([x, y], 1) == [x];
    assert SortedByStart([x, y], 2) == [x, y];
  }
}
