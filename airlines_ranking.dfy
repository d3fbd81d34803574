/** The punctuality ranking of airlines (components/dashboard/airlines-ranking.tsx):
    the routes are folded into one entry per airline code, each entry becomes
    a bar with its on-time percentage and average delay, and the eight most
    punctual bars are shown. */
module AirlinesRanking {
  import opened Seqs
  import opened Types
  import RouteUtils

  /** A value of `airlineMap`, together with the code it is stored under. */
  datatype AirlineEntry = AirlineEntry(
    code: string,
    name: string,
    totalFlights: nat,
    onTimeFlights: nat,
    delayMinutes: real)

  /** A bar of the chart. */
  datatype AirlineRow = AirlineRow(
    name: string,
    onTimePercentage: real,
    totalFlights: nat,
    avgDelay: real)

  /** What the component renders. */
  datatype View = NoData | Chart(rows: seq<AirlineRow>)

  function Code(r: RouteMetric): string { r.airline_code }

  /** The routes of one airline code. */
  function OfCode(code: string): RouteMetric -> bool
  {
    (r: RouteMetric) => r.airline_code == code
  }

  // ----- the reference totals per airline code -----

  function FlightsOf(routes: seq<RouteMetric>, code: string): nat
  {
    if routes == [] then 0
    else
      var x := Last(routes);
      FlightsOf(DropLast(routes), code) + (if x.airline_code == code then x.total_flights else 0)
  }

  function OnTimeOf(routes: seq<RouteMetric>, code: string): nat
  {
    if routes == [] then 0
    else
      var x := Last(routes);
      OnTimeOf(DropLast(routes), code) + (if x.airline_code == code then x.total_on_time_flights else 0)
  }

  /** Delay minutes (average delay times flights) of the routes of `code`. */
  function MinutesOf(routes: seq<RouteMetric>, code: string): real
  {
    if routes == [] then 0.0
    else
      var x := Last(routes);
      MinutesOf(DropLast(routes), code) + (if x.airline_code == code then RouteUtils.DelayMinutes(x) else 0.0)
  }

  /** The entry of the airline of `first` with the totals over all routes. */
  function EntryOf(routes: seq<RouteMetric>, first: RouteMetric): AirlineEntry
  {
    var c := first.airline_code;
    AirlineEntry(c, first.airline_name, FlightsOf(routes, c), OnTimeOf(routes, c), MinutesOf(routes, c))
  }

  /** `airlineMap` after the loop, described all at once: one entry per
      airline code in first-seen order, named from the code's first route,
      holding the sums over every route of that code. */
  function Accumulated(routes: seq<RouteMetric>): (r: seq<AirlineEntry>)
    ensures |r| == |FirstOccurrences(routes, Code)|
    ensures forall i :: 0 <= i < |r| ==> r[i] == EntryOf(routes, FirstOccurrences(routes, Code)[i])
  {
    var fo := FirstOccurrences(routes, Code);
    seq(|fo|, i requires 0 <= i < |fo| => EntryOf(routes, fo[i]))
  }

  // ----- the loop -----

  /** The `airlineMap.set` of a route whose code is new. */
  function NewAirline(r: RouteMetric): AirlineEntry
  {
    AirlineEntry(r.airline_code, r.airline_name, r.total_flights, r.total_on_time_flights, RouteUtils.DelayMinutes(r))
  }

  /** The in-place update of `existing` by one more route. */
  function AddRoute(e: AirlineEntry, r: RouteMetric): AirlineEntry
  {
    e.(totalFlights := e.totalFlights + r.total_flights,
       onTimeFlights := e.onTimeFlights + r.total_on_time_flights,
       delayMinutes := e.delayMinutes + RouteUtils.DelayMinutes(r))
  }

  /** `index` maps each entry's code to the entry's position. */
  ghost predicate Indexes(entries: seq<AirlineEntry>, index: map<string, nat>)
  {
    && (forall j :: 0 <= j < |entries| ==> entries[j].code in index && index[entries[j].code] == j)
    && (forall k :: k in index ==> index[k] < |entries| && entries[index[k]].code == k)
  }

  /** The `for (const route of data)` loop over `airlineMap`. */
  method Accumulate(routes: seq<RouteMetric>) returns (entries: seq<AirlineEntry>)
    ensures entries == Accumulated(routes)
  {
    entries := [];
    var index: map<string, nat> := map[];
    for i := 0 to |routes|
      invariant entries == Accumulated(routes[..i])
      invariant Indexes(entries, index)
    {
      var route := routes[i];
      if route.airline_code in index {
        var j := index[route.airline_code];
        MergeStep(routes, i, entries, index);
        entries := entries[j := AddRoute(entries[j], route)];
      } else {
        NewStep(routes, i, entries, index);
        index := index[route.airline_code := |entries|];
        entries := entries + [NewAirline(route)];
      }
    }
    assert routes[..|routes|] == routes;
  }

  /** A route whose code is in the map: the entry at its index grows. */
  lemma MergeStep(routes: seq<RouteMetric>, i: nat, entries: seq<AirlineEntry>, index: map<string, nat>)
    requires i < |routes| && routes[i].airline_code in index
    requires entries == Accumulated(routes[..i])
    requires Indexes(entries, index)
    ensures var x, j := routes[i], index[routes[i].airline_code];
      && j < |entries|
      && Accumulated(routes[..i + 1]) == entries[j := AddRoute(entries[j], x)]
      && Indexes(entries[j := AddRoute(entries[j], x)], index)
  {
    var x, j := routes[i], index[routes[i].airline_code];
    var d := routes[..i];
    assert routes[..i + 1] == d + [x];
    var fo := FirstOccurrences(d, Code);
    assert Code(fo[j]) == x.airline_code;
    assert x.airline_code in KeySet(d, Code);
    MergeCase(d, x, j);
    IndexesSameCode(entries, index, j, AddRoute(entries[j], x));
  }

  lemma IndexesSameCode(entries: seq<AirlineEntry>, index: map<string, nat>, j: nat, e: AirlineEntry)
    requires Indexes(entries, index) && j < |entries| && e.code == entries[j].code
    ensures Indexes(entries[j := e], index)
  {
    var e' := entries[j := e];
    assert forall m :: 0 <= m < |e'| ==> e'[m].code == entries[m].code;
  }

  /** A route whose code is not in the map: a new entry at the end. */
  lemma NewStep(routes: seq<RouteMetric>, i: nat, entries: seq<AirlineEntry>, index: map<string, nat>)
    requires i < |routes| && routes[i].airline_code !in index
    requires entries == Accumulated(routes[..i])
    requires Indexes(entries, index)
    ensures var x := routes[i];
      && Accumulated(routes[..i + 1]) == entries + [NewAirline(x)]
      && Indexes(entries + [NewAirline(x)], index[x.airline_code := |entries|])
  {
    var x := routes[i];
    var d := routes[..i];
    assert routes[..i + 1] == d + [x];
    var fo := FirstOccurrences(d, Code);
    assert x.airline_code !in KeySet(fo, Code) by {
      forall m | 0 <= m < |fo| ensures Code(fo[m]) != x.airline_code {
        assert entries[m].code == Code(fo[m]);
      }
    }
    assert Accumulated(d + [x]) == entries + [NewAirline(x)] by {
      NewCase(d, x);
    }
    IndexesSnoc(entries, index, NewAirline(x));
  }

  lemma IndexesSnoc(entries: seq<AirlineEntry>, index: map<string, nat>, e: AirlineEntry)
    requires Indexes(entries, index) && e.code !in index
    ensures Indexes(entries + [e], index[e.code := |entries|])
  {
    var e', index' := entries + [e], index[e.code := |entries|];
    forall m | 0 <= m < |e'| ensures e'[m].code in index' && index'[e'[m].code] == m {
      if m < |entries| { assert e'[m] == entries[m]; }
    }
  }

  /** One more route of the code of entry j: that entry grows, the rest stay. */
  lemma MergeCase(d: seq<RouteMetric>, x: RouteMetric, j: nat)
    requires j < |Accumulated(d)| && Accumulated(d)[j].code == x.airline_code
    requires x.airline_code in KeySet(d, Code)
    ensures Accumulated(d + [x]) == Accumulated(d)[j := AddRoute(Accumulated(d)[j], x)]
  {
    var fo := FirstOccurrences(d, Code);
    FirstOccurrencesSnoc(d, x, Code);
    var a, b := Accumulated(d + [x]), Accumulated(d)[j := AddRoute(Accumulated(d)[j], x)];
    forall m | 0 <= m < |a| ensures a[m] == b[m] {
      TotalsSnoc(d, x, fo[m].airline_code);
      if m != j {
        assert Code(fo[m]) != Code(fo[j]);
      }
    }
  }

  /** A route with a new code adds an entry holding just that route. */
  lemma NewCase(d: seq<RouteMetric>, x: RouteMetric)
    requires x.airline_code !in KeySet(d, Code)
    ensures Accumulated(d + [x]) == Accumulated(d) + [NewAirline(x)]
  {
    var fo := FirstOccurrences(d, Code);
    FirstOccurrencesSnoc(d, x, Code);
    NoRoutesOf(d, x.airline_code);
    var a, b := Accumulated(d + [x]), Accumulated(d) + [NewAirline(x)];
    forall m | 0 <= m < |a| ensures a[m] == b[m] {
      if m < |fo| {
        TotalsSnoc(d, x, fo[m].airline_code);
        assert Code(fo[m]) in KeySet(fo, Code);
      } else {
        TotalsSnoc(d, x, x.airline_code);
      }
    }
  }

  /** One more route adds to the totals of its own code only. */
  lemma TotalsSnoc(d: seq<RouteMetric>, x: RouteMetric, code: string)
    ensures FlightsOf(d + [x], code) == FlightsOf(d, code) + (if x.airline_code == code then x.total_flights else 0)
    ensures OnTimeOf(d + [x], code) == OnTimeOf(d, code) + (if x.airline_code == code then x.total_on_time_flights else 0)
    ensures MinutesOf(d + [x], code) == MinutesOf(d, code) + (if x.airline_code == code then RouteUtils.DelayMinutes(x) else 0.0)
  {
    DropLastSnoc(d, x);
  }


  /** A code no route carries has all-zero totals. */
  lemma {:induction false} NoRoutesOf(routes: seq<RouteMetric>, code: string)
    requires code !in KeySet(routes, Code)
    ensures FlightsOf(routes, code) == 0 && OnTimeOf(routes, code) == 0 && MinutesOf(routes, code) == 0.0
    decreases |routes|
  {
    if routes != [] {
      var d := DropLast(routes);
      assert routes == d + [Last(routes)];
      assert Code(routes[|routes| - 1]) in KeySet(routes, Code);
      assert KeySet(d, Code) <= KeySet(routes, Code) by {
        forall k | k in KeySet(d, Code) ensures k in KeySet(routes, Code) {
          var i :| 0 <= i < |d| && Code(d[i]) == k;
          assert routes[i] == d[i];
        }
      }
      NoRoutesOf(d, code);
    }
  }

  // ----- the chart -----

  /** The `.map` to a bar: percentage and average are 0 without flights. */
  function ToRow(e: AirlineEntry): AirlineRow
  {
    var total := e.totalFlights as real;
    AirlineRow(
      e.name,
      if e.totalFlights > 0 then e.onTimeFlights as real / total * 100.0 else 0.0,
      e.totalFlights,
      if e.totalFlights > 0 then e.delayMinutes / total else 0.0)
  }

  /** The comparator `b.onTimePercentage - a.onTimePercentage`. */
  predicate OnTimeDescending(a: AirlineRow, b: AirlineRow) { a.onTimePercentage >= b.onTimePercentage }

  function OnTimePercentage(r: AirlineRow): real { r.onTimePercentage }

  /** The `.map`/`.sort`/`.slice(0, 8)` chain after the loop. */
  function Ranking(entries: seq<AirlineEntry>): seq<AirlineRow>
  {
    SliceTo(SortBy(Map(entries, ToRow), OnTimeDescending), 8)
  }

  /** `chartData`. */
  method ChartData(routes: seq<RouteMetric>) returns (chart: seq<AirlineRow>)
    ensures chart == Ranking(Accumulated(routes))
  {
    var entries := Accumulate(routes);
    chart := Ranking(entries);
  }

  /** The component: the "no data" notice for no routes, the chart otherwise. */
  function Render(routes: seq<RouteMetric>): View
  {
    if |routes| == 0 then NoData else Chart(Ranking(Accumulated(routes)))
  }

  // ----- properties -----

  /** The entry of an airline is named from the code's first route. */
  predicate FromFirstRoute(routes: seq<RouteMetric>, e: AirlineEntry)
  {
    exists i :: 0 <= i < |routes| && routes[i].airline_code == e.code && routes[i].airline_name == e.name
      && forall i' :: 0 <= i' < i ==> routes[i'].airline_code != e.code
  }

  /** `e` holds the sums over the routes of its code. */
  predicate SumsOf(routes: seq<RouteMetric>, e: AirlineEntry)
  {
    && e.totalFlights == FlightsOf(routes, e.code)
    && e.onTimeFlights == OnTimeOf(routes, e.code)
    && e.delayMinutes == MinutesOf(routes, e.code)
  }

  /** One entry per distinct code: codes are pairwise distinct, every route's
      code has an entry, each entry is named from the code's first route and
      holds the sums over the routes of its code. */
  lemma AccumulatedSpec(routes: seq<RouteMetric>)
    ensures var es := Accumulated(routes);
      && (forall i, j :: 0 <= i < j < |es| ==> es[i].code != es[j].code)
      && (forall k :: 0 <= k < |routes| ==> exists i :: 0 <= i < |es| && es[i].code == routes[k].airline_code)
      && (forall j :: 0 <= j < |es| ==> FromFirstRoute(routes, es[j]))
      && (forall j :: 0 <= j < |es| ==> SumsOf(routes, es[j]))
  {
    var fo := FirstOccurrences(routes, Code);
    var es := Accumulated(routes);
    assert forall i :: 0 <= i < |es| ==> es[i].code == Code(fo[i]);
    forall k | 0 <= k < |routes| ensures exists i :: 0 <= i < |es| && es[i].code == routes[k].airline_code {
      assert Code(routes[k]) in KeySet(fo, Code);
    }
    forall j | 0 <= j < |es| ensures FromFirstRoute(routes, es[j]) {
      FirstOccurrencesAreFirst(routes, Code, j);
    }
  }

  /** With no route having more on-time flights than flights, an airline has
      no more on-time flights than flights. */
  lemma {:induction false} OnTimeAtMostFlights(routes: seq<RouteMetric>, code: string)
    requires forall r :: r in routes ==> r.total_on_time_flights <= r.total_flights
    ensures OnTimeOf(routes, code) <= FlightsOf(routes, code)
    decreases |routes|
  {
    if routes != [] {
      var d := DropLast(routes);
      assert routes == d + [Last(routes)];
      OnTimeAtMostFlights(d, code);
    }
  }

  /** A bar's percentage lies in [0, 100] when its on-time count is at most
      its flights. */
  lemma RowPercentageBounds(e: AirlineEntry)
    requires e.onTimeFlights <= e.totalFlights
    ensures 0.0 <= ToRow(e).onTimePercentage <= 100.0
  {
    if e.totalFlights > 0 {
      var t := e.totalFlights as real;
      var o := e.onTimeFlights as real;
      assert o / t <= 1.0 by {
        assert o / t * t == o;
      }
    }
  }

  /** Every bar of every airline has a percentage in [0, 100] when no route
      has more on-time flights than flights. */
  lemma PercentageBounds(routes: seq<RouteMetric>, j: nat)
    requires forall r :: r in routes ==> r.total_on_time_flights <= r.total_flights
    requires j < |Accumulated(routes)|
    ensures 0.0 <= ToRow(Accumulated(routes)[j]).onTimePercentage <= 100.0
  {
    var e := Accumulated(routes)[j];
    OnTimeAtMostFlights(routes, e.code);
    RowPercentageBounds(e);
  }

  /** The totals of a code are the field sums over the routes of that code. */
  lemma {:induction false} FlightsAreSums(routes: seq<RouteMetric>, code: string)
    ensures FlightsOf(routes, code) == SumNat(Filter(routes, OfCode(code)), RouteUtils.Flights)
    decreases |routes|
  {
    if routes != [] {
      var d, x := DropLast(routes), Last(routes);
      FlightsAreSums(d, code);
      if x.airline_code == code {
        SumNatSnoc(Filter(d, OfCode(code)), x, RouteUtils.Flights);
      }
    }
  }

  lemma {:induction false} OnTimeAreSums(routes: seq<RouteMetric>, code: string)
    ensures OnTimeOf(routes, code) == SumNat(Filter(routes, OfCode(code)), RouteUtils.OnTime)
    decreases |routes|
  {
    if routes != [] {
      var d, x := DropLast(routes), Last(routes);
      OnTimeAreSums(d, code);
      if x.airline_code == code {
        SumNatSnoc(Filter(d, OfCode(code)), x, RouteUtils.OnTime);
      }
    }
  }

  lemma {:induction false} MinutesAreSums(routes: seq<RouteMetric>, code: string)
    ensures MinutesOf(routes, code) == SumReal(Filter(routes, OfCode(code)), RouteUtils.DelayMinutes)
    decreases |routes|
  {
    if routes != [] {
      var d, x := DropLast(routes), Last(routes);
      MinutesAreSums(d, code);
      if x.airline_code == code {
        SumRealSnoc(Filter(d, OfCode(code)), x, RouteUtils.DelayMinutes);
      }
    }
  }

  /** A bar carries what `aggregateRoutes` computes for the routes of its
      airline: their flights, on-time flights and flight-weighted delay. */
  lemma EntryIsAggregate(routes: seq<RouteMetric>, first: RouteMetric)
    ensures var agg := RouteUtils.Aggregate(Filter(routes, OfCode(first.airline_code)));
      var e := EntryOf(routes, first);
      && e.totalFlights == agg.totalFlights
      && e.onTimeFlights == agg.totalOnTime
      && ToRow(e).avgDelay == agg.avgDelayMinutes
  {
    FlightsAreSums(routes, first.airline_code);
    OnTimeAreSums(routes, first.airline_code);
    MinutesAreSums(routes, first.airline_code);
  }

  /** An airline with flights has an average delay between the smallest and
      the largest route average. Every entry of `Accumulated` is an
      `EntryOf` (see `Accumulated`'s contract). */
  lemma AvgDelayBounds(routes: seq<RouteMetric>, first: RouteMetric, lo: real, hi: real)
    requires forall r :: r in routes ==> lo <= r.avg_delay_minutes <= hi
    requires EntryOf(routes, first).totalFlights > 0
    ensures lo <= ToRow(EntryOf(routes, first)).avgDelay <= hi
  {
    var own := Filter(routes, OfCode(first.airline_code));
    EntryIsAggregate(routes, first);
    forall r | r in own ensures lo <= r.avg_delay_minutes <= hi {
      var i :| 0 <= i < |own| && own[i] == r;
    }
    RouteUtils.AggregateAvgBounds(own, lo, hi);
  }

  /** The ranking has min(8, number of airlines) bars, most punctual first,
      each the bar of one of the entries; with at most eight airlines it is a
      permutation of all their bars. */
  lemma RankingSpec(entries: seq<AirlineEntry>)
    ensures var r := Ranking(entries);
      && |r| == (if |entries| < 8 then |entries| else 8)
      && (forall i, j :: 0 <= i < j < |r| ==> r[i].onTimePercentage >= r[j].onTimePercentage)
      && (forall i :: 0 <= i < |r| ==> exists k :: 0 <= k < |entries| && r[i] == ToRow(entries[k]))
      && (|entries| <= 8 ==> multiset(r) == multiset(Map(entries, ToRow)))
  {
    var rows := Map(entries, ToRow);
    var s := SortBy(rows, OnTimeDescending);
    var r := Ranking(entries);
    DescendingByKey(OnTimeDescending, OnTimePercentage);
    SortBySorted(rows, OnTimeDescending);
    forall i | 0 <= i < |r| ensures exists k :: 0 <= k < |entries| && r[i] == ToRow(entries[k]) {
      assert r[i] == s[i];
      assert s[i] in multiset(rows);
      var k :| 0 <= k < |rows| && rows[k] == s[i];
    }
    if |entries| <= 8 {
      assert r == s;
    }
  }

  /** No routes: the notice and an empty chart; some routes: at least one bar. */
  lemma RenderSpec(routes: seq<RouteMetric>)
    ensures Render(routes) == NoData <==> routes == []
    ensures Ranking(Accumulated([])) == []
    ensures routes != [] ==> |Ranking(Accumulated(routes))| >= 1
  {
    if routes != [] {
      var fo := FirstOccurrences(routes, Code);
      assert Code(routes[0]) in KeySet(routes, Code);
      assert Code(routes[0]) in KeySet(fo, Code);
      RankingSpec(Accumulated(routes));
    }
    RankingSpec(Accumulated([]));
  }
}
