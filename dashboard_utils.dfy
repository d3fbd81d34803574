/** Destination rankings and the top-delay/top-early lists
    (lib/dashboard-utils.ts). */
module DashboardUtils {
  import opened Wrappers
  import opened Seqs
  import opened Strings
  import opened Types
  import RouteUtils

  datatype TopDestination = TopDestination(
    destination_city: string,
    destination_country: string,
    total_flights: nat,
    avg_delay_minutes: real,
    rank: Option<real>)

  predicate HasPlace(d: TopDestination)
  {
    d.destination_city != "" && d.destination_country != ""
  }

  // ----- getTopDestinations -----

  predicate IsDestinationRow(t: TopRecord) { t.record_type == TopDestinationRow }

  /** A rank the export leaves `null` compares as 0, as JavaScript
      subtraction treats `null`. */
  function RankOf(t: TopRecord): real { t.rank.GetOr(0.0) }

  /** The `map` of getTopDestinations: absent fields become "" or 0. */
  function ToDestination(t: TopRecord): TopDestination
  {
    TopDestination(
      t.destination_city.GetOr(""),
      t.destination_country.GetOr(""),
      t.total_flights.GetOr(0),
      t.avg_delay_minutes.GetOr(0.0),
      t.rank)
  }

  /** The rank is copied as it comes, `null` included, and compares as
      `RankOf` does. */
  function DestinationRank(d: TopDestination): real { d.rank.GetOr(0.0) }

  /** The comparator `a.rank - b.rank`. */
  predicate RankAscending(a: TopDestination, b: TopDestination) { DestinationRank(a) <= DestinationRank(b) }

  /** `getTopDestinations`: the destination rows, with defaults, that name a
      city and a country, ordered by rank. */
  function GetTopDestinations(tops: seq<TopRecord>): seq<TopDestination>
  {
    SortBy(Filter(Map(Filter(tops, IsDestinationRow), ToDestination), HasPlace), RankAscending)
  }

  /** getTopDestinations lists exactly the destination rows naming a city and
      a country, in ascending rank. */
  lemma GetTopDestinationsSpec(tops: seq<TopRecord>, d: TopDestination)
    ensures var r := GetTopDestinations(tops);
      && (forall i, j :: 0 <= i < j < |r| ==> DestinationRank(r[i]) <= DestinationRank(r[j]))
      && (d in r <==> HasPlace(d) && exists k :: 0 <= k < |tops| && IsDestinationRow(tops[k]) && ToDestination(tops[k]) == d)
  {
    var kept := Filter(Map(Filter(tops, IsDestinationRow), ToDestination), HasPlace);
    AscendingByKey(RankAscending, DestinationRank);
    SortBySorted(kept, RankAscending);
    TopDestinationsMember(tops, d);
  }

  lemma TopDestinationsMember(tops: seq<TopRecord>, d: TopDestination)
    ensures d in GetTopDestinations(tops) <==>
      HasPlace(d) && exists k :: 0 <= k < |tops| && IsDestinationRow(tops[k]) && ToDestination(tops[k]) == d
  {
    var mapped := Map(Filter(tops, IsDestinationRow), ToDestination);
    var kept := Filter(mapped, HasPlace);
    assert d in GetTopDestinations(tops) <==> d in multiset(kept);
    if d in mapped && HasPlace(d) {
      var i :| 0 <= i < |mapped| && mapped[i] == d;
      assert d in kept;
    }
    MapFilterMember(tops, IsDestinationRow, ToDestination, d);
  }

  // ----- getTopDestinationsFromRoutes -----

  /** The entry a route creates when its key is new (rank 0). */
  function NewEntry(r: RouteMetric): TopDestination
  {
    TopDestination(r.destination_city, r.destination_country, r.total_flights, r.avg_delay_minutes, Some(0.0))
  }

  /** The update of `existing` by one more route: flights add up and the
      average becomes the flight-weighted mean, 0 when there are no flights. */
  function MergeRoute(e: TopDestination, r: RouteMetric): TopDestination
  {
    var total := e.total_flights + r.total_flights;
    var weighted := e.avg_delay_minutes * e.total_flights as real + r.avg_delay_minutes * r.total_flights as real;
    e.(total_flights := total, avg_delay_minutes := if total > 0 then weighted / total as real else 0.0)
  }

  function EntryKey<K>(e: TopDestination, key: (string, string) -> K): K
  {
    key(e.destination_city, e.destination_country)
  }

  function RouteKey<K>(r: RouteMetric, key: (string, string) -> K): K
  {
    key(r.destination_city, r.destination_country)
  }

  /** The key of the source: the template string `${city}__${country}`. */
  function ConcatKey(city: string, country: string): string
  {
    city + "__" + country
  }

  /** The key the grouping means: the pair itself. */
  function PairKey(city: string, country: string): (string, string)
  {
    (city, country)
  }

  /** Position of the first entry with key `k`, or |g| when there is none. */
  function FindKey<K(==)>(g: seq<TopDestination>, key: (string, string) -> K, k: K): (r: nat)
    ensures r <= |g|
    ensures r < |g| ==> EntryKey(g[r], key) == k
    ensures forall j :: 0 <= j < r ==> EntryKey(g[j], key) != k
  {
    if g == [] then 0
    else if EntryKey(g[0], key) == k then 0
    else 1 + FindKey(g[1..], key, k)
  }

  /** The values of the `map` after the loop, in insertion order. */
  function Grouped<K(==)>(routes: seq<RouteMetric>, key: (string, string) -> K): seq<TopDestination>
  {
    if routes == [] then []
    else
      var g := Grouped(DropLast(routes), key);
      var x := Last(routes);
      var i := FindKey(g, key, RouteKey(x, key));
      if i < |g| then g[i := MergeRoute(g[i], x)] else g + [NewEntry(x)]
  }

  /** `index` maps each entry's key to the entry's position. */
  ghost predicate Indexes<K>(g: seq<TopDestination>, index: map<K, nat>, key: (string, string) -> K)
  {
    && (forall j :: 0 <= j < |g| ==> EntryKey(g[j], key) in index && index[EntryKey(g[j], key)] == j)
    && (forall k :: k in index ==> index[k] < |g| && EntryKey(g[index[k]], key) == k)
  }

  /** The `for (const route of routes)` loop: an entry per key, merged in
      place when the key is already in the map. */
  method GroupDestinations<K(==)>(routes: seq<RouteMetric>, key: (string, string) -> K) returns (groups: seq<TopDestination>)
    ensures groups == Grouped(routes, key)
  {
    groups := [];
    var index: map<K, nat> := map[];
    for i := 0 to |routes|
      invariant groups == Grouped(routes[..i], key)
      invariant Indexes(groups, index, key)
    {
      var route := routes[i];
      var k := key(route.destination_city, route.destination_country);
      GroupStep(routes, i, groups, index, key);
      if k in index {
        var j := index[k];
        groups := groups[j := MergeRoute(groups[j], route)];
      } else {
        index := index[k := |groups|];
        groups := groups + [NewEntry(route)];
      }
    }
    assert routes[..|routes|] == routes;
  }

  lemma GroupStep<K>(routes: seq<RouteMetric>, i: nat, groups: seq<TopDestination>, index: map<K, nat>, key: (string, string) -> K)
    requires i < |routes|
    requires groups == Grouped(routes[..i], key)
    requires Indexes(groups, index, key)
    ensures var x := routes[i];
      var k := RouteKey(x, key);
      && (k in index ==> index[k] < |groups|)
      && Grouped(routes[..i + 1], key) ==
           (if k in index then groups[index[k] := MergeRoute(groups[index[k]], x)] else groups + [NewEntry(x)])
      && Indexes(if k in index then groups[index[k] := MergeRoute(groups[index[k]], x)] else groups + [NewEntry(x)],
                 if k in index then index else index[k := |groups|], key)
  {
    var x := routes[i];
    var k := RouteKey(x, key);
    assert routes[..i + 1] == routes[..i] + [x];
    DropLastSnoc(routes[..i], x);
    var f := FindKey(groups, key, k);
    if k in index {
      var j := index[k];
      assert f == j;
      var g' := groups[j := MergeRoute(groups[j], x)];
      assert forall m :: 0 <= m < |g'| ==> EntryKey(g'[m], key) == EntryKey(groups[m], key);
    } else {
      assert f == |groups|;
      var g' := groups + [NewEntry(x)];
      var index' := index[k := |groups|];
      assert EntryKey(NewEntry(x), key) == k;
      forall m | 0 <= m < |g'| ensures EntryKey(g'[m], key) in index' && index'[EntryKey(g'[m], key)] == m {
        if m < |groups| { assert g'[m] == groups[m]; }
      }
    }
  }

  /** Entries ranked by `b.total_flights - a.total_flights`. */
  predicate FlightsDescending(a: TopDestination, b: TopDestination) { a.total_flights >= b.total_flights }

  function DestinationFlights(d: TopDestination): real { d.total_flights as real }

  /** `.map((item, index) => ({ ...item, rank: index + 1 }))`. */
  function Ranked(s: seq<TopDestination>): (r: seq<TopDestination>)
    ensures |r| == |s|
    ensures forall i :: 0 <= i < |s| ==> r[i] == s[i].(rank := Some((i + 1) as real))
  {
    seq(|s|, i requires 0 <= i < |s| => s[i].(rank := Some((i + 1) as real)))
  }

  /** The chain after the loop: entries naming a place, most flights first,
      the first `limit`, ranked from 1. */
  function TopFromGroups(groups: seq<TopDestination>, limit: int): seq<TopDestination>
  {
    Ranked(SliceTo(SortBy(Filter(groups, HasPlace), FlightsDescending), limit))
  }

  /** `getTopDestinationsFromRoutes` as written, keyed by the string
      `${city}__${country}`. */
  method GetTopDestinationsFromRoutesAsWritten(routes: seq<RouteMetric>, limit: int) returns (top: seq<TopDestination>)
    ensures top == TopFromGroups(Grouped(routes, ConcatKey), limit)
  {
    var groups := GroupDestinations(routes, ConcatKey);
    top := TopFromGroups(groups, limit);
  }

  /** `getTopDestinationsFromRoutes` keyed by the (city, country) pair. */
  method GetTopDestinationsFromRoutes(routes: seq<RouteMetric>, limit: int) returns (top: seq<TopDestination>)
    ensures top == TopFromGroups(Grouped(routes, PairKey), limit)
  {
    var groups := GroupDestinations(routes, PairKey);
    top := TopFromGroups(groups, limit);
  }

  /** Same entry up to its rank. */
  predicate SameEntry(a: TopDestination, b: TopDestination)
  {
    a.destination_city == b.destination_city && a.destination_country == b.destination_country
    && a.total_flights == b.total_flights && a.avg_delay_minutes == b.avg_delay_minutes
  }

  /** The ranking holds at most `limit` entries naming a place, taken from the
      groups, most flights first, ranked 1, 2, …; with a positive limit every
      entry left out has no more flights than the last one kept. */
  lemma TopFromGroupsSpec(groups: seq<TopDestination>, limit: int)
    ensures var r := TopFromGroups(groups, limit);
      && (limit >= 0 ==> |r| <= limit)
      && |r| <= |groups|
      && (forall i, j :: 0 <= i < j < |r| ==> r[i].total_flights >= r[j].total_flights)
      && (forall i :: 0 <= i < |r| ==> r[i].rank == Some((i + 1) as real) && HasPlace(r[i]))
  {
    var f := Filter(groups, HasPlace);
    var s := SortBy(f, FlightsDescending);
    DescendingByKey(FlightsDescending, DestinationFlights);
    SortBySorted(f, FlightsDescending);
    forall i | 0 <= i < |TopFromGroups(groups, limit)| ensures HasPlace(TopFromGroups(groups, limit)[i]) {
      assert s[i] in multiset(f);
    }
  }

  /** Each ranked entry is one of the groups, up to its rank. */
  lemma TopFromGroupsFrom(groups: seq<TopDestination>, limit: int, i: nat)
    requires i < |TopFromGroups(groups, limit)|
    ensures exists k :: 0 <= k < |groups| && SameEntry(TopFromGroups(groups, limit)[i], groups[k])
  {
    var f := Filter(groups, HasPlace);
    var s := SortBy(f, FlightsDescending);
    var r := TopFromGroups(groups, limit);
    assert r[i] == s[i].(rank := Some((i + 1) as real));
    assert s[i] in multiset(f);
    assert s[i] in groups;
    var k :| 0 <= k < |groups| && groups[k] == s[i];
    assert SameEntry(r[i], groups[k]);
  }

  /** With a positive limit the ranking is the top of the list: an entry
      naming a place is kept, or has no more flights than the last kept. */
  lemma TopFromGroupsIsTop(groups: seq<TopDestination>, limit: int, k: nat)
    requires limit > 0 && k < |groups| && HasPlace(groups[k])
    ensures var r := TopFromGroups(groups, limit);
      |r| > 0 && ((exists i :: 0 <= i < |r| && SameEntry(r[i], groups[k]))
                  || groups[k].total_flights <= r[|r| - 1].total_flights)
  {
    var f := Filter(groups, HasPlace);
    var s := SortBy(f, FlightsDescending);
    var p := SliceTo(s, limit);
    var r := Ranked(p);
    DescendingByKey(FlightsDescending, DestinationFlights);
    SortBySorted(f, FlightsDescending);
    assert groups[k] in f;
    assert groups[k] in multiset(s);
    var j :| 0 <= j < |s| && s[j] == groups[k];
    if j < |p| {
      assert SameEntry(r[j], groups[k]);
    } else {
      assert p[|p| - 1] == s[|p| - 1];
      assert FlightsDescending(s[|p| - 1], s[j]);
    }
  }

  // The reference totals per destination.

  predicate AtPlace(r: RouteMetric, city: string, country: string)
  {
    r.destination_city == city && r.destination_country == country
  }

  /** Flights of all routes to (city, country). */
  function FlightsTo(routes: seq<RouteMetric>, city: string, country: string): nat
  {
    if routes == [] then 0
    else
      var x := Last(routes);
      FlightsTo(DropLast(routes), city, country) + (if AtPlace(x, city, country) then x.total_flights else 0)
  }

  /** Delay minutes (average times flights) of all routes to (city, country). */
  function MinutesTo(routes: seq<RouteMetric>, city: string, country: string): real
  {
    if routes == [] then 0.0
    else
      var x := Last(routes);
      MinutesTo(DropLast(routes), city, country) + (if AtPlace(x, city, country) then RouteUtils.DelayMinutes(x) else 0.0)
  }

  /** Entry `e` carries the totals of every route to its place. */
  ghost predicate Totals(routes: seq<RouteMetric>, e: TopDestination)
  {
    && e.total_flights == FlightsTo(routes, e.destination_city, e.destination_country)
    && e.avg_delay_minutes * e.total_flights as real == MinutesTo(routes, e.destination_city, e.destination_country)
  }

  function Place(e: TopDestination): (string, string) { (e.destination_city, e.destination_country) }

  ghost predicate PlacesDistinct(g: seq<TopDestination>)
  {
    forall i, j :: 0 <= i < j < |g| ==> Place(g[i]) != Place(g[j])
  }

  ghost predicate AllTotals(routes: seq<RouteMetric>, g: seq<TopDestination>)
  {
    forall j :: 0 <= j < |g| ==> Totals(routes, g[j])
  }

  /** Every route's destination has an entry. */
  ghost predicate Covers(routes: seq<RouteMetric>, g: seq<TopDestination>)
  {
    forall k :: 0 <= k < |routes| ==> FindKey(g, PairKey, RouteKey(routes[k], PairKey)) < |g|
  }

  /** Every entry is the destination of some route. */
  ghost predicate FromRoutes(routes: seq<RouteMetric>, g: seq<TopDestination>)
  {
    forall j :: 0 <= j < |g| ==> exists k :: 0 <= k < |routes| && RouteKey(routes[k], PairKey) == Place(g[j])
  }

  /** Grouping by the pair gives one entry per destination of the routes,
      each with the flights of all routes to it and their flight-weighted
      mean delay. */
  lemma {:induction false} GroupedByPairSpec(routes: seq<RouteMetric>)
    ensures var g := Grouped(routes, PairKey);
      PlacesDistinct(g) && AllTotals(routes, g) && Covers(routes, g) && FromRoutes(routes, g)
    decreases |routes|
  {
    if routes != [] {
      var d, x := DropLast(routes), Last(routes);
      assert routes == d + [x];
      GroupedByPairSpec(d);
      DistinctStep(d, x);
      TotalsStep(d, x);
      CoverStep(d, x);
      FromRoutesStep(d, x);
    }
  }

  /** Grouped after one more route, by cases. */
  lemma GroupedSnoc<K>(d: seq<RouteMetric>, x: RouteMetric, key: (string, string) -> K)
    ensures var g := Grouped(d, key);
      var i := FindKey(g, key, RouteKey(x, key));
      Grouped(d + [x], key) == if i < |g| then g[i := MergeRoute(g[i], x)] else g + [NewEntry(x)]
  {
    DropLastSnoc(d, x);
  }

  lemma DistinctStep(d: seq<RouteMetric>, x: RouteMetric)
    requires PlacesDistinct(Grouped(d, PairKey))
    ensures PlacesDistinct(Grouped(d + [x], PairKey))
  {
    var g := Grouped(d, PairKey);
    var g' := Grouped(d + [x], PairKey);
    GroupedSnoc(d, x, PairKey);
    assert forall m :: 0 <= m < |g| ==> EntryKey(g[m], PairKey) == Place(g[m]);
    assert forall m :: 0 <= m < |g| ==> Place(g'[m]) == Place(g[m]);
  }

  lemma CoverStep(d: seq<RouteMetric>, x: RouteMetric)
    requires Covers(d, Grouped(d, PairKey))
    ensures Covers(d + [x], Grouped(d + [x], PairKey))
  {
    var routes := d + [x];
    var g := Grouped(d, PairKey);
    var g' := Grouped(routes, PairKey);
    var kx := RouteKey(x, PairKey);
    GroupedSnoc(d, x, PairKey);
    forall k | 0 <= k < |routes| ensures FindKey(g', PairKey, RouteKey(routes[k], PairKey)) < |g'| {
      var rk := RouteKey(routes[k], PairKey);
      if FindKey(g, PairKey, kx) < |g| {
        FindKeySameKeys(g, g', PairKey, rk);
        if k < |d| { assert routes[k] == d[k]; }
      } else if k < |d| {
        assert routes[k] == d[k];
        FindKeyPrefix(g, NewEntry(x), PairKey, rk);
      } else {
        FindKeyPrefix(g, NewEntry(x), PairKey, kx);
      }
    }
  }

  lemma FromRoutesStep(d: seq<RouteMetric>, x: RouteMetric)
    requires FromRoutes(d, Grouped(d, PairKey))
    ensures FromRoutes(d + [x], Grouped(d + [x], PairKey))
  {
    var routes := d + [x];
    var g := Grouped(d, PairKey);
    var g' := Grouped(routes, PairKey);
    GroupedSnoc(d, x, PairKey);
    forall j | 0 <= j < |g'| ensures exists k :: 0 <= k < |routes| && RouteKey(routes[k], PairKey) == Place(g'[j]) {
      if j < |g| {
        var k :| 0 <= k < |d| && RouteKey(d[k], PairKey) == Place(g[j]);
        assert routes[k] == d[k];
        assert Place(g'[j]) == Place(g[j]);
      } else {
        assert RouteKey(routes[|d|], PairKey) == Place(g'[j]);
      }
    }
  }

  lemma TotalsStep(d: seq<RouteMetric>, x: RouteMetric)
    requires var g := Grouped(d, PairKey);
      PlacesDistinct(g) && AllTotals(d, g) && Covers(d, g)
    ensures AllTotals(d + [x], Grouped(d + [x], PairKey))
  {
    var g := Grouped(d, PairKey);
    GroupedSnoc(d, x, PairKey);
    var i := FindKey(g, PairKey, RouteKey(x, PairKey));
    if i < |g| {
      TotalsMergeCase(d, x, i);
    } else {
      TotalsNewCase(d, x);
    }
  }

  lemma TotalsMergeCase(d: seq<RouteMetric>, x: RouteMetric, i: nat)
    requires var g := Grouped(d, PairKey);
      PlacesDistinct(g) && AllTotals(d, g)
      && i == FindKey(g, PairKey, RouteKey(x, PairKey)) && i < |g|
    ensures var g := Grouped(d, PairKey);
      AllTotals(d + [x], g[i := MergeRoute(g[i], x)])
  {
    var g := Grouped(d, PairKey);
    var g' := g[i := MergeRoute(g[i], x)];
    assert Place(g[i]) == (x.destination_city, x.destination_country) by {
      assert EntryKey(g[i], PairKey) == Place(g[i]);
    }
    forall j | 0 <= j < |g'| ensures Totals(d + [x], g'[j]) {
      if j == i {
        MergedTotals(d, x, g[i]);
      } else {
        assert Place(g[j]) != Place(g[i]);
        OtherTotals(d, x, g[j]);
      }
    }
  }

  /** Merging a route into the entry of its place keeps the entry's totals. */
  lemma MergedTotals(d: seq<RouteMetric>, x: RouteMetric, e: TopDestination)
    requires Totals(d, e) && Place(e) == (x.destination_city, x.destination_country)
    ensures Totals(d + [x], MergeRoute(e, x))
  {
    PlaceTotalsSnoc(d, x, e.destination_city, e.destination_country);
    MergeTotals(d, x, e);
  }

  /** A route to another place leaves an entry's totals as they were. */
  lemma OtherTotals(d: seq<RouteMetric>, x: RouteMetric, e: TopDestination)
    requires Totals(d, e) && Place(e) != (x.destination_city, x.destination_country)
    ensures Totals(d + [x], e)
  {
    PlaceTotalsSnoc(d, x, e.destination_city, e.destination_country);
  }

  lemma TotalsNewCase(d: seq<RouteMetric>, x: RouteMetric)
    requires var g := Grouped(d, PairKey);
      AllTotals(d, g) && Covers(d, g)
      && FindKey(g, PairKey, RouteKey(x, PairKey)) == |g|
    ensures var g := Grouped(d, PairKey);
      AllTotals(d + [x], g + [NewEntry(x)])
  {
    var g := Grouped(d, PairKey);
    var g' := g + [NewEntry(x)];
    NewPlace(d, x, g);
    NewEntryTotals(d, x);
    forall j | 0 <= j < |g'| ensures Totals(d + [x], g'[j]) {
      if j < |g| {
        assert g'[j] == g[j];
        assert EntryKey(g[j], PairKey) == Place(g[j]);
        OtherTotals(d, x, g[j]);
      }
    }
  }

  /** One more route adds to the totals of its own place only. */
  lemma PlaceTotalsSnoc(d: seq<RouteMetric>, x: RouteMetric, city: string, country: string)
    ensures FlightsTo(d + [x], city, country) ==
      FlightsTo(d, city, country) + (if AtPlace(x, city, country) then x.total_flights else 0)
    ensures MinutesTo(d + [x], city, country) ==
      MinutesTo(d, city, country) + (if AtPlace(x, city, country) then RouteUtils.DelayMinutes(x) else 0.0)
  {
    DropLastSnoc(d, x);
  }

  /** A place no route goes to has no flights and no delay minutes. */
  /** The entry of a route to a place no earlier route goes to. */
  lemma NewEntryTotals(d: seq<RouteMetric>, x: RouteMetric)
    requires FlightsTo(d, x.destination_city, x.destination_country) == 0
    requires MinutesTo(d, x.destination_city, x.destination_country) == 0.0
    ensures Totals(d + [x], NewEntry(x))
  {
    PlaceTotalsSnoc(d, x, x.destination_city, x.destination_country);
  }

  /** A route whose place has no entry yet is the first route there. */
  lemma NewPlace(d: seq<RouteMetric>, x: RouteMetric, g: seq<TopDestination>)
    requires Covers(d, g) && FindKey(g, PairKey, RouteKey(x, PairKey)) == |g|
    ensures FlightsTo(d, x.destination_city, x.destination_country) == 0
    ensures MinutesTo(d, x.destination_city, x.destination_country) == 0.0
  {
    forall k | 0 <= k < |d| ensures !AtPlace(d[k], x.destination_city, x.destination_country) {
      assert FindKey(g, PairKey, RouteKey(d[k], PairKey)) < |g|;
    }
    NobodyThere(d, x.destination_city, x.destination_country);
  }

  lemma {:induction false} NobodyThere(d: seq<RouteMetric>, city: string, country: string)
    requires forall k :: 0 <= k < |d| ==> !AtPlace(d[k], city, country)
    ensures FlightsTo(d, city, country) == 0 && MinutesTo(d, city, country) == 0.0
    decreases |d|
  {
    if d != [] {
      assert !AtPlace(d[|d| - 1], city, country);
      NobodyThere(DropLast(d), city, country);
    }
  }

  /** Merging a route into an entry that carries the totals of the earlier
      routes gives the totals with the route included. */
  lemma MergeTotals(d: seq<RouteMetric>, x: RouteMetric, e: TopDestination)
    requires Totals(d, e)
    requires e.destination_city == x.destination_city && e.destination_country == x.destination_country
    ensures MergeRoute(e, x).total_flights == FlightsTo(d, e.destination_city, e.destination_country) + x.total_flights
    ensures MergeRoute(e, x).avg_delay_minutes * MergeRoute(e, x).total_flights as real
      == MinutesTo(d, e.destination_city, e.destination_country) + RouteUtils.DelayMinutes(x)
  {
    MergedMean(e, x, MinutesTo(d, e.destination_city, e.destination_country));
  }

  /** Merging a route into an entry whose minutes are `m`. */
  lemma MergedMean(e: TopDestination, x: RouteMetric, m: real)
    requires e.avg_delay_minutes * e.total_flights as real == m
    ensures MergeRoute(e, x).avg_delay_minutes * MergeRoute(e, x).total_flights as real == m + RouteUtils.DelayMinutes(x)
  {
    var et, xt := e.total_flights as real, x.total_flights as real;
    var r := MergeRoute(e, x);
    var total := e.total_flights + x.total_flights;
    var weighted := e.avg_delay_minutes * e.total_flights as real + x.avg_delay_minutes * x.total_flights as real;
    assert r.avg_delay_minutes == if total > 0 then weighted / total as real else 0.0;
    MergeMean(e.avg_delay_minutes, et, x.avg_delay_minutes, xt, m, weighted, total as real, r.avg_delay_minutes);
  }

  /** The merged mean, times the merged weight, is the old total plus the
      new route's minutes. */
  lemma MergeMean(ea: real, et: real, xa: real, xt: real, m: real, w: real, t: real, r: real)
    requires et >= 0.0 && xt >= 0.0 && ea * et == m
    requires w == ea * et + xa * xt && t == et + xt
    requires r == if t > 0.0 then w / t else 0.0
    ensures r * t == m + xa * xt
  {
    if t == 0.0 {
      assert et == 0.0 && xt == 0.0;
      assert ea * et == 0.0 && xa * xt == 0.0;
    }
  }

  /** Changing entries without changing their keys does not move FindKey. */
  lemma {:induction false} FindKeySameKeys<K>(g: seq<TopDestination>, g': seq<TopDestination>, key: (string, string) -> K, k: K)
    requires |g| == |g'| && forall m :: 0 <= m < |g| ==> EntryKey(g[m], key) == EntryKey(g'[m], key)
    ensures FindKey(g, key, k) == FindKey(g', key, k)
    decreases |g|
  {
    if g != [] && EntryKey(g[0], key) != k {
      FindKeySameKeys(g[1..], g'[1..], key, k);
    }
  }

  /** Appending an entry keeps a key that was found, and finds the new
      entry's key. */
  lemma FindKeyPrefix<K>(g: seq<TopDestination>, e: TopDestination, key: (string, string) -> K, k: K)
    requires FindKey(g, key, k) < |g| || EntryKey(e, key) == k
    ensures FindKey(g + [e], key, k) < |g| + 1
  {
    if FindKey(g, key, k) < |g| {
      assert (g + [e])[FindKey(g, key, k)] == g[FindKey(g, key, k)];
    } else {
      assert (g + [e])[|g|] == e;
    }
  }

  /** The intended ranking: each ranked destination names a place and
      carries the totals of all routes to it, most flights first. */
  lemma TopDestinationsFromRoutesSpec(routes: seq<RouteMetric>, limit: int)
    ensures var r := TopFromGroups(Grouped(routes, PairKey), limit);
      && (limit >= 0 ==> |r| <= limit)
      && (forall i, j :: 0 <= i < j < |r| ==> r[i].total_flights >= r[j].total_flights)
      && (forall i :: 0 <= i < |r| ==> r[i].rank == Some((i + 1) as real) && HasPlace(r[i]))
      && AllTotals(routes, r)
  {
    var g := Grouped(routes, PairKey);
    TopFromGroupsSpec(g, limit);
    GroupedByPairSpec(routes);
    forall i | 0 <= i < |TopFromGroups(g, limit)| ensures Totals(routes, TopFromGroups(g, limit)[i]) {
      RankedTotals(routes, g, limit, i);
    }
  }

  lemma RankedTotals(routes: seq<RouteMetric>, g: seq<TopDestination>, limit: int, i: nat)
    requires AllTotals(routes, g)
    requires i < |TopFromGroups(g, limit)|
    ensures Totals(routes, TopFromGroups(g, limit)[i])
  {
    var e := TopFromGroups(g, limit)[i];
    TopFromGroupsFrom(g, limit, i);
    var k :| 0 <= k < |g| && SameEntry(e, g[k]);
    TotalsOfSame(routes, e, g[k]);
  }

  lemma TotalsOfSame(routes: seq<RouteMetric>, a: TopDestination, b: TopDestination)
    requires SameEntry(a, b) && Totals(routes, b)
    ensures Totals(routes, a)
  {
  }

  // ----- The `__` key collision -----

  function CollisionRouteA(): RouteMetric
  {
    RouteMetric("AEP", "", "", "", "X", "", "A__B", "C", "AR", "", "", "", 1, 1, 0, 0, 1, 0.0, 100.0, 0.0, 0.0)
  }

  function CollisionRouteB(): RouteMetric
  {
    RouteMetric("AEP", "", "", "", "Y", "", "A", "B__C", "AR", "", "", "", 1, 1, 0, 0, 1, 0.0, 100.0, 0.0, 0.0)
  }

  /** As written, routes to city "A__B" in "C" and to city "A" in "B__C"
      share the key "A__B__C": a single entry for "A__B", "C" claims both
      routes' flights, and the destination "A", "B__C" disappears. */
  lemma ConcatKeyCollision()
    ensures var routes := [CollisionRouteA(), CollisionRouteB()];
      var g := Grouped(routes, ConcatKey);
      && |g| == 1
      && Place(g[0]) == ("A__B", "C")
      && g[0].total_flights == 2
      && FlightsTo(routes, "A__B", "C") == 1
  {
    CollisionGrouped();
    CollisionFlights();
  }

  lemma CollisionGrouped()
    ensures Grouped([CollisionRouteA(), CollisionRouteB()], ConcatKey)
      == [MergeRoute(NewEntry(CollisionRouteA()), CollisionRouteB())]
  {
    var a, b := CollisionRouteA(), CollisionRouteB();
    assert ConcatKey("A__B", "C") == ConcatKey("A", "B__C");
    GroupedSnoc([], a, ConcatKey);
    assert [] + [a] == [a];
    assert Grouped([], ConcatKey) == [];
    var g1 := Grouped([a], ConcatKey);
    assert g1 == [NewEntry(a)];
    assert FindKey(g1, ConcatKey, RouteKey(b, ConcatKey)) == 0;
    GroupedSnoc([a], b, ConcatKey);
    assert [a] + [b] == [a, b];
  }

  lemma CollisionFlights()
    ensures FlightsTo([CollisionRouteA(), CollisionRouteB()], "A__B", "C") == 1
  {
    var a, b := CollisionRouteA(), CollisionRouteB();
    assert [] + [a] == [a];
    assert [a] + [b] == [a, b];
    PlaceTotalsSnoc([a], b, "A__B", "C");
    PlaceTotalsSnoc([], a, "A__B", "C");
  }

  /** Keyed by the pair, the same two routes stay two destinations. */
  lemma PairKeyNoCollision()
    ensures var routes := [CollisionRouteA(), CollisionRouteB()];
      |Grouped(routes, PairKey)| == 2
  {
    var a, b := CollisionRouteA(), CollisionRouteB();
    GroupedSnoc([], a, PairKey);
    assert [] + [a] == [a];
    assert Grouped([], PairKey) == [];
    var g1 := Grouped([a], PairKey);
    assert g1 == [NewEntry(a)];
    assert FindKey(g1, PairKey, RouteKey(b, PairKey)) == 1;
    GroupedSnoc([a], b, PairKey);
    assert [a] + [b] == [a, b];
  }

  // ----- getTopDelays / getTopEarly -----

  predicate RankLe(a: TopRecord, b: TopRecord) { RankOf(a) <= RankOf(b) }

  function OfKind(kind: RecordType): TopRecord -> bool
  {
    (t: TopRecord) => t.record_type == kind
  }

  /** The rows of one kind ordered by `(rank ?? 0)`. */
  function RankedOfKind(tops: seq<TopRecord>, kind: RecordType): seq<TopRecord>
  {
    SortBy(Filter(tops, OfKind(kind)), RankLe)
  }

  /** `getTopDelays`. */
  function GetTopDelays(tops: seq<TopRecord>): seq<TopRecord>
  {
    RankedOfKind(tops, TopDelayRow)
  }

  /** `getTopEarly`. */
  function GetTopEarly(tops: seq<TopRecord>): seq<TopRecord>
  {
    RankedOfKind(tops, TopEarlyRow)
  }

  /** The result holds every row of the kind as often as the input does and
      no other row, in ascending `rank ?? 0`. */
  lemma RankedOfKindSpec(tops: seq<TopRecord>, kind: RecordType, t: TopRecord)
    ensures var r := RankedOfKind(tops, kind);
      && multiset(r)[t] == (if t.record_type == kind then multiset(tops)[t] else 0)
      && (forall i, j :: 0 <= i < j < |r| ==> RankOf(r[i]) <= RankOf(r[j]))
  {
    AscendingByKey(RankLe, RankOf);
    SortBySorted(Filter(tops, OfKind(kind)), RankLe);
    FilterCount(tops, OfKind(kind), t);
  }

  // ----- getUniqueCountries / getUniqueCities -----

  function DestinationCountry(d: TopDestination): string { d.destination_country }
  function DestinationCity(d: TopDestination): string { d.destination_city }

  /** `getUniqueCountries`: every country once, in `sort()` order. */
  function GetUniqueCountries(destinations: seq<TopDestination>): seq<string>
  {
    UniqueSorted(Map(destinations, DestinationCountry), AnyString)
  }

  /** `getUniqueCities`: the cities of the given country (of every
      destination when the country is absent or empty), once each, sorted. */
  function GetUniqueCities(destinations: seq<TopDestination>, country: Option<string>): seq<string>
  {
    var filtered := if country.Some? && country.value != "" then
      Filter(destinations, (d: TopDestination) => d.destination_country == country.value)
    else destinations;
    UniqueSorted(Map(filtered, DestinationCity), AnyString)
  }

  lemma GetUniqueCountriesSpec(destinations: seq<TopDestination>, x: string)
    ensures var r := GetUniqueCountries(destinations);
      && (x in r <==> exists k :: 0 <= k < |destinations| && destinations[k].destination_country == x)
      && (forall i, j :: 0 <= i < j < |r| ==> LexLe(r[i], r[j]) && r[i] != r[j])
  {
    var all := (d: TopDestination) => true;
    UniqueSortedSpec(Map(destinations, DestinationCountry), AnyString);
    FilterAll(destinations, all);
    MapFilterMember(destinations, all, DestinationCountry, x);
  }

  predicate InCountry(d: TopDestination, city: string, active: bool, country: Option<string>)
  {
    d.destination_city == city && (!active || (country.Some? && d.destination_country == country.value))
  }

  lemma GetUniqueCitiesSpec(destinations: seq<TopDestination>, country: Option<string>, x: string)
    ensures var r := GetUniqueCities(destinations, country);
      var active := country.Some? && country.value != "";
      && (x in r <==> exists k :: 0 <= k < |destinations| && InCountry(destinations[k], x, active, country))
      && (forall i, j :: 0 <= i < j < |r| ==> LexLe(r[i], r[j]) && r[i] != r[j])
  {
    var active := country.Some? && country.value != "";
    var p := if active then (d: TopDestination) => d.destination_country == country.value
      else (d: TopDestination) => true;
    var filtered := if active then
      Filter(destinations, (d: TopDestination) => d.destination_country == country.value)
    else destinations;
    if !active {
      FilterAll(destinations, p);
    }
    assert filtered == Filter(destinations, p);
    UniqueSortedSpec(Map(filtered, DestinationCity), AnyString);
    MapFilterMember(destinations, p, DestinationCity, x);
  }
}
