/** Route filtering and aggregation over route metrics (lib/route-utils.ts):
    the normalised filters, the option lists built from them and the totals
    with a flight-weighted average delay. */
module RouteUtils {
  import opened Wrappers
  import opened Seqs
  import opened Strings
  import opened Types

  datatype RouteOrigin = RouteOrigin(code: string, name: string, city: string)

  datatype RouteAirline = RouteAirline(code: string, name: string)

  datatype RouteTotals = RouteTotals(
    totalFlights: nat,
    totalOnTime: nat,
    totalDelayed: nat,
    totalCancelled: nat,
    avgDelayMinutes: real)

  /** The optional filters; `None` is an absent property. */
  datatype RouteFilters = RouteFilters(
    origin: Option<string>,
    country: Option<string>,
    city: Option<string>,
    airline: Option<string>)

  /** `normalizeText`: trimmed and lower-cased, "" when absent. */
  function NormalizeText(value: Option<string>): string
  {
    match value
    case None => ""
    case Some(v) => ToLower(Trim(v))
  }

  /** `normalizeCode`: trimmed and upper-cased, "" when absent. */
  function NormalizeCode(value: Option<string>): string
  {
    match value
    case None => ""
    case Some(v) => ToUpper(Trim(v))
  }

  /** Normalising twice is normalising once. */
  lemma NormalizeIdempotent(v: string)
    ensures NormalizeCode(Some(NormalizeCode(Some(v)))) == NormalizeCode(Some(v))
    ensures NormalizeText(Some(NormalizeText(Some(v)))) == NormalizeText(Some(v))
  {
    TrimUpperIdempotent(v);
    TrimLowerIdempotent(v);
  }

  function OriginKey(r: RouteMetric): string { NormalizeCode(Some(r.origin_airport_code)) }
  function CountryKey(r: RouteMetric): string { NormalizeText(Some(r.destination_country)) }
  function CityKey(r: RouteMetric): string { NormalizeText(Some(r.destination_city)) }
  function AirlineKey(r: RouteMetric): string { NormalizeCode(Some(r.airline_code)) }

  // ----- filterRoutes -----

  /** `filterRoutes`: the four conditional `filter` stages in source order. */
  function FilterRoutes(routes: seq<RouteMetric>, filters: RouteFilters): seq<RouteMetric>
  {
    var originFilter := NormalizeCode(filters.origin);
    var countryFilter := NormalizeText(filters.country);
    var cityFilter := NormalizeText(filters.city);
    var airlineFilter := NormalizeCode(filters.airline);
    var f1 := FilterIf(routes, originFilter != "", (r: RouteMetric) => OriginKey(r) == originFilter);
    var f2 := FilterIf(f1, countryFilter != "", (r: RouteMetric) => CountryKey(r) == countryFilter);
    var f3 := FilterIf(f2, cityFilter != "", (r: RouteMetric) => CityKey(r) == cityFilter);
    FilterIf(f3, airlineFilter != "", (r: RouteMetric) => AirlineKey(r) == airlineFilter)
  }

  /** A route passes every non-empty normalised filter. */
  predicate Matches(filters: RouteFilters, r: RouteMetric)
  {
    var o, c, ci, a := NormalizeCode(filters.origin), NormalizeText(filters.country),
      NormalizeText(filters.city), NormalizeCode(filters.airline);
    && (o == "" || OriginKey(r) == o)
    && (c == "" || CountryKey(r) == c)
    && (ci == "" || CityKey(r) == ci)
    && (a == "" || AirlineKey(r) == a)
  }

  /** The chain of stages is a single filter by Matches. */
  lemma FilterRoutesIsFilter(routes: seq<RouteMetric>, filters: RouteFilters)
    ensures FilterRoutes(routes, filters) == Filter(routes, (r: RouteMetric) => Matches(filters, r))
  {
    var o, c, ci, a := NormalizeCode(filters.origin), NormalizeText(filters.country),
      NormalizeText(filters.city), NormalizeCode(filters.airline);
    var p0 := (r: RouteMetric) => true;
    var p1 := (r: RouteMetric) => o == "" || OriginKey(r) == o;
    var p2 := (r: RouteMetric) => p1(r) && (c == "" || CountryKey(r) == c);
    var p3 := (r: RouteMetric) => p2(r) && (ci == "" || CityKey(r) == ci);
    var p4 := (r: RouteMetric) => Matches(filters, r);
    FilterAll(routes, p0);
    FilterIfFilter(routes, p0, o != "", (r: RouteMetric) => OriginKey(r) == o, p1);
    FilterIfFilter(routes, p1, c != "", (r: RouteMetric) => CountryKey(r) == c, p2);
    FilterIfFilter(routes, p2, ci != "", (r: RouteMetric) => CityKey(r) == ci, p3);
    FilterIfFilter(routes, p3, a != "", (r: RouteMetric) => AirlineKey(r) == a, p4);
  }

  /** filterRoutes keeps, in order, exactly the routes that pass every
      non-empty normalised filter. */
  lemma FilterRoutesSpec(routes: seq<RouteMetric>, filters: RouteFilters)
    ensures var r := FilterRoutes(routes, filters);
      && Subseq(r, routes)
      && (forall i :: 0 <= i < |r| ==> Matches(filters, r[i]))
      && (forall i :: 0 <= i < |routes| ==> (routes[i] in r <==> Matches(filters, routes[i])))
  {
    FilterRoutesIsFilter(routes, filters);
  }

  /** With every filter absent or blank the input comes back unchanged. */
  lemma FilterRoutesNoFilters(routes: seq<RouteMetric>, filters: RouteFilters)
    requires NormalizeCode(filters.origin) == "" && NormalizeText(filters.country) == ""
    requires NormalizeText(filters.city) == "" && NormalizeCode(filters.airline) == ""
    ensures FilterRoutes(routes, filters) == routes
  {
  }

  /** Filtering an already filtered list with the same filters changes
      nothing. */
  lemma FilterRoutesIdempotent(routes: seq<RouteMetric>, filters: RouteFilters)
    ensures FilterRoutes(FilterRoutes(routes, filters), filters) == FilterRoutes(routes, filters)
  {
    var m := (r: RouteMetric) => Matches(filters, r);
    var once := FilterRoutes(routes, filters);
    FilterRoutesIsFilter(routes, filters);
    FilterRoutesIsFilter(once, filters);
    FilterAll(once, m);
  }

  // ----- getUniqueOrigins -----

  function ToOrigin(r: RouteMetric): RouteOrigin
  {
    RouteOrigin(OriginKey(r), r.origin_airport_name, r.origin_city)
  }

  /** The `origins` map's values: one entry per non-empty normalised code,
      made from the first route with that code. */
  function UniqueOrigins(routes: seq<RouteMetric>): seq<RouteOrigin>
  {
    Map(KeepFirst(routes, OriginKey, ""), ToOrigin)
  }

  /** `getUniqueOrigins`: the loop that fills the `origins` map. */
  method GetUniqueOrigins(routes: seq<RouteMetric>) returns (origins: seq<RouteOrigin>)
    ensures origins == UniqueOrigins(routes)
  {
    origins := [];
    var seen: set<string> := {};
    for i := 0 to |routes|
      invariant origins == UniqueOrigins(routes[..i])
      invariant seen == KeySet(routes[..i], OriginKey) - {""}
    {
      var route := routes[i];
      var code := NormalizeCode(Some(route.origin_airport_code));
      OriginStep(routes, i, seen);
      if code != "" {
        if code !in seen {
          origins := origins + [RouteOrigin(code, route.origin_airport_name, route.origin_city)];
          seen := seen + {code};
        }
      }
    }
    assert routes[..|routes|] == routes;
  }

  lemma OriginStep(routes: seq<RouteMetric>, i: nat, seen: set<string>)
    requires i < |routes|
    requires seen == KeySet(routes[..i], OriginKey) - {""}
    ensures var x := routes[i];
      var novel := OriginKey(x) != "" && OriginKey(x) !in seen;
      && UniqueOrigins(routes[..i + 1]) == UniqueOrigins(routes[..i]) + (if novel then [ToOrigin(x)] else [])
      && KeySet(routes[..i + 1], OriginKey) - {""} == if novel then seen + {OriginKey(x)} else seen
  {
    assert routes[..i + 1] == routes[..i] + [routes[i]];
    KeySetSnoc(routes[..i], routes[i], OriginKey);
    MapKeepFirstSnoc(routes[..i], routes[i], OriginKey, "", ToOrigin);
  }

  /** `o` is built from the first route whose normalised code is o's code. */
  predicate FromFirstOrigin(routes: seq<RouteMetric>, o: RouteOrigin)
  {
    exists i :: 0 <= i < |routes| && OriginKey(routes[i]) == o.code
      && o.name == routes[i].origin_airport_name && o.city == routes[i].origin_city
      && forall i' :: 0 <= i' < i ==> OriginKey(routes[i']) != o.code
  }

  /** Origins have distinct, non-empty, normalised codes; every route with a
      non-blank code is represented; and each entry is built from the first
      route with its code. */
  lemma UniqueOriginsSpec(routes: seq<RouteMetric>)
    ensures var os := UniqueOrigins(routes);
      && (forall i, j :: 0 <= i < j < |os| ==> os[i].code != os[j].code)
      && (forall i :: 0 <= i < |os| ==> os[i].code != "" && NormalizeCode(Some(os[i].code)) == os[i].code)
      && (forall k :: 0 <= k < |routes| && OriginKey(routes[k]) != "" ==>
            exists i :: 0 <= i < |os| && os[i].code == OriginKey(routes[k]))
      && (forall j :: 0 <= j < |os| ==> FromFirstOrigin(routes, os[j]))
  {
    OriginsDistinct(routes);
    forall k | 0 <= k < |routes| && OriginKey(routes[k]) != ""
      ensures exists i :: 0 <= i < |UniqueOrigins(routes)| && UniqueOrigins(routes)[i].code == OriginKey(routes[k])
    {
      OriginCovered(routes, k);
    }
    forall j | 0 <= j < |UniqueOrigins(routes)| ensures FromFirstOrigin(routes, UniqueOrigins(routes)[j]) {
      OriginFromFirst(routes, j);
    }
  }

  lemma OriginsDistinct(routes: seq<RouteMetric>)
    ensures var os := UniqueOrigins(routes);
      && (forall i, j :: 0 <= i < j < |os| ==> os[i].code != os[j].code)
      && (forall i :: 0 <= i < |os| ==> os[i].code != "" && NormalizeCode(Some(os[i].code)) == os[i].code)
  {
    var kept := KeepFirst(routes, OriginKey, "");
    var os := Map(kept, ToOrigin);
    KeepFirstDistinct(routes, OriginKey, "");
    assert forall i :: 0 <= i < |os| ==> os[i].code == OriginKey(kept[i]);
    forall i | 0 <= i < |os| ensures NormalizeCode(Some(os[i].code)) == os[i].code {
      NormalizeIdempotent(kept[i].origin_airport_code);
    }
  }

  lemma OriginCovered(routes: seq<RouteMetric>, k: nat)
    requires k < |routes| && OriginKey(routes[k]) != ""
    ensures exists i :: 0 <= i < |UniqueOrigins(routes)| && UniqueOrigins(routes)[i].code == OriginKey(routes[k])
  {
    var kept := KeepFirst(routes, OriginKey, "");
    KeepFirstCovers(routes, OriginKey, "", k);
    var i :| 0 <= i < |kept| && OriginKey(kept[i]) == OriginKey(routes[k]);
    assert UniqueOrigins(routes)[i].code == OriginKey(routes[k]);
  }

  lemma OriginFromFirst(routes: seq<RouteMetric>, j: nat)
    requires j < |UniqueOrigins(routes)|
    ensures FromFirstOrigin(routes, UniqueOrigins(routes)[j])
  {
    var kept := KeepFirst(routes, OriginKey, "");
    KeepFirstIsFirst(routes, OriginKey, "", j);
    var i :| 0 <= i < |routes| && routes[i] == kept[j] && forall i' :: 0 <= i' < i ==> OriginKey(routes[i']) != OriginKey(kept[j]);
    assert UniqueOrigins(routes)[j] == ToOrigin(routes[i]);
  }

  /** Origins come in the order their codes first appear: entry i's code
      occurs before the first route carrying entry j's code. */
  lemma UniqueOriginsOrdered(routes: seq<RouteMetric>, i: nat, j: nat)
    requires i < j < |UniqueOrigins(routes)|
    ensures var os := UniqueOrigins(routes);
      exists p, q :: 0 <= q < p < |routes| && OriginKey(routes[q]) == os[i].code
        && OriginKey(routes[p]) == os[j].code
        && forall p' :: 0 <= p' < p ==> OriginKey(routes[p']) != os[j].code
  {
    KeepFirstOrdered(routes, OriginKey, "", i, j);
  }

  // ----- getUniqueCountries / getUniqueCities -----

  function TrimmedCountry(r: RouteMetric): string { Trim(r.destination_country) }
  function TrimmedCity(r: RouteMetric): string { Trim(r.destination_city) }
  predicate NonEmpty(s: string) { |s| > 0 }

  /** `getUniqueCountries`: the filter by normalised origin is the origin
      stage of filterRoutes (the other stages are inactive). */
  function GetUniqueCountries(routes: seq<RouteMetric>, originCode: Option<string>): seq<string>
  {
    var filtered := FilterRoutes(routes, RouteFilters(originCode, None, None, None));
    UniqueSorted(Map(filtered, TrimmedCountry), NonEmpty)
  }

  /** `getUniqueCities`, with the origin and country stages. */
  function GetUniqueCities(routes: seq<RouteMetric>, originCode: Option<string>, country: Option<string>): seq<string>
  {
    var filtered := FilterRoutes(routes, RouteFilters(originCode, country, None, None));
    UniqueSorted(Map(filtered, TrimmedCity), NonEmpty)
  }

  /** A value is among the mapped filtered routes iff some route passing the
      filters maps to it. */
  lemma MappedFilteredMember(routes: seq<RouteMetric>, filters: RouteFilters, field: RouteMetric -> string, x: string)
    ensures x in Map(FilterRoutes(routes, filters), field) <==>
      exists i :: 0 <= i < |routes| && Matches(filters, routes[i]) && field(routes[i]) == x
  {
    var m := (r: RouteMetric) => Matches(filters, r);
    FilterRoutesIsFilter(routes, filters);
    MapFilterMember(routes, m, field, x);
  }

  /** A value is listed iff it is the non-empty field of some route passing
      the filters; the list is strictly ascending. */
  lemma UniqueFieldSpec(routes: seq<RouteMetric>, filters: RouteFilters, field: RouteMetric -> string, x: string)
    ensures var r := UniqueSorted(Map(FilterRoutes(routes, filters), field), NonEmpty);
      && (x in r <==> x != "" && exists i :: 0 <= i < |routes| && Matches(filters, routes[i]) && field(routes[i]) == x)
      && (forall i, j :: 0 <= i < j < |r| ==> LexLe(r[i], r[j]) && r[i] != r[j])
  {
    UniqueSortedSpec(Map(FilterRoutes(routes, filters), field), NonEmpty);
    MappedFilteredMember(routes, filters, field, x);
  }

  /** getUniqueCountries lists the trimmed, non-empty destination countries
      of the routes from the given origin, once each, ascending. */
  lemma GetUniqueCountriesSpec(routes: seq<RouteMetric>, originCode: Option<string>, x: string)
    ensures var r := GetUniqueCountries(routes, originCode);
      var f := RouteFilters(originCode, None, None, None);
      && (x in r <==> x != "" && exists i :: 0 <= i < |routes| && Matches(f, routes[i]) && Trim(routes[i].destination_country) == x)
      && (x in r ==> Trim(x) == x)
      && (forall i, j :: 0 <= i < j < |r| ==> LexLe(r[i], r[j]) && r[i] != r[j])
  {
    var f := RouteFilters(originCode, None, None, None);
    UniqueFieldSpec(routes, f, TrimmedCountry, x);
    if x in GetUniqueCountries(routes, originCode) {
      var i :| 0 <= i < |routes| && Matches(f, routes[i]) && Trim(routes[i].destination_country) == x;
      TrimIdempotent(routes[i].destination_country);
    }
  }

  /** getUniqueCities lists the trimmed, non-empty destination cities of the
      routes passing the origin and country filters, once each, ascending. */
  lemma GetUniqueCitiesSpec(routes: seq<RouteMetric>, originCode: Option<string>, country: Option<string>, x: string)
    ensures var r := GetUniqueCities(routes, originCode, country);
      var f := RouteFilters(originCode, country, None, None);
      && (x in r <==> x != "" && exists i :: 0 <= i < |routes| && Matches(f, routes[i]) && Trim(routes[i].destination_city) == x)
      && (x in r ==> Trim(x) == x)
      && (forall i, j :: 0 <= i < j < |r| ==> LexLe(r[i], r[j]) && r[i] != r[j])
  {
    var f := RouteFilters(originCode, country, None, None);
    UniqueFieldSpec(routes, f, TrimmedCity, x);
    if x in GetUniqueCities(routes, originCode, country) {
      var i :| 0 <= i < |routes| && Matches(f, routes[i]) && Trim(routes[i].destination_city) == x;
      TrimIdempotent(routes[i].destination_city);
    }
  }

  // ----- getUniqueAirlines -----

  function RawAirline(r: RouteMetric): string { r.airline_code }
  function ToAirline(r: RouteMetric): RouteAirline { RouteAirline(r.airline_code, r.airline_name) }

  /** The `airlines` map's values: one entry per non-empty (raw) airline code
      among the filtered routes, named from the first such route. */
  function UniqueAirlines(routes: seq<RouteMetric>, originCode: Option<string>, country: Option<string>, city: Option<string>): seq<RouteAirline>
  {
    Map(KeepFirst(FilterRoutes(routes, RouteFilters(originCode, country, city, None)), RawAirline, ""), ToAirline)
  }

  /** `getUniqueAirlines`: the three filter stages, then the loop that fills
      the `airlines` map. */
  method GetUniqueAirlines(routes: seq<RouteMetric>, originCode: Option<string>, country: Option<string>, city: Option<string>)
    returns (airlines: seq<RouteAirline>)
    ensures airlines == UniqueAirlines(routes, originCode, country, city)
  {
    var filtered := FilterRoutes(routes, RouteFilters(originCode, country, city, None));
    airlines := [];
    var seen: set<string> := {};
    for i := 0 to |filtered|
      invariant airlines == Map(KeepFirst(filtered[..i], RawAirline, ""), ToAirline)
      invariant seen == KeySet(filtered[..i], RawAirline) - {""}
    {
      var route := filtered[i];
      AirlineStep(filtered, i, seen);
      if route.airline_code != "" {
        if route.airline_code !in seen {
          airlines := airlines + [RouteAirline(route.airline_code, route.airline_name)];
          seen := seen + {route.airline_code};
        }
      }
    }
    assert filtered[..|filtered|] == filtered;
  }

  lemma AirlineStep(rows: seq<RouteMetric>, i: nat, seen: set<string>)
    requires i < |rows|
    requires seen == KeySet(rows[..i], RawAirline) - {""}
    ensures var x := rows[i];
      var novel := x.airline_code != "" && x.airline_code !in seen;
      && Map(KeepFirst(rows[..i + 1], RawAirline, ""), ToAirline)
         == Map(KeepFirst(rows[..i], RawAirline, ""), ToAirline) + (if novel then [ToAirline(x)] else [])
      && KeySet(rows[..i + 1], RawAirline) - {""} == if novel then seen + {x.airline_code} else seen
  {
    assert rows[..i + 1] == rows[..i] + [rows[i]];
    KeySetSnoc(rows[..i], rows[i], RawAirline);
    MapKeepFirstSnoc(rows[..i], rows[i], RawAirline, "", ToAirline);
  }

  /** `a` carries the name of the first route with its code. */
  predicate FromFirstAirline(routes: seq<RouteMetric>, a: RouteAirline)
  {
    exists i :: 0 <= i < |routes| && routes[i].airline_code == a.code && a.name == routes[i].airline_name
      && forall i' :: 0 <= i' < i ==> routes[i'].airline_code != a.code
  }

  /** Airline entries have distinct non-empty codes, cover every coded route
      passing the filters, and carry the name of the first such route with
      that code. */
  lemma UniqueAirlinesSpec(routes: seq<RouteMetric>, originCode: Option<string>, country: Option<string>, city: Option<string>)
    ensures var f := RouteFilters(originCode, country, city, None);
      var al := UniqueAirlines(routes, originCode, country, city);
      && (forall i, j :: 0 <= i < j < |al| ==> al[i].code != al[j].code)
      && (forall i :: 0 <= i < |al| ==> al[i].code != "")
      && (forall k :: 0 <= k < |routes| && Matches(f, routes[k]) && routes[k].airline_code != "" ==>
            exists i :: 0 <= i < |al| && al[i].code == routes[k].airline_code)
      && (forall j :: 0 <= j < |al| ==> FromFirstAirline(FilterRoutes(routes, f), al[j]))
  {
    var f := RouteFilters(originCode, country, city, None);
    var filtered := FilterRoutes(routes, f);
    KeepFirstDistinct(filtered, RawAirline, "");
    var al := UniqueAirlines(routes, originCode, country, city);
    assert forall i :: 0 <= i < |al| ==> al[i].code == RawAirline(KeepFirst(filtered, RawAirline, "")[i]);
    forall k | 0 <= k < |routes| && Matches(f, routes[k]) && routes[k].airline_code != ""
      ensures exists i :: 0 <= i < |al| && al[i].code == routes[k].airline_code
    {
      AirlineCovered(routes, f, k);
    }
    forall j | 0 <= j < |al| ensures FromFirstAirline(filtered, al[j]) {
      AirlineFromFirst(filtered, j);
    }
  }

  lemma AirlineCovered(routes: seq<RouteMetric>, f: RouteFilters, k: nat)
    requires k < |routes| && Matches(f, routes[k]) && routes[k].airline_code != ""
    ensures var al := Map(KeepFirst(FilterRoutes(routes, f), RawAirline, ""), ToAirline);
      exists i :: 0 <= i < |al| && al[i].code == routes[k].airline_code
  {
    var filtered := FilterRoutes(routes, f);
    var kept := KeepFirst(filtered, RawAirline, "");
    FilterRoutesSpec(routes, f);
    assert routes[k] in filtered;
    var k2 :| 0 <= k2 < |filtered| && filtered[k2] == routes[k];
    KeepFirstCovers(filtered, RawAirline, "", k2);
    var i :| 0 <= i < |kept| && RawAirline(kept[i]) == RawAirline(filtered[k2]);
    assert Map(kept, ToAirline)[i].code == routes[k].airline_code;
  }

  lemma AirlineFromFirst(rows: seq<RouteMetric>, j: nat)
    requires j < |KeepFirst(rows, RawAirline, "")|
    ensures FromFirstAirline(rows, Map(KeepFirst(rows, RawAirline, ""), ToAirline)[j])
  {
    var kept := KeepFirst(rows, RawAirline, "");
    KeepFirstIsFirst(rows, RawAirline, "", j);
    var i :| 0 <= i < |rows| && rows[i] == kept[j] && forall i' :: 0 <= i' < i ==> RawAirline(rows[i']) != RawAirline(kept[j]);
    assert Map(kept, ToAirline)[j] == ToAirline(rows[i]);
  }

  // ----- aggregateRoutes -----

  function Flights(r: RouteMetric): nat { r.total_flights }
  function OnTime(r: RouteMetric): nat { r.total_on_time_flights }
  function Delayed(r: RouteMetric): nat { r.total_delayed_flights }
  function Cancelled(r: RouteMetric): nat { r.total_cancelled_flights }
  /** A route's delay minutes: its average delay weighted by its flights. */
  function DelayMinutes(r: RouteMetric): real { r.avg_delay_minutes * r.total_flights as real }

  /** The totals aggregateRoutes promises: field sums and the flight-weighted
      mean delay, 0 when there are no flights. */
  function Aggregate(routes: seq<RouteMetric>): RouteTotals
  {
    var flights := SumNat(routes, Flights);
    RouteTotals(
      flights,
      SumNat(routes, OnTime),
      SumNat(routes, Delayed),
      SumNat(routes, Cancelled),
      if flights > 0 then SumReal(routes, DelayMinutes) / flights as real else 0.0)
  }

  /** `aggregateRoutes`: the `reduce` that adds each route into the
      accumulator, then the guarded division. */
  method AggregateRoutes(routes: seq<RouteMetric>) returns (totals: RouteTotals)
    ensures totals == Aggregate(routes)
  {
    var totalFlights, totalOnTime, totalDelayed, totalCancelled: nat := 0, 0, 0, 0;
    var totalDelayMinutes := 0.0;
    for i := 0 to |routes|
      invariant totalFlights == SumNat(routes[..i], Flights)
      invariant totalOnTime == SumNat(routes[..i], OnTime)
      invariant totalDelayed == SumNat(routes[..i], Delayed)
      invariant totalCancelled == SumNat(routes[..i], Cancelled)
      invariant totalDelayMinutes == SumReal(routes[..i], DelayMinutes)
    {
      var route := routes[i];
      assert routes[..i + 1] == routes[..i] + [route];
      DropLastSnoc(routes[..i], route);
      totalFlights := totalFlights + route.total_flights;
      totalOnTime := totalOnTime + route.total_on_time_flights;
      totalDelayed := totalDelayed + route.total_delayed_flights;
      totalCancelled := totalCancelled + route.total_cancelled_flights;
      totalDelayMinutes := totalDelayMinutes + route.avg_delay_minutes * route.total_flights as real;
    }
    assert routes[..|routes|] == routes;
    var avgDelayMinutes := if totalFlights > 0 then totalDelayMinutes / totalFlights as real else 0.0;
    totals := RouteTotals(totalFlights, totalOnTime, totalDelayed, totalCancelled, avgDelayMinutes);
  }

  /** No routes: every total is zero, the average too. */
  lemma AggregateEmpty()
    ensures Aggregate([]) == RouteTotals(0, 0, 0, 0, 0.0)
  {
  }

  /** Aggregating two lists together adds their counters. */
  lemma AggregateConcatCounts(a: seq<RouteMetric>, b: seq<RouteMetric>)
    ensures var ta, tb, t := Aggregate(a), Aggregate(b), Aggregate(a + b);
      && t.totalFlights == ta.totalFlights + tb.totalFlights
      && t.totalOnTime == ta.totalOnTime + tb.totalOnTime
      && t.totalDelayed == ta.totalDelayed + tb.totalDelayed
      && t.totalCancelled == ta.totalCancelled + tb.totalCancelled
  {
    SumNatConcat(a, b, Flights);
    SumNatConcat(a, b, OnTime);
    SumNatConcat(a, b, Delayed);
    SumNatConcat(a, b, Cancelled);
  }

  /** The combined average is the flight-weighted mean of the two averages. */
  lemma AggregateConcatAvg(a: seq<RouteMetric>, b: seq<RouteMetric>)
    ensures var ta, tb, t := Aggregate(a), Aggregate(b), Aggregate(a + b);
      t.avgDelayMinutes * t.totalFlights as real
      == ta.avgDelayMinutes * ta.totalFlights as real + tb.avgDelayMinutes * tb.totalFlights as real
  {
    SumRealConcat(a, b, DelayMinutes);
    WeightedTotal(a);
    WeightedTotal(b);
    WeightedTotal(a + b);
  }

  /** The average times the flights is the total of the delay minutes. */
  lemma WeightedTotal(routes: seq<RouteMetric>)
    ensures Aggregate(routes).avgDelayMinutes * Aggregate(routes).totalFlights as real == SumReal(routes, DelayMinutes)
  {
    if SumNat(routes, Flights) == 0 {
      ZeroFlightsZeroMinutes(routes);
    }
  }

  lemma {:induction false} ZeroFlightsZeroMinutes(routes: seq<RouteMetric>)
    requires SumNat(routes, Flights) == 0
    ensures SumReal(routes, DelayMinutes) == 0.0
    decreases |routes|
  {
    if routes != [] {
      ZeroFlightsZeroMinutes(DropLast(routes));
    }
  }

  lemma DelayMinutesBounds(routes: seq<RouteMetric>, lo: real, hi: real)
    requires forall r :: r in routes ==> lo <= r.avg_delay_minutes <= hi
    ensures lo * SumNat(routes, Flights) as real <= SumReal(routes, DelayMinutes) <= hi * SumNat(routes, Flights) as real
  {
    var n := SumReal(routes, FlightsReal);
    assert SumNat(routes, Flights) as real == n by { FlightsAsReal(routes); }
    assert lo * n <= SumReal(routes, DelayMinutes) by { MinutesAtLeast(routes, lo); }
    assert SumReal(routes, DelayMinutes) <= hi * n by { MinutesAtMost(routes, hi); }
  }

  lemma MinutesAtLeast(routes: seq<RouteMetric>, lo: real)
    requires forall r :: r in routes ==> lo <= r.avg_delay_minutes
    ensures lo * SumReal(routes, FlightsReal) <= SumReal(routes, DelayMinutes)
  {
    var low := (r: RouteMetric) => lo * FlightsReal(r);
    forall r | r in routes ensures low(r) <= DelayMinutes(r) {
      ScaleLe(lo, r.avg_delay_minutes, FlightsReal(r));
    }
    SumRealMono(routes, low, DelayMinutes);
    SumRealScale(routes, FlightsReal, low, lo);
  }

  lemma MinutesAtMost(routes: seq<RouteMetric>, hi: real)
    requires forall r :: r in routes ==> r.avg_delay_minutes <= hi
    ensures SumReal(routes, DelayMinutes) <= hi * SumReal(routes, FlightsReal)
  {
    var high := (r: RouteMetric) => hi * FlightsReal(r);
    forall r | r in routes ensures DelayMinutes(r) <= high(r) {
      ScaleLe(r.avg_delay_minutes, hi, FlightsReal(r));
    }
    SumRealMono(routes, DelayMinutes, high);
    SumRealScale(routes, FlightsReal, high, hi);
  }

  lemma ScaleLe(a: real, b: real, f: real)
    requires a <= b && f >= 0.0
    ensures a * f <= b * f
  {
    assert (b - a) * f >= 0.0;
  }

  function FlightsReal(r: RouteMetric): real { r.total_flights as real }

  lemma {:induction false} FlightsAsReal(routes: seq<RouteMetric>)
    ensures SumNat(routes, Flights) as real == SumReal(routes, FlightsReal)
    decreases |routes|
  {
    if routes != [] {
      FlightsAsReal(DropLast(routes));
    }
  }

  /** The weighted average lies between the smallest and largest route
      average whenever there is at least one flight. */
  lemma AggregateAvgBounds(routes: seq<RouteMetric>, lo: real, hi: real)
    requires forall r :: r in routes ==> lo <= r.avg_delay_minutes <= hi
    requires Aggregate(routes).totalFlights > 0
    ensures lo <= Aggregate(routes).avgDelayMinutes <= hi
  {
    var n := SumNat(routes, Flights) as real;
    var s := SumReal(routes, DelayMinutes);
    assert lo * n <= s <= hi * n by { DelayMinutesBounds(routes, lo, hi); }
    assert lo <= s / n <= hi by { DivBounds(lo, s, hi, n); }
    assert Aggregate(routes).avgDelayMinutes == s / n;
  }

  lemma DivBounds(lo: real, s: real, hi: real, n: real)
    requires n > 0.0 && lo * n <= s <= hi * n
    ensures lo <= s / n <= hi
  {
    assert s / n * n == s;
  }

  /** Two routes with 10 flights at 5 minutes and 20 flights at 20 minutes
      average 15 minutes. */
  lemma AggregateExample(a: RouteMetric, b: RouteMetric)
    requires a.total_flights == 10 && a.avg_delay_minutes == 5.0
    requires b.total_flights == 20 && b.avg_delay_minutes == 20.0
    ensures Aggregate([a, b]).totalFlights == 30
    ensures Aggregate([a, b]).avgDelayMinutes == 15.0
  {
    assert [a, b] == [a] + [b] && [a] == [] + [a];
    SumNatSnoc([], a, Flights);
    SumNatSnoc([a], b, Flights);
    SumRealSnoc([], a, DelayMinutes);
    SumRealSnoc([a], b, DelayMinutes);
  }
}
