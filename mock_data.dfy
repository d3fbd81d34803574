/** The sample routes of the dashboard and the exact-match helpers that go
    with them (lib/mock-data.ts). Unlike the normalised helpers of
    RouteUtils, these compare fields verbatim; a filter is off when it is
    absent or the empty string (JavaScript truthiness). */
module MockData {
  import opened Wrappers
  import opened Seqs
  import opened Strings
  import opened Types
  import RouteUtils

  /** `if (value)` on an optional string. */
  predicate Active(value: Option<string>) { value.Some? && value.value != "" }

  /** The value of an active filter (a blank one when it is off). */
  function Wanted(value: Option<string>): string { if Active(value) then value.value else "" }

  // ----- filterData -----

  /** `filterData`: the four conditional `filter` stages in source order. */
  function FilterData(data: seq<RouteMetric>, filters: RouteUtils.RouteFilters): seq<RouteMetric>
  {
    var origin, country, city, airline := Wanted(filters.origin), Wanted(filters.country),
      Wanted(filters.city), Wanted(filters.airline);
    var f1 := FilterIf(data, Active(filters.origin), (r: RouteMetric) => r.origin_airport_code == origin);
    var f2 := FilterIf(f1, Active(filters.country), (r: RouteMetric) => r.destination_country == country);
    var f3 := FilterIf(f2, Active(filters.city), (r: RouteMetric) => r.destination_city == city);
    FilterIf(f3, Active(filters.airline), (r: RouteMetric) => r.airline_code == airline)
  }

  /** A row equals every active filter verbatim. */
  predicate ExactMatch(filters: RouteUtils.RouteFilters, r: RouteMetric)
  {
    && (Active(filters.origin) ==> r.origin_airport_code == filters.origin.value)
    && (Active(filters.country) ==> r.destination_country == filters.country.value)
    && (Active(filters.city) ==> r.destination_city == filters.city.value)
    && (Active(filters.airline) ==> r.airline_code == filters.airline.value)
  }

  /** The chain of stages is a single filter by ExactMatch. */
  lemma FilterDataIsFilter(data: seq<RouteMetric>, filters: RouteUtils.RouteFilters)
    ensures FilterData(data, filters) == Filter(data, (r: RouteMetric) => ExactMatch(filters, r))
  {
    var o, c, ci, a := Wanted(filters.origin), Wanted(filters.country),
      Wanted(filters.city), Wanted(filters.airline);
    var ao, ac, aci, aa := Active(filters.origin), Active(filters.country),
      Active(filters.city), Active(filters.airline);
    var p0 := (r: RouteMetric) => true;
    var p1 := (r: RouteMetric) => !ao || r.origin_airport_code == o;
    var p2 := (r: RouteMetric) => p1(r) && (!ac || r.destination_country == c);
    var p3 := (r: RouteMetric) => p2(r) && (!aci || r.destination_city == ci);
    var p4 := (r: RouteMetric) => ExactMatch(filters, r);
    FilterAll(data, p0);
    FilterIfFilter(data, p0, ao, (r: RouteMetric) => r.origin_airport_code == o, p1);
    FilterIfFilter(data, p1, ac, (r: RouteMetric) => r.destination_country == c, p2);
    FilterIfFilter(data, p2, aci, (r: RouteMetric) => r.destination_city == ci, p3);
    FilterIfFilter(data, p3, aa, (r: RouteMetric) => r.airline_code == a, p4);
  }

  /** filterData keeps, in order, exactly the rows that equal every active
      filter. */
  lemma FilterDataSpec(data: seq<RouteMetric>, filters: RouteUtils.RouteFilters)
    ensures var r := FilterData(data, filters);
      && Subseq(r, data)
      && (forall i :: 0 <= i < |r| ==> ExactMatch(filters, r[i]))
      && (forall i :: 0 <= i < |data| ==> (data[i] in r <==> ExactMatch(filters, data[i])))
  {
    FilterDataIsFilter(data, filters);
  }

  /** With every filter absent or empty the input comes back unchanged. */
  lemma FilterDataNoFilters(data: seq<RouteMetric>, filters: RouteUtils.RouteFilters)
    requires !Active(filters.origin) && !Active(filters.country)
    requires !Active(filters.city) && !Active(filters.airline)
    ensures FilterData(data, filters) == data
  {
  }

  /** Filtering twice with the same filters is filtering once. */
  lemma FilterDataIdempotent(data: seq<RouteMetric>, filters: RouteUtils.RouteFilters)
    ensures FilterData(FilterData(data, filters), filters) == FilterData(data, filters)
  {
    var once := FilterData(data, filters);
    FilterDataIsFilter(data, filters);
    FilterDataIsFilter(once, filters);
    FilterAll(once, (r: RouteMetric) => ExactMatch(filters, r));
  }

  // ----- getUniqueOrigins -----

  function OriginCode(r: RouteMetric): string { r.origin_airport_code }

  function ToOrigin(r: RouteMetric): RouteUtils.RouteOrigin
  {
    RouteUtils.RouteOrigin(r.origin_airport_code, r.origin_airport_name, r.origin_city)
  }

  /** The `origins` map's values: one entry per raw origin code (the empty
      code included), made from the first row with that code. */
  function UniqueOrigins(data: seq<RouteMetric>): seq<RouteUtils.RouteOrigin>
  {
    Map(FirstOccurrences(data, OriginCode), ToOrigin)
  }

  /** `getUniqueOrigins`: the loop that fills the `origins` map. */
  method GetUniqueOrigins(data: seq<RouteMetric>) returns (origins: seq<RouteUtils.RouteOrigin>)
    ensures origins == UniqueOrigins(data)
  {
    origins := [];
    var seen: set<string> := {};
    for i := 0 to |data|
      invariant origins == UniqueOrigins(data[..i])
      invariant seen == KeySet(data[..i], OriginCode)
    {
      var route := data[i];
      OriginStep(data, i);
      if route.origin_airport_code !in seen {
        origins := origins + [RouteUtils.RouteOrigin(route.origin_airport_code, route.origin_airport_name, route.origin_city)];
        seen := seen + {route.origin_airport_code};
      }
    }
    assert data[..|data|] == data;
  }

  lemma OriginStep(data: seq<RouteMetric>, i: nat)
    requires i < |data|
    ensures var x := data[i];
      var novel := x.origin_airport_code !in KeySet(data[..i], OriginCode);
      && UniqueOrigins(data[..i + 1]) == UniqueOrigins(data[..i]) + (if novel then [ToOrigin(x)] else [])
      && KeySet(data[..i + 1], OriginCode) == KeySet(data[..i], OriginCode) + {x.origin_airport_code}
  {
    assert data[..i + 1] == data[..i] + [data[i]];
    KeySetSnoc(data[..i], data[i], OriginCode);
    FirstOccurrencesSnoc(data[..i], data[i], OriginCode);
  }

  /** `o` is built from the first row whose code is o's code. */
  predicate FromFirstOrigin(data: seq<RouteMetric>, o: RouteUtils.RouteOrigin)
  {
    exists i :: 0 <= i < |data| && data[i].origin_airport_code == o.code
      && o.name == data[i].origin_airport_name && o.city == data[i].origin_city
      && forall i' :: 0 <= i' < i ==> data[i'].origin_airport_code != o.code
  }

  /** Origins have distinct codes, one for every code of the input, each
      built from the first row with that code. */
  lemma UniqueOriginsSpec(data: seq<RouteMetric>)
    ensures var os := UniqueOrigins(data);
      && (forall i, j :: 0 <= i < j < |os| ==> os[i].code != os[j].code)
      && (forall k :: 0 <= k < |data| ==> exists i :: 0 <= i < |os| && os[i].code == data[k].origin_airport_code)
      && (forall j :: 0 <= j < |os| ==> FromFirstOrigin(data, os[j]))
  {
    var fo := FirstOccurrences(data, OriginCode);
    var os := UniqueOrigins(data);
    assert forall i :: 0 <= i < |os| ==> os[i].code == OriginCode(fo[i]);
    forall k | 0 <= k < |data| ensures exists i :: 0 <= i < |os| && os[i].code == data[k].origin_airport_code {
      assert OriginCode(data[k]) in KeySet(fo, OriginCode);
    }
    forall j | 0 <= j < |os| ensures FromFirstOrigin(data, os[j]) {
      FirstOccurrencesAreFirst(data, OriginCode, j);
    }
  }

  /** Origins come in the order their codes first appear: entry i's code
      occurs before the first row carrying entry j's code. */
  lemma UniqueOriginsOrdered(data: seq<RouteMetric>, i: nat, j: nat)
    requires i < j < |UniqueOrigins(data)|
    ensures var os := UniqueOrigins(data);
      exists p, q :: 0 <= q < p < |data| && data[q].origin_airport_code == os[i].code
        && data[p].origin_airport_code == os[j].code
        && forall p' :: 0 <= p' < p ==> data[p'].origin_airport_code != os[j].code
  {
    FirstOccurrencesOrdered(data, OriginCode, i, j);
  }

  // ----- getUniqueCountries / getUniqueCities -----

  function DestinationCountry(r: RouteMetric): string { r.destination_country }
  function DestinationCity(r: RouteMetric): string { r.destination_city }

  /** `getUniqueCountries`: the destination countries of the rows from the
      origin (of every row when no origin is given), once each, sorted. */
  function GetUniqueCountries(data: seq<RouteMetric>, originCode: Option<string>): seq<string>
  {
    var code := Wanted(originCode);
    var filtered := if Active(originCode) then Filter(data, (r: RouteMetric) => r.origin_airport_code == code) else data;
    UniqueSorted(Map(filtered, DestinationCountry), AnyString)
  }

  /** `getUniqueCities`: the origin and country stages, then the distinct
      destination cities, sorted. */
  function GetUniqueCities(data: seq<RouteMetric>, originCode: Option<string>, country: Option<string>): seq<string>
  {
    var filtered := FilterData(data, RouteUtils.RouteFilters(originCode, country, None, None));
    UniqueSorted(Map(filtered, DestinationCity), AnyString)
  }

  lemma GetUniqueCountriesSpec(data: seq<RouteMetric>, originCode: Option<string>, x: string)
    ensures var r := GetUniqueCountries(data, originCode);
      && (x in r <==> exists k :: (0 <= k < |data| && data[k].destination_country == x
            && (Active(originCode) ==> data[k].origin_airport_code == originCode.value)))
      && (forall i, j :: 0 <= i < j < |r| ==> LexLe(r[i], r[j]) && r[i] != r[j])
  {
    var f := RouteUtils.RouteFilters(originCode, None, None, None);
    var m := (r: RouteMetric) => ExactMatch(f, r);
    var code := Wanted(originCode);
    var filtered := if Active(originCode) then Filter(data, (r: RouteMetric) => r.origin_airport_code == code) else data;
    if Active(originCode) {
      FilterExt(data, (r: RouteMetric) => r.origin_airport_code == code, m);
    } else {
      FilterAll(data, m);
    }
    UniqueSortedSpec(Map(filtered, DestinationCountry), AnyString);
    MapFilterMember(data, m, DestinationCountry, x);
  }

  lemma GetUniqueCitiesSpec(data: seq<RouteMetric>, originCode: Option<string>, country: Option<string>, x: string)
    ensures var r := GetUniqueCities(data, originCode, country);
      && (x in r <==> exists k :: (0 <= k < |data| && data[k].destination_city == x
            && ExactMatch(RouteUtils.RouteFilters(originCode, country, None, None), data[k])))
      && (forall i, j :: 0 <= i < j < |r| ==> LexLe(r[i], r[j]) && r[i] != r[j])
  {
    var f := RouteUtils.RouteFilters(originCode, country, None, None);
    FilterDataIsFilter(data, f);
    UniqueSortedSpec(Map(FilterData(data, f), DestinationCity), AnyString);
    MapFilterMember(data, (r: RouteMetric) => ExactMatch(f, r), DestinationCity, x);
  }

  // ----- getUniqueAirlines -----

  function AirlineCode(r: RouteMetric): string { r.airline_code }

  function ToAirline(r: RouteMetric): RouteUtils.RouteAirline
  {
    RouteUtils.RouteAirline(r.airline_code, r.airline_name)
  }

  /** The filters getUniqueAirlines applies: origin, country and city. */
  function AirlineFilters(originCode: Option<string>, country: Option<string>, city: Option<string>): RouteUtils.RouteFilters
  {
    RouteUtils.RouteFilters(originCode, country, city, None)
  }

  /** The values of an `airlines` map filled from `rows`: one entry per raw
      airline code, named from the first row with it. */
  function AirlinesOf(rows: seq<RouteMetric>): seq<RouteUtils.RouteAirline>
  {
    Map(FirstOccurrences(rows, AirlineCode), ToAirline)
  }

  /** The airlines of the rows passing the origin, country and city filters. */
  function UniqueAirlines(data: seq<RouteMetric>, originCode: Option<string>, country: Option<string>, city: Option<string>): seq<RouteUtils.RouteAirline>
  {
    AirlinesOf(FilterData(data, AirlineFilters(originCode, country, city)))
  }

  /** `getUniqueAirlines`: the three filter stages, then the loop that fills
      the `airlines` map. */
  method GetUniqueAirlines(data: seq<RouteMetric>, originCode: Option<string>, country: Option<string>, city: Option<string>)
    returns (airlines: seq<RouteUtils.RouteAirline>)
    ensures airlines == UniqueAirlines(data, originCode, country, city)
  {
    var filtered := FilterData(data, AirlineFilters(originCode, country, city));
    airlines := [];
    var seen: set<string> := {};
    for i := 0 to |filtered|
      invariant airlines == AirlinesOf(filtered[..i])
      invariant seen == KeySet(filtered[..i], AirlineCode)
    {
      var route := filtered[i];
      AirlineStep(filtered, i);
      if route.airline_code !in seen {
        airlines := airlines + [RouteUtils.RouteAirline(route.airline_code, route.airline_name)];
        seen := seen + {route.airline_code};
      }
    }
    assert filtered[..|filtered|] == filtered;
  }

  lemma AirlineStep(rows: seq<RouteMetric>, i: nat)
    requires i < |rows|
    ensures var x := rows[i];
      var novel := x.airline_code !in KeySet(rows[..i], AirlineCode);
      && AirlinesOf(rows[..i + 1]) == AirlinesOf(rows[..i]) + (if novel then [ToAirline(x)] else [])
      && KeySet(rows[..i + 1], AirlineCode) == KeySet(rows[..i], AirlineCode) + {x.airline_code}
  {
    assert rows[..i + 1] == rows[..i] + [rows[i]];
    KeySetSnoc(rows[..i], rows[i], AirlineCode);
    FirstOccurrencesSnoc(rows[..i], rows[i], AirlineCode);
  }

  /** `a` carries the name of the first row with its code. */
  predicate FromFirstAirline(rows: seq<RouteMetric>, a: RouteUtils.RouteAirline)
  {
    exists i :: 0 <= i < |rows| && rows[i].airline_code == a.code && a.name == rows[i].airline_name
      && forall i' :: 0 <= i' < i ==> rows[i'].airline_code != a.code
  }

  /** Airline entries have distinct codes, cover the code of every row passing
      the filters, and carry the name of the first such row with that code. */
  lemma UniqueAirlinesSpec(data: seq<RouteMetric>, originCode: Option<string>, country: Option<string>, city: Option<string>)
    ensures var f := AirlineFilters(originCode, country, city);
      var al := UniqueAirlines(data, originCode, country, city);
      && (forall i, j :: 0 <= i < j < |al| ==> al[i].code != al[j].code)
      && (forall k :: 0 <= k < |data| && ExactMatch(f, data[k]) ==>
            exists i :: 0 <= i < |al| && al[i].code == data[k].airline_code)
      && (forall j :: 0 <= j < |al| ==> FromFirstAirline(FilterData(data, f), al[j]))
  {
    var f := AirlineFilters(originCode, country, city);
    var filtered := FilterData(data, f);
    var fo := FirstOccurrences(filtered, AirlineCode);
    var al := UniqueAirlines(data, originCode, country, city);
    assert forall i :: 0 <= i < |al| ==> al[i].code == AirlineCode(fo[i]);
    FilterDataSpec(data, f);
    forall k | 0 <= k < |data| && ExactMatch(f, data[k])
      ensures exists i :: 0 <= i < |al| && al[i].code == data[k].airline_code
    {
      assert data[k] in filtered;
      var k2 :| 0 <= k2 < |filtered| && filtered[k2] == data[k];
      assert AirlineCode(filtered[k2]) in KeySet(fo, AirlineCode);
    }
    forall j | 0 <= j < |al| ensures FromFirstAirline(filtered, al[j]) {
      FirstOccurrencesAreFirst(filtered, AirlineCode, j);
    }
  }

  // ----- mockData -----

  /** The sixteen sample routes of `mockData`, in source order. */
  const Routes: seq<RouteMetric> := [
    RouteMetric("AEP", "Aeroparque Jorge Newbery", "Buenos Aires", "Argentina",
      "GRU", "Aeropuerto Internacional de Guarulhos", "S\U{E3}o Paulo", "Brasil",
      "AR", "Aerol\U{ED}neas Argentinas", "2025-11-23", "2026-01-22",
      342, 328, 14, 82, 246, 23.0, 75.0, 25.0, 4.1),
    RouteMetric("AEP", "Aeroparque Jorge Newbery", "Buenos Aires", "Argentina",
      "GRU", "Aeropuerto Internacional de Guarulhos", "S\U{E3}o Paulo", "Brasil",
      "LA", "LATAM Airlines", "2025-11-23", "2026-01-22",
      298, 290, 8, 58, 232, 18.0, 80.0, 20.0, 2.7),
    RouteMetric("AEP", "Aeroparque Jorge Newbery", "Buenos Aires", "Argentina",
      "GRU", "Aeropuerto Internacional de Guarulhos", "S\U{E3}o Paulo", "Brasil",
      "G3", "Gol Linhas A\U{E9}reas", "2025-11-23", "2026-01-22",
      186, 178, 8, 32, 146, 15.0, 82.0, 18.0, 4.3),
    RouteMetric("AEP", "Aeroparque Jorge Newbery", "Buenos Aires", "Argentina",
      "GIG", "Aeropuerto Internacional do Gale\U{E3}o", "Rio de Janeiro", "Brasil",
      "AR", "Aerol\U{ED}neas Argentinas", "2025-11-23", "2026-01-22",
      156, 148, 8, 44, 104, 28.0, 70.3, 29.7, 5.1),
    RouteMetric("AEP", "Aeroparque Jorge Newbery", "Buenos Aires", "Argentina",
      "GIG", "Aeropuerto Internacional do Gale\U{E3}o", "Rio de Janeiro", "Brasil",
      "LA", "LATAM Airlines", "2025-11-23", "2026-01-22",
      124, 120, 4, 24, 96, 16.0, 80.0, 20.0, 3.2),
    RouteMetric("AEP", "Aeroparque Jorge Newbery", "Buenos Aires", "Argentina",
      "SCL", "Aeropuerto Internacional Comodoro Arturo Merino Ben\U{ED}tez", "Santiago", "Chile",
      "AR", "Aerol\U{ED}neas Argentinas", "2025-11-23", "2026-01-22",
      412, 398, 14, 72, 326, 19.0, 81.9, 18.1, 3.4),
    RouteMetric("AEP", "Aeroparque Jorge Newbery", "Buenos Aires", "Argentina",
      "SCL", "Aeropuerto Internacional Comodoro Arturo Merino Ben\U{ED}tez", "Santiago", "Chile",
      "LA", "LATAM Airlines", "2025-11-23", "2026-01-22",
      524, 516, 8, 62, 454, 12.0, 88.0, 12.0, 1.5),
    RouteMetric("AEP", "Aeroparque Jorge Newbery", "Buenos Aires", "Argentina",
      "SCL", "Aeropuerto Internacional Comodoro Arturo Merino Ben\U{ED}tez", "Santiago", "Chile",
      "JA", "JetSMART", "2025-11-23", "2026-01-22",
      186, 174, 12, 52, 122, 32.0, 70.1, 29.9, 6.5),
    RouteMetric("EZE", "Aeropuerto Internacional Ministro Pistarini", "Buenos Aires", "Argentina",
      "MIA", "Miami International Airport", "Miami", "Estados Unidos",
      "AR", "Aerol\U{ED}neas Argentinas", "2025-11-23", "2026-01-22",
      124, 118, 6, 38, 80, 34.0, 67.8, 32.2, 4.8),
    RouteMetric("EZE", "Aeropuerto Internacional Ministro Pistarini", "Buenos Aires", "Argentina",
      "MIA", "Miami International Airport", "Miami", "Estados Unidos",
      "AA", "American Airlines", "2025-11-23", "2026-01-22",
      186, 182, 4, 28, 154, 14.0, 84.6, 15.4, 2.2),
    RouteMetric("EZE", "Aeropuerto Internacional Ministro Pistarini", "Buenos Aires", "Argentina",
      "MAD", "Aeropuerto Adolfo Su\U{E1}rez Madrid-Barajas", "Madrid", "Espa\U{F1}a",
      "AR", "Aerol\U{ED}neas Argentinas", "2025-11-23", "2026-01-22",
      92, 88, 4, 26, 62, 42.0, 70.5, 29.5, 4.3),
    RouteMetric("EZE", "Aeropuerto Internacional Ministro Pistarini", "Buenos Aires", "Argentina",
      "MAD", "Aeropuerto Adolfo Su\U{E1}rez Madrid-Barajas", "Madrid", "Espa\U{F1}a",
      "IB", "Iberia", "2025-11-23", "2026-01-22",
      124, 122, 2, 18, 104, 16.0, 85.2, 14.8, 1.6),
    RouteMetric("COR", "Aeropuerto Internacional Ingeniero Aeron\U{E1}utico Ambrosio L.V. Taravella", "C\U{F3}rdoba", "Argentina",
      "GRU", "Aeropuerto Internacional de Guarulhos", "S\U{E3}o Paulo", "Brasil",
      "AR", "Aerol\U{ED}neas Argentinas", "2025-11-23", "2026-01-22",
      62, 58, 4, 14, 44, 21.0, 75.9, 24.1, 6.5),
    RouteMetric("COR", "Aeropuerto Internacional Ingeniero Aeron\U{E1}utico Ambrosio L.V. Taravella", "C\U{F3}rdoba", "Argentina",
      "GRU", "Aeropuerto Internacional de Guarulhos", "S\U{E3}o Paulo", "Brasil",
      "G3", "Gol Linhas A\U{E9}reas", "2025-11-23", "2026-01-22",
      48, 46, 2, 8, 38, 12.0, 82.6, 17.4, 4.2),
    RouteMetric("MDZ", "Aeropuerto Internacional El Plumerillo", "Mendoza", "Argentina",
      "SCL", "Aeropuerto Internacional Comodoro Arturo Merino Ben\U{ED}tez", "Santiago", "Chile",
      "LA", "LATAM Airlines", "2025-11-23", "2026-01-22",
      186, 180, 6, 22, 158, 11.0, 87.8, 12.2, 3.2),
    RouteMetric("MDZ", "Aeropuerto Internacional El Plumerillo", "Mendoza", "Argentina",
      "SCL", "Aeropuerto Internacional Comodoro Arturo Merino Ben\U{ED}tez", "Santiago", "Chile",
      "JA", "JetSMART", "2025-11-23", "2026-01-22",
      124, 116, 8, 34, 82, 28.0, 70.7, 29.3, 6.5)
  ]

  /** A row's counters add up: every flight is completed or cancelled, and
      every completed flight is delayed or on time. */
  predicate CountersConsistent(r: RouteMetric)
  {
    && r.total_flights == r.total_completed_flights + r.total_cancelled_flights
    && r.total_completed_flights == r.total_delayed_flights + r.total_on_time_flights
  }

  lemma RoutesConsistent()
    ensures |Routes| == 16
    ensures forall i :: 0 <= i < |Routes| ==> CountersConsistent(Routes[i])
  {
  }
}
