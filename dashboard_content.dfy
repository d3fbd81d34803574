/** The dashboard page (components/dashboard/dashboard-content.tsx): the
    filter state read from and written back to the URL, the cascade that
    clears the narrower filters, the one-time default origin, and the
    derivations the page hands to its sections. The router, the effects'
    scheduling and the rendering are not modelled; an effect is a method
    run when React would run it. */
module DashboardContent {
  import opened Wrappers
  import opened Seqs
  import opened Strings
  import opened Numbers
  import opened Types
  import RouteUtils
  import DashboardUtils
  import RoutesTable

  /** `FilterState`: every field is a string, "" meaning "no filter". */
  datatype Filters = Filters(origin: string, country: string, city: string, airline: string, windowDays: string)

  const DefaultWindowDays: string := "60"

  /** The initial state: each URL parameter or "", and the window "60". */
  function InitialFilters(params: map<string, string>): (f: Filters)
    ensures f.windowDays != ""
    ensures "origin" in params && params["origin"] != "" ==> f.origin == params["origin"]
    ensures "origin" !in params ==> f.origin == ""
    ensures "windowDays" !in params ==> f.windowDays == DefaultWindowDays
  {
    Filters(
      RoutesTable.ParamOr(params, "origin", ""),
      RoutesTable.ParamOr(params, "country", ""),
      RoutesTable.ParamOr(params, "city", ""),
      RoutesTable.ParamOr(params, "airline", ""),
      RoutesTable.ParamOr(params, "windowDays", DefaultWindowDays))
  }

  // ----- URL -----

  /** Every parameter the URL effect may set, in the order it tries them. */
  function Candidates(f: Filters): seq<(string, string)>
  {
    [("origin", f.origin), ("country", f.country), ("city", f.city), ("airline", f.airline), ("windowDays", f.windowDays)]
  }

  /** A parameter is set when its value is non-empty, the window only when
      it is not the default either. */
  predicate Kept(p: (string, string))
  {
    p.1 != "" && (p.0 == "windowDays" ==> p.1 != DefaultWindowDays)
  }

  function Key(p: (string, string)): string { p.0 }

  /** The parameters the URL effect sets, in the order it sets them. */
  function QueryParams(f: Filters): seq<(string, string)>
  {
    Filter(Candidates(f), Kept)
  }

  /** `params.toString()` without the percent-encoding. */
  function QueryString(pairs: seq<(string, string)>): string
  {
    if pairs == [] then ""
    else if |pairs| == 1 then pairs[0].0 + "=" + pairs[0].1
    else pairs[0].0 + "=" + pairs[0].1 + "&" + QueryString(pairs[1..])
  }

  /** The `router.replace` target. */
  function Target(pathname: string, f: Filters): string
  {
    var q := QueryString(QueryParams(f));
    if q == "" then pathname else pathname + "?" + q
  }

  /** The parameters as the page reads them back. */
  function ParamMap(pairs: seq<(string, string)>): map<string, string>
  {
    if pairs == [] then map[] else ParamMap(DropLast(pairs))[Last(pairs).0 := Last(pairs).1]
  }

  /** A key is in the parameter map iff some pair has it, and then maps to
      the value of its last pair. */
  lemma {:induction false} ParamMapSpec(pairs: seq<(string, string)>, k: string)
    ensures k in ParamMap(pairs) <==> exists i :: 0 <= i < |pairs| && pairs[i].0 == k
    ensures forall i :: 0 <= i < |pairs| && pairs[i].0 == k && (forall j :: i < j < |pairs| ==> pairs[j].0 != k) ==>
      k in ParamMap(pairs) && ParamMap(pairs)[k] == pairs[i].1
    decreases |pairs|
  {
    if pairs != [] {
      var d := DropLast(pairs);
      ParamMapSpec(d, k);
      assert forall i :: 0 <= i < |d| ==> d[i] == pairs[i];
      if k != Last(pairs).0 {
        if exists i :: 0 <= i < |pairs| && pairs[i].0 == k {
          var i :| 0 <= i < |pairs| && pairs[i].0 == k;
          assert i < |d|;
        }
      }
    }
  }

  /** Each filter is in the URL iff it is set, the window only when it is
      not the default, each key once; without any the target is the bare
      path. */
  lemma QuerySpec(pathname: string, f: Filters)
    ensures var ps := QueryParams(f);
      && (f.origin != "" <==> ("origin", f.origin) in ps)
      && (f.country != "" <==> ("country", f.country) in ps)
      && (f.city != "" <==> ("city", f.city) in ps)
      && (f.airline != "" <==> ("airline", f.airline) in ps)
      && (f.windowDays != "" && f.windowDays != DefaultWindowDays <==> ("windowDays", f.windowDays) in ps)
      && (forall i, j :: 0 <= i < j < |ps| ==> ps[i].0 != ps[j].0)
      && (ps == [] <==> Target(pathname, f) == pathname)
  {
    var c := Candidates(f);
    var ps := QueryParams(f);
    forall x | x in c ensures x in ps <==> Kept(x) {
      FilterMember(c, Kept, x);
    }
    assert c[0] in c && c[1] in c && c[2] in c && c[3] in c && c[4] in c;
    CandidateKeysDistinct(f);
    SubseqKeysDistinct(ps, c, Key);
    if ps != [] {
      assert |QueryString(ps)| > 0;
      assert |Target(pathname, f)| > |pathname|;
    }
  }

  lemma CandidateKeysDistinct(f: Filters)
    ensures var c := Candidates(f); forall i, j :: 0 <= i < j < |c| ==> Key(c[i]) != Key(c[j])
  {
    assert "origin"[0] == 'o' && "country"[0] == 'c' && "city"[0] == 'c' && "airline"[0] == 'a' && "windowDays"[0] == 'w';
    assert "country"[1] != "city"[1];
  }

  /** The value a parameter is read back with from the URL. */
  lemma ReadBack(f: Filters, k: nat, fallback: string)
    requires k < 5
    requires !Kept(Candidates(f)[k]) ==> Candidates(f)[k].1 == fallback || Candidates(f)[k].1 == ""
    ensures var c := Candidates(f)[k];
      RoutesTable.ParamOr(ParamMap(QueryParams(f)), c.0, fallback) == if Kept(c) then c.1 else fallback
  {
    var cs := Candidates(f);
    var c := cs[k];
    var ps := QueryParams(f);
    var m := ParamMap(ps);
    CandidateKeysDistinct(f);
    SubseqKeysDistinct(ps, cs, Key);
    ParamMapSpec(ps, c.0);
    FilterMember(cs, Kept, c);
    if Kept(c) {
      var i :| 0 <= i < |ps| && ps[i] == c;
      assert forall j :: i < j < |ps| ==> Key(ps[i]) != Key(ps[j]);
    }
  }

  /** Reading the URL back gives the same filters, as long as the window is
      set: a window of "60" is left out of the URL and read back as "60". */
  lemma QueryRoundTrip(f: Filters)
    requires f.windowDays != ""
    ensures InitialFilters(ParamMap(QueryParams(f))) == f
  {
    ReadBack(f, 0, "");
    ReadBack(f, 1, "");
    ReadBack(f, 2, "");
    ReadBack(f, 3, "");
    ReadBack(f, 4, DefaultWindowDays);
  }

  // ----- derivations -----

  /** `value || undefined`. */
  function Defined(value: string): (r: Option<string>)
    ensures r.None? <==> value == ""
    ensures r.Some? ==> r.value == value
  {
    if value == "" then None else Some(value)
  }

  function RouteFiltersOf(f: Filters): RouteUtils.RouteFilters
  {
    RouteUtils.RouteFilters(Defined(f.origin), Defined(f.country), Defined(f.city), Defined(f.airline))
  }

  /** `filteredRoutes`: nothing before the data arrives. */
  function FilteredRoutes(data: Option<DashboardData>, f: Filters): seq<RouteMetric>
  {
    if data.None? then [] else RouteUtils.FilterRoutes(data.value.routes, RouteFiltersOf(f))
  }

  /** Before the data arrives nothing is shown; afterwards the routes shown
      are, in order, those that pass every set filter after normalisation,
      and the window filter plays no part. */
  lemma FilteredRoutesSpec(data: Option<DashboardData>, f: Filters, windowDays: string)
    ensures data.None? ==> FilteredRoutes(data, f) == []
    ensures data.Some? ==> var routes, r := data.value.routes, FilteredRoutes(data, f);
      && Subseq(r, routes)
      && forall i :: 0 <= i < |routes| ==> (routes[i] in r <==> RouteUtils.Matches(RouteFiltersOf(f), routes[i]))
    ensures FilteredRoutes(data, f.(windowDays := windowDays)) == FilteredRoutes(data, f)
  {
    if data.Some? {
      RouteUtils.FilterRoutesSpec(data.value.routes, RouteFiltersOf(f));
    }
  }

  /** A delay record passes the origin, country and city filters that are
      set, compared exactly. */
  predicate RecordMatches(f: Filters, r: TopRecord)
  {
    && (f.origin == "" || r.origin_airport_code == Some(f.origin))
    && (f.country == "" || r.destination_country == Some(f.country))
    && (f.city == "" || r.destination_city == Some(f.city))
  }

  function Matcher(f: Filters): TopRecord -> bool
  {
    r => RecordMatches(f, r)
  }

  /** `topDelays`. */
  function TopDelays(data: Option<DashboardData>, f: Filters): seq<TopRecord>
  {
    var records := if data.None? then [] else DashboardUtils.GetTopDelays(data.value.tops);
    Filter(records, Matcher(f))
  }

  /** The delay records shown are those of the ranked delays that match
      the filters, in ranked order; the airline filter plays no part. */
  lemma TopDelaysSpec(data: DashboardData, f: Filters, airline: string)
    ensures var shown := TopDelays(Some(data), f);
      && Subseq(shown, DashboardUtils.GetTopDelays(data.tops))
      && (forall r :: r in shown <==> r in DashboardUtils.GetTopDelays(data.tops) && RecordMatches(f, r))
      && shown == TopDelays(Some(data), f.(airline := airline))
  {
    FilterMatches(DashboardUtils.GetTopDelays(data.tops), f, airline);
  }

  lemma FilterMatches(records: seq<TopRecord>, f: Filters, airline: string)
    ensures var shown := Filter(records, Matcher(f));
      && Subseq(shown, records)
      && (forall r :: r in shown <==> r in records && RecordMatches(f, r))
      && shown == Filter(records, Matcher(f.(airline := airline)))
  {
    forall r ensures r in Filter(records, Matcher(f)) <==> r in records && RecordMatches(f, r) {
      FilterMember(records, Matcher(f), r);
    }
    FilterExt(records, Matcher(f), Matcher(f.(airline := airline)));
  }

  // ----- buckets -----

  /** `data.airlines.find(a => a.airline_name === name)`. */
  function FindAirline(airlines: seq<AirlineBreakdown>, name: string): (r: Option<AirlineBreakdown>)
    ensures r.None? <==> forall i :: 0 <= i < |airlines| ==> airlines[i].airline_name != name
    ensures r.Some? ==> r.value.airline_name == name
    ensures r.Some? ==> exists i :: 0 <= i < |airlines| && airlines[i] == r.value
                           && forall j :: 0 <= j < i ==> airlines[j].airline_name != name
  {
    if airlines == [] then None
    else if airlines[0].airline_name == name then Some(airlines[0])
    else
      var r := FindAirline(airlines[1..], name);
      assert forall i :: 1 <= i < |airlines| ==> airlines[i] == airlines[1..][i - 1];
      if r.Some? then
        var i :| 0 <= i < |airlines[1..]| && airlines[1..][i] == r.value
          && forall j :: 0 <= j < i ==> airlines[1..][j].airline_name != name;
        assert airlines[i + 1] == r.value;
        r
      else r
  }

  /** The six buckets of one airline, in their fixed order. */
  function AirlineBuckets(a: AirlineBreakdown): seq<BucketDistribution>
  {
    [ BucketDistribution("on_time_or_early", a.on_time_or_early),
      BucketDistribution("delay_15_0", a.delay_15_0),
      BucketDistribution("delay_30_15", a.delay_30_15),
      BucketDistribution("delay_45_30", a.delay_45_30),
      BucketDistribution("delay_over_45", a.delay_over_45),
      BucketDistribution("cancelled", a.cancelled_flights) ]
  }

  predicate IsDelayBucket(b: BucketDistribution) { Includes(b.bucket, "delay_") }

  function BucketFlights(b: BucketDistribution): nat { b.total_flights }

  /** `Math.round(b / globalDelayedTotal * totalDelayed)`, or 0 without
      global delays. */
  function Rescaled(b: BucketDistribution, globalDelayed: nat, delayed: nat): (r: BucketDistribution)
    ensures r.bucket == b.bucket
    ensures globalDelayed == 0 ==> r.total_flights == 0
    ensures globalDelayed > 0 ==> var share := b.total_flights as real / globalDelayed as real * delayed as real;
      share - 0.5 < r.total_flights as real <= share + 0.5
  {
    if globalDelayed > 0 then
      var share := b.total_flights as real / globalDelayed as real * delayed as real;
      assert share >= 0.0;
      BucketDistribution(b.bucket, Round(share))
    else BucketDistribution(b.bucket, 0)
  }

  function Rescaling(globalDelayed: nat, delayed: nat): BucketDistribution -> BucketDistribution
  {
    b => Rescaled(b, globalDelayed, delayed)
  }

  /** `filteredBuckets`. The lookup compares the breakdown's airline name
      with the filter, which holds an airline code. */
  function FilteredBuckets(data: Option<DashboardData>, f: Filters, totals: RouteUtils.RouteTotals): seq<BucketDistribution>
  {
    if data.None? then []
    else
      var found := if f.airline != "" then FindAirline(data.value.airlines, f.airline) else None;
      if found.Some? then AirlineBuckets(found.value)
      else
        var delays := Filter(data.value.buckets, IsDelayBucket);
        var globalDelayed := SumNat(delays, BucketFlights);
        [BucketDistribution("on_time_or_early", totals.totalOnTime)]
          + Map(delays, Rescaling(globalDelayed, totals.totalDelayed))
          + [BucketDistribution("cancelled", totals.totalCancelled)]
  }

  /** The six buckets of an airline add up to its six counts. */
  lemma AirlineBucketsSum(a: AirlineBreakdown)
    ensures SumNat(AirlineBuckets(a), BucketFlights) == a.on_time_or_early + a.delay_15_0 + a.delay_30_15
      + a.delay_45_30 + a.delay_over_45 + a.cancelled_flights
  {
    var b := AirlineBuckets(a);
    assert DropLast(b) == b[..5] && Last(b) == b[5];
    assert DropLast(b[..5]) == b[..4] && Last(b[..5]) == b[4];
    assert DropLast(b[..4]) == b[..3] && Last(b[..4]) == b[3];
    assert DropLast(b[..3]) == b[..2] && Last(b[..3]) == b[2];
    assert DropLast(b[..2]) == b[..1] && Last(b[..2]) == b[1];
    assert DropLast(b[..1]) == [] && Last(b[..1]) == b[0];
    assert SumNat(b[..1], BucketFlights) == a.on_time_or_early;
    assert SumNat(b[..2], BucketFlights) == SumNat(b[..1], BucketFlights) + a.delay_15_0;
    assert SumNat(b[..3], BucketFlights) == SumNat(b[..2], BucketFlights) + a.delay_30_15;
    assert SumNat(b[..4], BucketFlights) == SumNat(b[..3], BucketFlights) + a.delay_45_30;
    assert SumNat(b[..5], BucketFlights) == SumNat(b[..4], BucketFlights) + a.delay_over_45;
  }

  /** With an airline whose name equals the filter, the six buckets of the
      first such airline; otherwise the routes' on-time count, each global
      delay bucket in order with its share of the routes' delayed flights,
      and the routes' cancellations. */
  lemma FilteredBucketsSpec(data: DashboardData, f: Filters, totals: RouteUtils.RouteTotals)
    ensures var b := FilteredBuckets(Some(data), f, totals);
      var found := FindAirline(data.airlines, f.airline);
      && (f.airline != "" && found.Some? ==> b == AirlineBuckets(found.value))
      && (f.airline == "" || found.None? ==>
            var delays := Filter(data.buckets, IsDelayBucket);
            var g := SumNat(delays, BucketFlights);
            && |b| == |delays| + 2
            && b[0] == BucketDistribution("on_time_or_early", totals.totalOnTime)
            && b[|b| - 1] == BucketDistribution("cancelled", totals.totalCancelled)
            && (forall i :: 0 <= i < |delays| ==> b[i + 1] == Rescaled(delays[i], g, totals.totalDelayed))
            && (forall i :: 1 <= i < |b| - 1 ==> IsDelayBucket(b[i])))
  {
    var b := FilteredBuckets(Some(data), f, totals);
    var found := FindAirline(data.airlines, f.airline);
    if !(f.airline != "" && found.Some?) {
      var delays := Filter(data.buckets, IsDelayBucket);
      var g := SumNat(delays, BucketFlights);
      assert b == RescaledFrame(delays, g, totals);
      RescaledFrameSpec(delays, g, totals);
    }
  }

  /** The buckets built without an airline match. */
  function RescaledFrame(delays: seq<BucketDistribution>, g: nat, totals: RouteUtils.RouteTotals): seq<BucketDistribution>
  {
    [BucketDistribution("on_time_or_early", totals.totalOnTime)]
      + Map(delays, Rescaling(g, totals.totalDelayed))
      + [BucketDistribution("cancelled", totals.totalCancelled)]
  }

  lemma RescaledFrameSpec(delays: seq<BucketDistribution>, g: nat, totals: RouteUtils.RouteTotals)
    requires forall i :: 0 <= i < |delays| ==> IsDelayBucket(delays[i])
    ensures var b := RescaledFrame(delays, g, totals);
      && |b| == |delays| + 2
      && b[0] == BucketDistribution("on_time_or_early", totals.totalOnTime)
      && b[|b| - 1] == BucketDistribution("cancelled", totals.totalCancelled)
      && (forall i :: 0 <= i < |delays| ==> b[i + 1] == Rescaled(delays[i], g, totals.totalDelayed))
      && (forall i :: 1 <= i < |b| - 1 ==> IsDelayBucket(b[i]))
  {
    var mid := Map(delays, Rescaling(g, totals.totalDelayed));
    Framed(BucketDistribution("on_time_or_early", totals.totalOnTime), mid, BucketDistribution("cancelled", totals.totalCancelled));
    assert forall i :: 0 <= i < |mid| ==> mid[i].bucket == delays[i].bucket;
  }

  lemma Framed<T>(first: T, mid: seq<T>, last: T)
    ensures var x := [first] + mid + [last];
      && |x| == |mid| + 2 && x[0] == first && x[|x| - 1] == last
      && (forall i :: 0 <= i < |mid| ==> x[i + 1] == mid[i])
      && (forall i :: 1 <= i < |x| - 1 ==> x[i] == mid[i - 1])
  {
  }

  // ----- the page's state -----

  /** The non-empty origin codes of the routes. */
  function Origins(routes: seq<RouteMetric>): set<string>
  {
    set r | r in routes && r.origin_airport_code != "" :: r.origin_airport_code
  }

  /** `filters`, and the two refs of the page. */
  class Dashboard {
    var filters: Filters
    var isInitialMount: bool
    var hasSetDefaultOrigin: bool

    constructor (params: map<string, string>)
      ensures filters == InitialFilters(params)
      ensures isInitialMount && !hasSetDefaultOrigin
    {
      filters := InitialFilters(params);
      isInitialMount := true;
      hasSetDefaultOrigin := false;
    }

    /** The URL effect: skipped on the first run, then the target to
        replace the URL with. */
    method SyncUrl(pathname: string) returns (target: Option<string>)
      modifies this
      ensures target == (if old(isInitialMount) then None else Some(Target(pathname, filters)))
      ensures !isInitialMount
      ensures filters == old(filters) && hasSetDefaultOrigin == old(hasSetDefaultOrigin)
    {
      if isInitialMount {
        isInitialMount := false;
        return None;
      }
      target := Some(Target(pathname, filters));
    }

    /** `handleSetOrigin`: a new origin clears country, city and airline. */
    method SetOrigin(val: string)
      modifies this
      ensures filters == Filters(val, "", "", "", old(filters.windowDays))
      ensures isInitialMount == old(isInitialMount) && hasSetDefaultOrigin == old(hasSetDefaultOrigin)
    {
      filters := filters.(origin := val, country := "", city := "", airline := "");
    }

    /** `handleSetCountry`: clears city and airline. */
    method SetCountry(val: string)
      modifies this
      ensures filters == Filters(old(filters.origin), val, "", "", old(filters.windowDays))
      ensures isInitialMount == old(isInitialMount) && hasSetDefaultOrigin == old(hasSetDefaultOrigin)
    {
      filters := filters.(country := val, city := "", airline := "");
    }

    /** `handleSetCity`: clears the airline. */
    method SetCity(val: string)
      modifies this
      ensures filters == old(filters).(city := val, airline := "")
      ensures isInitialMount == old(isInitialMount) && hasSetDefaultOrigin == old(hasSetDefaultOrigin)
    {
      filters := filters.(city := val, airline := "");
    }

    method SetAirline(val: string)
      modifies this
      ensures filters == old(filters).(airline := val)
      ensures isInitialMount == old(isInitialMount) && hasSetDefaultOrigin == old(hasSetDefaultOrigin)
    {
      filters := filters.(airline := val);
    }

    method SetWindowDays(val: string)
      modifies this
      ensures filters == old(filters).(windowDays := val)
      ensures isInitialMount == old(isInitialMount) && hasSetDefaultOrigin == old(hasSetDefaultOrigin)
    {
      filters := filters.(windowDays := val);
    }

    /** The default-origin effect: once routes have arrived while no
        origin is chosen, the origin becomes the only origin code when
        there is exactly one, and the decision is never taken again. */
    method DefaultOrigin(data: Option<DashboardData>)
      modifies this
      ensures var ready := !old(hasSetDefaultOrigin) && old(filters.origin) == "" && data.Some? && data.value.routes != [];
        && hasSetDefaultOrigin == (old(hasSetDefaultOrigin) || ready)
        && (ready && |Origins(data.value.routes)| == 1 ==>
              filters == old(filters).(origin := filters.origin) && Origins(data.value.routes) == {filters.origin})
        && (!(ready && |Origins(data.value.routes)| == 1) ==> filters == old(filters))
      ensures isInitialMount == old(isInitialMount)
    {
      if !hasSetDefaultOrigin && filters.origin == "" && data.Some? && |data.value.routes| > 0 {
        var origins := Origins(data.value.routes);
        if |origins| == 1 {
          var only :| only in origins;
          SingletonSet(origins, only);
          filters := filters.(origin := only);
        }
        hasSetDefaultOrigin := true;
      }
    }

    /** The window effect: a positive `lookback_days` becomes the window
        when the URL has no window of its own. */
    method SyncWindowDays(lookbackDays: Option<nat>, urlHasWindow: bool)
      modifies this
      ensures var change := lookbackDays.Some? && lookbackDays.value > 0 && !urlHasWindow;
        && (change ==> filters == old(filters).(windowDays := NatToString(lookbackDays.value)))
        && (!change ==> filters == old(filters))
      ensures isInitialMount == old(isInitialMount) && hasSetDefaultOrigin == old(hasSetDefaultOrigin)
    {
      if lookbackDays.Some? && lookbackDays.value > 0 {
        var days := NatToString(lookbackDays.value);
        if !urlHasWindow && filters.windowDays != days {
          filters := filters.(windowDays := days);
        }
      }
    }
  }

  /** A one-element set is the set of its element. */
  lemma SingletonSet(s: set<string>, x: string)
    requires |s| == 1 && x in s
    ensures s == {x}
  {
    assert |s - {x}| == 0;
    assert s - {x} == {};
  }
}
