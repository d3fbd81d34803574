/** Loading the dashboard's exports (hooks/use-dashboard-data.ts): how one
    export's response becomes its rows, how the manifest and the seven
    exports become the dashboard data or one error message, and the
    hook's `data`, `loading` and `error` state with the `active` flag its
    cleanup clears. The requests themselves, their concurrency and JSON
    parsing are not modelled: each request is given by how it ended. */
module UseDashboardData {
  import opened Wrappers
  import opened Strings
  import opened Types

  /** The body of an export: a bare array, or an object whose `data` may
      be missing. */
  datatype Payload<T> = Bare(items: seq<T>) | Wrapped(data: Option<seq<T>>)

  /** How a request ended: a response (`ok`, its status and its parsed
      body), or a thrown value (`None` when it is not an `Error`). */
  datatype Fetched<T> = Response(ok: bool, status: nat, body: T) | Thrown(message: Option<string>)

  const ManifestError: string := "Failed to fetch manifest. Did you run npm run sync-data?"
  const UnexpectedError: string := "Unexpected error"

  /** The message a thrown value leaves in `error`. */
  function MessageOf(message: Option<string>): string
  {
    message.GetOr(UnexpectedError)
  }

  /** `fetchExport`: a response that is not ok fails with its status; a
      bare array is returned as it is; an object gives its `data`, or no
      rows when `data` is missing. */
  function FetchExport<T>(r: Fetched<Payload<T>>): (rows: Result<seq<T>, string>)
    ensures rows.Failure? <==> r.Thrown? || !r.ok
    ensures r.Response? && !r.ok ==> rows == Failure("Failed to fetch export: " + NatToString(r.status))
    ensures r.Thrown? ==> rows == Failure(MessageOf(r.message))
    ensures r.Response? && r.ok && r.body.Bare? ==> rows == Success(r.body.items)
    ensures r.Response? && r.ok && r.body.Wrapped? ==> rows == Success(r.body.data.GetOr([]))
  {
    match r
    case Thrown(m) => Failure(MessageOf(m))
    case Response(ok, status, body) =>
      if !ok then Failure("Failed to fetch export: " + NatToString(status))
      else
        match body
        case Bare(items) => Success(items)
        case Wrapped(data) => Success(data.GetOr([]))
  }

  /** `fetchManifest`. */
  function FetchManifest(r: Fetched<ManifestResponse>): (m: Result<ManifestResponse, string>)
    ensures r.Response? && r.ok ==> m == Success(r.body)
    ensures r.Response? && !r.ok ==> m == Failure(ManifestError)
    ensures r.Thrown? ==> m == Failure(MessageOf(r.message))
  {
    match r
    case Thrown(m) => Failure(MessageOf(m))
    case Response(ok, _, body) => if ok then Success(body) else Failure(ManifestError)
  }

  /** How the six exports and the optional gates export ended. */
  datatype Exports = Exports(
    headline: Fetched<Payload<HeadlineData>>,
    airlines: Fetched<Payload<AirlineBreakdown>>,
    tops: Fetched<Payload<TopRecord>>,
    buckets: Fetched<Payload<BucketDistribution>>,
    dailyStatus: Fetched<Payload<DailyStatus>>,
    routes: Fetched<Payload<RouteMetric>>,
    gates: Fetched<Payload<GateMetrics>>)

  /** The headline when the export has no rows; `now` is the current time
      as an ISO string. */
  function DefaultHeadline(now: string): HeadlineData
  {
    HeadlineData(0, 0, 0, 0, 0.0, 0, now)
  }

  /** `headlineRows[0] ?? { ...zeros }`. */
  function HeadlineOf(rows: seq<HeadlineData>, now: string): (h: HeadlineData)
    ensures rows != [] ==> h == rows[0]
    ensures rows == [] ==>
      && h.total_flights == 0 && h.cancelled_flights == 0 && h.delayed_over_30min == 0
      && h.delayed_over_45min == 0 && h.avg_delay_minutes == 0.0 && h.lookback_days == 0
      && h.dbt_updated_at == now
  {
    if rows == [] then DefaultHeadline(now) else rows[0]
  }

  /** The gates: requested only when the manifest names a gates export,
      and no rows when that request fails. */
  function GatesOf(url: Option<string>, r: Fetched<Payload<GateMetrics>>): (gates: seq<GateMetrics>)
    ensures url.None? || url == Some("") ==> gates == []
    ensures url.Some? && url.value != "" && FetchExport(r).Success? ==> gates == FetchExport(r).value
    ensures FetchExport(r).Failure? ==> gates == []
  {
    if url.None? || url.value == "" then []
    else
      match FetchExport(r)
      case Success(rows) => rows
      case Failure(_) => []
  }

  /** The first failure among the six required exports, in the order they
      are listed. */
  function FirstFailure(e: Exports): Option<string>
  {
    if FetchExport(e.headline).Failure? then Some(FetchExport(e.headline).error)
    else if FetchExport(e.airlines).Failure? then Some(FetchExport(e.airlines).error)
    else if FetchExport(e.tops).Failure? then Some(FetchExport(e.tops).error)
    else if FetchExport(e.buckets).Failure? then Some(FetchExport(e.buckets).error)
    else if FetchExport(e.dailyStatus).Failure? then Some(FetchExport(e.dailyStatus).error)
    else if FetchExport(e.routes).Failure? then Some(FetchExport(e.routes).error)
    else None
  }

  /** The body of `load`'s `try`: the dashboard data, or the message of the
      error that ended it. */
  function LoadOutcome(manifest: Fetched<ManifestResponse>, e: Exports, now: string): Result<DashboardData, string>
  {
    match FetchManifest(manifest)
    case Failure(msg) => Failure(msg)
    case Success(m) =>
      match FirstFailure(e)
      case Some(msg) => Failure(msg)
      case None =>
        Success(DashboardData(
          HeadlineOf(FetchExport(e.headline).value, now),
          FetchExport(e.airlines).value,
          FetchExport(e.tops).value,
          FetchExport(e.buckets).value,
          FetchExport(e.dailyStatus).value,
          FetchExport(e.routes).value,
          GatesOf(m.urls.gates_analysis, e.gates),
          m.generated_at,
          m.expires_at))
  }

  /** The load succeeds iff the manifest and the six required exports do,
      whatever the gates export did; the data then carries each export's
      rows, the first headline row or the zero headline, and the
      manifest's two timestamps. */
  lemma LoadOutcomeSpec(manifest: Fetched<ManifestResponse>, e: Exports, now: string)
    ensures var out := LoadOutcome(manifest, e, now);
      && (out.Success? <==>
            && FetchManifest(manifest).Success?
            && FetchExport(e.headline).Success? && FetchExport(e.airlines).Success?
            && FetchExport(e.tops).Success? && FetchExport(e.buckets).Success?
            && FetchExport(e.dailyStatus).Success? && FetchExport(e.routes).Success?)
      && (out.Success? ==>
            var m := FetchManifest(manifest).value;
            && out.value.generatedAt == m.generated_at && out.value.expiresAt == m.expires_at
            && out.value.airlines == FetchExport(e.airlines).value
            && out.value.routes == FetchExport(e.routes).value
            && out.value.gates == GatesOf(m.urls.gates_analysis, e.gates)
            && out.value.headline == HeadlineOf(FetchExport(e.headline).value, now))
      && (FetchManifest(manifest).Failure? ==> out == Failure(FetchManifest(manifest).error))
  {
  }

  /** A failing gates export never fails the load. */
  lemma GatesFailureTolerated(manifest: Fetched<ManifestResponse>, e: Exports, now: string, g: Fetched<Payload<GateMetrics>>)
    requires FetchExport(g).Failure?
    ensures LoadOutcome(manifest, e, now).Success? <==> LoadOutcome(manifest, e.(gates := g), now).Success?
    ensures LoadOutcome(manifest, e.(gates := g), now).Success? ==> LoadOutcome(manifest, e.(gates := g), now).value.gates == []
  {
  }

  /** The hook's state and the `active` flag of its effect. */
  class DashboardDataState {
    var data: Option<DashboardData>
    var loading: bool
    var error: Option<string>
    var active: bool

    constructor ()
      ensures data == None && loading && error == None && active
    {
      data := None;
      loading := true;
      error := None;
      active := true;
    }

    /** Loading ended with neither both nor none of data and error. */
    predicate Settled()
      reads this
    {
      !loading && (data.Some? <==> error.None?)
    }

    /** The start of `load`. */
    method Start()
      modifies this
      ensures loading && error == None
      ensures data == old(data) && active == old(active)
    {
      loading := true;
      error := None;
    }

    /** The end of `load`: while active, the data or the message, and
        `loading` off; once cleaned up, nothing changes. */
    method Complete(outcome: Result<DashboardData, string>)
      modifies this
      ensures !old(active) ==> data == old(data) && loading == old(loading) && error == old(error)
      ensures old(active) ==> !loading
      ensures old(active) && outcome.Success? ==> data == Some(outcome.value) && error == old(error)
      ensures old(active) && outcome.Failure? ==> error == Some(outcome.error) && data == old(data)
      ensures old(active) && old(data).None? && old(error).None? ==> Settled()
      ensures active == old(active)
    {
      if active {
        match outcome
        case Success(d) => data := Some(d);
        case Failure(msg) => error := Some(msg);
      }
      if active {
        loading := false;
      }
    }

    /** The effect's cleanup. */
    method Deactivate()
      modifies this
      ensures !active && data == old(data) && loading == old(loading) && error == old(error)
    {
      active := false;
    }
  }

  /** A mounted hook that runs its load to the end settles on exactly one of
      data and error; that holds for every outcome. */
  method MountAndLoad(outcome: Result<DashboardData, string>) returns (s: DashboardDataState)
    ensures s.Settled()
    ensures outcome.Success? ==> s.data == Some(outcome.value)
    ensures outcome.Failure? ==> s.error == Some(outcome.error)
  {
    s := new DashboardDataState();
    s.Start();
    s.Complete(outcome);
  }

  /** Cleaned up before the load ends, the hook keeps loading with nothing. */
  method MountAndUnmount(outcome: Result<DashboardData, string>) returns (s: DashboardDataState)
    ensures s.loading && s.data == None && s.error == None
  {
    s := new DashboardDataState();
    s.Start();
    s.Deactivate();
    s.Complete(outcome);
  }
}
