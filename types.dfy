/** The records exchanged between the exports, the API routes and the
    dashboard (lib/types.ts). Counters are natural numbers; averages,
    percentages and rates are exact reals. Optional TypeScript fields are
    `Option`s. */
module Types {
  import opened Wrappers

  datatype ManifestUrls = ManifestUrls(
    headline: string,
    airline_breakdown: string,
    tops: string,
    bucket_distribution: string,
    daily_status: string,
    routes_metrics: string,
    gates_analysis: Option<string>)

  datatype ManifestResponse = ManifestResponse(
    generated_at: string,
    expires_at: string,
    expiration_days: Option<int>,
    urls: ManifestUrls)

  datatype HeadlineData = HeadlineData(
    total_flights: nat,
    cancelled_flights: nat,
    delayed_over_30min: nat,
    delayed_over_45min: nat,
    avg_delay_minutes: real,
    lookback_days: nat,
    dbt_updated_at: string)

  datatype AirlineBreakdown = AirlineBreakdown(
    airline_name: string,
    total_flights: nat,
    cancelled_flights: nat,
    avg_delay_minutes: real,
    hours_lost: real,
    delay_over_45: nat,
    delay_45_30: nat,
    delay_30_15: nat,
    delay_15_0: nat,
    on_time_or_early: nat,
    dbt_updated_at: string)

  datatype RecordType = TopDestinationRow | TopDelayRow | TopEarlyRow

  /** A row of tops.json (`record_type` "top_destination", "top_delay" or
      "top_early"): destination rows and delay/early rows share the
      record with different optional fields. */
  datatype TopRecord = TopRecord(
    record_type: RecordType,
    rank: Option<real>,
    destination_city: Option<string>,
    destination_country: Option<string>,
    total_flights: Option<nat>,
    avg_delay_minutes: Option<real>,
    flight_number: Option<string>,
    origin_airport_code: Option<string>,
    destination_airport_code: Option<string>,
    delay_minutes: Option<real>,
    scheduled_departure_time: Option<string>,
    actual_departure_time: Option<string>)

  datatype BucketDistribution = BucketDistribution(bucket: string, total_flights: nat)

  datatype DailyStatus = DailyStatus(
    flight_date: string,
    total_flights: nat,
    cancelled_flights: nat,
    delayed_over_30min: nat,
    avg_delay_minutes: real,
    top_destination_city: Option<string>,
    top_destination_country: Option<string>,
    dbt_updated_at: string)

  /** Per-gate aggregate; `time_distribution[h]` counts flights at hour h. */
  datatype GateMetrics = GateMetrics(
    gate: string,
    total_flights: nat,
    avg_delay_minutes: real,
    delayed_flights: nat,
    on_time_flights: nat,
    on_time_percentage: real,
    max_delay_minutes: real,
    time_distribution: seq<nat>)

  datatype RouteMetric = RouteMetric(
    origin_airport_code: string,
    origin_airport_name: string,
    origin_city: string,
    origin_country: string,
    destination_airport_code: string,
    destination_airport_name: string,
    destination_city: string,
    destination_country: string,
    airline_code: string,
    airline_name: string,
    window_start_date: string,
    window_end_date: string,
    total_flights: nat,
    total_completed_flights: nat,
    total_cancelled_flights: nat,
    total_delayed_flights: nat,
    total_on_time_flights: nat,
    avg_delay_minutes: real,
    on_time_percentage: real,
    delayed_percentage: real,
    cancellation_rate: real)

  datatype DashboardData = DashboardData(
    headline: HeadlineData,
    airlines: seq<AirlineBreakdown>,
    tops: seq<TopRecord>,
    buckets: seq<BucketDistribution>,
    dailyStatus: seq<DailyStatus>,
    routes: seq<RouteMetric>,
    gates: seq<GateMetrics>,
    generatedAt: string,
    expiresAt: string)
}
