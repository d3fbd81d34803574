/** The gates endpoint (app/api/gates/route.ts) after the query: the `limit`
    parameter, the mapping of one result row to a `GateMetrics` with its
    24 hourly columns `h00`..`h23`, and the response built from the rows. */
module ApiGates {
  import opened Wrappers
  import opened Seqs
  import opened Strings
  import opened Types
  import opened RoutesTable
  import SmartInsights

  /** The page size when the request has no usable `limit`. */
  const DefaultLimit: string := "20"

  /** The body of the 500 response when the query throws. */
  const QueryError: string := "Failed to fetch gates data"

  /** `parseInt(searchParams.get("limit") || "20", 10)`; `None` is NaN. */
  function Limit(params: map<string, string>): Option<int>
  {
    ParseInt(ParamOr(params, "limit", DefaultLimit))
  }

  /** Without a `limit` (or with an empty one) the page size is 20, and a
      decimal `limit` is read as its value. */
  lemma LimitSpec(params: map<string, string>, n: nat)
    ensures "limit" !in params ==> Limit(params) == Some(20)
    ensures "limit" in params && params["limit"] == "" ==> Limit(params) == Some(20)
    ensures "limit" in params && params["limit"] == NatToString(n) ==> Limit(params) == Some(n)
  {
    assert DefaultLimit == NatToString(20);
    ParseIntNatToString(20);
    ParseIntNatToString(n);
  }

  // ----- hourly columns -----

  /** The column of hour `i`: `h${i.toString().padStart(2, '0')}`. */
  function HourKey(i: nat): string
  {
    "h" + PadStart(NatToString(i), 2, '0')
  }

  /** Below 100 the column is "h" and the two decimal digits of the hour. */
  lemma HourKeyDigits(i: nat)
    requires i < 100
    ensures HourKey(i) == ['h', '0' + (i / 10) as char, '0' + (i % 10) as char]
  {
    if i >= 10 {
      assert NatToString(i / 10) == ['0' + (i / 10) as char];
    }
  }

  /** Each hour of the day has its own three-character column, so no
      column is read for two hours. */
  lemma HourKeysDistinct(i: nat, j: nat)
    requires i < 24 && j < 24
    ensures |HourKey(i)| == 3
    ensures HourKey(i) == HourKey(j) <==> i == j
  {
    HourKeyDigits(i);
    HourKeyDigits(j);
    if HourKey(i) == HourKey(j) {
      var ti, ui, tj, uj := i / 10, i % 10, j / 10, j % 10;
      assert ('0' + ti as char) == HourKey(i)[1] == HourKey(j)[1] == ('0' + tj as char);
      assert ('0' + ui as char) == HourKey(i)[2] == HourKey(j)[2] == ('0' + uj as char);
      SameDigit(ti, tj);
      SameDigit(ui, uj);
    }
  }

  lemma SameDigit(x: nat, y: nat)
    requires x < 10 && y < 10 && '0' + x as char == '0' + y as char
    ensures x == y
  {
  }

  /** Hour 7 reads column "h07" and hour 23 column "h23". */
  lemma HourKeyExamples()
    ensures HourKey(7) == "h07" && HourKey(23) == "h23"
  {
    assert NatToString(7) == "7";
    assert seq(1, _ => '0') == "0";
    assert PadStart("7", 2, '0') == "07";
    assert NatToString(2) == "2";
    assert NatToString(23) == "23";
    assert PadStart("23", 2, '0') == "23";
  }

  // ----- rows -----

  /** A result row: every column may be missing (`undefined` or `null`);
      the hourly columns are looked up by name. */
  datatype Row = Row(
    gate: Option<string>,
    totalFlights: Option<nat>,
    avgDelayMinutes: Option<real>,
    delayedFlights: Option<nat>,
    onTimeFlights: Option<nat>,
    onTimePercentage: Option<real>,
    maxDelayMinutes: Option<real>,
    hours: map<string, nat>)

  /** `Number(row[key] || 0)` for an hourly column. */
  function Column(row: Row, key: string): nat
  {
    if key in row.hours then row.hours[key] else 0
  }

  /** `Array.from({ length: 24 }, ...)`: hour `i` reads its own column. */
  function Distribution(row: Row): seq<nat>
  {
    seq(24, i requires 0 <= i < 24 => Column(row, HourKey(i)))
  }

  /** The `.map` callback. */
  function ToGate(row: Row): GateMetrics
  {
    GateMetrics(
      row.gate.GetOr(""),
      row.totalFlights.GetOr(0),
      row.avgDelayMinutes.GetOr(0.0),
      row.delayedFlights.GetOr(0),
      row.onTimeFlights.GetOr(0),
      row.onTimePercentage.GetOr(0.0),
      row.maxDelayMinutes.GetOr(0.0),
      Distribution(row))
  }

  /** A missing gate becomes "" and a missing number 0; the distribution
      has exactly 24 entries, entry `i` being the value of column "hNN"
      for the two digits NN of `i`, or 0 when that column is missing. */
  lemma ToGateSpec(row: Row, i: nat)
    requires i < 24
    ensures var g := ToGate(row);
      && (row.gate.None? ==> g.gate == "")
      && (row.gate.Some? ==> g.gate == row.gate.value)
      && (row.totalFlights.None? ==> g.total_flights == 0)
      && (row.avgDelayMinutes.None? ==> g.avg_delay_minutes == 0.0)
      && (row.delayedFlights.None? ==> g.delayed_flights == 0)
      && (row.onTimeFlights.None? ==> g.on_time_flights == 0)
      && (row.onTimePercentage.None? ==> g.on_time_percentage == 0.0)
      && (row.maxDelayMinutes.None? ==> g.max_delay_minutes == 0.0)
      && |g.time_distribution| == 24
      && var key := ['h', '0' + (i / 10) as char, '0' + (i % 10) as char];
         g.time_distribution[i] == if key in row.hours then row.hours[key] else 0
  {
    HourKeyDigits(i);
  }

  /** Writing a value into the column of hour `i` changes that hour of the
      distribution only. */
  lemma DistributionUpdate(row: Row, i: nat, v: nat)
    requires i < 24
    ensures var d := Distribution(row.(hours := row.hours[HourKey(i) := v]));
      && d[i] == v
      && forall h :: 0 <= h < 24 && h != i ==> d[h] == Distribution(row)[h]
  {
    forall h | 0 <= h < 24 && h != i
      ensures HourKey(h) != HourKey(i)
    {
      HourKeysDistinct(h, i);
    }
  }

  // ----- the response -----

  /** `{ total_gates, fetched_at }`. */
  datatype Metadata = Metadata(total_gates: nat, fetched_at: string)

  /** The JSON body with its status. */
  datatype Response = Ok(data: seq<GateMetrics>, metadata: Metadata) | ServerError(status: nat, error: string)

  /** The response to the query's outcome; `fetchedAt` is the clock's ISO string. */
  function GatesResponse(query: Result<seq<Row>, string>, fetchedAt: string): Response
  {
    match query
    case Success(rows) =>
      var data := Map(rows, ToGate);
      Ok(data, Metadata(|data|, fetchedAt))
    case Failure(_) => ServerError(500, QueryError)
  }

  /** A failed query is a 500 with a fixed message; otherwise there is one
      gate per row, in row order, and `total_gates` counts them. */
  lemma GatesResponseSpec(query: Result<seq<Row>, string>, fetchedAt: string)
    ensures var r := GatesResponse(query, fetchedAt);
      && (query.Failure? <==> r.ServerError?)
      && (r.ServerError? ==> r.status == 500 && r.error == QueryError)
      && (r.Ok? ==>
            && |r.data| == |query.value|
            && r.metadata.total_gates == |r.data|
            && r.metadata.fetched_at == fetchedAt
            && forall k :: 0 <= k < |r.data| ==> r.data[k] == ToGate(query.value[k]))
  {
  }

  /** Gates from the endpoint never carry more than 24 hours, so the
      insights always find a peak hour. */
  lemma ResponseNeverSpills(rows: seq<Row>, fetchedAt: string)
    ensures var r := GatesResponse(Success(rows), fetchedAt);
      r.Ok? && !SmartInsights.Spills(r.data)
  {
    var data := Map(rows, ToGate);
    forall k | 0 <= k < |data|
      ensures |data[k].time_distribution| == 24
    {
      assert data[k] == ToGate(rows[k]);
    }
  }
}
