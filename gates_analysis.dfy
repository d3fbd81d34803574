/** The gate analysis that fetches its own gates
    (components/dashboard/gates-analysis.tsx), the variant the dashboard
    renders: raw gate labels and distributions, the same mode ordering,
    summary and colour scale as the fixed variant, a heatmap whose maximum
    is the largest raw cell, and the fetch state. */
module GatesAnalysis {
  import opened Wrappers
  import opened Seqs
  import opened Numbers
  import opened Types
  import opened GatesAnalysisFixed

  /** The request of the fetch effect. */
  const GatesUrl: string := "/api/gates?limit=15"

  /** The message used when the thrown value is not an `Error`. */
  const UnknownError: string := "Error desconocido"

  /** The `.map` to a bar: the gate as it comes, no trimming, no padding. */
  function ToRawRow(g: GateMetrics): (r: ChartRow)
    ensures r.gate == "Gate " + g.gate && r.rawGate == g.gate
    ensures r.totalFlights == g.total_flights && r.onTimePercentage == g.on_time_percentage
    ensures r.timeDistribution == g.time_distribution
  {
    ChartRow(
      "Gate " + g.gate,
      g.gate,
      Round1(g.avg_delay_minutes),
      g.total_flights,
      g.on_time_percentage,
      g.delayed_flights,
      g.on_time_flights,
      g.max_delay_minutes,
      g.time_distribution)
  }

  /** `chartData`, sorted with the comparator of the fixed variant. */
  function RawChartData(gates: seq<GateMetrics>, mode: ViewMode): seq<ChartRow>
  {
    SortBy(Map(gates, ToRawRow), ModeOrder(mode))
  }

  /** One bar per fetched gate, largest key of the mode first. */
  lemma RawChartDataSpec(gates: seq<GateMetrics>, mode: ViewMode)
    ensures var r := RawChartData(gates, mode);
      && |r| == |gates|
      && multiset(r) == multiset(Map(gates, ToRawRow))
      && forall i, j :: 0 <= i < j < |r| ==> ModeKey(mode, r[i]) >= ModeKey(mode, r[j])
  {
    DescendingByKey(ModeOrder(mode), KeyOf(mode));
    SortBySorted(Map(gates, ToRawRow), ModeOrder(mode));
  }

  /** The bars carry the gates' flights. */
  lemma {:induction false} RawRowsFlights(gates: seq<GateMetrics>)
    ensures SumNat(Map(gates, ToRawRow), RowFlights) == SumNat(gates, GateFlights)
    decreases |gates|
  {
    if gates != [] {
      var rows := Map(gates, ToRawRow);
      assert DropLast(rows) == Map(DropLast(gates), ToRawRow);
      RawRowsFlights(DropLast(gates));
    }
  }

  /** `stats` over the fetched gates: the same in every view mode, zeros
      without gates, the total of their flights, and means within 0.05 of
      the exact means of the bars. */
  lemma RawStatsSpec(gates: seq<GateMetrics>, mode: ViewMode)
    ensures var rows := Map(gates, ToRawRow);
      var s := StatsOf(RawChartData(gates, mode));
      && s == StatsOf(rows)
      && (gates == [] ==> s == Stats(0.0, 0, 0.0))
      && s.totalFlights == SumNat(gates, GateFlights)
      && (gates != [] ==>
            var n := |gates| as real;
            && SumReal(rows, RowDelay) / n - 0.05 < s.avgDelay <= SumReal(rows, RowDelay) / n + 0.05
            && SumReal(rows, RowOnTime) / n - 0.05 < s.avgOnTime <= SumReal(rows, RowOnTime) / n + 0.05)
  {
    var rows := Map(gates, ToRawRow);
    var sorted := RawChartData(gates, mode);
    RawChartDataSpec(gates, mode);
    SumRealPerm(sorted, rows, RowDelay);
    SumRealPerm(sorted, rows, RowOnTime);
    SumNatPerm(sorted, rows, RowFlights);
    RawRowsFlights(gates);
  }

  // ----- heatmap -----

  function GateDistribution(g: GateMetrics): seq<nat> { g.time_distribution }

  /** `heatmapData`: nothing outside "concurrency"; otherwise the hours, the
      largest raw cell (0 when there is none) and the bars. */
  function RawHeatmapOf(gates: seq<GateMetrics>, mode: ViewMode): Option<Heatmap>
  {
    if mode != Concurrency then None
    else Some(Heatmap(Hours(), GridMax(Map(gates, GateDistribution)), RawChartData(gates, mode)))
  }

  method ComputeRawHeatmap(gates: seq<GateMetrics>, mode: ViewMode) returns (h: Option<Heatmap>)
    ensures h == RawHeatmapOf(gates, mode)
  {
    if mode != Concurrency {
      return None;
    }
    var maxVal := HeatmapMax(Map(gates, GateDistribution));
    h := Some(Heatmap(Hours(), maxVal, RawChartData(gates, mode)));
  }

  /** `val / (maxVal || 1)`. */
  function Intensity(val: nat, maxVal: nat): real
  {
    val as real / (if maxVal == 0 then 1 else maxVal) as real
  }

  /** A cell shows its count when `val > 0 && intensity > 0.45`. */
  predicate ShowsCount(val: nat, maxVal: nat)
  {
    val > 0 && Intensity(val, maxVal) > 0.45
  }

  /** A cell at most the maximum has an intensity in [0, 1]. */
  lemma IntensityBounds(val: nat, maxVal: nat)
    requires val <= maxVal
    ensures 0.0 <= Intensity(val, maxVal) <= 1.0
  {
    if maxVal > 0 {
      var q := val as real / maxVal as real;
      assert q * maxVal as real == val as real;
    }
  }

  /** The heatmap exists only in "concurrency"; its maximum bounds every
      cell of every bar, so every intensity lies in [0, 1], and a count is
      shown only for a positive cell above 45% of a positive maximum. */
  lemma RawHeatmapSpec(gates: seq<GateMetrics>, mode: ViewMode)
    ensures var h := RawHeatmapOf(gates, mode);
      && (h.None? <==> mode != Concurrency)
      && (h.Some? ==> forall i, j :: 0 <= i < |h.value.gates| && 0 <= j < |h.value.gates[i].timeDistribution| ==>
            var val := h.value.gates[i].timeDistribution[j];
            && val <= h.value.maxVal
            && 0.0 <= Intensity(val, h.value.maxVal) <= 1.0
            && (ShowsCount(val, h.value.maxVal) ==> h.value.maxVal > 0))
  {
    if mode == Concurrency {
      var rows := RawChartData(gates, mode);
      var grid := Map(gates, GateDistribution);
      var m := GridMax(grid);
      GridMaxSpec(grid);
      RawChartDataSpec(gates, mode);
      forall i, j | 0 <= i < |rows| && 0 <= j < |rows[i].timeDistribution|
        ensures rows[i].timeDistribution[j] <= m
        ensures 0.0 <= Intensity(rows[i].timeDistribution[j], m) <= 1.0
      {
        assert rows[i] in multiset(Map(gates, ToRawRow));
        var k :| 0 <= k < |gates| && Map(gates, ToRawRow)[k] == rows[i];
        assert grid[k] == rows[i].timeDistribution;
        IntensityBounds(rows[i].timeDistribution[j], m);
      }
    }
  }

  // ----- fetch state -----

  /** How the request ended: a response that is not ok, a payload whose
      `data` may be missing, or a thrown value (`None` when it is not an
      `Error`). */
  datatype Outcome = NotOk(status: string) | Payload(data: Option<seq<GateMetrics>>) | Thrown(message: Option<string>)

  /** What the component shows. */
  datatype View = Skeleton | Hidden | Shown(rows: seq<ChartRow>)

  /** `gatesData`, `loading`, `error` and `viewMode`. */
  class GatesState {
    var gatesData: seq<GateMetrics>
    var loading: bool
    var error: Option<string>
    var viewMode: ViewMode

    constructor ()
      ensures gatesData == [] && loading && error == None && viewMode == Delay
    {
      gatesData := [];
      loading := true;
      error := None;
      viewMode := Delay;
    }

    /** The start of `fetchGates`. */
    method Begin()
      modifies this
      ensures loading && error == None
      ensures gatesData == old(gatesData) && viewMode == old(viewMode)
    {
      loading := true;
      error := None;
    }

    /** The rest of `fetchGates`: the data on success (`result.data || []`),
        the message on failure, and `loading` off in every case. */
    method Finish(outcome: Outcome)
      modifies this
      ensures !loading && viewMode == old(viewMode)
      ensures outcome.Payload? ==> gatesData == outcome.data.GetOr([]) && error == old(error)
      ensures outcome.NotOk? ==> gatesData == old(gatesData) && error == Some("Failed to fetch gates: " + outcome.status)
      ensures outcome.Thrown? ==> gatesData == old(gatesData) && error == Some(outcome.message.GetOr(UnknownError))
    {
      loading := false;
      match outcome
      case Payload(data) =>
        gatesData := data.GetOr([]);
      case NotOk(status) =>
        error := Some("Failed to fetch gates: " + status);
      case Thrown(message) =>
        error := Some(message.GetOr(UnknownError));
    }

    method SetViewMode(mode: ViewMode)
      modifies this
      ensures viewMode == mode
      ensures gatesData == old(gatesData) && loading == old(loading) && error == old(error)
    {
      viewMode := mode;
    }

    /** The skeleton while loading, nothing on a (non-empty, so truthy)
        error or without gates, the chart otherwise. */
    function Render(): (v: View)
      reads this
      ensures v == Skeleton <==> loading
      ensures v.Shown? <==> !loading && (error == None || error == Some("")) && gatesData != []
      ensures v.Shown? ==> v.rows == RawChartData(gatesData, viewMode)
    {
      RawChartDataSpec(gatesData, viewMode);
      if loading then Skeleton
      else if error.Some? && error.value != "" then Hidden
      else if |RawChartData(gatesData, viewMode)| == 0 then Hidden
      else Shown(RawChartData(gatesData, viewMode))
    }
  }
}
