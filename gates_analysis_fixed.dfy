/** The gate analysis fed with the exported gates
    (components/dashboard/gates-analysis-fixed.tsx): one bar per gate with a
    trimmed label and a 24-slot distribution, ordered by the view mode, a
    summary, a colour scale, and a concurrency heatmap. */
module GatesAnalysisFixed {
  import opened Wrappers
  import opened Seqs
  import opened Strings
  import opened Numbers
  import opened Types

  datatype ViewMode = Delay | Flights | OnTime | Concurrency

  /** A bar of the chart. */
  datatype ChartRow = ChartRow(
    gate: string,
    rawGate: string,
    avgDelay: real,
    totalFlights: nat,
    onTimePercentage: real,
    delayedFlights: nat,
    onTimeFlights: nat,
    maxDelay: real,
    timeDistribution: seq<nat>)

  datatype Stats = Stats(avgDelay: real, totalFlights: nat, avgOnTime: real)

  datatype Heatmap = Heatmap(hours: seq<nat>, maxVal: nat, gates: seq<ChartRow>)

  /** The bar colours: green, cyan, yellow and red. */
  datatype Color = Green | Cyan | Yellow | Red

  // ----- rows -----

  /** `HOURS`: 0 to 23. */
  function Hours(): (h: seq<nat>)
    ensures |h| == 24 && forall i :: 0 <= i < 24 ==> h[i] == i
  {
    seq(24, i requires 0 <= i < 24 => i)
  }

  /** `normalizeDistribution`: slot i of the distribution, or 0 past its end. */
  function NormalizeDistribution(d: seq<nat>): (r: seq<nat>)
    ensures |r| == 24
  {
    seq(24, i requires 0 <= i < 24 => if i < |d| then d[i] else 0)
  }

  /** A distribution of at most 24 slots is padded with zeros; a longer one
      is cut after slot 23. */
  lemma NormalizeSpec(d: seq<nat>)
    ensures var r := NormalizeDistribution(d);
      && (|d| <= 24 ==> r[..|d|] == d && forall i :: |d| <= i < 24 ==> r[i] == 0)
      && (|d| >= 24 ==> r == d[..24])
  {
  }

  /** The `.map` to a bar. */
  function ToChartRow(g: GateMetrics): (r: ChartRow)
    ensures var t := Trim(g.gate);
      && (t != "" ==> r.gate == "Gate " + t && r.rawGate == t)
      && (t == "" ==> r.gate == "Gate N/A" && r.rawGate == "N/A")
      && r.totalFlights == g.total_flights
      && r.timeDistribution == NormalizeDistribution(g.time_distribution)
  {
    var rawGate := Trim(g.gate);
    ChartRow(
      if rawGate != "" then "Gate " + rawGate else "Gate N/A",
      if rawGate != "" then rawGate else "N/A",
      Round1(g.avg_delay_minutes),
      g.total_flights,
      g.on_time_percentage,
      g.delayed_flights,
      g.on_time_flights,
      g.max_delay_minutes,
      NormalizeDistribution(g.time_distribution))
  }

  /** The raw gate shown is never empty and never starts or ends with white space. */
  lemma RawGateSpec(g: GateMetrics)
    ensures var raw := ToChartRow(g).rawGate;
      raw != "" && !IsSpace(raw[0]) && !IsSpace(Last(raw))
  {
    TrimEnds(g.gate);
  }

  /** The sort key of a mode: `avgDelay` for "delay", `totalFlights` for
      "flights" and "concurrency", `onTimePercentage` otherwise. */
  function ModeKey(mode: ViewMode, r: ChartRow): real
  {
    match mode
    case Delay => r.avgDelay
    case Flights | Concurrency => r.totalFlights as real
    case OnTime => r.onTimePercentage
  }

  function KeyOf(mode: ViewMode): ChartRow -> real
  {
    r => ModeKey(mode, r)
  }

  /** The comparator `b.key - a.key`: larger keys first. */
  function ModeOrder(mode: ViewMode): (ChartRow, ChartRow) -> bool
  {
    (a, b) => ModeKey(mode, a) >= ModeKey(mode, b)
  }

  /** `chartData`. */
  function ChartData(gates: seq<GateMetrics>, mode: ViewMode): seq<ChartRow>
  {
    SortBy(Map(gates, ToChartRow), ModeOrder(mode))
  }

  /** One bar per gate, largest key of the mode first. */
  lemma ChartDataSpec(gates: seq<GateMetrics>, mode: ViewMode)
    ensures var r := ChartData(gates, mode);
      && |r| == |gates|
      && multiset(r) == multiset(Map(gates, ToChartRow))
      && forall i, j :: 0 <= i < j < |r| ==> ModeKey(mode, r[i]) >= ModeKey(mode, r[j])
  {
    DescendingByKey(ModeOrder(mode), KeyOf(mode));
    SortBySorted(Map(gates, ToChartRow), ModeOrder(mode));
  }

  // ----- summary -----

  function RowDelay(r: ChartRow): real { r.avgDelay }
  function RowFlights(r: ChartRow): nat { r.totalFlights }
  function RowOnTime(r: ChartRow): real { r.onTimePercentage }
  function GateFlights(g: GateMetrics): nat { g.total_flights }

  /** `stats`: zeros without bars, else the mean delay, the flight total and
      the mean punctuality, the means rounded to one decimal. */
  function StatsOf(rows: seq<ChartRow>): Stats
  {
    if |rows| == 0 then Stats(0.0, 0, 0.0)
    else
      var n := |rows| as real;
      Stats(Round1(SumReal(rows, RowDelay) / n), SumNat(rows, RowFlights), Round1(SumReal(rows, RowOnTime) / n))
  }

  /** The bars carry the gates' flights. */
  lemma {:induction false} RowsFlights(gates: seq<GateMetrics>)
    ensures SumNat(Map(gates, ToChartRow), RowFlights) == SumNat(gates, GateFlights)
    decreases |gates|
  {
    if gates != [] {
      var rows := Map(gates, ToChartRow);
      assert DropLast(rows) == Map(DropLast(gates), ToChartRow);
      RowsFlights(DropLast(gates));
    }
  }

  /** The summary does not depend on the view mode: it is the summary of
      the unsorted bars. Without gates it is all zeros; otherwise its total
      is the sum of the gates' flights and its means are within 0.05 of the
      exact means. */
  lemma StatsSpec(gates: seq<GateMetrics>, mode: ViewMode)
    ensures var rows := Map(gates, ToChartRow);
      var s := StatsOf(ChartData(gates, mode));
      && s == StatsOf(rows)
      && (gates == [] ==> s == Stats(0.0, 0, 0.0))
      && s.totalFlights == SumNat(gates, GateFlights)
      && (gates != [] ==>
            var n := |gates| as real;
            && SumReal(rows, RowDelay) / n - 0.05 < s.avgDelay <= SumReal(rows, RowDelay) / n + 0.05
            && SumReal(rows, RowOnTime) / n - 0.05 < s.avgOnTime <= SumReal(rows, RowOnTime) / n + 0.05)
  {
    var rows := Map(gates, ToChartRow);
    var sorted := ChartData(gates, mode);
    SumRealPerm(sorted, rows, RowDelay);
    SumRealPerm(sorted, rows, RowOnTime);
    SumNatPerm(sorted, rows, RowFlights);
    RowsFlights(gates);
  }

  /** The summary is the same in every view mode. */
  lemma StatsModeIndependent(gates: seq<GateMetrics>, m1: ViewMode, m2: ViewMode)
    ensures StatsOf(ChartData(gates, m1)) == StatsOf(ChartData(gates, m2))
  {
    StatsSpec(gates, m1);
    StatsSpec(gates, m2);
  }

  // ----- colours -----

  /** The `hsl` string of a colour. */
  function Hsl(c: Color): string
  {
    match c
    case Green => "hsl(160, 84%, 39%)"
    case Cyan => "hsl(187, 96%, 42%)"
    case Yellow => "hsl(45, 93%, 47%)"
    case Red => "hsl(0, 72%, 51%)"
  }

  /** The value a bar is coloured by: `avgDelay` in "delay", `totalFlights`
      in "flights", `onTimePercentage` otherwise. */
  function BarValue(r: ChartRow, mode: ViewMode): real
  {
    if mode == Delay then r.avgDelay
    else if mode == Flights then r.totalFlights as real
    else r.onTimePercentage
  }

  /** `getBarColor`. */
  function BarColor(value: real, mode: ViewMode): (c: Color)
    ensures mode == Delay ==>
      && (c == Green <==> value < 0.0)
      && (c == Cyan <==> 0.0 <= value < 15.0)
      && (c == Yellow <==> 15.0 <= value < 30.0)
      && (c == Red <==> value >= 30.0)
    ensures mode == OnTime ==>
      && (c == Green <==> value >= 80.0)
      && (c == Cyan <==> 60.0 <= value < 80.0)
      && (c == Yellow <==> 40.0 <= value < 60.0)
      && (c == Red <==> value < 40.0)
    ensures mode != Delay && mode != OnTime ==> c == Cyan
  {
    if mode == Delay then
      if value < 0.0 then Green
      else if value < 15.0 then Cyan
      else if value < 30.0 then Yellow
      else Red
    else if mode == OnTime then
      if value >= 80.0 then Green
      else if value >= 60.0 then Cyan
      else if value >= 40.0 then Yellow
      else Red
    else Cyan
  }

  /** Green is best, red worst. */
  function Severity(c: Color): nat
  {
    match c
    case Green => 0
    case Cyan => 1
    case Yellow => 2
    case Red => 3
  }

  /** More delay never gives a better colour; more punctuality never gives
      a worse one. */
  lemma BarColorMonotone(v: real, w: real, mode: ViewMode)
    requires v <= w
    ensures mode == Delay ==> Severity(BarColor(v, mode)) <= Severity(BarColor(w, mode))
    ensures mode == OnTime ==> Severity(BarColor(v, mode)) >= Severity(BarColor(w, mode))
  {
  }

  // ----- heatmap -----

  /** The `if (val > maxVal) maxVal = val` fold of one distribution, from `m`. */
  function MaxFrom(m: nat, s: seq<nat>): nat
  {
    if s == [] then m
    else
      var before := MaxFrom(m, DropLast(s));
      if Last(s) > before then Last(s) else before
  }

  /** The fold over all distributions, from 0. */
  function GridMax(grid: seq<seq<nat>>): nat
  {
    if grid == [] then 0 else MaxFrom(GridMax(DropLast(grid)), Last(grid))
  }

  /** The nested `forEach` that finds the largest cell. */
  method HeatmapMax(grid: seq<seq<nat>>) returns (maxVal: nat)
    ensures maxVal == GridMax(grid)
  {
    maxVal := 0;
    for i := 0 to |grid|
      invariant maxVal == GridMax(grid[..i])
    {
      var row := grid[i];
      ghost var start := maxVal;
      for j := 0 to |row|
        invariant maxVal == MaxFrom(start, row[..j])
      {
        assert DropLast(row[..j + 1]) == row[..j] && Last(row[..j + 1]) == row[j];
        if row[j] > maxVal {
          maxVal := row[j];
        }
      }
      assert row[..|row|] == row;
      assert DropLast(grid[..i + 1]) == grid[..i] && Last(grid[..i + 1]) == row;
    }
    assert grid[..|grid|] == grid;
  }

  /** The fold reaches at least its start and every element, and is its
      start or one of the elements. */
  lemma {:induction false} MaxFromSpec(m: nat, s: seq<nat>)
    ensures var r := MaxFrom(m, s);
      && r >= m
      && (forall j :: 0 <= j < |s| ==> s[j] <= r)
      && (r == m || r in s)
    decreases |s|
  {
    if s != [] {
      var d := DropLast(s);
      MaxFromSpec(m, d);
      Snoc(s);
    }
  }

  /** The grid maximum bounds every cell, and is 0 or one of the cells. */
  lemma {:induction false} GridMaxSpec(grid: seq<seq<nat>>)
    ensures var r := GridMax(grid);
      && (forall i, j :: 0 <= i < |grid| && 0 <= j < |grid[i]| ==> grid[i][j] <= r)
      && (r == 0 || exists i, j :: 0 <= i < |grid| && 0 <= j < |grid[i]| && grid[i][j] == r)
    decreases |grid|
  {
    if grid != [] {
      var d, row := DropLast(grid), Last(grid);
      GridMaxSpec(d);
      MaxFromSpec(GridMax(d), row);
      assert grid == d + [row];
      var r := GridMax(grid);
      if r != 0 {
        if r == GridMax(d) {
          var i, j :| 0 <= i < |d| && 0 <= j < |d[i]| && d[i][j] == r;
          assert grid[i] == d[i];
        } else {
          var j :| 0 <= j < |row| && row[j] == r;
          assert grid[|grid| - 1] == row;
        }
      }
    }
  }

  function RowDistribution(r: ChartRow): seq<nat> { r.timeDistribution }

  /** `heatmapData`: nothing outside "concurrency"; otherwise the hours, the
      largest cell raised to at least 1, and the bars. */
  function HeatmapOf(rows: seq<ChartRow>, mode: ViewMode): Option<Heatmap>
  {
    if mode != Concurrency then None
    else Some(Heatmap(Hours(), MaxInt(GridMax(Map(rows, RowDistribution)), 1), rows))
  }

  method ComputeHeatmap(rows: seq<ChartRow>, mode: ViewMode) returns (h: Option<Heatmap>)
    ensures h == HeatmapOf(rows, mode)
  {
    if mode != Concurrency {
      return None;
    }
    var maxVal := HeatmapMax(Map(rows, RowDistribution));
    h := Some(Heatmap(Hours(), MaxInt(maxVal, 1), rows));
  }

  /** The heatmap exists only in "concurrency"; its maximum is at least 1
      and at least every cell, and is 1 or one of the cells. */
  lemma HeatmapSpec(gates: seq<GateMetrics>, mode: ViewMode)
    ensures var rows := ChartData(gates, mode);
      var h := HeatmapOf(rows, mode);
      && (h.None? <==> mode != Concurrency)
      && (h.Some? ==>
            && h.value.maxVal >= 1
            && (forall i, j :: 0 <= i < |rows| && 0 <= j < |rows[i].timeDistribution| ==>
                  rows[i].timeDistribution[j] <= h.value.maxVal)
            && (h.value.maxVal == 1 || exists i, j :: (0 <= i < |rows| && 0 <= j < |rows[i].timeDistribution|
                  && rows[i].timeDistribution[j] == h.value.maxVal)))
  {
    var rows := ChartData(gates, mode);
    var grid := Map(rows, RowDistribution);
    GridMaxSpec(grid);
    assert forall i :: 0 <= i < |rows| ==> grid[i] == rows[i].timeDistribution;
  }

  /** Every bar of the chart has 24 slots. */
  lemma DistributionsHave24(gates: seq<GateMetrics>, mode: ViewMode)
    ensures forall r :: r in ChartData(gates, mode) ==> |r.timeDistribution| == 24
  {
    ChartDataSpec(gates, mode);
    forall r | r in ChartData(gates, mode) ensures |r.timeDistribution| == 24 {
      assert r in multiset(Map(gates, ToChartRow));
    }
  }

  /** Nothing is rendered without gates. */
  function Visible(gates: seq<GateMetrics>, mode: ViewMode): (b: bool)
    ensures b <==> gates != []
  {
    ChartDataSpec(gates, mode);
    |ChartData(gates, mode)| != 0
  }
}
