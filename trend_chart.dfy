/** The delay trend (components/dashboard/trend-chart.tsx): the days sorted
    by date, the y-axis ceiling and average line, and how many x-axis ticks
    are skipped. Date parsing (`new Date(..).getTime()`) is the parameter
    `timeOf`, taken to succeed on every `flight_date`; the date labels made
    with `Intl` are the parameters `dateLabel` and `fullDateLabel`. */
module TrendChart {
  import opened Wrappers
  import opened Seqs
  import opened Numbers
  import opened Types

  /** One point of `chartData`. */
  datatype ChartPoint = ChartPoint(
    date: string,
    fullDate: string,
    avgDelay: real,
    totalFlights: nat,
    timestamp: int)

  /** `{ min, max, avg }` of the y axis. */
  datatype AxisConfig = AxisConfig(min: real, max: real, avg: real)

  // ----- chart data -----

  /** The comparator `getTime(a) - getTime(b)` does not put `a` after `b`. */
  function EarlierFirst(timeOf: string -> int): (le: (DailyStatus, DailyStatus) -> bool)
    ensures forall a, b :: le(a, b) == (timeOf(a.flight_date) <= timeOf(b.flight_date))
  {
    (a: DailyStatus, b: DailyStatus) => timeOf(a.flight_date) <= timeOf(b.flight_date)
  }

  function ToPoint(d: DailyStatus, mobile: bool, timeOf: string -> int,
                   dateLabel: (string, bool) -> string, fullDateLabel: string -> string): (p: ChartPoint)
    ensures p.avgDelay == Round1(d.avg_delay_minutes)
    ensures p.totalFlights == d.total_flights && p.timestamp == timeOf(d.flight_date)
  {
    ChartPoint(dateLabel(d.flight_date, mobile), fullDateLabel(d.flight_date),
      Round1(d.avg_delay_minutes), d.total_flights, timeOf(d.flight_date))
  }

  /** The days of the copy, sorted by date. */
  function SortedDays(data: seq<DailyStatus>, timeOf: string -> int): seq<DailyStatus>
  {
    SortBy(data, EarlierFirst(timeOf))
  }

  /** `chartData`. */
  function ChartData(data: seq<DailyStatus>, mobile: bool, timeOf: string -> int,
                     dateLabel: (string, bool) -> string, fullDateLabel: string -> string): seq<ChartPoint>
  {
    Map(SortedDays(data, timeOf), d => ToPoint(d, mobile, timeOf, dateLabel, fullDateLabel))
  }

  /** The chart shows every day once, in ascending order of time, each with
      its flights and its delay to one decimal, and days with the same time
      keep their input order. */
  lemma ChartDataSpec(data: seq<DailyStatus>, mobile: bool, timeOf: string -> int,
                      dateLabel: (string, bool) -> string, fullDateLabel: string -> string)
    ensures var days := SortedDays(data, timeOf);
      var c := ChartData(data, mobile, timeOf, dateLabel, fullDateLabel);
      && multiset(days) == multiset(data)
      && |c| == |data|
      && (forall i :: 0 <= i < |c| ==>
            && c[i].totalFlights == days[i].total_flights
            && c[i].avgDelay == Round1(days[i].avg_delay_minutes)
            && c[i].timestamp == timeOf(days[i].flight_date))
      && (forall i, j :: 0 <= i < j < |c| ==> c[i].timestamp <= c[j].timestamp)
  {
    var le := EarlierFirst(timeOf);
    AscendingByKey(le, (d: DailyStatus) => timeOf(d.flight_date) as real);
    SortBySorted(data, le);
  }

  /** Days of one and the same time are not reordered. */
  lemma SameTimeKeepsOrder(data: seq<DailyStatus>, timeOf: string -> int)
    requires forall i, j :: 0 <= i < |data| && 0 <= j < |data| ==> timeOf(data[i].flight_date) == timeOf(data[j].flight_date)
    ensures SortedDays(data, timeOf) == data
  {
    SortByAllEqual(data, EarlierFirst(timeOf));
  }

  // ----- y axis -----

  function PointDelay(p: ChartPoint): real { p.avgDelay }

  /** `Math.max(...values)`. */
  function MaxDelay(points: seq<ChartPoint>): (m: real)
    requires points != []
    ensures exists i :: 0 <= i < |points| && points[i].avgDelay == m
    ensures forall i :: 0 <= i < |points| ==> points[i].avgDelay <= m
  {
    if |points| == 1 then points[0].avgDelay
    else
      var rest := MaxDelay(points[1..]);
      assert forall i :: 1 <= i < |points| ==> points[i] == points[1..][i - 1];
      MaxReal(points[0].avgDelay, rest)
  }

  /** The smallest delay. */
  function MinDelay(points: seq<ChartPoint>): (m: real)
    requires points != []
    ensures exists i :: 0 <= i < |points| && points[i].avgDelay == m
    ensures forall i :: 0 <= i < |points| ==> m <= points[i].avgDelay
  {
    if |points| == 1 then points[0].avgDelay
    else
      var rest := MinDelay(points[1..]);
      assert forall i :: 1 <= i < |points| ==> points[i] == points[1..][i - 1];
      if points[0].avgDelay <= rest then points[0].avgDelay else rest
  }

  /** The mean of delays between `lo` and `hi` lies between them. */
  lemma MeanBounds(points: seq<ChartPoint>, lo: real, hi: real)
    requires points != []
    requires forall i :: 0 <= i < |points| ==> lo <= points[i].avgDelay <= hi
    ensures lo <= SumReal(points, PointDelay) / |points| as real <= hi
  {
    var n := |points| as real;
    var s := SumReal(points, PointDelay);
    SumDelayAtMost(points, hi);
    SumDelayAtLeast(points, lo);
    DivBounds(lo, s, hi, n);
  }

  lemma DivBounds(lo: real, s: real, hi: real, n: real)
    requires n > 0.0 && n * lo <= s <= n * hi
    ensures lo <= s / n <= hi
  {
    assert s / n * n == s;
  }

  /** `Math.ceil((max + 5) / 10) * 10`. */
  function RoundedMax(max: real): int
  {
    Ceil((max + 5.0) / 10.0) * 10
  }

  /** `yAxisConfig`. */
  function YAxisConfig(points: seq<ChartPoint>): AxisConfig
  {
    if points == [] then AxisConfig(0.0, 60.0, 0.0)
    else
      var max := MaxDelay(points);
      var avg := SumReal(points, PointDelay) / |points| as real;
      AxisConfig(0.0, MaxInt(RoundedMax(max), 30) as real, Round1(avg))
  }

  /** The rounded maximum is the least multiple of 10 reaching `max + 5`. */
  lemma RoundedMaxSpec(max: real)
    ensures var r := RoundedMax(max);
      && r % 10 == 0
      && max + 5.0 <= r as real < max + 15.0
  {
    var c := Ceil((max + 5.0) / 10.0);
    assert (max + 5.0) / 10.0 * 10.0 == max + 5.0;
    assert c as real * 10.0 == (c * 10) as real;
  }

  /** Terms at most `hi` sum to at most `n * hi`. */
  lemma {:induction false} SumDelayAtMost(points: seq<ChartPoint>, hi: real)
    requires forall i :: 0 <= i < |points| ==> points[i].avgDelay <= hi
    ensures SumReal(points, PointDelay) <= |points| as real * hi
    decreases |points|
  {
    if points != [] {
      var d := DropLast(points);
      assert forall i :: 0 <= i < |d| ==> d[i] == points[i];
      SumDelayAtMost(d, hi);
      assert |points| as real * hi == |d| as real * hi + hi;
    }
  }

  /** Terms at least `lo` sum to at least `n * lo`. */
  lemma {:induction false} SumDelayAtLeast(points: seq<ChartPoint>, lo: real)
    requires forall i :: 0 <= i < |points| ==> lo <= points[i].avgDelay
    ensures |points| as real * lo <= SumReal(points, PointDelay)
    decreases |points|
  {
    if points != [] {
      var d := DropLast(points);
      assert forall i :: 0 <= i < |d| ==> d[i] == points[i];
      SumDelayAtLeast(d, lo);
      assert |points| as real * lo == |d| as real * lo + lo;
    }
  }

  /** Without points the axis runs to 60 with a zero average. Otherwise the
      axis minimum is 0; its maximum is a whole multiple of 10, at least 30,
      at least 5 above the largest delay and, when above 30, less than 15
      above it; the average line lies between the smallest and the largest
      delay up to the display rounding of 0.05. */
  lemma YAxisSpec(points: seq<ChartPoint>)
    ensures var y := YAxisConfig(points);
      && (points == [] ==> y == AxisConfig(0.0, 60.0, 0.0))
      && (points != [] ==>
            var max := MaxDelay(points);
            && y.min == 0.0
            && y.max == y.max.Floor as real && y.max.Floor % 10 == 0
            && y.max >= 30.0 && y.max >= max + 5.0
            && (y.max > 30.0 ==> y.max < max + 15.0)
            && MinDelay(points) - 0.05 < y.avg <= max + 0.05)
  {
    if points != [] {
      RoundedMaxSpec(MaxDelay(points));
      MeanBounds(points, MinDelay(points), MaxDelay(points));
    }
  }

  // ----- x axis -----

  /** `xAxisInterval`: how many ticks are skipped between two labels. */
  function XAxisInterval(n: nat, mobile: bool): nat
  {
    if mobile then
      if n <= 4 then 0 else if n <= 8 then 1 else n / 4
    else
      if n <= 10 then 0 else if n <= 20 then 1 else if n <= 40 then 3 else n / 10
  }

  /** The labels drawn for `n` ticks when `k` are skipped between two. This
      is the charting library's reading of its `interval` prop (it labels
      ticks 0, k + 1, 2(k + 1), and so on), not code of the trend chart,
      which only chooses `k`. */
  function LabelCount(n: nat, k: nat): nat
  {
    (n + k) / (k + 1)
  }

  /** With `n <= c(k + 1)` at most `c` labels are drawn. */
  lemma LabelCountAtMost(n: nat, k: nat, c: nat)
    requires n <= c * (k + 1)
    ensures LabelCount(n, k) <= c
  {
    var m := k + 1;
    var q := (n + k) / m;
    assert q * m <= n + k by { assert q * m + (n + k) % m == n + k; }
    assert (c + 1) * m == c * m + m;
    if q > c {
      MulMono(q, c + 1, m);
    }
  }

  lemma MulMono(a: int, b: int, m: nat)
    requires a >= b
    ensures a * m >= b * m
  {
    assert a * m - b * m == (a - b) * m;
  }

  /** A phone draws at most 4 labels and a desktop at most 10; every tick
      gets a label on a phone up to 4 points and on a desktop up to 10. */
  lemma XAxisSpec(n: nat)
    ensures LabelCount(n, XAxisInterval(n, true)) <= 4
    ensures LabelCount(n, XAxisInterval(n, false)) <= 10
    ensures n <= 4 ==> XAxisInterval(n, true) == 0
    ensures n <= 10 ==> XAxisInterval(n, false) == 0
  {
    var m := XAxisInterval(n, true);
    if n <= 4 { LabelCountAtMost(n, m, 4); }
    else if n <= 8 { LabelCountAtMost(n, m, 4); }
    else {
      assert n < 4 * (n / 4 + 1);
      LabelCountAtMost(n, m, 4);
    }
    var k := XAxisInterval(n, false);
    if n <= 40 { LabelCountAtMost(n, k, 10); }
    else {
      assert n < 10 * (n / 10 + 1);
      LabelCountAtMost(n, k, 10);
    }
  }

  /** The section is not drawn without data. */
  function Render(data: seq<DailyStatus>, mobile: bool, timeOf: string -> int,
                  dateLabel: (string, bool) -> string, fullDateLabel: string -> string): (r: Option<(seq<ChartPoint>, AxisConfig, nat)>)
    ensures r.None? <==> data == []
    ensures r.Some? ==>
      && r.value.0 == ChartData(data, mobile, timeOf, dateLabel, fullDateLabel)
      && r.value.1 == YAxisConfig(r.value.0)
      && r.value.2 == XAxisInterval(|data|, mobile)
  {
    if |data| == 0 then None
    else
      var points := ChartData(data, mobile, timeOf, dateLabel, fullDateLabel);
      Some((points, YAxisConfig(points), XAxisInterval(|points|, mobile)))
  }
}
