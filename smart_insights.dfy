/** The "operations brain" cards (components/dashboard/smart-insights.tsx):
    hourly totals over the gates' time distributions with the first busiest
    hour, the first delay record, and the most punctual gate with more than
    ten flights. */
module SmartInsights {
  import opened Wrappers
  import opened Seqs
  import opened Types

  /** What `insights` holds. A `peakHour` of -1 with no `peakCount` is the
      result when some distribution has more than 24 slots: the array then
      holds NaN, `Math.max` is NaN and `indexOf` finds nothing. */
  datatype Insights = Insights(
    peakHour: int,
    peakCount: Option<nat>,
    worstFlight: Option<TopRecord>,
    bestGate: Option<GateMetrics>)

  // ----- hourly totals -----

  /** The count of gate `g` at hour `h`, 0 past the end of its distribution. */
  function Cell(g: GateMetrics, h: nat): nat
  {
    if h < |g.time_distribution| then g.time_distribution[h] else 0
  }

  /** The reference total of hour `h`: the sum over the gates of their count at `h`. */
  function HourSum(gates: seq<GateMetrics>, h: nat): nat
  {
    if gates == [] then 0 else HourSum(DropLast(gates), h) + Cell(Last(gates), h)
  }

  /** Some distribution writes past slot 23. */
  predicate Spills(gates: seq<GateMetrics>)
  {
    exists k :: 0 <= k < |gates| && |gates[k].time_distribution| > 24
  }

  /** The 24 hourly totals as a sequence. */
  function Totals(gates: seq<GateMetrics>): (t: seq<nat>)
    ensures |t| == 24
    ensures forall h :: 0 <= h < 24 ==> t[h] == HourSum(gates, h)
  {
    seq(24, h requires 0 <= h < 24 => HourSum(gates, h))
  }

  /** `new Array(24).fill(0)` followed by the nested `forEach` that adds
      every count into its hour. `spill` records a write past slot 23. */
  method HourlyTotals(gates: seq<GateMetrics>) returns (totals: array<nat>, spill: bool)
    ensures fresh(totals) && totals.Length == 24
    ensures forall h :: 0 <= h < 24 ==> totals[h] == HourSum(gates, h)
    ensures spill <==> Spills(gates)
  {
    totals := new nat[24](_ => 0);
    spill := false;
    for i := 0 to |gates|
      invariant forall h :: 0 <= h < 24 ==> totals[h] == HourSum(gates[..i], h)
      invariant spill <==> Spills(gates[..i])
    {
      var td := gates[i].time_distribution;
      for hour := 0 to |td|
        invariant forall h :: 0 <= h < 24 ==> totals[h] == HourSum(gates[..i], h) + (if h < hour then td[h] else 0)
        invariant spill <==> Spills(gates[..i]) || hour > 24
      {
        if hour < 24 {
          totals[hour] := totals[hour] + td[hour];
        } else {
          spill := true;
        }
      }
      GateStep(gates, i);
    }
    assert gates[..|gates|] == gates;
  }

  /** One more gate adds its own counts, and spills when its distribution does. */
  lemma GateStep(gates: seq<GateMetrics>, i: nat)
    requires i < |gates|
    ensures forall h :: 0 <= h < 24 ==> HourSum(gates[..i + 1], h) == HourSum(gates[..i], h) + Cell(gates[i], h)
    ensures Spills(gates[..i + 1]) <==> Spills(gates[..i]) || |gates[i].time_distribution| > 24
  {
    var d := gates[..i + 1];
    assert DropLast(d) == gates[..i] && Last(d) == gates[i];
    if Spills(gates[..i]) {
      var k :| 0 <= k < i && |gates[..i][k].time_distribution| > 24;
      assert d[k] == gates[..i][k];
    }
    if Spills(d) {
      var k :| 0 <= k < i + 1 && |d[k].time_distribution| > 24;
      if k < i { assert gates[..i][k] == d[k]; }
    }
  }

  // ----- peak hour -----

  /** `Math.max(...s)`. */
  function MaxOf(s: seq<nat>): (m: nat)
    requires |s| > 0
    ensures m in s
    ensures forall i :: 0 <= i < |s| ==> s[i] <= m
  {
    if |s| == 1 then s[0]
    else
      var rest := MaxOf(s[1..]);
      assert forall i :: 1 <= i < |s| ==> s[i] == s[1..][i - 1];
      if s[0] >= rest then s[0] else rest
  }

  /** `s.indexOf(v)`: the first position holding `v`, or -1. */
  function IndexOf(s: seq<nat>, v: nat): (r: int)
    ensures -1 <= r < |s|
    ensures r == -1 <==> v !in s
    ensures r >= 0 ==> s[r] == v && forall j :: 0 <= j < r ==> s[j] != v
  {
    if s == [] then -1
    else if s[0] == v then 0
    else
      var r := IndexOf(s[1..], v);
      assert forall j :: 1 <= j < |s| ==> s[j] == s[1..][j - 1];
      assert v in s[1..] ==> v in s;
      if r == -1 then -1 else r + 1
  }

  /** `hourlyTotals.indexOf(Math.max(...hourlyTotals))`. */
  function PeakHour(totals: seq<nat>): int
    requires |totals| > 0
  {
    IndexOf(totals, MaxOf(totals))
  }

  /** The peak hour is the first hour with the largest total. */
  lemma PeakHourSpec(totals: seq<nat>)
    requires |totals| > 0
    ensures var p := PeakHour(totals);
      && 0 <= p < |totals|
      && (forall h :: 0 <= h < |totals| ==> totals[h] <= totals[p])
      && (forall h :: 0 <= h < p ==> totals[h] < totals[p])
  {
  }

  // ----- worst flight and best gate -----

  /** `topDelays[0]`, absent for an empty list. */
  function WorstFlight(topDelays: seq<TopRecord>): (r: Option<TopRecord>)
    ensures r.None? <==> topDelays == []
    ensures r.Some? ==> r.value == topDelays[0]
  {
    if topDelays == [] then None else Some(topDelays[0])
  }

  /** The filter `g.total_flights > 10`. */
  predicate Busy(g: GateMetrics) { g.total_flights > 10 }

  /** The comparator `b.on_time_percentage - a.on_time_percentage`. */
  predicate OnTimeDescending(a: GateMetrics, b: GateMetrics) { a.on_time_percentage >= b.on_time_percentage }

  function OnTimeKey(g: GateMetrics): real { g.on_time_percentage }

  /** The head of the copied, filtered and sorted gates. */
  function BestGate(gates: seq<GateMetrics>): Option<GateMetrics>
  {
    var busy := Filter(gates, Busy);
    if busy == [] then None else Some(SortBy(busy, OnTimeDescending)[0])
  }

  /** The best gate exists iff some gate has more than ten flights; it is
      such a gate, none of them is more punctual, and the stable sort picks
      the first of the most punctual ones in input order. */
  lemma BestGateSpec(gates: seq<GateMetrics>)
    ensures var b := BestGate(gates);
      && (b.None? <==> forall g :: g in gates ==> !Busy(g))
      && (b.Some? ==> b.value in gates && Busy(b.value))
      && (b.Some? ==> forall g :: g in gates && Busy(g) ==> g.on_time_percentage <= b.value.on_time_percentage)
      && (b.Some? ==> exists i :: (0 <= i < |gates| && gates[i] == b.value
            && forall j :: 0 <= j < i && Busy(gates[j]) ==> gates[j].on_time_percentage < b.value.on_time_percentage))
  {
    var busy := Filter(gates, Busy);
    if busy == [] {
      forall g | g in gates ensures !Busy(g) {
        var k :| 0 <= k < |gates| && gates[k] == g;
      }
    } else {
      var m := FirstLeast(busy, OnTimeDescending);
      SortByHead(busy, OnTimeDescending);
      DescendingByKey(OnTimeDescending, OnTimeKey);
      FirstLeastIsLeast(busy, OnTimeDescending);
      assert busy[0] in busy;
      forall g | g in gates && Busy(g) ensures g.on_time_percentage <= m.on_time_percentage {
        var k :| 0 <= k < |gates| && gates[k] == g;
      }
      BestFirstInInput(gates, m);
    }
  }

  /** The first busy gate as punctual as `m` sits, in the input, after no
      other busy gate of that punctuality. */
  lemma BestFirstInInput(gates: seq<GateMetrics>, m: GateMetrics)
    requires Filter(gates, Busy) != []
    requires m == FirstLeast(Filter(gates, Busy), OnTimeDescending)
    ensures exists i :: (0 <= i < |gates| && gates[i] == m
      && forall j :: 0 <= j < i && Busy(gates[j]) ==> gates[j].on_time_percentage < m.on_time_percentage)
  {
    var busy := Filter(gates, Busy);
    DescendingByKey(OnTimeDescending, OnTimeKey);
    FirstLeastIsLeast(busy, OnTimeDescending);
    var k :| 0 <= k < |busy| && busy[k] == m && forall j :: 0 <= j < k ==> !OnTimeDescending(busy[j], m);
    FilterPrefix(gates, Busy, k);
    var i :| (0 <= i < |gates| && gates[i] == busy[k]
      && forall j :: 0 <= j < i && Busy(gates[j]) ==> exists j' :: 0 <= j' < k && busy[j'] == gates[j]);
    forall j | 0 <= j < i && Busy(gates[j]) ensures gates[j].on_time_percentage < m.on_time_percentage {
      var j' :| 0 <= j' < k && busy[j'] == gates[j];
      assert !OnTimeDescending(busy[j'], m);
    }
  }

  // ----- the insights -----

  /** `insights` described all at once. */
  function InsightsOf(topDelays: seq<TopRecord>, gates: seq<GateMetrics>): Insights
  {
    var totals := Totals(gates);
    var spill := Spills(gates);
    var peak := if spill then -1 else PeakHour(totals);
    Insights(
      peak,
      if spill then None else Some(totals[peak]),
      WorstFlight(topDelays),
      BestGate(gates))
  }

  /** The `useMemo` body. */
  method ComputeInsights(topDelays: seq<TopRecord>, gates: seq<GateMetrics>) returns (ins: Insights)
    ensures ins == InsightsOf(topDelays, gates)
  {
    var totals, spill := HourlyTotals(gates);
    var t := totals[..];
    assert t == Totals(gates);
    var peak := if spill then -1 else PeakHour(t);
    var count := if spill then None else Some(t[peak]);
    ins := Insights(peak, count, WorstFlight(topDelays), BestGate(gates));
  }

  /** The peak hour lies in 0..23 and carries the largest total, the first
      such hour; with a distribution longer than 24 there is no peak. */
  lemma PeakSpec(topDelays: seq<TopRecord>, gates: seq<GateMetrics>)
    ensures var ins := InsightsOf(topDelays, gates);
      && (Spills(gates) ==> ins.peakHour == -1 && ins.peakCount == None)
      && (!Spills(gates) ==>
            && 0 <= ins.peakHour < 24
            && ins.peakCount == Some(HourSum(gates, ins.peakHour))
            && (forall h :: 0 <= h < 24 ==> HourSum(gates, h) <= HourSum(gates, ins.peakHour))
            && (forall h :: 0 <= h < ins.peakHour ==> HourSum(gates, h) < HourSum(gates, ins.peakHour)))
  {
    PeakHourSpec(Totals(gates));
  }

  /** The section is hidden only when there are neither gates nor delays. */
  function Render(topDelays: seq<TopRecord>, gates: seq<GateMetrics>): (r: Option<Insights>)
    ensures r.None? <==> gates == [] && topDelays == []
    ensures r.Some? ==> r.value == InsightsOf(topDelays, gates)
  {
    if |gates| == 0 && |topDelays| == 0 then None else Some(InsightsOf(topDelays, gates))
  }
}
