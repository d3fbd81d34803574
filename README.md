# Flight punctuality dashboard: a verified model of its data logic

The dashboard shows how punctual flights leaving Argentine airports are. A sync script publishes the analytics exports (headline figures, airline breakdown, top events, bucket distribution, daily status, route metrics, gate analysis) as signed URLs in a manifest. The Next.js front end loads them and lets the user narrow the data by origin airport, destination country, destination city and airline. Those filters live in the URL. The page then derives the sections from the filtered rows:
- a ranking of airlines by on-time percentage;
- the most-served destinations and a sortable routes table;
- the largest delays and the biggest early arrivals;
- a daily delay trend;
- a gate analysis with a summary, a colour scale and a concurrency heatmap;
- "smart insights": the busiest hour, the worst flight and the most punctual gate.

This project models that data logic in Dafny and proves properties of it. One module models one source file:

- RouteUtils (lib/route-utils.ts): functions; the origin and airline lists and the aggregation are loop `method`s proved against specification functions.
- DashboardUtils (lib/dashboard-utils.ts): functions; the destination grouping is a loop method over an insertion-ordered map.
- MockData (lib/mock-data.ts): the sample rows as constants, the exact-match helpers as functions and loop methods.
- AirlinesRanking (components/dashboard/airlines-ranking.tsx): the per-airline grouping loop as a method, the rest as functions.
- SmartInsights (components/dashboard/smart-insights.tsx): the hourly-totals loop as a method, the rest as functions.
- GatesAnalysisFixed (components/dashboard/gates-analysis-fixed.tsx): functions, with the heatmap-maximum loop as a method.
- GatesAnalysis (components/dashboard/gates-analysis.tsx): functions, plus a class `GatesState` for the component state.
- RoutesTable (components/dashboard/routes-table.tsx): functions, plus a class `SortState` for the sort kept in the URL.
- TopEvents (components/dashboard/top-events.tsx): functions.
- TrendChart (components/dashboard/trend-chart.tsx): functions.
- DashboardContent (components/dashboard/dashboard-content.tsx): functions, plus a class `Dashboard` for the filter state and its effects.
- UseDashboardData (hooks/use-dashboard-data.ts): functions, plus a class `DashboardDataState` for the hook state.
- ApiGates (app/api/gates/route.ts): functions.
- SyncData (scripts/sync-data.ts): functions, plus a class `ObjectMap` for the object map the script fills in.
- Utils (lib/utils.ts): functions.

Shared modules:
- Types holds the records of lib/types.ts.
- Wrappers holds `Option` and `Result`, which stand for `undefined`/`null` and for thrown errors.
- Seqs holds `filter`, `map`, sums, a stable sort and the "first value per key" behaviour of an insertion-ordered `Map`.
- Strings holds `trim`, case mapping, the UTF-16 code-unit order of a bare `sort()`, `padStart`, `String(n)` and `parseInt`.
- Numbers holds `Math.round`, `Math.ceil` and one-decimal rounding.

Modelling conventions:
- Counts are `nat`. Averages, percentages and minutes are exact `real`s.
- `Math.round(x)` is `floor(x + 1/2)`, as in JavaScript.
- `Array.prototype.sort` is stable, as ECMAScript requires. It is modelled as a stable insertion sort under the source's comparator, and every sorted result is proved to be a permutation of its input that is ordered by that comparator.
- JavaScript truthiness is modelled where the code relies on it. An empty string is a missing filter. A `limit` of `""` falls back to `"20"`. An empty error message does not hide the gate chart.
- The clock, the environment, the requests and the Intl formatters are parameters.

Choices where the code was followed as written:
- `filteredBuckets` looks up the airline breakdown with `airline_name === filters.airline` (components/dashboard/dashboard-content.tsx:154), although the airline filter holds a code. The model compares the same two fields.
- The dashboard renders `GatesAnalysis` (components/dashboard/gates-analysis.tsx), not the fixed variant. Both are modelled. The raw variant reuses the fixed variant's comparator, summary, colour scale and hour labels, because the two files define them the same way.
- In the insights, a gate distribution longer than 24 entries makes an hourly total `NaN`. No hour then beats the initial `-1`, so there is no peak hour. This is modelled as a `None` peak, and the gates endpoint is proved never to produce such a distribution.
- The system's description speaks of a cache that serves data again until `expires_at` passes. The code has no such cache: the exports are fetched with `cache: "no-store"` (hooks/use-dashboard-data.ts:26, hooks/use-dashboard-data.ts:39). The model follows the code, so no cache is modelled. `expires_at` is only computed, by the sync script.

## Model

| member | source | states |
|---|---|---|
| RouteUtils.NormalizeIdempotent | lib/route-utils.ts:22-23 | normalizing a code (trim and upper-case) or a text (trim and lower-case) a second time changes nothing |
| RouteUtils.FilterRoutesIsFilter | lib/route-utils.ts:118-154 | the four conditional filter stages together are one filter by "passes every non-empty normalized filter" |
| RouteUtils.FilterRoutesSpec | lib/route-utils.ts:128-152 | the result is an in-order subsequence of the input; every kept route matches each non-empty filter; an input route is kept if and only if it matches |
| RouteUtils.FilterRoutesNoFilters | lib/route-utils.ts:133-153 | with every filter absent or blank after normalization, the input comes back unchanged |
| RouteUtils.FilterRoutesIdempotent | lib/route-utils.ts:133-153 | filtering an already filtered list with the same filters changes nothing |
| RouteUtils.GetUniqueOrigins | lib/route-utils.ts:25-41 | the loop that fills the `origins` map yields one origin per non-empty normalized code, built from the first route with that code, in first-seen order |
| RouteUtils.UniqueOriginsSpec | lib/route-utils.ts:25-41 | the origin codes are pairwise distinct, non-empty and already normalized; every route with a non-blank code is represented; each entry takes its name and city from the first route with its code |
| RouteUtils.OriginsDistinct | lib/route-utils.ts:28-33 | origin codes are pairwise distinct, non-empty and normalized |
| RouteUtils.OriginCovered | lib/route-utils.ts:28-33 | a route with a non-blank normalized code has an entry with that code |
| RouteUtils.OriginFromFirst | lib/route-utils.ts:32-37 | each entry carries the name and city of the first route with its code |
| RouteUtils.UniqueOriginsOrdered | lib/route-utils.ts:27-40 | entries come in the order their codes first appear among the routes |
| RouteUtils.OriginStep | lib/route-utils.ts:27-39 | one loop iteration appends an origin exactly when the code is non-empty and not yet seen |
| RouteUtils.MappedFilteredMember | lib/route-utils.ts:50 | a value is among the mapped filtered routes iff some route that passes the filters has that field value |
| RouteUtils.UniqueFieldSpec | lib/route-utils.ts:50-52 | the deduplicated, non-empty, sorted values are exactly the non-empty fields of the routes that pass the filters, strictly ascending |
| RouteUtils.GetUniqueCountriesSpec | lib/route-utils.ts:43-53 | a country is listed iff it is the trimmed, non-empty destination country of a route that passes the normalized origin filter; values are trimmed, distinct and ascending |
| RouteUtils.GetUniqueCitiesSpec | lib/route-utils.ts:55-76 | a city is listed iff it is the trimmed, non-empty destination city of a route that passes the origin and country filters; values are trimmed, distinct and ascending |
| RouteUtils.GetUniqueAirlines | lib/route-utils.ts:78-116 | the three filter stages followed by the loop that fills the `airlines` map yield one airline per non-empty raw code among the filtered routes, in first-seen order |
| RouteUtils.AirlineStep | lib/route-utils.ts:104-114 | one loop iteration appends an airline exactly when its code is non-empty and not yet seen |
| RouteUtils.UniqueAirlinesSpec | lib/route-utils.ts:78-116 | airline codes are distinct and non-empty; every coded route that passes the filters is represented; each entry is named from the first filtered route with its code |
| RouteUtils.AirlineCovered | lib/route-utils.ts:104-113 | a filtered route with a non-empty airline code has an entry with that code |
| RouteUtils.AirlineFromFirst | lib/route-utils.ts:108-112 | each entry carries the name of the first route with its code |
| RouteUtils.AggregateRoutes | lib/route-utils.ts:156-187 | the reduce computes the field sums and the flight-weighted average delay, which is 0 when there are no flights |
| RouteUtils.AggregateEmpty | lib/route-utils.ts:166-178 | no routes give all zeros, including an average delay of 0 |
| RouteUtils.AggregateConcatCounts | lib/route-utils.ts:159-162 | aggregating two lists together adds their flight, on-time, delayed and cancelled counters |
| RouteUtils.AggregateConcatAvg | lib/route-utils.ts:163-178 | the combined average times the combined flights equals the sum of each part's average times its flights |
| RouteUtils.WeightedTotal | lib/route-utils.ts:163-178 | the average times the flights is the sum over routes of average delay times flights |
| RouteUtils.ZeroFlightsZeroMinutes | lib/route-utils.ts:163 | routes with no flights contribute no delay minutes |
| RouteUtils.DelayMinutesBounds | lib/route-utils.ts:163 | when every route's average delay is in [lo, hi], the summed delay minutes lie between lo and hi times the flights |
| RouteUtils.AggregateAvgBounds | lib/route-utils.ts:175-178 | with flights present, the average delay lies between the smallest and the largest route average |
| RouteUtils.AggregateExample | lib/route-utils.ts:163-178 | routes with (10 flights, 5 min) and (20 flights, 20 min) give 30 flights and an average of 15 |
| MockData.FilterDataIsFilter | lib/mock-data.ts:455-482 | the four conditional stages together are one filter by "equals every non-empty filter verbatim" |
| MockData.FilterDataSpec | lib/mock-data.ts:464-481 | the result is an in-order subsequence of the input; a row is kept iff it equals each non-empty filter exactly |
| MockData.FilterDataNoFilters | lib/mock-data.ts:464-481 | with no non-empty filter, the input comes back unchanged |
| MockData.FilterDataIdempotent | lib/mock-data.ts:464-481 | filtering twice with the same filters is filtering once |
| MockData.GetUniqueOrigins | lib/mock-data.ts:391-403 | the loop that fills the map yields one origin per distinct raw code, taken from its first row, in first-seen order |
| MockData.OriginStep | lib/mock-data.ts:393-401 | one loop iteration appends an origin exactly when its code is not yet in the map |
| MockData.UniqueOriginsSpec | lib/mock-data.ts:391-403 | codes are pairwise distinct, every row's code is represented, and each entry takes name and city from the first row with its code |
| MockData.UniqueOriginsOrdered | lib/mock-data.ts:393-402 | entries come in the order their codes first appear |
| MockData.GetUniqueCountriesSpec | lib/mock-data.ts:405-410 | a country is listed iff some row has it and, when an origin is given, that exact origin code; the list is distinct and ascending |
| MockData.GetUniqueCitiesSpec | lib/mock-data.ts:412-425 | a city is listed iff some row has it and matches the given origin and country exactly; the list is distinct and ascending |
| MockData.GetUniqueAirlines | lib/mock-data.ts:427-453 | the filter stages, then the loop over the filtered rows, yield one airline per distinct raw code with its first-seen name |
| MockData.AirlineStep | lib/mock-data.ts:444-451 | one loop iteration appends an airline exactly when its code is not yet in the map |
| MockData.UniqueAirlinesSpec | lib/mock-data.ts:427-453 | codes are distinct, every row passing the exact filters is represented, and each entry is named from the first filtered row with its code |
| MockData.RoutesConsistent | lib/mock-data.ts:3-379 | the sixteen mock rows are internally consistent: flights are completed plus cancelled, and completed are delayed plus on-time |
| DashboardUtils.GetTopDestinationsSpec | lib/dashboard-utils.ts:11-23 | the result is ordered by ascending rank, a `null` rank counting as 0, and a destination is in it iff it is the defaulted image of a `top_destination` record and has a non-empty city and country |
| DashboardUtils.TopDestinationsMember | lib/dashboard-utils.ts:12-21 | membership: exactly the `top_destination` records, with missing fields defaulted to "" or 0 and the rank copied as it is (`null` included), whose city and country are both non-empty |
| DashboardUtils.FindKey | lib/dashboard-utils.ts:33 | `map.get(key)`: the index of the first entry with the route's key, or the length when there is none |
| DashboardUtils.GroupDestinations | lib/dashboard-utils.ts:29-51 | the loop over routes, with a key-to-index map standing for the `Map`, merges each route into the entry of its key or appends a new entry |
| DashboardUtils.GroupStep | lib/dashboard-utils.ts:32-50 | one iteration updates the existing entry in place or appends a new one, and the key index stays accurate |
| DashboardUtils.GroupedSnoc | lib/dashboard-utils.ts:33-50 | grouping one more route merges it into the first entry with its key, or appends a new entry when there is none |
| DashboardUtils.Ranked | lib/dashboard-utils.ts:57 | ranking keeps every entry and sets entry i's rank to i + 1 |
| DashboardUtils.GetTopDestinationsFromRoutesAsWritten | lib/dashboard-utils.ts:25-58 | the function as written, grouping by the concatenated key `city__country`, then filtering, sorting, truncating and ranking |
| DashboardUtils.GetTopDestinationsFromRoutes | lib/dashboard-utils.ts:25-58 | the same pipeline, grouping by the (city, country) pair |
| DashboardUtils.TopFromGroupsSpec | lib/dashboard-utils.ts:53-57 | at most `limit` entries (for a non-negative limit) and no more than the groups; non-increasing flights; ranks exactly 1..n; every entry has a non-empty city and country |
| DashboardUtils.TopFromGroupsFrom | lib/dashboard-utils.ts:53-57 | every ranked entry is one of the groups, apart from its rank |
| DashboardUtils.TopFromGroupsIsTop | lib/dashboard-utils.ts:54-56 | a group with a place that is not listed has no more flights than the last listed entry |
| DashboardUtils.GroupedByPairSpec | lib/dashboard-utils.ts:31-51 | grouping by pair gives at most one entry per (city, country); each entry's flights are the sum over its routes and its average times flights is the sum of their delay minutes; every route's place has an entry; every entry's place comes from a route |
| DashboardUtils.DistinctStep | lib/dashboard-utils.ts:33-50 | one more route keeps the places distinct |
| DashboardUtils.CoverStep | lib/dashboard-utils.ts:33-50 | one more route keeps every route's place represented |
| DashboardUtils.FromRoutesStep | lib/dashboard-utils.ts:43-49 | one more route keeps every entry's place drawn from a route |
| DashboardUtils.TotalsStep | lib/dashboard-utils.ts:34-50 | one more route keeps each entry's flight sum and flight-weighted delay exact |
| DashboardUtils.TotalsMergeCase | lib/dashboard-utils.ts:34-41 | merging into the existing entry keeps every entry's totals exact |
| DashboardUtils.MergedTotals | lib/dashboard-utils.ts:35-41 | the merged entry's totals are exact for the routes including the new one |
| DashboardUtils.OtherTotals | lib/dashboard-utils.ts:31-51 | an entry at another place keeps its totals when a route is added |
| DashboardUtils.TotalsNewCase | lib/dashboard-utils.ts:42-49 | appending a new entry keeps every entry's totals exact |
| DashboardUtils.PlaceTotalsSnoc | lib/dashboard-utils.ts:35-38 | adding a route adds its flights and delay minutes to its own place only |
| DashboardUtils.NewEntryTotals | lib/dashboard-utils.ts:43-49 | a new entry, at a place no earlier route went to, has exact totals |
| DashboardUtils.NewPlace | lib/dashboard-utils.ts:42-49 | a route whose key has no entry goes to a place with no earlier flights or minutes |
| DashboardUtils.NobodyThere | lib/dashboard-utils.ts:31-51 | a place no route goes to has zero flights and zero delay minutes |
| DashboardUtils.MergeTotals | lib/dashboard-utils.ts:35-41 | the incremental update adds the route's flights, and the new average times the new flights is the old delay minutes plus the route's |
| DashboardUtils.MergedMean | lib/dashboard-utils.ts:35-41 | `weightedDelay / totalFlights` (or 0) times `totalFlights` is the old weighted delay plus the route's |
| DashboardUtils.TopDestinationsFromRoutesSpec | lib/dashboard-utils.ts:25-58 | the result has length at most `limit`, non-increasing flights and ranks 1..n; each entry has a place, and its flights and average delay are the batch sum and flight-weighted mean over its routes |
| DashboardUtils.RankedTotals | lib/dashboard-utils.ts:53-57 | filtering, sorting, truncating and ranking keep each entry's totals |
| DashboardUtils.TotalsOfSame | lib/dashboard-utils.ts:57 | changing the rank does not change an entry's totals |
| DashboardUtils.ConcatKeyCollision | lib/dashboard-utils.ts:32 | as written, routes to ("A__B", "C") and ("A", "B__C") share one entry of 2 flights, although only 1 flight goes to ("A__B", "C") |
| DashboardUtils.CollisionGrouped | lib/dashboard-utils.ts:32-41 | as written, the second route is merged into the first one's entry |
| DashboardUtils.CollisionFlights | lib/dashboard-utils.ts:32 | the routes hold only 1 flight to ("A__B", "C") |
| DashboardUtils.PairKeyNoCollision | lib/dashboard-utils.ts:32 | grouping by the pair keeps the two places apart |
| DashboardUtils.RankedOfKindSpec | lib/dashboard-utils.ts:60-70 | `getTopDelays` and `getTopEarly` return a permutation of the records of their type, ordered by ascending rank, with a missing rank counting as 0 |
| DashboardUtils.GetUniqueCountriesSpec | lib/dashboard-utils.ts:72-74 | a country is listed iff some destination has it; the list is distinct and ascending |
| DashboardUtils.GetUniqueCitiesSpec | lib/dashboard-utils.ts:76-84 | a city is listed iff some destination has it and, when a non-empty country is given, is in that country; the list is distinct and ascending |
| AirlinesRanking.Accumulated | components/dashboard/airlines-ranking.tsx:33-49 | one entry per distinct airline code, in first-seen order, entry i summarizing the routes of the i-th new code |
| AirlinesRanking.Accumulate | components/dashboard/airlines-ranking.tsx:33-47 | the loop that updates the `airlineMap` entries in place, modelled with a code-to-index map, yields exactly the accumulated entries |
| AirlinesRanking.MergeStep | components/dashboard/airlines-ranking.tsx:34-38 | a route whose code has an entry adds its flights, on-time flights and delay minutes to that entry only |
| AirlinesRanking.NewStep | components/dashboard/airlines-ranking.tsx:39-46 | a route with a new code appends an entry built from it, and the index records its position |
| AirlinesRanking.IndexesSameCode | components/dashboard/airlines-ranking.tsx:34-38 | updating an entry without changing its code keeps the index accurate |
| AirlinesRanking.IndexesSnoc | components/dashboard/airlines-ranking.tsx:40 | appending an entry with a new code and recording its position keeps the index accurate |
| AirlinesRanking.MergeCase | components/dashboard/airlines-ranking.tsx:35-38 | adding a route with a known code changes only that code's entry |
| AirlinesRanking.NewCase | components/dashboard/airlines-ranking.tsx:39-46 | adding a route with an unseen code appends its entry |
| AirlinesRanking.TotalsSnoc | components/dashboard/airlines-ranking.tsx:36-38 | one more route adds its counts to its own airline's totals only |
| AirlinesRanking.NoRoutesOf | components/dashboard/airlines-ranking.tsx:33-47 | an airline with no routes has zero totals |
| AirlinesRanking.ChartData | components/dashboard/airlines-ranking.tsx:22-64 | the memoised computation: accumulate, map to rows, sort by on-time percentage and keep at most 8 |
| AirlinesRanking.AccumulatedSpec | components/dashboard/airlines-ranking.tsx:33-49 | codes are distinct; every route's code has an entry; each entry is named from the first route with its code; its flights, on-time flights and delay minutes are the sums over that code's routes |
| AirlinesRanking.OnTimeAtMostFlights | components/dashboard/airlines-ranking.tsx:36-37 | when every route has on-time at most flights, so does every airline's total |
| AirlinesRanking.RowPercentageBounds | components/dashboard/airlines-ranking.tsx:52-55 | with on-time at most flights, the percentage is in [0, 100], and 0 without flights |
| AirlinesRanking.PercentageBounds | components/dashboard/airlines-ranking.tsx:50-61 | when every route has on-time at most flights, every airline's percentage is in [0, 100] |
| AirlinesRanking.FlightsAreSums | components/dashboard/airlines-ranking.tsx:36 | an airline's flights are the sum over its routes |
| AirlinesRanking.OnTimeAreSums | components/dashboard/airlines-ranking.tsx:37 | an airline's on-time flights are the sum over its routes |
| AirlinesRanking.MinutesAreSums | components/dashboard/airlines-ranking.tsx:38 | an airline's delay minutes are the sum of average delay times flights over its routes |
| AirlinesRanking.EntryIsAggregate | components/dashboard/airlines-ranking.tsx:50-61 | an airline's row agrees with `aggregateRoutes` over its routes: the same flights, the same on-time count and the same average delay |
| AirlinesRanking.AvgDelayBounds | components/dashboard/airlines-ranking.tsx:57-60 | with flights present, an airline's average delay lies between the smallest and largest route average |
| AirlinesRanking.RankingSpec | components/dashboard/airlines-ranking.tsx:49-63 | the ranking has min(n, 8) rows in non-increasing on-time percentage, each row is some entry's row, and with at most 8 entries it is a permutation of all of them |
| AirlinesRanking.RenderSpec | components/dashboard/airlines-ranking.tsx:68 | the "no data" branch is taken iff there are no routes; otherwise the chart has at least one row |
| SmartInsights.Totals | components/dashboard/smart-insights.tsx:18-23 | 24 hourly totals, hour h being the sum over gates of their count at hour h |
| SmartInsights.HourlyTotals | components/dashboard/smart-insights.tsx:18-23 | the nested `forEach` over a fresh 24-slot array leaves slot h holding the sum over gates of hour h, and reports whether any distribution is longer than 24 (a write past the array) |
| SmartInsights.GateStep | components/dashboard/smart-insights.tsx:19-22 | one more gate adds its count to each hour, and spills iff it or an earlier gate has more than 24 entries |
| SmartInsights.MaxOf | components/dashboard/smart-insights.tsx:25 | `Math.max(...)` is an element of the list and at least every element |
| SmartInsights.IndexOf | components/dashboard/smart-insights.tsx:25 | `indexOf` is -1 iff the value is absent, and otherwise the first index holding it |
| SmartInsights.PeakHourSpec | components/dashboard/smart-insights.tsx:25 | the peak hour is an index of the totals that attains the maximum, and every earlier hour is strictly smaller |
| SmartInsights.WorstFlight | components/dashboard/smart-insights.tsx:29 | the worst flight is `topDelays[0]`, and absent iff `topDelays` is empty |
| SmartInsights.BestGateSpec | components/dashboard/smart-insights.tsx:32-34 | the best gate is absent iff no gate has more than 10 flights; otherwise it is such a gate with the largest on-time percentage, and the first of those in input order (the sort is stable) |
| SmartInsights.BestFirstInInput | components/dashboard/smart-insights.tsx:32-34 | the first element of the stably sorted busy gates is the first busy gate, in input order, with the largest percentage |
| SmartInsights.ComputeInsights | components/dashboard/smart-insights.tsx:16-42 | the memoised insights: hourly totals, peak hour and count, worst flight and best gate |
| SmartInsights.PeakSpec | components/dashboard/smart-insights.tsx:18-26 | without a distribution longer than 24, the peak hour is in 0..23, is the first hour with the largest total, and the peak count is that total; with one, the totals hold NaN, so the peak hour is -1 and the count is undefined |
| SmartInsights.Render | components/dashboard/smart-insights.tsx:44 | nothing is rendered iff there are neither gates nor top delays |
| GatesAnalysisFixed.Hours | components/dashboard/gates-analysis-fixed.tsx:42 | `HOURS` is 0, 1, ..., 23 |
| GatesAnalysisFixed.NormalizeDistribution | components/dashboard/gates-analysis-fixed.tsx:45-46 | the normalized distribution always has 24 values |
| GatesAnalysisFixed.NormalizeSpec | components/dashboard/gates-analysis-fixed.tsx:45-46 | a short distribution is kept and padded with zeros up to 24; a long one is cut to its first 24 values |
| GatesAnalysisFixed.ToChartRow | components/dashboard/gates-analysis-fixed.tsx:55-69 | the label is "Gate " and the trimmed gate, or "Gate N/A" when that is empty; `rawGate` is the trimmed gate or "N/A"; flights are copied and the distribution is normalized |
| GatesAnalysisFixed.RawGateSpec | components/dashboard/gates-analysis-fixed.tsx:56-61 | `rawGate` is never empty and neither starts nor ends with whitespace |
| GatesAnalysisFixed.ChartDataSpec | components/dashboard/gates-analysis-fixed.tsx:53-77 | `chartData` is a permutation of the mapped gates, ordered by non-increasing average delay ("delay"), flights ("flights" or "concurrency") or on-time percentage ("ontime") |
| GatesAnalysisFixed.RowsFlights | components/dashboard/gates-analysis-fixed.tsx:63 | the rows carry the gates' flights |
| GatesAnalysisFixed.StatsSpec | components/dashboard/gates-analysis-fixed.tsx:79-95 | the stats do not depend on the order; they are all zeros without gates; total flights is the gates' sum; each average is within 0.05 of the arithmetic mean of the rows |
| GatesAnalysisFixed.StatsModeIndependent | components/dashboard/gates-analysis-fixed.tsx:79-95 | the stats are the same in every view mode |
| GatesAnalysisFixed.BarColor | components/dashboard/gates-analysis-fixed.tsx:98-112 | delay mode: green below 0, cyan below 15, yellow below 30, red otherwise; on-time mode: green from 80, cyan from 60, yellow from 40, red below; other modes: cyan; the raw variant (gates-analysis.tsx) defines the same scale and uses this member |
| GatesAnalysisFixed.BarColorMonotone | components/dashboard/gates-analysis-fixed.tsx:98-110 | a larger delay never gets a milder colour, and a larger on-time percentage never a worse one |
| GatesAnalysisFixed.HeatmapMax | components/dashboard/gates-analysis-fixed.tsx:117-122 | the nested loop that raises `maxVal` computes the largest cell of the grid, or 0 for no cells |
| GatesAnalysisFixed.MaxFromSpec | components/dashboard/gates-analysis-fixed.tsx:119-121 | scanning a row keeps the running maximum at least every cell seen and equal to the start or to a cell |
| GatesAnalysisFixed.GridMaxSpec | components/dashboard/gates-analysis-fixed.tsx:117-122 | the grid maximum bounds every cell, and is 0 or some cell's value |
| GatesAnalysisFixed.ComputeHeatmap | components/dashboard/gates-analysis-fixed.tsx:115-129 | the heatmap is absent outside "concurrency"; otherwise it holds the hours, `max(maxVal, 1)` and the rows |
| GatesAnalysisFixed.HeatmapSpec | components/dashboard/gates-analysis-fixed.tsx:115-129 | the heatmap exists iff the mode is "concurrency"; its maximum is at least 1, at least every cell, and is 1 or an actual cell |
| GatesAnalysisFixed.DistributionsHave24 | components/dashboard/gates-analysis-fixed.tsx:68 | every row of `chartData` has 24 hourly values |
| GatesAnalysisFixed.Visible | components/dashboard/gates-analysis-fixed.tsx:131-133 | the component renders iff there are gates |
| GatesAnalysis.ToRawRow | components/dashboard/gates-analysis.tsx:73-83 | the label is "Gate " followed by the gate exactly as fetched, `rawGate` is the gate, and flights, percentage and distribution are copied unchanged |
| GatesAnalysis.RawChartDataSpec | components/dashboard/gates-analysis.tsx:71-90 | one bar per fetched gate, a permutation of the mapped gates, in non-increasing order of the mode's key |
| GatesAnalysis.RawRowsFlights | components/dashboard/gates-analysis.tsx:77 | the bars carry the gates' flights |
| GatesAnalysis.RawStatsSpec | components/dashboard/gates-analysis.tsx:92-108 | the stats do not depend on the order; they are zeros without gates; total flights is the gates' sum; each average is within 0.05 of the arithmetic mean |
| GatesAnalysis.ComputeRawHeatmap | components/dashboard/gates-analysis.tsx:128-140 | the heatmap is absent outside "concurrency"; otherwise its maximum is the largest raw cell found by the nested loop, 0 without cells, and it holds the bars |
| GatesAnalysis.IntensityBounds | components/dashboard/gates-analysis.tsx:266 | dividing by the maximum, or by 1 when it is 0, never divides by zero and lies in [0, 1] for a cell at most the maximum |
| GatesAnalysis.RawHeatmapSpec | components/dashboard/gates-analysis.tsx:128-140 | the heatmap exists iff the mode is "concurrency"; its maximum bounds every cell of every bar, every intensity is in [0, 1], and a count is shown (`val > 0 && intensity > 0.45`) only when the maximum is positive |
| GatesAnalysis.GatesState.constructor | components/dashboard/gates-analysis.tsx:46-49 | the initial state: no gates, loading, no error, mode "delay" |
| GatesAnalysis.GatesState.Begin | components/dashboard/gates-analysis.tsx:53-54 | the start of the fetch sets loading and clears the error, and nothing else changes |
| GatesAnalysis.GatesState.Finish | components/dashboard/gates-analysis.tsx:55-66 | loading always ends; a payload sets the gates to `result.data`, or [] when it is missing; a response that is not ok sets "Failed to fetch gates: " and the status; a thrown value sets its message or "Error desconocido" |
| GatesAnalysis.GatesState.SetViewMode | components/dashboard/gates-analysis.tsx:49 | the mode changes and nothing else does |
| GatesAnalysis.GatesState.Render | components/dashboard/gates-analysis.tsx:142-166 | the skeleton iff loading; the chart iff not loading, without a truthy error and with gates, and then it shows the sorted bars |
| RoutesTable.ParamOr | components/dashboard/routes-table.tsx:50-51 | a present non-empty parameter is used as it is, and otherwise the fallback, so the result is empty only when the fallback is |
| RoutesTable.DefaultSort | components/dashboard/routes-table.tsx:50-51 | a URL without sort parameters sorts by `total_flights`, descending |
| RoutesTable.HandleSortSpec | components/dashboard/routes-table.tsx:53-62 | clicking the active key flips the order and keeps the key; clicking another key selects it, ascending for `destination_city` and descending otherwise; every other parameter is kept as it was |
| RoutesTable.ToggleTwice | components/dashboard/routes-table.tsx:55-56 | clicking the active key twice restores the original key and order |
| RoutesTable.SortState.constructor | components/dashboard/routes-table.tsx:48 | the state starts from the URL's parameters |
| RoutesTable.SortState.Click | components/dashboard/routes-table.tsx:53-62 | a click replaces the parameters with those `handleSort` builds, and the clicked key becomes active |
| RoutesTable.RowOrderTotal | components/dashboard/routes-table.tsx:65-78 | the comparator of every key and direction is a total preorder, as a sort needs |
| RoutesTable.SortedDataSpec | components/dashboard/routes-table.tsx:64-79 | `sortedData` is a permutation of the data, ordered by the active key in the chosen direction: strings by UTF-16 code-unit order in place of `localeCompare`, numbers numerically |
| RoutesTable.UnknownKeyKeepsOrder | components/dashboard/routes-table.tsx:64-79 | a sort key that names no field compares every pair as equal (NaN), so the stable sort keeps the data's order |
| RoutesTable.Cards | components/dashboard/routes-table.tsx:145 | the cards (`displayLimit`, line 82) are the first 5 (mobile) or 12 (otherwise) sorted routes, or all of them when there are fewer |
| RoutesTable.DelayBadge | components/dashboard/routes-table.tsx:146-147 | a route is high-delay iff its average exceeds 15 and low-delay iff it is below 5; the badge holds one classification, so the two never coincide |
| TopEvents.TotalMinutes | components/dashboard/top-events.tsx:18-19 | a missing (non-finite) value counts as 0; otherwise the total is the absolute value rounded to the nearest minute |
| TopEvents.SplitSpec | components/dashboard/top-events.tsx:26-29 | days times 1440 plus hours times 60 plus minutes is the total, with hours below 24 and minutes below 60 |
| TopEvents.FormatDelayDuration | components/dashboard/top-events.tsx:17-44 | the method that pushes the non-zero parts onto `parts` and joins them yields the label the duration function describes |
| TopEvents.ShortDelay | components/dashboard/top-events.tsx:22-24 | below 60 minutes only "<t> min" is returned |
| TopEvents.LongDelay | components/dashboard/top-events.tsx:26-43 | from 60 minutes the parts list is never empty, starts with the days part iff there are days, and the label is the joined parts followed by " (<t> min)" |
| TopEvents.UnitsDiffer | components/dashboard/top-events.tsx:32-37 | a days part is never mistaken for an hours part |
| TopEvents.JoinNonEmpty | components/dashboard/top-events.tsx:42 | joining non-empty parts gives a non-empty label, so the fallback to the minutes label is never taken |
| TopEvents.FindTime | components/dashboard/top-events.tsx:48 | the search for `T\d{2}:\d{2}` finds the first position from which the pattern matches, or reports that there is none |
| TopEvents.FormatDepartureTime | components/dashboard/top-events.tsx:46-47 | a missing or empty value gives null |
| TopEvents.DepartureTimeSpec | components/dashboard/top-events.tsx:48-49 | when the string holds "T" followed by HH:MM, the result is exactly the five characters "HH:MM" of the first such match |
| TopEvents.DepartureTimeExample | components/dashboard/top-events.tsx:48-49 | "2024-05-01T08:15:00" gives "08:15" |
| TopEvents.DelayDurationExample | components/dashboard/top-events.tsx:17-44 | 1505.2 minutes read "1 d 1 h 5 min (1505 min)" |
| TrendChart.EarlierFirst | components/dashboard/trend-chart.tsx:28-31 | the comparator puts a day first iff its timestamp is not later |
| TrendChart.ToPoint | components/dashboard/trend-chart.tsx:32-45 | a point carries the day's flights, its timestamp and its average delay rounded to one decimal |
| TrendChart.ChartDataSpec | components/dashboard/trend-chart.tsx:26-46 | the sorted days are a permutation of the input (a copy is sorted); there is one point per day, built from the day in sorted position, with non-decreasing timestamps |
| TrendChart.SameTimeKeepsOrder | components/dashboard/trend-chart.tsx:27-31 | days with equal timestamps keep their input order (the sort is stable) |
| TrendChart.MaxDelay | components/dashboard/trend-chart.tsx:52 | `Math.max(...values)` is one of the values and at least all of them |
| TrendChart.MinDelay | components/dashboard/trend-chart.tsx:51-53 | the smallest value is one of the values and at most all of them |
| TrendChart.MeanBounds | components/dashboard/trend-chart.tsx:53 | the mean lies between any lower and upper bound of the values |
| TrendChart.RoundedMaxSpec | components/dashboard/trend-chart.tsx:55 | `ceil((max + 5) / 10) * 10` is a multiple of 10, at least max + 5 and below max + 15 |
| TrendChart.SumDelayAtMost | components/dashboard/trend-chart.tsx:53 | the sum of values each at most hi is at most n times hi |
| TrendChart.SumDelayAtLeast | components/dashboard/trend-chart.tsx:53 | the sum of values each at least lo is at least n times lo |
| TrendChart.YAxisSpec | components/dashboard/trend-chart.tsx:49-57 | an empty series gives {min 0, max 60, avg 0}; otherwise min is 0, max is a multiple of 10, at least 30 and at least the largest value plus 5, and below that plus 15 when above 30; avg is within 0.05 of a value between the smallest and the largest |
| TrendChart.LabelCountAtMost | components/dashboard/trend-chart.tsx:60-73 | when the chart labels every (k+1)-th of n ticks, which is how the charting library reads `interval`, it shows at most c labels whenever n is at most c(k+1) |
| TrendChart.XAxisSpec | components/dashboard/trend-chart.tsx:60-73 | the interval shows at most 4 labels on mobile and at most 10 otherwise, and every label up to 4 (mobile) or 10 (desktop) points |
| TrendChart.Render | components/dashboard/trend-chart.tsx:26-77 | nothing is rendered iff there are no days; otherwise the chart gets the sorted points, their y-axis configuration and the x-axis interval |
| DashboardContent.InitialFilters | components/dashboard/dashboard-content.tsx:55-61 | a present non-empty parameter is used as it is; a missing filter is ""; a missing window is "60", so the window is never empty |
| DashboardContent.ParamMapSpec | components/dashboard/dashboard-content.tsx:69-76 | the parameters read back from the query hold exactly the names that were set, each with its last value |
| DashboardContent.QuerySpec | components/dashboard/dashboard-content.tsx:69-80 | the query has each filter iff it is non-empty, and the window iff it is non-empty and not "60"; no name appears twice; an empty query gives the bare pathname |
| DashboardContent.CandidateKeysDistinct | components/dashboard/dashboard-content.tsx:70-76 | the five candidate parameters have distinct names |
| DashboardContent.ReadBack | components/dashboard/dashboard-content.tsx:55-76 | reading a parameter back from the query gives the filter when it was written, and otherwise the default |
| DashboardContent.QueryRoundTrip | components/dashboard/dashboard-content.tsx:55-80 | the initial filters read from the query of a filter state are that state, provided its window is non-empty |
| DashboardContent.Defined | components/dashboard/dashboard-content.tsx:121-124 | an empty filter passed on as undefined: the option is absent exactly for the empty string, and otherwise the value |
| DashboardContent.FilteredRoutesSpec | components/dashboard/dashboard-content.tsx:118-126 | no routes before the data arrives; then, in order, exactly the routes that pass every set filter after normalization; the window does not matter |
| DashboardContent.TopDelaysSpec | components/dashboard/dashboard-content.tsx:138-146 | the delays shown are an in-order subsequence of the ranked delays, exactly those matching the set origin, country and city verbatim, and the airline filter changes nothing |
| DashboardContent.FilterMatches | components/dashboard/dashboard-content.tsx:140-145 | the record filter keeps exactly the matching records, in order, whatever the airline |
| DashboardContent.FindAirline | components/dashboard/dashboard-content.tsx:154 | `find` by `airline_name` is absent iff no entry has that name, and otherwise the first entry that has it |
| DashboardContent.Rescaled | components/dashboard/dashboard-content.tsx:176-181 | a bucket keeps its name, and its count is 0 without global delays and otherwise its share of the delayed flights rounded to the nearest integer |
| DashboardContent.AirlineBucketsSum | components/dashboard/dashboard-content.tsx:156-163 | the six airline buckets add up to its on-time, delay and cancelled counts |
| DashboardContent.FilteredBucketsSpec | components/dashboard/dashboard-content.tsx:148-184 | with an airline filter whose name is found, the airline's six buckets; otherwise on-time first, then every global "delay_" bucket rescaled to the filtered delayed total, and cancelled last |
| DashboardContent.RescaledFrameSpec | components/dashboard/dashboard-content.tsx:172-183 | the rescaled list has the delay buckets framed by on-time and cancelled, each middle bucket being a rescaled delay bucket |
| DashboardContent.Dashboard.constructor | components/dashboard/dashboard-content.tsx:52-61 | the filters start from the URL, the first-mount flag is set and no default origin has been chosen |
| DashboardContent.Dashboard.SyncUrl | components/dashboard/dashboard-content.tsx:63-82 | the first run only clears the first-mount flag; later runs navigate to the target built from the filters |
| DashboardContent.Dashboard.SetOrigin | components/dashboard/dashboard-content.tsx:186-193 | setting the origin clears country, city and airline and keeps the window |
| DashboardContent.Dashboard.SetCountry | components/dashboard/dashboard-content.tsx:195-201 | setting the country clears city and airline and keeps origin and window |
| DashboardContent.Dashboard.SetCity | components/dashboard/dashboard-content.tsx:203-208 | setting the city clears only the airline |
| DashboardContent.Dashboard.SetAirline | components/dashboard/dashboard-content.tsx:210-212 | setting the airline changes only the airline |
| DashboardContent.Dashboard.SetWindowDays | components/dashboard/dashboard-content.tsx:214-216 | setting the window changes only the window |
| DashboardContent.Dashboard.DefaultOrigin | components/dashboard/dashboard-content.tsx:88-106 | the decision is taken once, when no origin is set and routes are present; the origin is set only when the non-empty origin codes form exactly one value, and then it is that value |
| DashboardContent.Dashboard.SyncWindowDays | components/dashboard/dashboard-content.tsx:108-116 | a positive lookback sets the window to its decimal string unless the URL has a window; otherwise nothing changes |
| UseDashboardData.FetchExport | hooks/use-dashboard-data.ts:25-35 | a response that is not ok fails with "Failed to fetch export: " and the status; a thrown value fails with its message; a bare array is returned as it is; an object gives its `data`, or [] without one |
| UseDashboardData.FetchManifest | hooks/use-dashboard-data.ts:37-44 | an ok response gives the manifest; one that is not ok fails with the fixed manifest message; a thrown value fails with its message |
| UseDashboardData.HeadlineOf | hooks/use-dashboard-data.ts:75-83 | the headline is the first headline row, or, without rows, a record whose numbers are all 0 and whose update time is the current instant |
| UseDashboardData.GatesOf | hooks/use-dashboard-data.ts:70-72 | without a (truthy) gates URL the gates are []; a failed gates fetch gives [] too; otherwise the fetched gates |
| UseDashboardData.LoadOutcomeSpec | hooks/use-dashboard-data.ts:58-101 | the load succeeds iff the manifest and all six required exports succeed; then the data carries the manifest's `generated_at` and `expires_at`, the fetched exports, the tolerant gates and the defaulted headline; a manifest failure is the load's error |
| UseDashboardData.GatesFailureTolerated | hooks/use-dashboard-data.ts:70-72 | a failing gates fetch never decides whether the load succeeds, and leaves the gates empty |
| UseDashboardData.DashboardDataState.constructor | hooks/use-dashboard-data.ts:47-52 | the hook starts with no data, loading, no error, and the effect active |
| UseDashboardData.DashboardDataState.Start | hooks/use-dashboard-data.ts:55-56 | the start of `load` sets loading and clears the error |
| UseDashboardData.DashboardDataState.Complete | hooks/use-dashboard-data.ts:85-106 | once the effect is inactive nothing changes; otherwise loading ends, a success sets the data and a failure sets the error, so a first load ends settled |
| UseDashboardData.DashboardDataState.Deactivate | hooks/use-dashboard-data.ts:111-113 | the cleanup clears the active flag and changes nothing else |
| UseDashboardData.MountAndLoad | hooks/use-dashboard-data.ts:51-109 | mounting and finishing a load ends settled: not loading, with exactly one of data or error, the one the outcome gives |
| UseDashboardData.MountAndUnmount | hooks/use-dashboard-data.ts:109-113 | a load that finishes after the cleanup leaves the initial state untouched |
| ApiGates.LimitSpec | app/api/gates/route.ts:63 | without a `limit` parameter, or with an empty one, the limit is 20; a decimal `limit` is read as its value |
| Strings.ParseInt | app/api/gates/route.ts:63 | `parseInt(s, 10)` is NaN (absent) iff, after leading whitespace and an optional sign, no decimal digit follows |
| ApiGates.HourKeyDigits | app/api/gates/route.ts:153 | below 100 the column of hour i is "h" followed by its two decimal digits |
| ApiGates.HourKeysDistinct | app/api/gates/route.ts:152-155 | every hour of the day has its own three-character column, so no column is read for two hours |
| ApiGates.HourKeyExamples | app/api/gates/route.ts:153 | hour 7 reads "h07" and hour 23 reads "h23" |
| ApiGates.ToGateSpec | app/api/gates/route.ts:150-167 | a missing gate becomes "" and a missing number 0; the distribution has exactly 24 entries, entry i being the value of column "h" + two-digit i, or 0 when that column is missing |
| ApiGates.DistributionUpdate | app/api/gates/route.ts:152-155 | changing the column of hour i changes that hour of the distribution and no other |
| ApiGates.GatesResponseSpec | app/api/gates/route.ts:150-188 | a failed query is a 500 with "Failed to fetch gates data"; otherwise there is one gate per row, in row order, `total_gates` counts them and `fetched_at` is the given instant |
| ApiGates.ResponseNeverSpills | app/api/gates/route.ts:152-155 | the endpoint's gates never carry more than 24 hours, so the insights always find a peak hour |
| SyncData.Keys | scripts/sync-data.ts:76 | `Object.keys`: the keys of the entries, in insertion order |
| SyncData.Get | scripts/sync-data.ts:54-55 | reading a key gives nothing iff the key is absent, and otherwise a value stored under it |
| SyncData.GetAt | scripts/sync-data.ts:54-55 | with distinct keys, reading an entry's key gives that entry's value |
| SyncData.KeyIndex | scripts/sync-data.ts:57 | the position of a present key holds that key |
| SyncData.PutSpec | scripts/sync-data.ts:57 | assigning a property sets its value and leaves every other key alone; an existing key keeps the key order, a new key is appended; keys stay distinct |
| SyncData.DefaultObjectsShape | scripts/sync-data.ts:44-51 | the six default entries have distinct keys, no `gates_analysis`, and `headline` at "prod/exports/headline.json" |
| SyncData.SiblingSpec | scripts/sync-data.ts:56-59 | the derived path is the path's prefix through its last "/" followed by the name, or just the name when there is no "/" |
| SyncData.SiblingInFolder | scripts/sync-data.ts:57-58 | with a last "/" at i, the derived path is the first i + 1 characters followed by the name, and its last "/" is still at i |
| SyncData.SiblingWithoutFolder | scripts/sync-data.ts:57-59 | without a "/", the derived path is the name alone |
| SyncData.GatesPathSpec | scripts/sync-data.ts:55-59 | the gates path is the headline path's folder (through its last "/") followed by "gates_analysis.json", or "gates_analysis.json" alone without a folder |
| SyncData.LastIndexOfAppend | scripts/sync-data.ts:56 | appending text without the character does not move its last occurrence |
| SyncData.GatesPathInFolder | scripts/sync-data.ts:55-59 | a file in a folder gets "gates_analysis.json" in the same folder |
| SyncData.ObjectMap.constructor | scripts/sync-data.ts:43-51 | the map is the given signed map, or the six defaults when it is unset |
| SyncData.ObjectMap.DeriveGatesAnalysis | scripts/sync-data.ts:54-60 | with a truthy `gates_analysis`, or without a truthy `headline`, nothing changes; otherwise `gates_analysis` is set to the derived path |
| SyncData.UrlsFor | scripts/sync-data.ts:75-78 | one URL per object, in key order, each "./data/<key>.json" |
| SyncData.ManifestUrls | scripts/sync-data.ts:75-78 | the loop over `Object.keys(objects)` builds exactly that list of URLs |
| SyncData.UrlsForSpec | scripts/sync-data.ts:75-78 | the URLs have exactly the objects' keys, and each key maps to "./data/<key>.json" |
| SyncData.Sync | scripts/sync-data.ts:43-89 | the manifest is generated now and expires 6 hours later; without a signed map its keys are the six defaults followed by `gates_analysis`; every key maps to "./data/<key>.json" |
| SyncData.ExpirySpec | scripts/sync-data.ts:81-83 | the manifest expires 21 600 000 ms (6 hours) after it is generated |
| Utils.NormalizePathSpec | lib/utils.ts:12 | the normalized path starts with "/"; a path that already does is kept; otherwise exactly one "/" is put in front |
| Utils.NormalizePathIdempotent | lib/utils.ts:12 | normalizing twice is normalizing once |
| Utils.AssetSpec | lib/utils.ts:8-13 | the asset is the base path (empty when unset) followed by "/" and ending with the given path; without a base path it is the normalized path |
| Utils.AssetIdempotent | lib/utils.ts:9-13 | with an unset or empty base path, asset is idempotent |
| Numbers.Round | components/dashboard/top-events.tsx:19 | `Math.round` gives the integer nearest to its argument, halves rounding up |
| Numbers.Ceil | components/dashboard/trend-chart.tsx:55 | `Math.ceil` gives the least integer not below its argument |
| Numbers.Round1 | components/dashboard/gates-analysis-fixed.tsx:62 | `Math.round(x * 10) / 10` is within 0.05 of x |
| Strings.TrimSpec | lib/route-utils.ts:22-23 | `trim()` removes leading and trailing whitespace only, and keeps a slice of the input |
| Strings.TrimIdempotent | lib/route-utils.ts:22-23 | trimming twice is trimming once |
| Strings.ToUpper | lib/route-utils.ts:23 | upper-casing maps each character on its own: ASCII and Latin-1 small letters become their capitals, the micro sign becomes Greek capital mu and y-diaeresis its capital, and other characters stay; sharp s is the gap listed under Left out |
| Strings.ToLower | lib/route-utils.ts:22 | lower-casing maps each character and keeps the length |
| Strings.LastIndexOf | scripts/sync-data.ts:56 | `lastIndexOf` is -1 or an index holding the character, and no later index holds it |
| Strings.PadStart | app/api/gates/route.ts:153 | `padStart(n, c)` ends with the string and fills up to n with c |
| Strings.NatToString | app/api/gates/route.ts:153 | `toString()` of a non-negative integer is a non-empty string of decimal digits |
| Strings.ParseIntNatToString | app/api/gates/route.ts:63 | `parseInt` reads back the decimal string of any non-negative integer |
| Strings.UniqueSortedSpec | lib/route-utils.ts:50-52 | `[...new Set(xs)].filter(keep).sort()` holds exactly the kept values of xs, in strictly ascending order |
| Strings.LexLeIsTotalPreorder | lib/route-utils.ts:52 | the order of a bare `sort()` is a total preorder, and for every pair of strings it is the lexicographic order of their UTF-16 code units |
| Strings.LexLeIsUtf16Order | lib/route-utils.ts:52 | comparing two strings character by character agrees with comparing their UTF-16 code units, a proper prefix first, so astral characters sort after U+D7FF and before U+E000 |
| Strings.AstralBeforePrivateUse | lib/route-utils.ts:52 | U+1F600, encoded as the units D83D DE00, sorts before U+E000 although its code point is larger |
| Seqs.SortBy | components/dashboard/airlines-ranking.tsx:62 | the stable insertion sort standing for `Array.prototype.sort` returns a permutation of its input |
| Seqs.SortBySorted | components/dashboard/airlines-ranking.tsx:62 | with a consistent, total comparator the result is sorted |
| Seqs.SortByAllEqual | components/dashboard/routes-table.tsx:65 | when the comparator treats all elements as equal, the stable sort keeps the input order |

## Left out

- Dates and clocks: `Date.now()`, `new Date(..)`, `toISOString()` and the `Intl` date formatters are not modelled. Instants are integer milliseconds or given strings, and date labels and the local time are parameters.
- Floating point: averages and percentages are exact reals, so `Math.round` and the one-decimal rounding are exact. Binary rounding error and `NaN` propagation are not modelled, except the one `NaN` case of the hourly totals, which is modelled as a missing peak.
- GatesAnalysisFixed: the heatmap cell colour of the fixed variant (`Math.sqrt(val / maxVal)` turned into an opacity) is not modelled. It is display only and needs a square root on reals. Its divisor is proved to be at least 1 and at least every cell.
- Number formatting (`formatNumber`, `formatPercentage`, lib/format.ts) is not modelled. It only formats values for display.
- The BigQuery query of app/api/gates/route.ts is not modelled: its outcome is a parameter. The 500 response for a credentials string that does not parse (app/api/gates/route.ts:65-78) is part of that credentials handling and is not modelled either.
- The `limit` is parsed, but its use inside the SQL text is not modelled. A `limit` that `parseInt` cannot read is `None` (NaN) and is passed on as it is.
- The storage I/O of scripts/sync-data.ts is not modelled: the Cloud Storage client, signed URLs, writing manifest.json, console logging, and the exit for a missing bucket (scripts/sync-data.ts:33-36).
- `JSON.parse` of the object map from the environment is not modelled: the parsed map is a parameter. The model assumes it has no duplicate keys (`DistinctKeys`).
- Requests and scheduling: `fetch`, promises and React's effect scheduling are not modelled. Each request is given by how it ended, and an effect is a method called when React would run it.
- When several exports fail at once, `Promise.all` reports whichever rejection comes first in time. The model reports them in a fixed order.
- Untyped values: the `Number(..)`/`String(..)` coercions of untyped query rows are not modelled. A row's columns are typed `Option`s.
- `Object.keys` visits integer-like keys first, in numeric order. The model visits the object map's keys in plain insertion order, which is the same for every key the script uses. The integer-key ordering is not modelled.
- The `Cache-Control` header of the gates response and the percent-encoding of `URLSearchParams` are not modelled.
- `localeCompare` is approximated by the UTF-16 code-unit order of a bare `sort()`, so locale collation is not modelled.
- Strings.ToUpper: sharp s (ß) stays as it is, whereas `toUpperCase` expands it to "SS". Upper-casing is kept one character for one, so the result has the length of its input. Airport and airline codes are ASCII, so the filters never meet ß.
- Case mapping outside ASCII and Latin-1 is not modelled: letters of other scripts, and lower-casing capitals outside Latin-1 such as Ÿ.
- DashboardUtils.GetTopDestinationsFromRoutes: `limit` is always an argument, and the default `limit = 10` (lib/dashboard-utils.ts:27) is not modelled. Its one caller passes 15 (components/dashboard/dashboard-content.tsx:134), and that call is not modelled either (see above).
- TrendChart: the model takes every `flight_date` to parse. An invalid date (a `NaN` timestamp in the comparator) is not modelled.
- DashboardContent: the `topDestinations` value is computed at components/dashboard/dashboard-content.tsx:133-136 but only handed on. The function it calls is modelled in DashboardUtils, and the call itself is not.
- GatesAnalysisFixed: the hover state of the fixed variant's heatmap is not modelled. It changes only highlighting.
- The bucket counts of an aggregate adding up to its `total_flights` is a property of the exported data. The code never computes it, so it is not modelled.
- Presentation only, not modelled: the presentation components (header, hero, footer, FAQ, KPI cards, skeleton, bucket chart markup), the browser hooks (`useIsMobile`, `useInView`, `useReducedData`), lib/blog.ts, the `cn` class-name helper and the build configuration.

## Findings

| source | as written | input that shows it | evidently intended | confidence | as-written member | corrected member |
|---|---|---|---|---|---|---|
| lib/dashboard-utils.ts:32 | destinations are grouped under the string key city + "__" + country | routes to city "A__B" in country "C" and to city "A" in country "B__C" share the key "A__B__C" and are merged into one destination that counts both routes' flights | one group per (city, country) pair | low, since names containing "__" are unlikely (not executed) | DashboardUtils.ConcatKeyCollision | DashboardUtils.TopDestinationsFromRoutesSpec |

The as-written grouping is `DashboardUtils.GetTopDestinationsFromRoutesAsWritten`. The rest of the model uses `DashboardUtils.GetTopDestinationsFromRoutes`, which groups by the pair; `DashboardUtils.PairKeyNoCollision` proves that the pair key keeps distinct destinations apart.
