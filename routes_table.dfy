/** The sortable table of top destinations
    (components/dashboard/routes-table.tsx): the sort key and order read
    from the URL, the click rule that toggles or switches the key, the
    sorted copy of the data, the card limit and the delay badges. */
module RoutesTable {
  import opened Wrappers
  import opened Seqs
  import opened Strings
  import opened DashboardUtils

  const SortKeyParam: string := "sortKey"
  const SortOrderParam: string := "sortOrder"
  const DefaultKey: string := "total_flights"

  /** The three columns the buttons sort by. */
  predicate IsColumn(key: string)
  {
    key == "destination_city" || key == "avg_delay_minutes" || key == "total_flights"
  }

  /** `searchParams.get(name) || fallback`: a missing or empty parameter
      gives the fallback. */
  function ParamOr(params: map<string, string>, name: string, fallback: string): (v: string)
    ensures v != "" || fallback == ""
    ensures name in params && params[name] != "" ==> v == params[name]
  {
    if name in params && params[name] != "" then params[name] else fallback
  }

  /** `sortKey`: the parameter as it comes (the cast does not check it),
      `total_flights` when absent. */
  function SortKeyOf(params: map<string, string>): string
  {
    ParamOr(params, SortKeyParam, DefaultKey)
  }

  /** `sortOrder === "asc"`; any other value, the default "desc" included,
      sorts and toggles like "desc". */
  predicate Ascending(params: map<string, string>)
  {
    ParamOr(params, SortOrderParam, "desc") == "asc"
  }

  /** Without sort parameters the table sorts by flights, descending. */
  lemma DefaultSort(params: map<string, string>)
    requires SortKeyParam !in params && SortOrderParam !in params
    ensures SortKeyOf(params) == "total_flights" && !Ascending(params)
  {
  }

  // ----- the click rule -----

  /** `handleSort`: the active key flips the order; another key becomes
      active, ascending for the city and descending otherwise. */
  function HandleSort(params: map<string, string>, key: string): map<string, string>
  {
    if SortKeyOf(params) == key then
      params[SortOrderParam := if Ascending(params) then "desc" else "asc"]
    else
      params[SortKeyParam := key][SortOrderParam := if key == "destination_city" then "asc" else "desc"]
  }

  /** A click on the active key keeps it and flips the direction; a click on
      another key activates it, ascending exactly for the city. No other
      parameter changes. */
  lemma HandleSortSpec(params: map<string, string>, key: string)
    requires IsColumn(key)
    ensures var p := HandleSort(params, key);
      && SortKeyOf(p) == key
      && (SortKeyOf(params) == key ==> Ascending(p) == !Ascending(params))
      && (SortKeyOf(params) != key ==> (Ascending(p) <==> key == "destination_city"))
      && (forall n :: n != SortKeyParam && n != SortOrderParam ==> (n in p <==> n in params))
      && (forall n :: n in params && n != SortKeyParam && n != SortOrderParam ==> p[n] == params[n])
  {
  }

  /** Two clicks on the active key restore the key and the direction. */
  lemma ToggleTwice(params: map<string, string>, key: string)
    requires SortKeyOf(params) == key
    ensures var p := HandleSort(HandleSort(params, key), key);
      SortKeyOf(p) == key && (Ascending(p) <==> Ascending(params))
  {
    var p1 := HandleSort(params, key);
    assert SortKeyOf(p1) == key;
  }

  /** The table's view of the URL, updated in place by `router.replace`. */
  class SortState {
    var params: map<string, string>

    constructor (initial: map<string, string>)
      ensures params == initial
    {
      params := initial;
    }

    function Key(): string
      reads this
    {
      SortKeyOf(params)
    }

    /** The two `params.set` calls of a click. */
    method Click(key: string)
      requires IsColumn(key)
      modifies this
      ensures params == HandleSort(old(params), key)
      ensures Key() == key
    {
      if SortKeyOf(params) == key {
        params := params[SortOrderParam := if Ascending(params) then "desc" else "asc"];
      } else {
        params := params[SortKeyParam := key];
        params := params[SortOrderParam := if key == "destination_city" then "asc" else "desc"];
      }
      HandleSortSpec(old(params), key);
    }
  }

  // ----- sorting -----

  /** `a[sortKey]`: a text or numeric field, or `undefined` for a key that
      names no field. */
  datatype Field = Text(s: string) | Number(x: real) | Undefined

  function FieldOf(d: TopDestination, key: string): Field
  {
    if key == "destination_city" then Text(d.destination_city)
    else if key == "destination_country" then Text(d.destination_country)
    else if key == "total_flights" then Number(d.total_flights as real)
    else if key == "avg_delay_minutes" then Number(d.avg_delay_minutes)
    else if key == "rank" then Number(DestinationRank(d))
    else Undefined
  }

  /** The comparator, as `<= 0`: `localeCompare` (approximated by code-unit
      order) between texts, a difference between numbers, and NaN (which
      `sort` reads as 0) otherwise. */
  predicate Precedes(key: string, asc: bool, a: TopDestination, b: TopDestination)
  {
    match (FieldOf(a, key), FieldOf(b, key))
    case (Text(x), Text(y)) => if asc then LexLe(x, y) else LexLe(y, x)
    case (Number(x), Number(y)) => if asc then x <= y else y <= x
    case _ => true
  }

  function RowOrder(key: string, asc: bool): (TopDestination, TopDestination) -> bool
  {
    (a, b) => Precedes(key, asc, a, b)
  }

  lemma RowOrderTotal(key: string, asc: bool)
    ensures TotalPreorder(RowOrder(key, asc))
  {
    var le := RowOrder(key, asc);
    forall a, b ensures le(a, b) || le(b, a) {
      if FieldOf(a, key).Text? && FieldOf(b, key).Text? {
        LexLeTotal(FieldOf(a, key).s, FieldOf(b, key).s);
      }
    }
    forall a, b, c | le(a, b) && le(b, c) ensures le(a, c) {
      if FieldOf(a, key).Text? && FieldOf(b, key).Text? && FieldOf(c, key).Text? {
        var x, y, z := FieldOf(a, key).s, FieldOf(b, key).s, FieldOf(c, key).s;
        if asc { LexLeTrans(x, y, z); } else { LexLeTrans(z, y, x); }
      }
    }
  }

  /** `sortedData`: a sorted copy of the data. */
  function SortedData(data: seq<TopDestination>, params: map<string, string>): seq<TopDestination>
  {
    SortBy(data, RowOrder(SortKeyOf(params), Ascending(params)))
  }

  /** The sorted data is a permutation of the data, in the comparator's
      order; by default it is by flights, most first. */
  lemma SortedDataSpec(data: seq<TopDestination>, params: map<string, string>)
    ensures var r := SortedData(data, params);
      && multiset(r) == multiset(data)
      && (forall i, j :: 0 <= i < j < |r| ==> Precedes(SortKeyOf(params), Ascending(params), r[i], r[j]))
      && (SortKeyOf(params) == "total_flights" && !Ascending(params) ==>
            forall i, j :: 0 <= i < j < |r| ==> r[i].total_flights >= r[j].total_flights)
      && (SortKeyOf(params) == "destination_city" && Ascending(params) ==>
            forall i, j :: 0 <= i < j < |r| ==> LexLe(r[i].destination_city, r[j].destination_city))
  {
    RowOrderTotal(SortKeyOf(params), Ascending(params));
    SortBySorted(data, RowOrder(SortKeyOf(params), Ascending(params)));
  }

  /** A key that names no field compares every pair as equal, and the stable
      sort leaves the data as it is. */
  lemma UnknownKeyKeepsOrder(data: seq<TopDestination>, params: map<string, string>)
    requires FieldOf(TopDestination("", "", 0, 0.0, Some(0.0)), SortKeyOf(params)).Undefined?
    ensures SortedData(data, params) == data
  {
    SortByAllEqual(data, RowOrder(SortKeyOf(params), Ascending(params)));
  }

  // ----- cards -----

  /** `displayLimit`. */
  function DisplayLimit(isMobile: bool): nat
  {
    if isMobile then 5 else 12
  }

  /** The cards: the first `displayLimit` sorted rows. */
  function Cards(data: seq<TopDestination>, params: map<string, string>, isMobile: bool): (r: seq<TopDestination>)
    ensures |r| <= DisplayLimit(isMobile) && |r| <= |data|
    ensures r == SortedData(data, params)[..|r|]
    ensures |data| >= DisplayLimit(isMobile) ==> |r| == DisplayLimit(isMobile)
  {
    SliceTo(SortedData(data, params), DisplayLimit(isMobile))
  }

  datatype Badge = HighDelay | LowDelay | NormalDelay

  /** `isHighDelay` (over 15 minutes) and `isLowDelay` (under 5), which
      cannot both hold. */
  function DelayBadge(d: TopDestination): (b: Badge)
    ensures b == HighDelay <==> d.avg_delay_minutes > 15.0
    ensures b == LowDelay <==> d.avg_delay_minutes < 5.0
  {
    if d.avg_delay_minutes > 15.0 then HighDelay
    else if d.avg_delay_minutes < 5.0 then LowDelay
    else NormalDelay
  }

  /** The empty notice without data, the cards otherwise. */
  predicate ShowsEmptyNotice(data: seq<TopDestination>) { |data| == 0 }
}
