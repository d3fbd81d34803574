/** The delay list (components/dashboard/top-events.tsx): how a delay in
    minutes is written as days, hours and minutes, and how the departure
    time is cut out of an ISO timestamp. Number formatting (`formatNumber`,
    an `Intl.NumberFormat`) is the parameter `fmt`; a value that is NaN or
    infinite is `None`. */
module TopEvents {
  import opened Wrappers
  import opened Numbers
  import opened Strings

  const MinutesInDay: nat := 60 * 24

  /** `Math.round(Math.abs(safeValue))`. */
  function TotalMinutes(value: Option<real>): (t: nat)
    ensures value.None? ==> t == 0
    ensures value.Some? ==> var a := if value.value < 0.0 then -value.value else value.value;
      a - 0.5 < t as real <= a + 0.5
  {
    var safe := value.GetOr(0.0);
    var a := if safe < 0.0 then -safe else safe;
    Round(a)
  }

  /** Days, hours and minutes of `t` minutes. */
  datatype Split = Split(days: nat, hours: nat, minutes: nat)

  function SplitMinutes(t: nat): Split
  {
    Split(t / MinutesInDay, (t % MinutesInDay) / 60, t % 60)
  }

  /** The decomposition rebuilds `t`, with fewer than 24 hours and fewer
      than 60 minutes. */
  lemma SplitSpec(t: nat)
    ensures var s := SplitMinutes(t);
      && s.days * 1440 + s.hours * 60 + s.minutes == t
      && s.hours < 24 && s.minutes < 60
  {
    var r := t % MinutesInDay;
    assert t == (t / MinutesInDay) * 1440 + r;
    assert r == (r / 60) * 60 + r % 60;
    assert t % 60 == r % 60 by {
      assert t == ((t / MinutesInDay) * 24) * 60 + r;
      ModOfMultiplePlus((t / MinutesInDay) * 24, r);
    }
  }

  lemma ModOfMultiplePlus(k: nat, r: nat)
    ensures (k * 60 + r) % 60 == r % 60
  {
    var q := r / 60;
    assert r == q * 60 + r % 60;
    assert k * 60 + r == (k + q) * 60 + r % 60;
  }

  /** `parts.join(" ")`. */
  function Join(parts: seq<string>): string
  {
    if parts == [] then ""
    else if |parts| == 1 then parts[0]
    else parts[0] + " " + Join(parts[1..])
  }

  /** The parts of a split: each non-zero component with its unit, in the
      order days, hours, minutes. */
  function Parts(s: Split, fmt: nat -> string): seq<string>
  {
    (if s.days > 0 then [fmt(s.days) + " d"] else [])
      + (if s.hours > 0 then [fmt(s.hours) + " h"] else [])
      + (if s.minutes > 0 then [fmt(s.minutes) + " min"] else [])
  }

  /** `formatDelayDuration` described all at once. */
  function DelayDuration(value: Option<real>, fmt: nat -> string): string
  {
    var t := TotalMinutes(value);
    var minutesLabel := fmt(t) + " min";
    if t < 60 then minutesLabel
    else
      var joined := Join(Parts(SplitMinutes(t), fmt));
      (if joined == "" then minutesLabel else joined) + " (" + minutesLabel + ")"
  }

  /** `formatDelayDuration`, pushing the parts one by one. */
  method FormatDelayDuration(value: Option<real>, fmt: nat -> string) returns (text: string)
    ensures text == DelayDuration(value, fmt)
  {
    var safeValue := value.GetOr(0.0);
    var totalMinutes := Round(if safeValue < 0.0 then -safeValue else safeValue);
    var minutesLabel := fmt(totalMinutes) + " min";
    if totalMinutes < 60 {
      return minutesLabel;
    }
    var days := totalMinutes / MinutesInDay;
    var hours := (totalMinutes % MinutesInDay) / 60;
    var minutes := totalMinutes % 60;
    var parts: seq<string> := [];
    if days > 0 {
      parts := parts + [fmt(days) + " d"];
    }
    if hours > 0 {
      parts := parts + [fmt(hours) + " h"];
    }
    if minutes > 0 {
      parts := parts + [fmt(minutes) + " min"];
    }
    assert parts == Parts(SplitMinutes(totalMinutes), fmt);
    var joined := Join(parts);
    var durationLabel := if joined == "" then minutesLabel else joined;
    text := durationLabel + " (" + minutesLabel + ")";
  }

  /** Under an hour only the minutes label is written. */
  lemma ShortDelay(value: Option<real>, fmt: nat -> string)
    requires TotalMinutes(value) < 60
    ensures DelayDuration(value, fmt) == fmt(TotalMinutes(value)) + " min"
  {
  }

  /** From an hour on, at least one part is written, the parts appear in
      the order days, hours, minutes, and the total follows in brackets. */
  lemma LongDelay(value: Option<real>, fmt: nat -> string)
    requires TotalMinutes(value) >= 60
    ensures var t := TotalMinutes(value);
      var s := SplitMinutes(t);
      && Parts(s, fmt) != []
      && (Parts(s, fmt)[0] == fmt(s.days) + " d" <==> s.days > 0)
      && DelayDuration(value, fmt) == Join(Parts(s, fmt)) + " (" + fmt(t) + " min)"
  {
    var t := TotalMinutes(value);
    var s := SplitMinutes(t);
    SplitSpec(t);
    assert s.days > 0 || s.hours > 0;
    JoinNonEmpty(Parts(s, fmt));
    if s.days == 0 {
      assert Parts(s, fmt)[0] == fmt(s.hours) + " h";
      UnitsDiffer(fmt(s.days), fmt(s.hours));
    }
  }

  /** Labels ending in " d" and in " h" differ. */
  lemma UnitsDiffer(a: string, b: string)
    ensures a + " d" != b + " h"
  {
    var x, y := a + " d", b + " h";
    if |x| == |y| {
      assert x[|x| - 1] != y[|y| - 1];
    }
  }

  /** Joining non-empty parts gives a non-empty string. */
  lemma {:induction false} JoinNonEmpty(parts: seq<string>)
    requires parts != [] && forall i :: 0 <= i < |parts| ==> parts[i] != ""
    ensures Join(parts) != ""
    decreases |parts|
  {
    if |parts| > 1 {
      assert |Join(parts)| >= |parts[0]|;
    }
  }

  // ----- departure time -----

  /** `/T(\d{2}:\d{2})/` matches at position `i`. */
  predicate TimeAt(s: string, i: nat)
  {
    i + 6 <= |s| && s[i] == 'T' && IsDigit(s[i + 1]) && IsDigit(s[i + 2])
      && s[i + 3] == ':' && IsDigit(s[i + 4]) && IsDigit(s[i + 5])
  }

  /** The leftmost match at or after `from`. */
  function FindTime(s: string, from: nat): (r: Option<nat>)
    ensures r.Some? ==> from <= r.value && TimeAt(s, r.value) && forall j :: from <= j < r.value ==> !TimeAt(s, j)
    ensures r.None? ==> forall j :: from <= j ==> !TimeAt(s, j)
    decreases |s| - from
  {
    if from + 6 > |s| then None
    else if TimeAt(s, from) then Some(from)
    else FindTime(s, from + 1)
  }

  /** `formatDepartureTime`: nothing for a missing or empty value, the
      `HH:MM` after the first `T` that has one, and otherwise what the
      locale time formatting `localTime` of the parsed date gives (`None`
      for an unparsable date). */
  function FormatDepartureTime(value: Option<string>, localTime: string -> Option<string>): (r: Option<string>)
    ensures value.None? || value == Some("") ==> r.None?
  {
    if value.None? || value.value == "" then None
    else
      match FindTime(value.value, 0)
      case Some(i) => Some(value.value[i + 1..i + 6])
      case None => localTime(value.value)
  }

  /** A timestamp with a `T` followed by `HH:MM` gives exactly those five
      characters of the first such place: two digits, a colon, two digits. */
  lemma DepartureTimeSpec(s: string, i: nat, localTime: string -> Option<string>)
    requires TimeAt(s, i)
    ensures var r := FormatDepartureTime(Some(s), localTime);
      && r.Some? && |r.value| == 5
      && IsDigit(r.value[0]) && IsDigit(r.value[1]) && r.value[2] == ':' && IsDigit(r.value[3]) && IsDigit(r.value[4])
      && exists k: nat :: (k <= i && TimeAt(s, k) && r.value == s[k + 1..k + 6]
           && forall j: nat :: j < k ==> !TimeAt(s, j))
  {
    var k := FindTime(s, 0);
    assert k.Some?;
  }

  /** An ISO timestamp "2024-05-01T08:15:00" shows "08:15". */
  lemma DepartureTimeExample(localTime: string -> Option<string>)
    ensures FormatDepartureTime(Some("2024-05-01T08:15:00"), localTime) == Some("08:15")
  {
    var s := "2024-05-01T08:15:00";
    assert !TimeAt(s, 0) && !TimeAt(s, 1) && !TimeAt(s, 2) && !TimeAt(s, 3) && !TimeAt(s, 4);
    assert !TimeAt(s, 5) && !TimeAt(s, 6) && !TimeAt(s, 7) && !TimeAt(s, 8) && !TimeAt(s, 9);
    assert TimeAt(s, 10);
    assert FindTime(s, 10) == Some(10);
    assert FindTime(s, 9) == FindTime(s, 8) == FindTime(s, 10);
    assert FindTime(s, 7) == FindTime(s, 6) == FindTime(s, 8);
    assert FindTime(s, 5) == FindTime(s, 4) == FindTime(s, 6);
    assert FindTime(s, 3) == FindTime(s, 2) == FindTime(s, 4);
    assert FindTime(s, 1) == FindTime(s, 0) == FindTime(s, 2);
    assert s[11..16] == "08:15";
  }

  /** 1,505 minutes (a day, an hour and five minutes) read "1 d 1 h 5 min (1505 min)". */
  lemma DelayDurationExample(fmt: nat -> string)
    requires fmt(1) == "1" && fmt(5) == "5" && fmt(1505) == "1505"
    ensures DelayDuration(Some(1505.2), fmt) == "1 d 1 h 5 min (1505 min)"
  {
    assert TotalMinutes(Some(1505.2)) == 1505;
    assert SplitMinutes(1505) == Split(1, 1, 5);
    assert fmt(1) + " d" == "1 d" && fmt(1) + " h" == "1 h" && fmt(5) + " min" == "5 min";
    assert Parts(Split(1, 1, 5), fmt) == ["1 d"] + ["1 h"] + ["5 min"];
    assert Join(["5 min"]) == "5 min";
    assert Join(["1 h", "5 min"]) == "1 h 5 min";
    assert Join(["1 d", "1 h", "5 min"]) == "1 d 1 h 5 min";
    assert Join(Parts(SplitMinutes(TotalMinutes(Some(1505.2))), fmt)) == "1 d 1 h 5 min";
    assert fmt(1505) + " min" == "1505 min";
    assert "1 d 1 h 5 min" + " (" + "1505 min" + ")" == "1 d 1 h 5 min (1505 min)";
  }
}
