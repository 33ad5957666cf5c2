/** The display helpers of the personal statistics card: the 12-hour clock
    label of the peak hour, the compact rendering of a response time in
    minutes, and the three quickest and three slowest average response
    times. Minutes and hours are integers. */
module PersonalCard {
  import opened Options
  import opened Text
  import opened Seqs
  import opened Js
  import opened Sorting

  // ---------------------------------------------------------------------
  // formatHour
  // ---------------------------------------------------------------------

  /** `hour % 12 || 12`, then `AM` below noon. */
  function FormatHour(hour: int): (r: string)
    ensures hour == 0 ==> r == "12:00 AM"
    ensures hour == 12 ==> r == "12:00 PM"
    ensures 1 <= hour <= 11 ==> r == ShowNat(hour) + ":00 AM"
    ensures 13 <= hour <= 23 ==> r == ShowNat(hour - 12) + ":00 PM"
  {
    var rem := JsRem(hour, 12);
    var h := if rem == 0 then 12 else rem;
    assert 0 <= hour < 24 ==> h == if hour % 12 == 0 then 12 else hour % 12;
    assert ShowNat(12) == "12";
    ShowInt(h) + (if hour < 12 then ":00 AM" else ":00 PM")
  }

  /** Reads a label `h:00 AM` / `h:00 PM` with `1 <= h <= 12` back into a
      24-hour clock hour. */
  function ReadClock(s: string): (r: Option<int>)
    ensures r.Some? ==> 0 <= r.value < 24
  {
    match ReadNat(s)
    case None => None
    case Some((h, rest)) =>
      if !(1 <= h <= 12) then None
      else if rest == ":00 AM" then Some(if h == 12 then 0 else h)
      else if rest == ":00 PM" then Some(if h == 12 then 12 else h + 12)
      else None
  }

  /** Every hour of the day gets a label of its own, and the label names it. */
  lemma FormatHourRoundTrip(hour: int)
    requires 0 <= hour < 24
    ensures ReadClock(FormatHour(hour)) == Some(hour)
  {
    var h := if hour == 0 || hour == 12 then 12 else if hour < 12 then hour else hour - 12;
    var period := if hour < 12 then ":00 AM" else ":00 PM";
    assert FormatHour(hour) == ShowNat(h) + period;
    ReadShowNat(h, period);
  }

  /** Two different hours of the day never share a label. */
  lemma FormatHourInjective(a: int, b: int)
    requires 0 <= a < 24 && 0 <= b < 24
    requires FormatHour(a) == FormatHour(b)
    ensures a == b
  {
    FormatHourRoundTrip(a);
    FormatHourRoundTrip(b);
  }

  // ---------------------------------------------------------------------
  // formatTime
  // ---------------------------------------------------------------------

  /** Minutes as `< 1 min`, `m min`, `Hh Mm` / `Hh` below a day, and `Dd Hh` /
      `Dd` from a day on (leftover minutes dropped). */
  function FormatTime(minutes: int): (r: string)
    ensures r == "< 1 min" <==> minutes < 1
    ensures 1 <= minutes < 60 ==> r == ShowNat(minutes) + " min"
    ensures 60 <= minutes < 1440 && minutes % 60 == 0 ==> r == ShowNat(minutes / 60) + "h"
    ensures 60 <= minutes < 1440 && minutes % 60 != 0 ==>
              r == ShowNat(minutes / 60) + "h " + ShowNat(minutes % 60) + "m"
  {
    if minutes < 1 then "< 1 min"
    else
      var r := FormatPositive(minutes);
      assert r[0] != '<';
      r
  }

  /** The rendering of a duration of at least a minute, which starts with a digit. */
  function FormatPositive(minutes: int): (r: string)
    requires minutes >= 1
    ensures |r| > 0 && IsDigit(r[0])
  {
    if minutes < 60 then ShowNat(minutes) + " min"
    else
      var hours := minutes / 60;
      var mins := minutes % 60;
      if hours < 24 then
        if mins > 0 then ShowNat(hours) + "h " + ShowNat(mins) + "m" else ShowNat(hours) + "h"
      else
        var days := hours / 24;
        var remainingHours := hours % 24;
        if remainingHours > 0 then ShowNat(days) + "d " + ShowNat(remainingHours) + "h"
        else ShowNat(days) + "d"
  }

  /** Days and leftover hours of a duration of at least a day. */
  lemma DayParts(minutes: int)
    requires minutes >= 1440
    ensures (minutes / 60) / 24 == minutes / 1440
    ensures (minutes / 60) % 24 == (minutes % 1440) / 60
    ensures (minutes / 1440) * 1440 + ((minutes % 1440) / 60) * 60 == minutes - minutes % 60
  {
    var d := minutes / 1440;
    var q := minutes % 1440;
    assert minutes == d * 1440 + q;
    assert minutes / 60 == d * 24 + q / 60;
    assert minutes % 60 == q % 60;
  }

  /** From a day on, the rendering names the whole days and the whole hours
      left over. */
  lemma FormatTimeDays(minutes: int)
    requires minutes >= 1440
    ensures (minutes % 1440) / 60 == 0 ==> FormatTime(minutes) == ShowNat(minutes / 1440) + "d"
    ensures (minutes % 1440) / 60 != 0 ==>
              FormatTime(minutes) == ShowNat(minutes / 1440) + "d " + ShowNat((minutes % 1440) / 60) + "h"
  {
    DayParts(minutes);
  }

  /** Reads a rendered duration back into minutes; `None` for `< 1 min` and
      for text that is not a rendering. */
  function ReadDuration(s: string): (r: Option<int>)
    ensures r.Some? ==> r.value >= 0
  {
    match ReadNat(s)
    case None => None
    case Some((a, rest)) => ReadUnits(a, rest)
  }

  /** The unit after the leading number, and the second number if any. */
  function ReadUnits(a: nat, rest: string): (r: Option<int>)
    ensures r.Some? ==> r.value >= 0
  {
    if rest == " min" then Some(a)
    else if rest == "h" then Some(a * 60)
    else if rest == "d" then Some(a * 1440)
    else if |rest| >= 2 && rest[..2] == "h " then ReadSecond(a * 60, rest[2..], "m", 1)
    else if |rest| >= 2 && rest[..2] == "d " then ReadSecond(a * 1440, rest[2..], "h", 60)
    else None
  }

  function ReadSecond(base: nat, s: string, unit: string, scale: nat): (r: Option<int>)
    ensures r.Some? ==> r.value >= 0
  {
    match ReadNat(s)
    case Some((b, tail)) => if tail == unit then Some(base + b * scale) else None
    case None => None
  }

  lemma ReadSecondShow(base: nat, b: nat, unit: string, scale: nat)
    requires !StartsWithDigit(unit)
    ensures ReadSecond(base, ShowNat(b) + unit, unit, scale) == Some(base + b * scale)
  {
    ReadShowNat(b, unit);
  }

  /** `a` followed by one unit reads back as `a` in that unit. */
  lemma ReadOneUnit(a: nat, unit: string)
    requires unit == " min" || unit == "h" || unit == "d"
    ensures ReadDuration(ShowNat(a) + unit) ==
              Some(if unit == " min" then a else if unit == "h" then a * 60 else a * 1440)
  {
    ReadShowNat(a, unit);
  }

  /** Past `h ` or `d `, the units reader goes on to the second number. */
  lemma ReadUnitsSecond(a: nat, first: string, b: nat, unit: string)
    requires (first == "h " && unit == "m") || (first == "d " && unit == "h")
    ensures ReadUnits(a, first + (ShowNat(b) + unit)) ==
              ReadSecond(if first == "d " then a * 1440 else a * 60, ShowNat(b) + unit, unit,
                         if first == "d " then 60 else 1)
  {
    var tail := ShowNat(b) + unit;
    var rest := first + tail;
    assert |tail| >= 2;
    assert rest[..2] == first;
    assert rest[2..] == tail;
    assert rest != " min" && rest != "h" && rest != "d";
  }

  /** `a` and `b` with two units read back as their sum in minutes. */
  lemma ReadTwoUnits(a: nat, first: string, b: nat, unit: string)
    requires (first == "h " && unit == "m") || (first == "d " && unit == "h")
    ensures ReadDuration(ShowNat(a) + (first + (ShowNat(b) + unit))) ==
              Some(if first == "d " then a * 1440 + b * 60 else a * 60 + b)
  {
    ReadLeadingNumber(a, first + (ShowNat(b) + unit));
    ReadUnitsTwo(a, first, b, unit);
  }

  /** The units reader adds the second number, in its unit, to the first. */
  lemma ReadUnitsTwo(a: nat, first: string, b: nat, unit: string)
    requires (first == "h " && unit == "m") || (first == "d " && unit == "h")
    ensures ReadUnits(a, first + (ShowNat(b) + unit)) ==
              Some(if first == "d " then a * 1440 + b * 60 else a * 60 + b)
  {
    var tail := ShowNat(b) + unit;
    if first == "d " {
      assert ReadUnits(a, first + tail) == ReadSecond(a * 1440, tail, unit, 60) by {
        ReadUnitsSecond(a, first, b, unit);
      }
      assert ReadSecond(a * 1440, tail, unit, 60) == Some(a * 1440 + b * 60) by {
        ReadSecondShow(a * 1440, b, unit, 60);
      }
    } else {
      assert ReadUnits(a, first + tail) == ReadSecond(a * 60, tail, unit, 1) by {
        ReadUnitsSecond(a, first, b, unit);
      }
      assert ReadSecond(a * 60, tail, unit, 1) == Some(a * 60 + b) by {
        ReadSecondShow(a * 60, b, unit, 1);
      }
    }
  }

  /** The leading number is read off and the rest goes to the units reader. */
  lemma ReadLeadingNumber(a: nat, rest: string)
    requires |rest| > 0 && (rest[0] == 'h' || rest[0] == 'd')
    ensures ReadDuration(ShowNat(a) + rest) == ReadUnits(a, rest)
  {
    ReadShowNat(a, rest);
  }

  /** The rendering of `d` days and `h` leftover hours. */
  function DayText(d: nat, h: nat): string {
    if h == 0 then ShowNat(d) + "d" else ShowNat(d) + ("d " + (ShowNat(h) + "h"))
  }

  /** The day rendering of `d` days and `h` hours reads back as their sum in minutes. */
  lemma ReadDayText(d: nat, h: nat)
    ensures ReadDuration(DayText(d, h)) == Some(d * 1440 + h * 60)
  {
    if h == 0 {
      ReadOneUnit(d, "d");
    } else {
      ReadTwoUnits(d, "d ", h, "h");
    }
  }

  /** From a day on, the rendering is the day text of the whole days and
      leftover hours. */
  lemma DayRendering(minutes: int)
    requires minutes >= 1440
    ensures FormatTime(minutes) == DayText(minutes / 1440, (minutes % 1440) / 60)
  {
    FormatTimeDays(minutes);
  }

  /** Below a day the rendering reads back as the minutes. */
  lemma ReadBelowDay(minutes: int)
    requires 1 <= minutes < 1440
    ensures ReadDuration(FormatTime(minutes)) == Some(minutes)
  {
    if minutes < 60 {
      ReadOneUnit(minutes, " min");
    } else if minutes % 60 == 0 {
      ReadOneUnit(minutes / 60, "h");
    } else {
      var h, m := minutes / 60, minutes % 60;
      assert FormatTime(minutes) == ShowNat(h) + ("h " + (ShowNat(m) + "m"));
      ReadTwoUnits(h, "h ", m, "m");
    }
  }

  /** From a day on the rendering reads back as the whole days and hours. */
  lemma ReadDays(minutes: int)
    requires minutes >= 1440
    ensures ReadDuration(FormatTime(minutes)) == Some(minutes - minutes % 60)
  {
    DayParts(minutes);
    DayRendering(minutes);
    ReadDayText(minutes / 1440, (minutes % 1440) / 60);
  }

  /** Below a day the rendering loses nothing; from a day on it keeps the
      duration rounded down to a whole hour. */
  lemma FormatTimeRoundTrip(minutes: int)
    requires minutes >= 1
    ensures minutes < 1440 ==> ReadDuration(FormatTime(minutes)) == Some(minutes)
    ensures minutes >= 1440 ==> ReadDuration(FormatTime(minutes)) == Some(minutes - minutes % 60)
  {
    if minutes < 1440 {
      ReadBelowDay(minutes);
    } else {
      ReadDays(minutes);
    }
  }

  // ---------------------------------------------------------------------
  // The quickest and slowest response times
  // ---------------------------------------------------------------------

  /** The first three entries of the ascending in-place sort; `slice` copies
      them before the second sort reorders the array. Among entries with the
      same time, the ones listed are the earliest in `Object.entries` order. */
  function Quickest(times: seq<Entry>): (r: seq<Entry>)
    ensures |r| == Min(3, |times|)
    ensures SortedBy(r, false)
    ensures multiset(r) <= multiset(times)
    ensures forall i, e :: 0 <= i < |r| && e in multiset(times) - multiset(r) ==> r[i].1 <= e.1
    ensures forall v :: WithValue(r, v) <= WithValue(times, v)
  {
    var sorted := SortBy(times, false);
    var r := TakeTop(sorted, 3, false);
    assert forall v :: WithValue(r, v) <= WithValue(sorted, v) == WithValue(times, v);
    r
  }

  /** The first three entries after the same array, already in ascending
      order, is sorted again in descending order. Both sorts keep tied
      entries in their original order, so a tie is resolved the same way as
      in `Quickest`. */
  function Slowest(times: seq<Entry>): (r: seq<Entry>)
    ensures |r| == Min(3, |times|)
    ensures SortedBy(r, true)
    ensures multiset(r) <= multiset(times)
    ensures forall i, e :: 0 <= i < |r| && e in multiset(times) - multiset(r) ==> r[i].1 >= e.1
    ensures forall v :: WithValue(r, v) <= WithValue(times, v)
  {
    var ascending := SortBy(times, false);
    var sorted := SortBy(ascending, true);
    assert multiset(sorted) == multiset(times);
    var r := TakeTop(sorted, 3, true);
    assert forall v :: WithValue(r, v) <= WithValue(sorted, v) == WithValue(ascending, v) == WithValue(times, v);
    r
  }

  /** Every listed time is one of the given entries, name and time together. */
  lemma SelectionsComeFromInput(times: seq<Entry>)
    ensures forall e :: e in Quickest(times) ==> e in times
    ensures forall e :: e in Slowest(times) ==> e in times
  {
    forall e | e in Quickest(times) ensures e in times {
      assert e in multiset(Quickest(times));
    }
    forall e | e in Slowest(times) ensures e in times {
      assert e in multiset(Slowest(times));
    }
  }

  // ---------------------------------------------------------------------
  // The card's gate and its lists
  // ---------------------------------------------------------------------

  datatype ResponseLists = ResponseLists(quickest: seq<Entry>, slowest: seq<Entry>)

  /** `Object.entries(personal.your_response_times || {})`. */
  function ResponseTimeEntries(personal: Json): seq<(string, Json)> {
    var t := Get(personal, "your_response_times");
    if Present(t) then ObjectEntries(t.value) else []
  }

  /** The card is shown: both `account_owner` and `personal_stats` are truthy. */
  predicate Shown(data: Json) {
    Present(Get(data, "account_owner")) && Present(Get(data, "personal_stats"))
  }

  /** The comparators subtract the times, so a shown card needs numbers there. */
  predicate NumericResponseTimes(data: Json) {
    Shown(data) ==> NumericEntries(ResponseTimeEntries(Get(data, "personal_stats").value)).Some?
  }

  /** The lists the card renders, or `None` when the card renders nothing. */
  function PersonalCardLists(data: Json): (r: Option<ResponseLists>)
    requires NumericResponseTimes(data)
    ensures r.None? <==> !Present(Get(data, "account_owner")) || !Present(Get(data, "personal_stats"))
    ensures r.Some? ==> |r.value.quickest| <= 3 && |r.value.slowest| <= 3
    ensures r.Some? ==>
              var times := NumericEntries(ResponseTimeEntries(Get(data, "personal_stats").value)).value;
              r.value.quickest == Quickest(times) && r.value.slowest == Slowest(times)
  {
    if !Shown(data) then None
    else
      var times := NumericEntries(ResponseTimeEntries(Get(data, "personal_stats").value)).value;
      Some(ResponseLists(Quickest(times), Slowest(times)))
  }

}
