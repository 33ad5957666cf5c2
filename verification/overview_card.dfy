/** The display helpers of the overview card: the five most active senders,
    the shortened text of the most reacted message, and the label of the
    busiest weekday. */
module OverviewCard {
  import opened Options
  import opened Text
  import opened Seqs
  import opened Js
  import opened Sorting

  // ---------------------------------------------------------------------
  // topChatters
  // ---------------------------------------------------------------------

  datatype Chatter = Chatter(name: string, count: int)

  function AsChatter(e: Entry): Chatter {
    Chatter(e.0, e.1)
  }

  function AsEntry(c: Chatter): Entry {
    (c.name, c.count)
  }

  function AsEntries(cs: seq<Chatter>): (r: seq<Entry>)
    ensures |r| == |cs| && forall i :: 0 <= i < |cs| ==> r[i] == AsEntry(cs[i])
  {
    seq(|cs|, i requires 0 <= i < |cs| => AsEntry(cs[i]))
  }

  /** `entries.sort((a, b) => b - a).slice(0, 5).map(([name, count]) => ({name, count}))`.
      Among senders with the same count, the ones shown are the earliest in
      `Object.entries` order. */
  function TopChatters(entries: seq<Entry>): (r: seq<Chatter>)
    ensures |r| == Min(5, |entries|)
    ensures forall i, j :: 0 <= i < j < |r| ==> r[i].count >= r[j].count
    ensures multiset(AsEntries(r)) <= multiset(entries)
    ensures forall i, e :: 0 <= i < |r| && e in multiset(entries) - multiset(AsEntries(r)) ==>
              r[i].count >= e.1
    ensures forall v :: WithValue(AsEntries(r), v) <= WithValue(entries, v)
  {
    var sorted := SortBy(entries, true);
    var top := TakeTop(sorted, 5, true);
    var r := seq(|top|, i requires 0 <= i < |top| => AsChatter(top[i]));
    assert AsEntries(r) == top;
    assert forall v :: WithValue(top, v) <= WithValue(sorted, v) == WithValue(entries, v);
    r
  }

  /** Every badge shows a sender and count exactly as they appear in the input. */
  lemma ChattersComeFromInput(entries: seq<Entry>)
    ensures forall c :: c in TopChatters(entries) ==> AsEntry(c) in entries
  {
    var r := TopChatters(entries);
    forall c | c in r ensures AsEntry(c) in entries {
      var i :| 0 <= i < |r| && r[i] == c;
      assert AsEntries(r)[i] == AsEntry(c);
      assert AsEntry(c) in multiset(AsEntries(r));
    }
  }

  /** `per_sender` converted for the sort: its entries with numeric counts. */
  predicate NumericPerSender(data: Json) {
    var ps := Get(data, "per_sender");
    Present(ps) ==> NumericEntries(ObjectEntries(ps.value)).Some?
  }

  /** The badges for a statistics object; none without a truthy `per_sender`. */
  function TopChattersOf(data: Json): (r: seq<Chatter>)
    requires NumericPerSender(data)
    ensures !Present(Get(data, "per_sender")) ==> r == []
    ensures |r| <= 5
    ensures Present(Get(data, "per_sender")) ==>
              |r| == Min(5, |ObjectEntries(Get(data, "per_sender").value)|)
    ensures Present(Get(data, "per_sender")) ==>
              r == TopChatters(NumericEntries(ObjectEntries(Get(data, "per_sender").value)).value)
  {
    var ps := Get(data, "per_sender");
    if Present(ps) then TopChatters(NumericEntries(ObjectEntries(ps.value)).value) else []
  }

  // ---------------------------------------------------------------------
  // The most reacted message's text
  // ---------------------------------------------------------------------

  const PreviewLength := 120

  /** Text longer than 120 characters is cut to 120 and marked with `...`. */
  function Truncate(content: string): (r: string)
    ensures |content| <= PreviewLength ==> r == content
    ensures |content| > PreviewLength ==>
              |r| == PreviewLength + 3 && r[..PreviewLength] == content[..PreviewLength] &&
              r[PreviewLength..] == "..."
    ensures |r| <= PreviewLength + 3
  {
    if |content| > PreviewLength then content[..PreviewLength] + "..." else content
  }

  /** Shortening a preview again changes nothing. */
  lemma TruncateIdempotent(content: string)
    ensures Truncate(Truncate(content)) == Truncate(content)
  {
    if |content| > PreviewLength {
      var r := Truncate(content);
      assert r[..PreviewLength] + "..." == r by {
        assert r == r[..PreviewLength] + r[PreviewLength..];
      }
    }
  }

  /** The preview is a prefix of the message unless it ends in the marker. */
  lemma TruncatePrefix(content: string)
    ensures var r := Truncate(content);
            (|r| <= |content| && r == content[..|r|]) ||
            (|r| == PreviewLength + 3 && r == content[..PreviewLength] + "...")
  {
    if |content| > PreviewLength {
      var r := Truncate(content);
      assert r == r[..PreviewLength] + r[PreviewLength..];
    }
  }

  // ---------------------------------------------------------------------
  // The busiest weekday
  // ---------------------------------------------------------------------

  const Weekdays: seq<string> := ["Mon", "Tue", "Wed", "Thu", "Fri", "Sat", "Sun"]

  const NoDay := "—"

  /** `["Mon", …, "Sun"][key]`: the property of the array literal that the
      key names once converted to a string. Indices `0`…`6` give a day,
      `length` gives the number 7 (rendered `7`), and every other key reads
      either `undefined` or an inherited member (`map`, `constructor`, `at`,
      `__proto__`, ...), neither of which renders text. */
  function WeekdayAt(key: Option<Json>): (r: Option<string>)
    ensures key.Some? && key.value.JNum? && 0 <= key.value.n < 7 ==> r == Some(Weekdays[key.value.n])
    ensures key.None? ==> r.None?
  {
    match key
    case None => None
    case Some(k) =>
      var name := ToJsString(k);
      if |name| == 1 && '0' <= name[0] <= '6' then Some(Weekdays[DigitValue(name[0])])
      else if name == "length" then Some(ShowNat(|Weekdays|))
      else None
  }

  /** The busiest-day label: `—` when `busiest_dow?.[0]` is falsy, else the
      weekday named by `busiest_dow[0][0]`. For the `[[day, count], ...]`
      list of the statistics this is the first pair's day. */
  function BusiestDay(data: Json): (r: Option<string>)
    ensures var dow := Get(data, "busiest_dow");
            dow.None? || dow == Some(JNull) || dow == Some(JArr([])) ==> r == Some(NoDay)
    ensures var dow := Get(data, "busiest_dow");
            dow.Some? && dow.value.JArr? && |dow.value.items| > 0 && !Truthy(dow.value.items[0]) ==>
              r == Some(NoDay)
    ensures var dow := Get(data, "busiest_dow");
            dow.Some? && dow.value.JArr? && |dow.value.items| > 0 &&
            dow.value.items[0].JArr? && |dow.value.items[0].items| > 0 ==>
              r == WeekdayAt(Some(dow.value.items[0].items[0]))
    ensures var dow := Get(data, "busiest_dow");
            dow.Some? && dow.value.JArr? && |dow.value.items| > 0 &&
            dow.value.items[0].JArr? && |dow.value.items[0].items| > 0 &&
            dow.value.items[0].items[0].JNum? && 0 <= dow.value.items[0].items[0].n < 7 ==>
              r == Some(Weekdays[dow.value.items[0].items[0].n])
  {
    var first := BusiestEntry(data);
    if Present(first) then WeekdayAt(Index(first.value, 0)) else Some(NoDay)
  }

  /** `data.busiest_dow?.[0]`: `undefined` when `busiest_dow` is `null` or
      absent. */
  function BusiestEntry(data: Json): (r: Option<Json>)
    ensures Get(data, "busiest_dow").None? ==> r.None?
  {
    match Get(data, "busiest_dow")
    case None => None
    case Some(JNull) => None
    case Some(v) => Index(v, 0)
  }

  /** Reads a weekday label back into its index. */
  function DayIndex(day: string): (r: Option<nat>)
    ensures r.Some? ==> 0 <= r.value < |Weekdays| && Weekdays[r.value] == day
  {
    if day == "Mon" then Some(0) else if day == "Tue" then Some(1)
    else if day == "Wed" then Some(2) else if day == "Thu" then Some(3)
    else if day == "Fri" then Some(4) else if day == "Sat" then Some(5)
    else if day == "Sun" then Some(6) else None
  }

  /** A `[day, count]` pair with a day index shows the day it names, and
      distinct indices show distinct days. */
  lemma WeekdayRoundTrip(n: nat)
    requires n < 7
    ensures DayIndex(Weekdays[n]) == Some(n)
  {
  }

  /** A label is always the placeholder, one of the seven days, `7`, or
      nothing at all. */
  lemma BusiestDayLabels(data: Json)
    ensures var r := BusiestDay(data);
            r.None? || r == Some(NoDay) || r == Some("7") || DayIndex(r.value).Some?
  {
    var r := BusiestDay(data);
    if r.Some? && r != Some(NoDay) && r.value in Weekdays {
      var i :| 0 <= i < 7 && Weekdays[i] == r.value;
      WeekdayRoundTrip(i);
    }
  }

  /** A key shows day `n` exactly when its string form is the index `n`
      written in decimal: `0`, `"0"` and `[0]` all show `Mon`. */
  lemma WeekdayAtIndex(k: Json, n: nat)
    requires n < 7
    ensures WeekdayAt(Some(k)) == Some(Weekdays[n]) <==> ToJsString(k) == ShowNat(n)
  {
    var name := ToJsString(k);
    assert ShowNat(n) == [DigitChar(n)];
    if WeekdayAt(Some(k)) == Some(Weekdays[n]) {
      if |name| == 1 && '0' <= name[0] <= '6' {
        var d := DigitValue(name[0]);
        WeekdayRoundTrip(d);
        WeekdayRoundTrip(n);
        assert name == [DigitChar(d)];
      }
    }
  }

}
