/**
 * Publication-date formatting (`_format_published_date`): the search
 * service's RFC 2822 style `pubDate` becomes an eight-digit YYYYMMDD stamp.
 * The text before the first `+` is stripped and parsed with the format
 * "%a, %d %b %Y %H:%M:%S" (C locale, names matched without regard to case,
 * each space of the format matching one or more whitespace characters, the
 * whole text consumed); any failure yields today's date, which enters as a
 * parameter.
 */
module PubDate {
  import opened Outcomes
  import opened Text

  /** An eight-digit YYYYMMDD stamp, as `strftime("%Y%m%d")` renders one. */
  type DateStamp = s: string | |s| == 8 && AllDigits(s) witness "00010101"

  datatype DateTime = DateTime(year: nat, month: nat, day: nat, hour: nat, minute: nat, second: nat)

  /** The C locale's abbreviated names, lower-cased. */
  const WeekdayNames: seq<string> := ["mon", "tue", "wed", "thu", "fri", "sat", "sun"]
  const MonthNames: seq<string> := ["jan", "feb", "mar", "apr", "may", "jun", "jul", "aug", "sep", "oct", "nov", "dec"]

  predicate IsWeekdayName(name: string) {
    Lower(name) in WeekdayNames
  }

  /** The month number (1..12) a three-letter name denotes, case ignored. */
  function MonthNumber(name: string): (m: Option<nat>)
    ensures m.Some? <==> Lower(name) in MonthNames
    ensures m.Some? ==> 1 <= m.value <= 12 && MonthNames[m.value - 1] == Lower(name)
  {
    if Lower(name) in MonthNames then
      var i :| 0 <= i < |MonthNames| && MonthNames[i] == Lower(name);
      Some(i + 1)
    else None
  }

  /** The end of the run of whitespace starting at `i`. */
  function SpacesEnd(s: string, i: nat): (j: nat)
    requires i <= |s|
    ensures i <= j <= |s|
    decreases |s| - i
  {
    if i < |s| && IsSpace(s[i]) then SpacesEnd(s, i + 1) else i
  }

  /** The end of the run of ASCII digits starting at `i`. */
  function DigitsEnd(s: string, i: nat): (j: nat)
    requires i <= |s|
    ensures i <= j <= |s|
    decreases |s| - i
  {
    if i < |s| && IsDigit(s[i]) then DigitsEnd(s, i + 1) else i
  }

  lemma {:induction false} DigitsEndSpec(s: string, i: nat)
    requires i <= |s|
    ensures AllDigits(s[i..DigitsEnd(s, i)])
    ensures DigitsEnd(s, i) == |s| || !IsDigit(s[DigitsEnd(s, i)])
    decreases |s| - i
  {
    if i < |s| && IsDigit(s[i]) {
      DigitsEndSpec(s, i + 1);
      assert forall k | 0 <= k < DigitsEnd(s, i) - i :: s[i..DigitsEnd(s, i)][k] == s[i + k];
    }
  }

  /** A digit run that stops where the digits stop. */
  lemma {:induction false} DigitsEndAt(s: string, i: nat, j: nat)
    requires i <= j <= |s|
    requires forall k | i <= k < j :: IsDigit(s[k])
    requires j == |s| || !IsDigit(s[j])
    ensures DigitsEnd(s, i) == j
    decreases j - i
  {
    if i < j {
      DigitsEndAt(s, i + 1, j);
    }
  }

  /** A whitespace run that stops where the whitespace stops. */
  lemma {:induction false} SpacesEndAt(s: string, i: nat, j: nat)
    requires i <= j <= |s|
    requires forall k | i <= k < j :: IsSpace(s[k])
    requires j == |s| || !IsSpace(s[j])
    ensures SpacesEnd(s, i) == j
    decreases j - i
  {
    if i < j {
      SpacesEndAt(s, i + 1, j);
    }
  }

  /**
   * A one- or two-digit field whose value lies in `lo..hi`; this is what the
   * patterns for `%d` (1..31), `%H` (0..23), `%M` (0..59) and `%S` (0..61)
   * accept.
   */
  predicate FieldToken(t: string, lo: nat, hi: nat) {
    (|t| == 1 || |t| == 2) && AllDigits(t) && lo <= DigitsValue(t) <= hi
  }

  /**
   * `strptime(t, "%a, %d %b %Y %H:%M:%S")` up to the range checks of the
   * date itself: the fields, or `None` when the text does not match. The
   * weekday is matched but not used.
   */
  function ParseTimestamp(t: string): (r: Option<DateTime>)
    ensures r.Some? ==> 1 <= r.value.month <= 12 && 1 <= r.value.day <= 31 && r.value.year < 10000
    ensures r.Some? ==> r.value.hour <= 23 && r.value.minute <= 59 && r.value.second <= 61
  {
    if |t| < 4 || !IsWeekdayName(t[..3]) || t[3] != ',' then None
    else
      var a := SpacesEnd(t, 4);
      var b := DigitsEnd(t, a);
      var c := SpacesEnd(t, b);
      if a == 4 || !FieldToken(t[a..b], 1, 31) || c == b || c + 3 > |t| || MonthNumber(t[c..c + 3]).None? then None
      else
        var d := SpacesEnd(t, c + 3);
        var e := DigitsEnd(t, d);
        var f := SpacesEnd(t, e);
        var g := DigitsEnd(t, f);
        if d == c + 3 || e != d + 4 || f == e || !FieldToken(t[f..g], 0, 23) || g == |t| || t[g] != ':' then None
        else
          var h := DigitsEnd(t, g + 1);
          if !FieldToken(t[g + 1..h], 0, 59) || h == |t| || t[h] != ':' then None
          else
            var k := DigitsEnd(t, h + 1);
            if k != |t| || !FieldToken(t[h + 1..k], 0, 61) then None
            else
              DigitsEndSpec(t, d);
              DigitsValueBound(t[d..e]);
              Some(DateTime(DigitsValue(t[d..e]), MonthNumber(t[c..c + 3]).value, DigitsValue(t[a..b]),
                            DigitsValue(t[f..g]), DigitsValue(t[g + 1..h]), DigitsValue(t[h + 1..k])))
  }

  predicate IsLeapYear(y: nat) {
    y % 4 == 0 && (y % 100 != 0 || y % 400 == 0)
  }

  function DaysInMonth(y: nat, m: nat): (n: nat)
    requires 1 <= m <= 12
    ensures 28 <= n <= 31
  {
    if m == 2 then (if IsLeapYear(y) then 29 else 28)
    else if m == 4 || m == 6 || m == 9 || m == 11 then 30
    else 31
  }

  /** What `datetime` accepts: year 1 onward, a day that exists in the month, no leap second. */
  predicate ValidDate(dt: DateTime) {
    && 1 <= dt.year < 10000
    && 1 <= dt.month <= 12
    && 1 <= dt.day <= DaysInMonth(dt.year, dt.month)
    && dt.hour <= 23 && dt.minute <= 59 && dt.second <= 59
  }

  /** `strftime("%Y%m%d")`. */
  function Render(dt: DateTime): (r: DateStamp)
    requires ValidDate(dt)
  {
    Pad4(dt.year) + Pad2(dt.month) + Pad2(dt.day)
  }

  /** The stamp reads back as the year, month and day it was made from. */
  lemma RenderRoundTrip(dt: DateTime)
    requires ValidDate(dt)
    ensures DigitsValue(Render(dt)[..4]) == dt.year
    ensures DigitsValue(Render(dt)[4..6]) == dt.month
    ensures DigitsValue(Render(dt)[6..]) == dt.day
  {
    var r := Render(dt);
    assert r[..4] == Pad4(dt.year) && r[4..6] == Pad2(dt.month) && r[6..] == Pad2(dt.day);
    Pad4RoundTrip(dt.year);
    Pad2RoundTrip(dt.month);
    Pad2RoundTrip(dt.day);
  }

  /** Different dates give different stamps. */
  lemma RenderInjective(d1: DateTime, d2: DateTime)
    requires ValidDate(d1) && ValidDate(d2)
    requires Render(d1) == Render(d2)
    ensures d1.year == d2.year && d1.month == d2.month && d1.day == d2.day
  {
    RenderRoundTrip(d1);
    RenderRoundTrip(d2);
  }

  /**
   * `_format_published_date`: an empty date stays empty; otherwise the parsed
   * date as YYYYMMDD, or today's stamp when parsing or validation fails.
   */
  function FormatPublishedDate(pubDate: string, today: DateStamp): (r: string)
    ensures pubDate == "" ==> r == ""
    ensures pubDate != "" ==> |r| == 8 && AllDigits(r)
  {
    if pubDate == "" then ""
    else
      var parsed := ParseTimestamp(Strip(BeforeFirst(pubDate, '+')));
      if parsed.Some? && ValidDate(parsed.value) then Render(parsed.value) else today
  }

  // ---------------------------------------------------------------------
  // Round trip from a rendered timestamp
  // ---------------------------------------------------------------------

  const WeekdayDisplay: seq<string> := ["Mon", "Tue", "Wed", "Thu", "Fri", "Sat", "Sun"]
  const MonthDisplay: seq<string> := ["Jan", "Feb", "Mar", "Apr", "May", "Jun", "Jul", "Aug", "Sep", "Oct", "Nov", "Dec"]

  /** The fields a timestamp can carry: they fit the patterns of the format. */
  predicate InFieldRanges(dt: DateTime) {
    && dt.year < 10000 && 1 <= dt.month <= 12 && 1 <= dt.day <= 31
    && dt.hour <= 23 && dt.minute <= 59 && dt.second <= 59
  }

  /** "Www, DD Mon YYYY HH:MM:SS", as the search service writes it before the zone. */
  function Timestamp(dt: DateTime, weekday: nat): (t: string)
    requires InFieldRanges(dt) && weekday < 7
    ensures |t| == 25
  {
    var w := WeekdayDisplay[weekday];
    var m := MonthDisplay[dt.month - 1];
    var d := Pad2(dt.day);
    var y := Pad4(dt.year);
    var hh := Pad2(dt.hour);
    var mm := Pad2(dt.minute);
    var ss := Pad2(dt.second);
    [w[0], w[1], w[2], ',', ' ', d[0], d[1], ' ', m[0], m[1], m[2], ' ',
     y[0], y[1], y[2], y[3], ' ', hh[0], hh[1], ':', mm[0], mm[1], ':', ss[0], ss[1]]
  }

  lemma DisplayNamesMatch(weekday: nat, month: nat)
    requires weekday < 7 && 1 <= month <= 12
    ensures Lower(WeekdayDisplay[weekday]) == WeekdayNames[weekday]
    ensures Lower(MonthDisplay[month - 1]) == MonthNames[month - 1]
  {
  }

  lemma MonthNamesDistinct(i: nat, j: nat)
    requires i < 12 && j < 12 && MonthNames[i] == MonthNames[j]
    ensures i == j
  {
  }

  /** The parse of a text laid out as "Www, DD Mon YYYY HH:MM:SS" with single spaces. */
  lemma ParseTimestampLayout(t: string, month: nat)
    requires |t| == 25 && IsWeekdayName(t[..3]) && t[3] == ',' && AllDigits(t[12..16])
    requires SpacesEnd(t, 4) == 5 && DigitsEnd(t, 5) == 7 && SpacesEnd(t, 7) == 8
    requires FieldToken(t[5..7], 1, 31) && MonthNumber(t[8..11]) == Some(month)
    requires SpacesEnd(t, 11) == 12 && DigitsEnd(t, 12) == 16 && SpacesEnd(t, 16) == 17 && DigitsEnd(t, 17) == 19
    requires FieldToken(t[17..19], 0, 23) && t[19] == ':'
    requires DigitsEnd(t, 20) == 22 && FieldToken(t[20..22], 0, 59) && t[22] == ':'
    requires DigitsEnd(t, 23) == 25 && FieldToken(t[23..25], 0, 61)
    ensures ParseTimestamp(t) == Some(DateTime(DigitsValue(t[12..16]), month, DigitsValue(t[5..7]),
                                               DigitsValue(t[17..19]), DigitsValue(t[20..22]), DigitsValue(t[23..25])))
  {
  }

  lemma TimestampHead(dt: DateTime, weekday: nat)
    requires InFieldRanges(dt) && weekday < 7
    ensures var t := Timestamp(dt, weekday);
      IsWeekdayName(t[..3]) && t[3] == ',' && MonthNumber(t[8..11]) == Some(dt.month)
  {
    var t := Timestamp(dt, weekday);
    DisplayNamesMatch(weekday, dt.month);
    assert t[..3] == WeekdayDisplay[weekday];
    assert t[8..11] == MonthDisplay[dt.month - 1];
    var mn := MonthNumber(t[8..11]);
    MonthNamesDistinct(mn.value - 1, dt.month - 1);
  }

  lemma TimestampDateRuns(dt: DateTime, weekday: nat)
    requires InFieldRanges(dt) && weekday < 7
    ensures var t := Timestamp(dt, weekday);
      SpacesEnd(t, 4) == 5 && DigitsEnd(t, 5) == 7 && SpacesEnd(t, 7) == 8 && SpacesEnd(t, 11) == 12
  {
    var t := Timestamp(dt, weekday);
    SpacesEndAt(t, 4, 5);
    DigitsEndAt(t, 5, 7);
    SpacesEndAt(t, 7, 8);
    SpacesEndAt(t, 11, 12);
  }

  lemma TimestampYearRuns(dt: DateTime, weekday: nat)
    requires InFieldRanges(dt) && weekday < 7
    ensures var t := Timestamp(dt, weekday);
      DigitsEnd(t, 12) == 16 && SpacesEnd(t, 16) == 17 && DigitsEnd(t, 17) == 19
  {
    var t := Timestamp(dt, weekday);
    DigitsEndAt(t, 12, 16);
    SpacesEndAt(t, 16, 17);
    DigitsEndAt(t, 17, 19);
  }

  lemma TimestampClockRuns(dt: DateTime, weekday: nat)
    requires InFieldRanges(dt) && weekday < 7
    ensures var t := Timestamp(dt, weekday);
      t[19] == ':' && t[22] == ':' && DigitsEnd(t, 20) == 22 && DigitsEnd(t, 23) == 25
  {
    var t := Timestamp(dt, weekday);
    DigitsEndAt(t, 20, 22);
    DigitsEndAt(t, 23, 25);
  }

  lemma TimestampFields(dt: DateTime, weekday: nat)
    requires InFieldRanges(dt) && weekday < 7
    ensures var t := Timestamp(dt, weekday);
      && t[5..7] == Pad2(dt.day) && t[12..16] == Pad4(dt.year)
      && t[17..19] == Pad2(dt.hour) && t[20..22] == Pad2(dt.minute) && t[23..25] == Pad2(dt.second)
  {
  }

  /** The parser reads back every field of a timestamp, whatever the weekday. */
  lemma ParseTimestampRoundTrip(dt: DateTime, weekday: nat)
    requires InFieldRanges(dt) && weekday < 7
    ensures ParseTimestamp(Timestamp(dt, weekday)) == Some(dt)
  {
    var t := Timestamp(dt, weekday);
    TimestampHead(dt, weekday);
    TimestampDateRuns(dt, weekday);
    TimestampYearRuns(dt, weekday);
    TimestampClockRuns(dt, weekday);
    TimestampFields(dt, weekday);
    Pad2RoundTrip(dt.day);
    Pad4RoundTrip(dt.year);
    Pad2RoundTrip(dt.hour);
    Pad2RoundTrip(dt.minute);
    Pad2RoundTrip(dt.second);
    ParseTimestampLayout(t, dt.month);
  }

  /** Cutting at the first `+` and stripping recovers the timestamp from "timestamp +zone". */
  lemma CutZone(t: string, zone: string)
    requires |t| > 0 && !IsSpace(t[0]) && IsDigit(t[|t| - 1]) && '+' !in t
    ensures Strip(BeforeFirst(t + " +" + zone, '+')) == t
  {
    var s := t + " +" + zone;
    BeforeFirstAt(s, '+', |t| + 1);
    assert s[..|t| + 1] == t + " ";
    var u := t + " ";
    assert TrimStart(u) == u;
    assert u[..|u| - 1] == t;
    assert TrimEnd(u) == TrimEnd(t);
  }

  /**
   * A timestamp with a `+` zone formats to the stamp of its date when that
   * date exists, and to today's stamp when it does not (a 29 February
   * outside a leap year, a 31st in a short month, year 0).
   */
  lemma FormatPublishedDateRoundTrip(dt: DateTime, weekday: nat, zone: string, today: DateStamp)
    requires InFieldRanges(dt) && weekday < 7
    ensures FormatPublishedDate(Timestamp(dt, weekday) + " +" + zone, today)
         == if ValidDate(dt) then Render(dt) else today
  {
    var t := Timestamp(dt, weekday);
    assert t[0] == WeekdayDisplay[weekday][0];
    assert !IsSpace(t[0]);
    assert t[24] == Pad2(dt.second)[1];
    assert '+' !in t by {
      forall i | 0 <= i < |t| ensures t[i] != '+' {
        assert Pad2(dt.day)[0] != '+' && Pad2(dt.day)[1] != '+';
      }
    }
    CutZone(t, zone);
    ParseTimestampRoundTrip(dt, weekday);
  }

  /** A Monday timestamp in zone +0900 formats to the stamp of its date. */
  lemma MondayInSeoulFormats(dt: DateTime, text: string, today: DateStamp)
    requires InFieldRanges(dt) && ValidDate(dt)
    requires text == Timestamp(dt, 0) + " +" + "0900"
    ensures FormatPublishedDate(text, today) == Render(dt)
  {
    FormatPublishedDateRoundTrip(dt, 0, "0900", today);
  }

  /** The summarizer's sample `pubDate` formats to "20231225", whatever today is. */
  lemma SampleDateFormats(today: DateStamp)
    ensures FormatPublishedDate("Mon, 25 Dec 2023 14:30:00 +0900", today) == "20231225"
  {
    var dt := DateTime(2023, 12, 25, 14, 30, 0);
    var text := "Mon, 25 Dec 2023 14:30:00 +0900";
    assert InFieldRanges(dt) && ValidDate(dt);
    assert text == Timestamp(dt, 0) + " +" + "0900" by {
      ExampleTimestamp();
    }
    assert Render(dt) == "20231225" by {
      assert Pad2(12) == "12" && Pad2(25) == "25" && Pad2(20) == "20" && Pad2(23) == "23";
    }
    MondayInSeoulFormats(dt, text, today);
  }

  /** The documented example "Mon, 18 Dec 2023 14:30:00 +0900" formats to "20231218". */
  lemma DocumentedDateFormats(today: DateStamp)
    ensures FormatPublishedDate("Mon, 18 Dec 2023 14:30:00 +0900", today) == "20231218"
  {
    var dt := DateTime(2023, 12, 18, 14, 30, 0);
    var text := "Mon, 18 Dec 2023 14:30:00 +0900";
    assert InFieldRanges(dt) && ValidDate(dt);
    assert text == Timestamp(dt, 0) + " +" + "0900" by {
      assert Pad2(18) == "18" && Pad2(14) == "14" && Pad2(30) == "30" && Pad2(0) == "00";
      assert Pad4(2023) == "2023" by {
        assert Pad2(20) == "20" && Pad2(23) == "23";
      }
    }
    assert Render(dt) == "20231218" by {
      assert Pad2(12) == "12" && Pad2(18) == "18" && Pad2(20) == "20" && Pad2(23) == "23";
    }
    MondayInSeoulFormats(dt, text, today);
  }

  /** The sample `pubDate` of the summarizer's own checks is the timestamp of 25 December 2023, 14:30. */
  lemma ExampleTimestamp()
    ensures Timestamp(DateTime(2023, 12, 25, 14, 30, 0), 0) == "Mon, 25 Dec 2023 14:30:00"
  {
    assert Pad2(25) == "25" && Pad2(14) == "14" && Pad2(30) == "30" && Pad2(0) == "00";
    assert Pad4(2023) == "2023" by {
      assert Pad2(20) == "20" && Pad2(23) == "23";
    }
  }
}
