/** The 12-hour clock display of the calendar: `strftime("%I:%M %p")` on an
    hour and minute, a parser that reads such a string back, and
    `to_ist_12h`, which shows a UTC instant on the IST clock or the
    placeholder "N/A" when there is no instant. */
module ClockDisplay {
  import opened CivilTime

  datatype Option<T> = None | Some(value: T)

  /** What `to_ist_12h` may be handed: Python's `None`, the string "N/A",
      or a naive datetime read as UTC. */
  datatype UtcArg = NoneArg | NotAvailable | At(utc: Timestamp)

  const Placeholder: string := "N/A"

  predicate IsDigit(c: char) {
    '0' <= c <= '9'
  }

  function Digit(n: int): (c: char)
    requires 0 <= n < 10
    ensures IsDigit(c) && DigitValue(c) == n
  {
    ('0' as int + n) as char
  }

  function DigitValue(c: char): int {
    c as int - '0' as int
  }

  /** Zero-padded two-digit decimal, as `%I` and `%M` print. */
  function TwoDigits(n: int): (s: string)
    requires 0 <= n < 100
    ensures |s| == 2 && IsDigit(s[0]) && IsDigit(s[1])
    ensures DigitValue(s[0]) * 10 + DigitValue(s[1]) == n
  {
    [Digit(n / 10), Digit(n % 10)]
  }

  /** The `%I` hour: 12 for hours 0 and 12, otherwise the hour modulo 12. */
  function Hour12(hour: int): (h: int)
    requires 0 <= hour < 24
    ensures 1 <= h <= 12
    ensures h % 12 == hour % 12
  {
    if hour % 12 == 0 then 12 else hour % 12
  }

  /** `strftime("%I:%M %p")` for a time of day given as hour and minute
      (seconds and microseconds are not printed). */
  function FormatClock(hour: int, minute: int): (s: string)
    requires 0 <= hour < 24 && 0 <= minute < 60
    ensures |s| == 8 && s[2] == ':' && s[5] == ' ' && s[7] == 'M'
    ensures s[6] == 'A' <==> hour < 12
    ensures s[6] == 'P' <==> 12 <= hour
    ensures DigitValue(s[0]) * 10 + DigitValue(s[1]) == Hour12(hour)
    ensures DigitValue(s[3]) * 10 + DigitValue(s[4]) == minute
    ensures s[..2] == "12" <==> hour == 0 || hour == 12
  {
    var hh := TwoDigits(Hour12(hour));
    assert hh == "12" <==> Hour12(hour) == 12 by {
      if Hour12(hour) == 12 {
        assert hh == [Digit(1), Digit(2)];
      }
    }
    hh + [':'] + TwoDigits(minute) + [' '] + (if hour < 12 then "AM" else "PM")
  }

  /** Reads a "hh:mm AM" / "hh:mm PM" string back to a 24-hour hour and a
      minute; any other string gives None. */
  function ParseClock(s: string): (r: Option<(int, int)>)
    ensures r.Some? ==> 0 <= r.value.0 < 24 && 0 <= r.value.1 < 60
  {
    if |s| != 8 || s[2] != ':' || s[5] != ' ' || s[7] != 'M' || (s[6] != 'A' && s[6] != 'P')
       || !IsDigit(s[0]) || !IsDigit(s[1]) || !IsDigit(s[3]) || !IsDigit(s[4])
    then None
    else
      var h12 := DigitValue(s[0]) * 10 + DigitValue(s[1]);
      var m := DigitValue(s[3]) * 10 + DigitValue(s[4]);
      if h12 < 1 || 12 < h12 || 59 < m then None
      else Some((h12 % 12 + (if s[6] == 'P' then 12 else 0), m))
  }

  /** The display loses nothing of the hour and minute: parsing a formatted
      time gives back the 24-hour time it came from. */
  lemma ParseFormatClock(hour: int, minute: int)
    requires 0 <= hour < 24 && 0 <= minute < 60
    ensures ParseClock(FormatClock(hour, minute)) == Some((hour, minute))
  {
    var s := FormatClock(hour, minute);
    var h := Hour12(hour);
    assert DigitValue(s[0]) * 10 + DigitValue(s[1]) == h;
    assert DigitValue(s[3]) * 10 + DigitValue(s[4]) == minute;
    assert h % 12 + (if hour < 12 then 0 else 12) == hour;
  }

  /** Every string the parser accepts is exactly the display of the time it
      parses to: the format has one spelling per time of day. */
  lemma FormatParseClock(s: string)
    requires ParseClock(s).Some?
    ensures FormatClock(ParseClock(s).value.0, ParseClock(s).value.1) == s
  {
  }

  /** `to_ist_12h`: "N/A" for `None` or "N/A"; otherwise the instant, read
      as UTC, on the IST clock in 12-hour format. */
  function ToIst12h(a: UtcArg): (s: string)
    ensures s == Placeholder <==> !a.At?
    ensures a.At? ==> |s| == 8
  {
    match a
    case At(t) =>
      var local := UtcToIst(t);
      FormatClock(local.hour, local.minute)
    case _ => Placeholder
  }

  /** The displayed time of day is the UTC time of day plus 330 minutes,
      modulo a day; the date is dropped. */
  lemma IstDisplayIsShiftedClock(t: Timestamp)
    ensures ParseClock(ToIst12h(At(t))) ==
      Some((((MinuteOfDay(t) + IstOffsetMinutes) % MinutesPerDay) / 60,
            ((MinuteOfDay(t) + IstOffsetMinutes) % MinutesPerDay) % 60))
  {
    var local := UtcToIst(t);
    ParseFormatClock(local.hour, local.minute);
    assert MinuteOfDay(local) / 60 == local.hour && MinuteOfDay(local) % 60 == local.minute;
  }

  /** Seconds and microseconds are truncated: instants in the same UTC
      minute of the day show the same text, whatever their date. */
  lemma SameUtcMinuteSameDisplay(t1: Timestamp, t2: Timestamp)
    requires t1.hour == t2.hour && t1.minute == t2.minute
    ensures ToIst12h(At(t1)) == ToIst12h(At(t2))
  {
    var l1, l2 := UtcToIst(t1), UtcToIst(t2);
    assert MinuteOfDay(l1) == MinuteOfDay(l2);
    assert l1.hour == MinuteOfDay(l1) / 60 && l2.hour == MinuteOfDay(l2) / 60;
  }

  /** The three clock texts used below, spelled out. */
  lemma ClockTexts()
    ensures FormatClock(6, 0) == "06:00 AM"
    ensures FormatClock(12, 0) == "12:00 PM"
    ensures FormatClock(0, 0) == "12:00 AM"
  {
  }

  /** On any date, 00:30 UTC shows as 06:00 AM, 06:30 UTC (IST noon) as
      12:00 PM, and 18:30 UTC (IST midnight, already the next IST date) as
      12:00 AM; the seconds and microseconds never show. */
  lemma DisplayExamples(d: Date, second: int, microsecond: int)
    requires ValidDate(d) && 0 <= second < 60 && 0 <= microsecond < 1000000
    ensures ToIst12h(At(DateTime(d, 0, 30, second, microsecond))) == "06:00 AM"
    ensures ToIst12h(At(DateTime(d, 6, 30, second, microsecond))) == "12:00 PM"
    ensures ToIst12h(At(DateTime(d, 18, 30, second, microsecond))) == "12:00 AM"
  {
    ClockTexts();
    var early: Timestamp := DateTime(d, 0, 30, second, microsecond);
    var noon: Timestamp := DateTime(d, 6, 30, second, microsecond);
    var late: Timestamp := DateTime(d, 18, 30, second, microsecond);
    assert MinuteOfDay(UtcToIst(early)) == 360;
    assert MinuteOfDay(UtcToIst(noon)) == 720;
    assert MinuteOfDay(UtcToIst(late)) == 0;
  }
}
