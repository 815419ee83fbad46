/** Proleptic Gregorian civil dates and times, the fixed Indian Standard Time
    offset (UTC+5:30), and the conversions between UTC and IST that the
    calendar performs with pytz: shifting a naive time by the offset, with the
    calendar date carried forward or back when the clock wraps past midnight. */
module CivilTime {

  datatype Date = Date(year: int, month: int, day: int)

  /** A naive date and time, as Python's `datetime` without `tzinfo`. */
  datatype DateTime = DateTime(date: Date, hour: int, minute: int, second: int, microsecond: int)

  /** Python's `datetime.MINYEAR` and `datetime.MAXYEAR`. */
  const MinYear := 1
  const MaxYear := 9999

  const MinutesPerDay := 1440

  /** Indian Standard Time is UTC+5:30, that is 330 minutes ahead of UTC. */
  const IstOffsetMinutes := 330

  predicate IsLeapYear(y: int) {
    y % 4 == 0 && (y % 100 != 0 || y % 400 == 0)
  }

  function DaysInMonth(y: int, m: int): (n: int)
    requires 1 <= m <= 12
    ensures 28 <= n <= 31
    ensures n == 29 <==> m == 2 && IsLeapYear(y)
    ensures n == 28 <==> m == 2 && !IsLeapYear(y)
    ensures n == 30 <==> m == 4 || m == 6 || m == 9 || m == 11
  {
    if m == 2 then (if IsLeapYear(y) then 29 else 28)
    else if m == 4 || m == 6 || m == 9 || m == 11 then 30
    else 31
  }

  predicate ValidDate(d: Date) {
    1 <= d.month <= 12 && 1 <= d.day <= DaysInMonth(d.year, d.month)
  }

  /** The dates Python's `datetime(year, month, day, ...)` constructor accepts. */
  predicate ConstructibleDate(d: Date) {
    MinYear <= d.year <= MaxYear && ValidDate(d)
  }

  predicate ValidDateTime(t: DateTime) {
    && ValidDate(t.date)
    && 0 <= t.hour < 24
    && 0 <= t.minute < 60
    && 0 <= t.second < 60
    && 0 <= t.microsecond < 1000000
  }

  /** A well-formed naive date and time. */
  type Timestamp = t: DateTime | ValidDateTime(t)
    witness DateTime(Date(2000, 1, 1), 0, 0, 0, 0)

  /** Chronological order of calendar dates. */
  predicate DateBefore(a: Date, b: Date) {
    || a.year < b.year
    || (a.year == b.year && a.month < b.month)
    || (a.year == b.year && a.month == b.month && a.day < b.day)
  }

  /** Minutes elapsed since midnight. */
  function MinuteOfDay(t: DateTime): int {
    t.hour * 60 + t.minute
  }

  /** Chronological order of date-times (strictly earlier). */
  predicate Earlier(a: DateTime, b: DateTime) {
    || DateBefore(a.date, b.date)
    || (a.date == b.date && MinuteOfDay(a) < MinuteOfDay(b))
    || (a.date == b.date && MinuteOfDay(a) == MinuteOfDay(b) && a.second < b.second)
    || (a.date == b.date && MinuteOfDay(a) == MinuteOfDay(b) && a.second == b.second
        && a.microsecond < b.microsecond)
  }

  function NextDay(d: Date): (r: Date)
    requires ValidDate(d)
    ensures ValidDate(r) && DateBefore(d, r)
    ensures r.year == d.year || (r.year == d.year + 1 && d.month == 12 && d.day == 31)
  {
    if d.day < DaysInMonth(d.year, d.month) then Date(d.year, d.month, d.day + 1)
    else if d.month < 12 then Date(d.year, d.month + 1, 1)
    else Date(d.year + 1, 1, 1)
  }

  function PrevDay(d: Date): (r: Date)
    requires ValidDate(d)
    ensures ValidDate(r) && DateBefore(r, d)
    ensures r.year == d.year || (r.year == d.year - 1 && d.month == 1 && d.day == 1)
  {
    if 1 < d.day then Date(d.year, d.month, d.day - 1)
    else if 1 < d.month then Date(d.year, d.month - 1, DaysInMonth(d.year, d.month - 1))
    else Date(d.year - 1, 12, 31)
  }

  /** Stepping one day forward and then back (or back and then forward)
      returns to the same date. */
  lemma DayStepsInverse(d: Date)
    requires ValidDate(d)
    ensures PrevDay(NextDay(d)) == d
    ensures NextDay(PrevDay(d)) == d
  {
  }

  /** The naive time `offset` minutes after `t` (before it, for a negative
      offset), as `astimezone` computes it for a zone at a fixed offset from
      UTC: the clock wraps modulo a day, and a wrap past midnight moves the
      date exactly one day forward or back. */
  function ShiftMinutes(t: DateTime, offset: int): (r: DateTime)
    requires ValidDateTime(t)
    requires -MinutesPerDay < offset < MinutesPerDay
    ensures ValidDateTime(r)
    ensures MinuteOfDay(r) == (MinuteOfDay(t) + offset) % MinutesPerDay
    ensures r.second == t.second && r.microsecond == t.microsecond
    ensures r.date == t.date <==> 0 <= MinuteOfDay(t) + offset < MinutesPerDay
    ensures MinutesPerDay <= MinuteOfDay(t) + offset ==> r.date == NextDay(t.date)
    ensures MinuteOfDay(t) + offset < 0 ==> r.date == PrevDay(t.date)
    ensures 0 < offset ==> Earlier(t, r)
    ensures offset < 0 ==> Earlier(r, t)
  {
    var total := MinuteOfDay(t) + offset;
    var date := if MinutesPerDay <= total then NextDay(t.date)
                else if total < 0 then PrevDay(t.date)
                else t.date;
    var m := if MinutesPerDay <= total then total - MinutesPerDay
             else if total < 0 then total + MinutesPerDay
             else total;
    DateTime(date, m / 60, m % 60, t.second, t.microsecond)
  }

  /** Shifting by an offset and then by its negation is the identity: the
      UTC-to-IST and IST-to-UTC conversions are inverse to each other. */
  lemma {:induction false} ShiftRoundTrip(t: DateTime, offset: int)
    requires ValidDateTime(t)
    requires -MinutesPerDay < offset < MinutesPerDay
    ensures ShiftMinutes(ShiftMinutes(t, offset), -offset) == t
  {
    DayStepsInverse(t.date);
  }

  /** A UTC time seen on an IST clock (`astimezone(IST)`). */
  function UtcToIst(t: Timestamp): (r: Timestamp)
    ensures MinuteOfDay(r) == (MinuteOfDay(t) + IstOffsetMinutes) % MinutesPerDay
    ensures r.date == (if MinuteOfDay(t) + IstOffsetMinutes < MinutesPerDay then t.date else NextDay(t.date))
    ensures Earlier(t, r)
  {
    ShiftMinutes(t, IstOffsetMinutes)
  }

  /** An IST wall-clock time as UTC (`IST.localize(...).astimezone(utc)`). */
  function IstToUtc(t: Timestamp): (r: Timestamp)
    ensures MinuteOfDay(r) == (MinuteOfDay(t) - IstOffsetMinutes) % MinutesPerDay
    ensures r.date == (if IstOffsetMinutes <= MinuteOfDay(t) then t.date else PrevDay(t.date))
    ensures Earlier(r, t)
  {
    ShiftMinutes(t, -IstOffsetMinutes)
  }

  /** The two zone conversions undo each other. */
  lemma IstRoundTrip(t: Timestamp)
    ensures IstToUtc(UtcToIst(t)) == t
    ensures UtcToIst(IstToUtc(t)) == t
  {
    ShiftRoundTrip(t, IstOffsetMinutes);
    ShiftRoundTrip(t, -IstOffsetMinutes);
  }

  /** The query instant for a selected date: local noon on that date,
      converted to UTC. With the +5:30 offset this is 06:30 UTC on the same
      calendar date, so the anchor never crosses a day boundary. */
  function NoonAnchor(d: Date): (r: Timestamp)
    requires ValidDate(d)
    ensures r == DateTime(d, 6, 30, 0, 0)
  {
    IstToUtc(DateTime(d, 12, 0, 0, 0))
  }
}
