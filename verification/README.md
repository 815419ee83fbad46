# Kodaikanal astronomy calendar — verified model of the computation core

The Kodaikanal calendar is a Streamlit page. You pick a year, a month and a
day. For that date it shows the sunrise and sunset at Kodaikanal, the moon's
illumination, the moonrise and moonset, and the rise and set times of
Mercury, Venus, Mars, Jupiter and Saturn. All times are shown on the Indian
Standard Time clock in 12-hour format. Most of the page is presentation, or
calls into the `ephem`, `astral` and `pytz` libraries. This project models
the logic the script writes itself:

- `civil_time.dfy` (module `CivilTime`): proleptic Gregorian dates and
  naive date-times, and the fixed IST offset of +330 minutes. Converting
  between UTC and IST shifts the clock modulo a day and carries the date one
  day forward or back. The noon anchor turns a chosen date into the UTC
  instant of local noon.
- `clock_display.dfy` (module `ClockDisplay`): `strftime("%I:%M %p")`. A
  parser reads the text back, and the model proves it is the inverse of the
  formatter. `to_ist_12h` is modelled on `None`, `"N/A"` or a UTC instant.
- `rise_set.dfy` (module `RiseSet`): `get_rise_set`. Each of the two
  provider queries gives a tagged `Outcome`: `Instant(t)`, `AlwaysUp`,
  `NeverUp` or `Failure(message)`. A circumpolar outcome becomes "N/A". Any
  other exception escapes.
- `day_pass.dfy` (module `DayPass`): the pass run when a day is clicked. It
  builds the date and anchors it at noon. It then asks the sun, the moon's
  phase, the moon's rise and set, and each planet's rise and set, in that
  order. The planets are handled by a loop that fills `planet_times`. The
  method `ComputeDay` returns the complete `DayReport` or one error. It is
  proved equal to the specification function `Pass`, and the lemmas about
  `Pass` state the all-or-nothing behaviour.

The external libraries are parameters. A `Sky` value holds three
deterministic functions:

- the sun's times for a date, already on the IST clock;
- the moon's phase at a UTC instant;
- the outcome of a rise or set query for a body at a UTC instant.

Within one pass every query is made at the same UTC instant. The model
treats the providers as pure functions of their inputs.

A quirk of the source is modelled as written. `get_rise_set` keeps a found
instant with `rise.datetime() if rise else "N/A"`. An ephemeris date is a
float, so this test is false at 0.0, which is 1899-12-31 12:00 UTC.
`RiseSet.Slot` therefore shows "N/A" for an event found at exactly that
instant. `RiseSet.SlotAfter1900` proves this cannot happen for queries made
in 1900 or later, which covers every year the page offers (1900–2100), given
that the provider only returns instants after the query instant.

## Model

| member | source | states |
|---|---|---|
| `CivilTime.DaysInMonth` | kodaikanal_calendar_1.py:68 | Month lengths of the Gregorian calendar that `datetime(year, month, day, ...)` checks: 28–31 days, 29 exactly for February of a leap year, 30 exactly for April, June, September and November |
| `CivilTime.NextDay` | kodaikanal_calendar_1.py:41 | The next calendar date is valid and strictly later, and the year changes only after 31 December |
| `CivilTime.PrevDay` | kodaikanal_calendar_1.py:69 | The previous calendar date is valid and strictly earlier, and the year changes only before 1 January |
| `CivilTime.DayStepsInverse` | kodaikanal_calendar_1.py:41 | A step forward and a step back (in either order) return to the same date |
| `CivilTime.ShiftMinutes` | kodaikanal_calendar_1.py:40-41 | Converting to a zone at a fixed offset gives a valid date-time. Its time of day is the old one plus the offset, modulo 1440. Seconds and microseconds are kept. The date changes exactly when the clock wraps past midnight, and then moves exactly one day (`NextDay` forward past 24:00, `PrevDay` back past 00:00). A positive offset moves later in time |
| `CivilTime.ShiftRoundTrip` | kodaikanal_calendar_1.py:40-41 | Shifting by an offset and then by its negation returns the original date-time, date included |
| `CivilTime.UtcToIst` | kodaikanal_calendar_1.py:40-41 | `astimezone(IST)` of a UTC time: the IST time of day is the UTC one plus 330 minutes, modulo a day; the date is the UTC date, or the next day when the shift passes midnight; the result is later in naive terms |
| `CivilTime.IstToUtc` | kodaikanal_calendar_1.py:69 | `localize` in IST followed by `astimezone(utc)`: the UTC time of day is the IST one minus 330 minutes, modulo a day; the date is the IST date, or the previous day before 05:30 IST |
| `CivilTime.IstRoundTrip` | kodaikanal_calendar_1.py:40-41 | The UTC-to-IST and IST-to-UTC conversions are inverse to each other |
| `CivilTime.NoonAnchor` | kodaikanal_calendar_1.py:67-69 | Local noon on the selected date is 06:30:00 UTC on the same calendar date |
| `ClockDisplay.TwoDigits` | kodaikanal_calendar_1.py:42 | The zero-padded `%I`/`%M` field is two decimal digits whose value is the number printed |
| `ClockDisplay.Hour12` | kodaikanal_calendar_1.py:42 | The `%I` hour lies in 1..12 and agrees with the 24-hour hour modulo 12, so hours 0 and 12 both print as 12 |
| `ClockDisplay.FormatClock` | kodaikanal_calendar_1.py:42 | `"%I:%M %p"` is 8 characters `hh:mm XM`. `hh` reads as the 12-hour hour and `mm` as the minute. The suffix is `AM` exactly when the hour is below 12. The hour field reads `12` exactly at hours 0 and 12 |
| `ClockDisplay.ParseClock` | kodaikanal_calendar_1.py:42 | Reading a display string back gives, when it succeeds, an hour in 0..23 and a minute in 0..59 |
| `ClockDisplay.ParseFormatClock` | kodaikanal_calendar_1.py:42 | Parsing a formatted time gives back its hour and minute: the display loses nothing of them |
| `ClockDisplay.FormatParseClock` | kodaikanal_calendar_1.py:42 | Every string the parser accepts is exactly the display of the time it parses to (one spelling per time of day) |
| `ClockDisplay.ToIst12h` | kodaikanal_calendar_1.py:37-42 | `to_ist_12h` returns exactly "N/A" for `None` and for "N/A". It returns something else, an 8-character clock time, for an instant |
| `ClockDisplay.IstDisplayIsShiftedClock` | kodaikanal_calendar_1.py:40-42 | For a UTC instant, the displayed hour and minute are the UTC time of day plus 330 minutes, modulo 1440. The date is discarded |
| `ClockDisplay.SameUtcMinuteSameDisplay` | kodaikanal_calendar_1.py:42 | Seconds and microseconds are truncated, never rounded: two instants in the same UTC minute of the day display identically, whatever their dates |
| `ClockDisplay.ClockTexts` | kodaikanal_calendar_1.py:42 | 06:00 prints as "06:00 AM", 12:00 as "12:00 PM" and 00:00 as "12:00 AM" |
| `ClockDisplay.DisplayExamples` | kodaikanal_calendar_1.py:37-42 | On every date, 00:30 UTC shows as "06:00 AM", 06:30 UTC as "12:00 PM" and 18:30 UTC as "12:00 AM", whatever the seconds |
| `RiseSet.Slot` | kodaikanal_calendar_1.py:45-53 | A query that did not escape yields an instant or "N/A", never `None`. It yields the instant exactly when the provider found one other than the ephemeris epoch (the `if rise` float test) |
| `RiseSet.GetRiseSet` | kodaikanal_calendar_1.py:44-53 | `get_rise_set` raises exactly when one of its two queries raises an exception other than `AlwaysUpError`/`NeverUpError`. The rising query's exception is the one reported when both raise. Otherwise the result is the pair (rise slot, set slot), each resolved by `Slot` from its own query |
| `RiseSet.SlotsIndependent` | kodaikanal_calendar_1.py:45-53 | The pair is (rise, set), and each slot depends only on its own query: changing the setting outcome leaves the rise slot unchanged, and changing the rising outcome leaves the set slot unchanged |
| `RiseSet.CircumpolarOneSide` | kodaikanal_calendar_1.py:47-53 | `AlwaysUp`/`NeverUp` on one side gives "N/A" there and keeps the other side's instant, in either order |
| `RiseSet.SlotAfter1900` | kodaikanal_calendar_1.py:53 | For a query made in 1900 or later, with the provider's found instant after the query instant, a slot is "N/A" (and displays as "N/A") exactly when the body is circumpolar |
| `DayPass.ComputeDay` | kodaikanal_calendar_1.py:66-121 | The per-click pass equals the specification `Pass`. It reports an error exactly when the date cannot be built or some provider call raises a non-circumpolar exception. On success `planet_times` has the five names Mercury, Venus, Mars, Jupiter, Saturn in that order |
| `DayPass.ComputePlanetTimes` | kodaikanal_calendar_1.py:100-103 | The `planet_times` loop produces one formatted (rise, set) row per body in dictionary order, or the first exception |
| `DayPass.PlanetRowsContent` | kodaikanal_calendar_1.py:100-103 | A successful loop has one row per body. Row i holds body i's name and the IST displays of its rising and setting queries, none of which raised |
| `DayPass.PlanetRowsFailIff` | kodaikanal_calendar_1.py:100-103 | The loop fails exactly when some query for some listed body raises a non-circumpolar exception |
| `DayPass.PassPlanetTable` | kodaikanal_calendar_1.py:92-103 | A successful pass shows exactly five planet entries, keyed Mercury, Venus, Mars, Jupiter, Saturn in that order |
| `DayPass.PassFailsIff` | kodaikanal_calendar_1.py:66-121 | All or nothing: the pass gives the error exactly when the date is impossible or some provider call (sun, phase, or any rise/set query) raises a non-circumpolar exception |
| `DayPass.PassContents` | kodaikanal_calendar_1.py:68-103 | A successful pass fills every field from its own query. Sunrise and sunset are the sun's IST times formatted. Illumination is the moon's phase at the anchor. Moonrise, moonset and each planet's rise and set are their queries' slots shown through `to_ist_12h` |
| `DayPass.PlanetRowsFirstError` | kodaikanal_calendar_1.py:100-103 | The loop succeeds exactly when none of its queries raise. Otherwise it reports the first exception in query order |
| `DayPass.PassReportsFirstError` | kodaikanal_calendar_1.py:66-121 | Exactly one error is reported. It is the exception of the first raising call in the order sun, phase, moon rise, moon set, then each planet's rise and set |
| `DayPass.RowsNotAvailableOnlyWhenCircumpolar` | kodaikanal_calendar_1.py:100-103 | For queries in 1900 or later to a provider that keeps its promise, a planet row shows "N/A" exactly where the planet is circumpolar |
| `DayPass.NotAvailableOnlyWhenCircumpolar` | kodaikanal_calendar_1.py:87-103 | For any selectable year, with a provider that keeps its promise, each moon and planet time of a successful pass reads "N/A" exactly when that body is circumpolar for that query |
| `DayPass.PlanetNamesAgree` | kodaikanal_calendar_1.py:92-98 | The planets in the model's body order carry the dictionary keys Mercury, Venus, Mars, Jupiter, Saturn |

## Left out

- The Streamlit page, including page settings, title, the year, month and
  day widgets, the button grid, the "today" marker and every `st.write`,
  `st.header` and `st.error` call. This is presentation. The pass returns
  its result instead of writing it, so "nothing written before everything is
  computed" holds because the pass is a function. Exceptions raised while
  writing are not modelled.
- `calendar.monthcalendar` and `date.today()`. These are a standard-library
  routine and the system clock.
- The date heading `strftime('%A, %d %B %Y')`. It needs a weekday
  computation that only serves the display.
- The exact text of the `ValueError` for an impossible date. The model
  returns `InvalidDate`. The grid only offers valid days, so this path is not
  reached from the page.
- The `ephem` rise/set and position algorithms, `moon.phase`, and `astral`'s
  sunrise and sunset. They are foreign, floating-point code and appear only
  as the `Sky` parameter's functions. The moon's phase passes through as a
  `real`. Its `:.1f` formatting is floating point and is not modelled.
- The float observer coordinates (latitude, longitude, elevation). They
  only influence the foreign providers.
- The ephemeris date is a float. The `if rise` test is modelled as "the
  instant is the ephemeris epoch". A nonzero float that rounds to the
  epoch's microsecond would be kept by the source but shown as "N/A" by the
  model.
- Historical offsets of the Asia/Kolkata zone. The tz database gives
  offsets other than +5:30 before 1906 and during parts of 1941–1945, and
  the page offers 1900–2100. The model assumes the fixed +5:30 offset
  throughout: `CivilTime.UtcToIst`, `CivilTime.IstToUtc` and
  `CivilTime.NoonAnchor` state only that offset.
- Python's `datetime` year range (1–9999) is checked where the pass builds
  the date. The zone shifts themselves do not raise `OverflowError` at the
  ends of that range. The shifts of the page's 1900–2100 dates never reach
  those ends.
- `%p` assumes the C/English locale ("AM"/"PM").
