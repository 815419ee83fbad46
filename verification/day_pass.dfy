/** The computation pass run when a day of the calendar is clicked: build
    local noon of the chosen date, convert it to UTC, ask the providers for
    the sun, the moon and five planets, and format every time, all inside one
    `try`. Either the whole report for the date is produced or the first
    exception is, never a part of the report. */
module DayPass {
  import opened CivilTime
  import opened ClockDisplay
  import opened RiseSet

  /** The bodies the pass asks the ephemeris provider about. */
  datatype Body = Moon | Mercury | Venus | Mars | Jupiter | Saturn

  datatype Event = Rising | Setting

  /** The planets, in the order of the `planets` dictionary. */
  const Planets: seq<Body> := [Mercury, Venus, Mars, Jupiter, Saturn]

  /** The keys of the `planets` dictionary, in the same order. */
  const PlanetNames: seq<string> := ["Mercury", "Venus", "Mars", "Jupiter", "Saturn"]

  function BodyName(b: Body): string {
    match b
    case Moon => "Moon"
    case Mercury => "Mercury"
    case Venus => "Venus"
    case Mars => "Mars"
    case Jupiter => "Jupiter"
    case Saturn => "Saturn"
  }

  /** The solar-position library's answer for a date: sunrise and sunset,
      already on the IST clock, or the exception it raises. */
  datatype SolarOutcome = SolarTimes(sunrise: Timestamp, sunset: Timestamp) | SolarFailure(message: string)

  /** The moon's phase (illumination percentage) at an instant, or the
      exception computing the moon raises. */
  datatype PhaseOutcome = Phase(percent: real) | PhaseFailure(message: string)

  /** The external libraries, as deterministic functions of their inputs:
      the sun's times for a date, the moon's phase at a UTC instant, and the
      outcome of a rise or set query for a body made at a UTC instant. */
  datatype Sky = Sky(
    solar: Date -> SolarOutcome,
    phase: Timestamp -> PhaseOutcome,
    query: (Body, Event, Timestamp) -> Outcome)

  /** One entry of `planet_times`: the planet's name and its formatted
      (rise, set) pair. */
  datatype PlanetRow = PlanetRow(name: string, rising: string, setting: string)

  /** Everything the pass displays for one date. */
  datatype DayReport = DayReport(
    sunrise: string,
    sunset: string,
    illumination: real,
    moonrise: string,
    moonset: string,
    planets: seq<PlanetRow>)

  /** Puts `rows` in front of a result's rows; an error stays as it is. */
  function Prepend(rows: seq<PlanetRow>, r: Result<seq<PlanetRow>>): Result<seq<PlanetRow>> {
    match r
    case Ok(rest) => Ok(rows + rest)
    case Err(e) => Err(e)
  }

  lemma PrependEmpty(r: Result<seq<PlanetRow>>)
    ensures Prepend([], r) == r
  {
    if r.Ok? {
      assert [] + r.value == r.value;
    }
  }

  lemma PrependTwice(rows: seq<PlanetRow>, row: PlanetRow, r: Result<seq<PlanetRow>>)
    ensures Prepend(rows, Prepend([row], r)) == Prepend(rows + [row], r)
  {
    if r.Ok? {
      assert rows + ([row] + r.value) == (rows + [row]) + r.value;
    }
  }

  /** The `planet_times` loop as a function: one row per body in order,
      or the error of the first query that fails. */
  function PlanetRows(bodies: seq<Body>, reference: Timestamp, sky: Sky): Result<seq<PlanetRow>>
    decreases |bodies|
  {
    if bodies == [] then Ok([])
    else
      match GetRiseSet(sky.query(bodies[0], Rising, reference), sky.query(bodies[0], Setting, reference))
      case Err(e) => Err(e)
      case Ok(pair) =>
        Prepend([PlanetRow(BodyName(bodies[0]), ToIst12h(pair.rising), ToIst12h(pair.setting))],
                PlanetRows(bodies[1..], reference, sky))
  }

  /** The answers of the pass put together in the order the source asks
      for them: the first exception wins, otherwise the report. The
      providers are deterministic, so taking all answers up front does not
      change which exception comes first; `ComputeDay` stops at it. */
  function Assemble(solar: SolarOutcome, phase: PhaseOutcome, moon: Result<RiseSetPair>,
                    planets: Result<seq<PlanetRow>>): Result<DayReport>
  {
    match solar
    case SolarFailure(m) => Err(Raised(m))
    case SolarTimes(sunrise, sunset) =>
      match phase
      case PhaseFailure(m) => Err(Raised(m))
      case Phase(percent) =>
        match moon
        case Err(e) => Err(e)
        case Ok(pair) =>
          match planets
          case Err(e) => Err(e)
          case Ok(rows) =>
            Ok(DayReport(
              FormatClock(sunrise.hour, sunrise.minute),
              FormatClock(sunset.hour, sunset.minute),
              percent,
              ToIst12h(pair.rising),
              ToIst12h(pair.setting),
              rows))
  }

  /** The whole pass as a function of the selected date and the providers. */
  function Pass(d: Date, sky: Sky): Result<DayReport> {
    if !ConstructibleDate(d) then Err(InvalidDate)
    else
      var reference := NoonAnchor(d);
      Assemble(sky.solar(d), sky.phase(reference),
               GetRiseSet(sky.query(Moon, Rising, reference), sky.query(Moon, Setting, reference)),
               PlanetRows(Planets, reference, sky))
  }

  /** The per-click pass. Everything is computed before anything would be
      written, and the result is the complete report or a single error. */
  method ComputeDay(d: Date, sky: Sky) returns (r: Result<DayReport>)
    ensures r == Pass(d, sky)
    ensures r.Err? <==> !ConstructibleDate(d) || SomeCallFails(d, sky)
    ensures r.Ok? ==> |r.value.planets| == |PlanetNames|
    ensures r.Ok? ==> forall i | 0 <= i < |PlanetNames| :: r.value.planets[i].name == PlanetNames[i]
  {
    if !ConstructibleDate(d) {
      return Err(InvalidDate);
    }
    var dtUtc := NoonAnchor(d);

    var solar := sky.solar(d);
    if solar.SolarFailure? {
      return Err(Raised(solar.message));
    }
    var sunrise := FormatClock(solar.sunrise.hour, solar.sunrise.minute);
    var sunset := FormatClock(solar.sunset.hour, solar.sunset.minute);

    var phase := sky.phase(dtUtc);
    if phase.PhaseFailure? {
      return Err(Raised(phase.message));
    }

    var moon := GetRiseSet(sky.query(Moon, Rising, dtUtc), sky.query(Moon, Setting, dtUtc));
    if moon.Err? {
      return Err(moon.error);
    }
    var moonrise := ToIst12h(moon.value.rising);
    var moonset := ToIst12h(moon.value.setting);

    var planetTimes := ComputePlanetTimes(Planets, dtUtc, sky);
    if planetTimes.Err? {
      return Err(planetTimes.error);
    }
    r := Ok(DayReport(sunrise, sunset, phase.percent, moonrise, moonset, planetTimes.value));
    PassPlanetTable(d, sky);
    PassFailsIff(d, sky);
  }

  /** The `planet_times` loop over the `planets` dictionary (called with
      `Planets`): for each planet in order, resolve its rise
      and set and append the formatted pair; an exception ends the loop. */
  method ComputePlanetTimes(bodies: seq<Body>, reference: Timestamp, sky: Sky) returns (r: Result<seq<PlanetRow>>)
    ensures r == PlanetRows(bodies, reference, sky)
  {
    var rows: seq<PlanetRow> := [];
    var i := 0;
    assert bodies[i..] == bodies;
    PrependEmpty(PlanetRows(bodies, reference, sky));
    while i < |bodies|
      invariant 0 <= i <= |bodies|
      invariant PlanetRows(bodies, reference, sky) == Prepend(rows, PlanetRows(bodies[i..], reference, sky))
    {
      var body := bodies[i];
      var pair := GetRiseSet(sky.query(body, Rising, reference), sky.query(body, Setting, reference));
      assert bodies[i..][0] == body;
      if pair.Err? {
        assert PlanetRows(bodies[i..], reference, sky) == Err(pair.error);
        return Err(pair.error);
      }
      var row := PlanetRow(BodyName(body), ToIst12h(pair.value.rising), ToIst12h(pair.value.setting));
      assert bodies[i..][1..] == bodies[i + 1..];
      PrependTwice(rows, row, PlanetRows(bodies[i + 1..], reference, sky));
      rows := rows + [row];
      i := i + 1;
    }
    assert bodies[i..] == [] && rows + [] == rows;
    r := Ok(rows);
  }

  /** The rows of a successful planet loop: one per body, in order, each
      holding the body's name and the IST display of its two queries. */
  lemma {:induction false} PlanetRowsContent(bodies: seq<Body>, reference: Timestamp, sky: Sky)
    requires PlanetRows(bodies, reference, sky).Ok?
    ensures var rows := PlanetRows(bodies, reference, sky).value;
      && |rows| == |bodies|
      && forall i | 0 <= i < |bodies| ::
           && !sky.query(bodies[i], Rising, reference).Failure?
           && !sky.query(bodies[i], Setting, reference).Failure?
           && rows[i] == PlanetRow(BodyName(bodies[i]),
                                   ToIst12h(Slot(sky.query(bodies[i], Rising, reference))),
                                   ToIst12h(Slot(sky.query(bodies[i], Setting, reference))))
  {
    if bodies != [] {
      PlanetRowsContent(bodies[1..], reference, sky);
      var rows := PlanetRows(bodies, reference, sky).value;
      var rest := PlanetRows(bodies[1..], reference, sky).value;
      forall i | 1 <= i < |bodies|
        ensures rows[i] == rest[i - 1] && bodies[i] == bodies[1..][i - 1]
      {
      }
    }
  }

  /** The planet loop fails exactly when one of its queries raises an
      exception other than the two circumpolar ones. */
  lemma {:induction false} PlanetRowsFailIff(bodies: seq<Body>, reference: Timestamp, sky: Sky)
    ensures PlanetRows(bodies, reference, sky).Err? <==>
      exists i, e | 0 <= i < |bodies| :: sky.query(bodies[i], e, reference).Failure?
  {
    if bodies != [] {
      PlanetRowsFailIff(bodies[1..], reference, sky);
      if exists i, e | 0 <= i < |bodies| :: sky.query(bodies[i], e, reference).Failure? {
        var i, e :| 0 <= i < |bodies| && sky.query(bodies[i], e, reference).Failure?;
        if 0 < i {
          assert sky.query(bodies[1..][i - 1], e, reference).Failure?;
        } else {
          assert e == Rising || e == Setting;
        }
      }
      if exists i, e | 0 <= i < |bodies[1..]| :: sky.query(bodies[1..][i], e, reference).Failure? {
        var i, e :| 0 <= i < |bodies[1..]| && sky.query(bodies[1..][i], e, reference).Failure?;
        assert sky.query(bodies[i + 1], e, reference).Failure?;
      }
    }
  }

  /** A successful pass shows exactly the five planets, named and ordered
      as in the `planets` dictionary. */
  lemma PassPlanetTable(d: Date, sky: Sky)
    requires Pass(d, sky).Ok?
    ensures |Pass(d, sky).value.planets| == |PlanetNames|
    ensures forall i | 0 <= i < |PlanetNames| :: Pass(d, sky).value.planets[i].name == PlanetNames[i]
  {
    PlanetRowsContent(Planets, NoonAnchor(d), sky);
    PlanetNamesAgree();
  }

  /** Does some provider call of the pass for date `d` raise an exception
      that is not one of the two circumpolar ones? */
  predicate SomeCallFails(d: Date, sky: Sky)
    requires ValidDate(d)
  {
    var reference := NoonAnchor(d);
    || sky.solar(d).SolarFailure?
    || sky.phase(reference).PhaseFailure?
    || exists b, e :: sky.query(b, e, reference).Failure?
  }

  /** All or nothing: the pass reports an error exactly when the date is
      impossible or some provider call raises an exception that is not one
      of the two circumpolar ones. */
  lemma {:induction false} PassFailsIff(d: Date, sky: Sky)
    ensures Pass(d, sky).Err? <==> !ConstructibleDate(d) || SomeCallFails(d, sky)
  {
    if ConstructibleDate(d) {
      var reference := NoonAnchor(d);
      PlanetRowsFailIff(Planets, reference, sky);
      SomeQueryFailsByBody(reference, sky);
      AssembleFailsIff(sky.solar(d), sky.phase(reference),
                       GetRiseSet(sky.query(Moon, Rising, reference), sky.query(Moon, Setting, reference)),
                       PlanetRows(Planets, reference, sky));
    }
  }

  /** The assembled pass fails exactly when one of its parts failed. */
  lemma AssembleFailsIff(solar: SolarOutcome, phase: PhaseOutcome, moon: Result<RiseSetPair>,
                         planets: Result<seq<PlanetRow>>)
    ensures Assemble(solar, phase, moon, planets).Err? <==>
      solar.SolarFailure? || phase.PhaseFailure? || moon.Err? || planets.Err?
  {
  }

  /** A query of the pass fails exactly when one of the moon's two queries
      or one of a listed planet's queries fails. */
  lemma SomeQueryFailsByBody(reference: Timestamp, sky: Sky)
    ensures (exists b, e :: sky.query(b, e, reference).Failure?) <==>
      || sky.query(Moon, Rising, reference).Failure?
      || sky.query(Moon, Setting, reference).Failure?
      || exists i, e | 0 <= i < |Planets| :: sky.query(Planets[i], e, reference).Failure?
  {
    if exists b, e :: sky.query(b, e, reference).Failure? {
      var b, e :| sky.query(b, e, reference).Failure?;
      if b != Moon {
        assert sky.query(Planets[IndexOf(b)], e, reference).Failure?;
      } else {
        assert e == Rising || e == Setting;
      }
    }
    if exists i, e | 0 <= i < |Planets| :: sky.query(Planets[i], e, reference).Failure? {
      var i, e :| 0 <= i < |Planets| && sky.query(Planets[i], e, reference).Failure?;
      assert sky.query(Planets[i], e, reference).Failure?;
    }
  }

  /** A successful pass fills every field from its own query: the sun's
      times on the IST clock, the phase, and the moon's and each planet's
      rise and set shown in IST, "N/A" where the body does not rise or set. */
  lemma PassContents(d: Date, sky: Sky)
    requires Pass(d, sky).Ok?
    ensures
      var reference := NoonAnchor(d);
      var solar := sky.solar(d);
      var report := Pass(d, sky).value;
      && solar.SolarTimes?
      && report.sunrise == FormatClock(solar.sunrise.hour, solar.sunrise.minute)
      && report.sunset == FormatClock(solar.sunset.hour, solar.sunset.minute)
      && sky.phase(reference) == Phase(report.illumination)
      && !sky.query(Moon, Rising, reference).Failure?
      && !sky.query(Moon, Setting, reference).Failure?
      && report.moonrise == ToIst12h(Slot(sky.query(Moon, Rising, reference)))
      && report.moonset == ToIst12h(Slot(sky.query(Moon, Setting, reference)))
      && |report.planets| == |Planets|
      && forall i | 0 <= i < |Planets| ::
           && !sky.query(Planets[i], Rising, reference).Failure?
           && !sky.query(Planets[i], Setting, reference).Failure?
           && report.planets[i] == PlanetRow(PlanetNames[i],
                                          ToIst12h(Slot(sky.query(Planets[i], Rising, reference))),
                                          ToIst12h(Slot(sky.query(Planets[i], Setting, reference))))
  {
    PlanetRowsContent(Planets, NoonAnchor(d), sky);
    PlanetNamesAgree();
  }

  /** The text of a query's non-circumpolar exception, if it raised one. */
  function FailureText(o: Outcome): Option<string> {
    if o.Failure? then Some(o.message) else None
  }

  /** The exceptions of the rise/set queries for `bodies`, in the order the
      pass makes them: each body's rising query, then its setting query. */
  function QueryFailures(bodies: seq<Body>, reference: Timestamp, sky: Sky): seq<Option<string>>
    decreases |bodies|
  {
    if bodies == [] then []
    else [FailureText(sky.query(bodies[0], Rising, reference)), FailureText(sky.query(bodies[0], Setting, reference))]
         + QueryFailures(bodies[1..], reference, sky)
  }

  /** The exceptions of every provider call of the pass for date `d`, in
      the order the pass makes the calls: sun, moon phase, moon rise and
      set, then each planet's rise and set. */
  function CallFailures(d: Date, sky: Sky): seq<Option<string>>
    requires ValidDate(d)
  {
    var reference := NoonAnchor(d);
    var solar := sky.solar(d);
    var phase := sky.phase(reference);
    [if solar.SolarFailure? then Some(solar.message) else None,
     if phase.PhaseFailure? then Some(phase.message) else None]
    + QueryFailures([Moon] + Planets, reference, sky)
  }

  /** The first exception of a sequence of calls, if any call raised one. */
  function FirstFailure(texts: seq<Option<string>>): Option<string>
    decreases |texts|
  {
    if texts == [] then None
    else if texts[0].Some? then texts[0]
    else FirstFailure(texts[1..])
  }

  /** The first failure of two calls followed by more calls. */
  lemma FirstFailureOfPair(x: Option<string>, y: Option<string>, rest: seq<Option<string>>)
    ensures FirstFailure([x, y] + rest) == if x.Some? then x else if y.Some? then y else FirstFailure(rest)
  {
    assert ([x, y] + rest)[1..] == [y] + rest;
    assert ([y] + rest)[1..] == rest;
  }

  /** The planet loop stops at the first query that raises, and reports
      that exception; it succeeds when no query raises. */
  lemma {:induction false} PlanetRowsFirstError(bodies: seq<Body>, reference: Timestamp, sky: Sky)
    ensures PlanetRows(bodies, reference, sky).Ok? <==> FirstFailure(QueryFailures(bodies, reference, sky)).None?
    ensures PlanetRows(bodies, reference, sky).Err? ==>
      PlanetRows(bodies, reference, sky).error == Raised(FirstFailure(QueryFailures(bodies, reference, sky)).value)
  {
    if bodies != [] {
      PlanetRowsFirstError(bodies[1..], reference, sky);
      FirstFailureOfPair(FailureText(sky.query(bodies[0], Rising, reference)),
                         FailureText(sky.query(bodies[0], Setting, reference)),
                         QueryFailures(bodies[1..], reference, sky));
    }
  }

  /** The calls of the pass in order: sun and phase, then the moon's two
      queries, then the planets' queries. */
  lemma CallFailuresInOrder(d: Date, sky: Sky)
    requires ValidDate(d)
    ensures
      var reference := NoonAnchor(d);
      var solar := sky.solar(d);
      var phase := sky.phase(reference);
      CallFailures(d, sky) ==
        [if solar.SolarFailure? then Some(solar.message) else None,
         if phase.PhaseFailure? then Some(phase.message) else None]
        + ([FailureText(sky.query(Moon, Rising, reference)), FailureText(sky.query(Moon, Setting, reference))]
           + QueryFailures(Planets, NoonAnchor(d), sky))
  {
    assert ([Moon] + Planets)[1..] == Planets;
  }

  /** Exactly one error is reported, and it is the exception of the first
      call of the pass that raised one (the `except` clause catches the first
      exception and nothing after it runs). */
  lemma {:induction false} PassReportsFirstError(d: Date, sky: Sky)
    requires ConstructibleDate(d)
    ensures Pass(d, sky).Ok? <==> FirstFailure(CallFailures(d, sky)).None?
    ensures Pass(d, sky).Err? ==> Pass(d, sky).error == Raised(FirstFailure(CallFailures(d, sky)).value)
  {
    var reference := NoonAnchor(d);
    var solar := sky.solar(d);
    var phase := sky.phase(reference);
    var rising := FailureText(sky.query(Moon, Rising, reference));
    var setting := FailureText(sky.query(Moon, Setting, reference));
    var planets := QueryFailures(Planets, reference, sky);
    var first := FirstFailure(CallFailures(d, sky));
    assert first == if solar.SolarFailure? then Some(solar.message)
                    else if phase.PhaseFailure? then Some(phase.message)
                    else FirstFailure([rising, setting] + planets) by {
      CallFailuresInOrder(d, sky);
      FirstFailureOfPair(if solar.SolarFailure? then Some(solar.message) else None,
                         if phase.PhaseFailure? then Some(phase.message) else None,
                         [rising, setting] + planets);
    }
    FirstFailureOfPair(rising, setting, planets);
    PlanetRowsFirstError(Planets, reference, sky);
  }

  /** The provider's promise for every query made at `reference`. */
  predicate QueriesFoundAfter(sky: Sky, reference: Timestamp) {
    forall b, e :: FoundAfter(sky.query(b, e, reference), reference)
  }

  /** For queries made in 1900 or later to a provider that keeps its
      promise, a planet row shows "N/A" exactly where that planet is
      circumpolar. */
  lemma RowsNotAvailableOnlyWhenCircumpolar(bodies: seq<Body>, reference: Timestamp, sky: Sky)
    requires 1900 <= reference.date.year && QueriesFoundAfter(sky, reference)
    requires PlanetRows(bodies, reference, sky).Ok?
    ensures var rows := PlanetRows(bodies, reference, sky).value;
      && |rows| == |bodies|
      && forall i | 0 <= i < |bodies| ::
           && (rows[i].rising == Placeholder <==> Circumpolar(sky.query(bodies[i], Rising, reference)))
           && (rows[i].setting == Placeholder <==> Circumpolar(sky.query(bodies[i], Setting, reference)))
  {
    PlanetRowsContent(bodies, reference, sky);
    forall i | 0 <= i < |bodies|
      ensures !sky.query(bodies[i], Rising, reference).Failure?
      ensures !sky.query(bodies[i], Setting, reference).Failure?
      ensures (ToIst12h(Slot(sky.query(bodies[i], Rising, reference))) == Placeholder) <==>
                Circumpolar(sky.query(bodies[i], Rising, reference))
      ensures (ToIst12h(Slot(sky.query(bodies[i], Setting, reference))) == Placeholder) <==>
                Circumpolar(sky.query(bodies[i], Setting, reference))
    {
      SlotAfter1900(sky.query(bodies[i], Rising, reference), reference);
      SlotAfter1900(sky.query(bodies[i], Setting, reference), reference);
    }
  }

  /** For every year the calendar offers, and a provider that keeps its
      promise of returning only instants after the query instant, a moon or
      planet time of a successful pass reads "N/A" exactly when that body is
      circumpolar for that query: no found instant is ever hidden. */
  lemma NotAvailableOnlyWhenCircumpolar(d: Date, sky: Sky)
    requires 1900 <= d.year && Pass(d, sky).Ok?
    requires QueriesFoundAfter(sky, NoonAnchor(d))
    ensures Pass(d, sky).value.moonrise == Placeholder <==> Circumpolar(sky.query(Moon, Rising, NoonAnchor(d)))
    ensures Pass(d, sky).value.moonset == Placeholder <==> Circumpolar(sky.query(Moon, Setting, NoonAnchor(d)))
    ensures |Pass(d, sky).value.planets| == |Planets|
    ensures forall i | 0 <= i < |Planets| ::
      && (Pass(d, sky).value.planets[i].rising == Placeholder <==> Circumpolar(sky.query(Planets[i], Rising, NoonAnchor(d))))
      && (Pass(d, sky).value.planets[i].setting == Placeholder <==> Circumpolar(sky.query(Planets[i], Setting, NoonAnchor(d))))
  {
    var reference := NoonAnchor(d);
    assert Pass(d, sky).value.planets == PlanetRows(Planets, reference, sky).value;
    RowsNotAvailableOnlyWhenCircumpolar(Planets, reference, sky);
    SlotAfter1900(sky.query(Moon, Rising, reference), reference);
    SlotAfter1900(sky.query(Moon, Setting, reference), reference);
  }

  /** Each planet's name is its key in `planet_times`. */
  lemma PlanetNamesAgree()
    ensures |Planets| == |PlanetNames|
    ensures forall i | 0 <= i < |Planets| :: BodyName(Planets[i]) == PlanetNames[i]
  {
  }

  /** Where a planet stands in `Planets`. */
  function IndexOf(b: Body): (i: nat)
    requires b != Moon
    ensures i < |Planets| && Planets[i] == b
  {
    match b
    case Mercury => 0
    case Venus => 1
    case Mars => 2
    case Jupiter => 3
    case Saturn => 4
  }
}
