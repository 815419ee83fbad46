/** `get_rise_set`: the two rise/set queries an observer makes of the
    ephemeris provider for one body, with the circumpolar outcomes turned
    into "N/A" and every other provider failure passed on as an error. */
module RiseSet {
  import opened CivilTime
  import opened ClockDisplay

  /** What one `next_rising` or `next_setting` query produces: an instant
      (UTC), one of the two circumpolar exceptions, or any other exception. */
  datatype Outcome = Instant(t: Timestamp) | AlwaysUp | NeverUp | Failure(message: string)

  /** An exception that escapes the computation pass. `InvalidDate` is the
      `ValueError` the `datetime` constructor raises for an impossible
      date; `Raised` is any exception of the providers, with its text. */
  datatype Error = InvalidDate | Raised(message: string)

  datatype Result<T> = Ok(value: T) | Err(error: Error)

  /** The pair `get_rise_set` returns, in the order (rise, set). */
  datatype RiseSetPair = RiseSetPair(rising: UtcArg, setting: UtcArg)

  /** The ephemeris epoch, 1899-12-31 12:00 UTC: the one instant whose
      ephemeris date is the number 0.0. */
  const EphemEpoch: Timestamp := DateTime(Date(1899, 12, 31), 12, 0, 0, 0)

  /** One slot of `get_rise_set`, for an outcome that did not escape: the
      slot is "N/A" when the query raised a circumpolar exception and when
      the result is false as a number (`rise.datetime() if rise else
      "N/A"`), which an ephemeris date is only at the epoch itself. */
  function Slot(o: Outcome): (a: UtcArg)
    requires !o.Failure?
    ensures a != NoneArg
    ensures a.At? ==> o == Instant(a.utc)
    ensures a.At? <==> o.Instant? && o.t != EphemEpoch
  {
    match o
    case Instant(t) => if t == EphemEpoch then NotAvailable else At(t)
    case _ => NotAvailable
  }

  /** `get_rise_set(observer, body)` given the outcomes of its two queries.
      The rising query runs first, so its failure is the one reported when
      both fail. */
  function GetRiseSet(rising: Outcome, setting: Outcome): (r: Result<RiseSetPair>)
    ensures r.Err? <==> rising.Failure? || setting.Failure?
    ensures r.Err? ==> r.error == Raised(if rising.Failure? then rising.message else setting.message)
    ensures r.Ok? ==> r.value == RiseSetPair(Slot(rising), Slot(setting))
  {
    if rising.Failure? then Err(Raised(rising.message))
    else if setting.Failure? then Err(Raised(setting.message))
    else Ok(RiseSetPair(Slot(rising), Slot(setting)))
  }

  /** The two slots are resolved independently, in the order (rise, set):
      each depends on its own query only, so changing one query's outcome
      leaves the other slot as it was. */
  lemma SlotsIndependent(rising: Outcome, setting: Outcome, rising': Outcome, setting': Outcome)
    requires !rising.Failure? && !setting.Failure? && !rising'.Failure? && !setting'.Failure?
    ensures GetRiseSet(rising, setting) == Ok(RiseSetPair(Slot(rising), Slot(setting)))
    ensures GetRiseSet(rising, setting').value.rising == GetRiseSet(rising, setting).value.rising
    ensures GetRiseSet(rising', setting).value.setting == GetRiseSet(rising, setting).value.setting
  {
  }

  /** A circumpolar outcome on one side and an instant on the other gives
      "N/A" on that side and the instant on the other, in either order. */
  lemma CircumpolarOneSide(t: Timestamp, c: Outcome)
    requires Circumpolar(c)
    requires t != EphemEpoch
    ensures GetRiseSet(c, Instant(t)) == Ok(RiseSetPair(NotAvailable, At(t)))
    ensures GetRiseSet(Instant(t), c) == Ok(RiseSetPair(At(t), NotAvailable))
  {
  }

  /** The body stays above or below the horizon: no such event. */
  predicate Circumpolar(o: Outcome) {
    o.AlwaysUp? || o.NeverUp?
  }

  /** The provider's promise: an instant it returns for a query made at
      `reference` lies strictly after `reference`. */
  predicate FoundAfter(o: Outcome, reference: DateTime) {
    o.Instant? ==> Earlier(reference, o.t)
  }

  /** For a query made at or after the start of 1900 (the earliest year
      the calendar offers), a slot is "N/A" exactly when the provider
      reported a circumpolar body; an instant is always kept, and shows as a
      clock time rather than "N/A". */
  lemma SlotAfter1900(o: Outcome, reference: DateTime)
    requires !o.Failure? && FoundAfter(o, reference)
    requires 1900 <= reference.date.year
    ensures Slot(o) == NotAvailable <==> Circumpolar(o)
    ensures o.Instant? ==> Slot(o) == At(o.t)
    ensures ToIst12h(Slot(o)) == Placeholder <==> Circumpolar(o)
  {
    if o.Instant? {
      assert reference.date.year <= o.t.date.year;
      assert o.t != EphemEpoch;
    }
  }
}
