/** The badge under a booking's details: booking available, last-minute
    booking available, or maximum reached, with the counts it shows. The
    page's `hasReachedMaxBookings()` and `isLastMinuteBooking(slot)` arrive
    as their values. */
module StatusIndicator {
  import opened Common
  import opened Policy

  datatype Status = BookingAvailable | LastMinuteAvailable | MaximumReached

  /** The three-way branch: below the cap always available; at the cap a
      present, last-minute slot is the exception; otherwise the maximum. */
  function SelectStatus(atCap: bool, hasSlot: bool, lastMinute: bool): (s: Status)
    ensures !atCap ==> s == BookingAvailable
    ensures atCap && hasSlot && lastMinute ==> s == LastMinuteAvailable
    ensures s == MaximumReached <==> atCap && !(hasSlot && lastMinute)
  {
    if !atCap then BookingAvailable
    else if hasSlot && lastMinute then LastMinuteAvailable
    else MaximumReached
  }

  /** `bookingRules?.maximum_future_bookings || 0`. */
  function MaxBookingsShown(rules: Option<Rules>): (n: int)
    ensures rules.None? ==> n == 0
    ensures rules.Some? ==> n == rules.value.maximumFutureBookings
  {
    if rules.Some? && rules.value.maximumFutureBookings != 0 then rules.value.maximumFutureBookings else 0
  }

  /** `bookingRules?.last_minute_booking_hours || 24`: no rules and a zero
      window both read as 24 hours. */
  function WindowHoursShown(rules: Option<Rules>): (h: int)
    ensures rules.None? ==> h == 24
    ensures rules.Some? && rules.value.lastMinuteBookingHours == 0 ==> h == 24
    ensures rules.Some? && rules.value.lastMinuteBookingHours != 0 ==> h == rules.value.lastMinuteBookingHours
  {
    if rules.Some? && rules.value.lastMinuteBookingHours != 0 then rules.value.lastMinuteBookingHours else 24
  }

  /** "n of max" as the badge writes it. */
  function UsedText(futureBookings: int, rules: Option<Rules>): string {
    IntToString(futureBookings) + " of " + IntToString(MaxBookingsShown(rules))
  }

  /** Under the page's own rules the badge agrees with the booking gate: it
      shows the maximum exactly when a click on the slot is refused for the
      cap. */
  lemma BadgeMatchesGate(rules: Option<Rules>, futureBookings: int, slotStart: Option<int>, now: int)
    ensures var s := SelectStatus(AtCap(rules, futureBookings), slotStart.Some?,
                                  slotStart.Some? && IsLastMinute(rules, slotStart.value, now));
            (s == MaximumReached <==> BookSpaceGate(true, rules, futureBookings, slotStart, now) == MaximumBookingsReached) &&
            (s != MaximumReached <==> BookSpaceGate(true, rules, futureBookings, slotStart, now) == OpenConfirm)
  {
  }

  /** A zero-hour window is shown as "within 24h", although under it only
      starts up to now are last-minute. */
  lemma ZeroWindowShownAs24(r: Rules, now: int)
    requires r.lastMinuteBookingHours == 0
    ensures WindowHoursShown(Some(r)) == 24
    ensures !IsLastMinute(Some(r), now + 1, now) && IsLastMinute(Some(r), now, now)
  {
  }
}
