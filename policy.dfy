/** The entities the booking components share and the two booking rules
    the client side evaluates: the cap on future bookings and the
    last-minute window that lifts it. */
module Policy {
  import opened Common
  import opened Clock

  /** The CMS's `foodtruck_rules` record. Hours and days are whole numbers. */
  datatype Rules = Rules(maximumFutureBookings: int, maximumDaysAhead: int, lastMinuteBookingHours: int)

  /** A date field of a booking as the CMS sends it: `null` (an unset
      datetime), absent or empty (`undefined`, `""`), or a non-empty text
      that `new Date` parses (`Some`) or not (`None`). */
  datatype DateField = Null | Absent | Text(parsed: Option<int>)

  /** `new Date(field)`: `null` is the epoch, an absent, empty or
      unparsable field an invalid date (`None`), with which every
      comparison is false. */
  function DateOf(f: DateField): (r: Option<int>)
    ensures f.Null? ==> r == Some(0)
    ensures f.Absent? ==> r.None?
    ensures f.Text? ==> r == f.parsed
  {
    match f
    case Null => Some(0)
    case Absent => None
    case Text(t) => t
  }

  /** The field is truthy: `!booking.start` is false for it. */
  predicate Truthy(f: DateField) {
    f.Text?
  }

  /** A `foodtruck_bookings` record as the components read it. */
  datatype Booking = Booking(
    id: string,
    space: Option<string>,
    foodtruck: Option<string>,
    foodtruckName: Option<string>,
    start: DateField,
    end: DateField)

  /** One entry of a space's `time_slots`. */
  datatype TimeSlot = TimeSlot(id: string, start: string, end: string, description: string)

  /** A bookable space. */
  datatype Space = Space(id: string, name: string, description: Option<string>)

  /** A `foodtrucks` record; `image` is the id of its CMS asset. */
  datatype FoodTruck = FoodTruck(id: string, name: Option<string>, description: Option<string>, image: Option<string>)

  /** `new Date(booking.start) > now`. */
  predicate StartsAfter(b: Booking, now: int) {
    DateOf(b.start).Some? && DateOf(b.start).value > now
  }

  /** The bookings counted against the cap: those starting strictly after now. */
  function FutureBookings(bookings: seq<Booking>, now: int): (r: seq<Booking>)
    ensures forall b :: b in r <==> b in bookings && StartsAfter(b, now)
    ensures IsSubsequence(r, bookings)
  {
    FilterIsSubsequence(bookings, b => StartsAfter(b, now));
    Filter(bookings, b => StartsAfter(b, now))
  }

  /** The future filter keeps each future booking as often as the list holds it, so a repeated booking is counted each time. */
  lemma FutureBookingsCounts(bookings: seq<Booking>, now: int)
    ensures forall b :: multiset(FutureBookings(bookings, now))[b] == if StartsAfter(b, now) then multiset(bookings)[b] else 0
  {
    FilterCounts(bookings, b => StartsAfter(b, now));
  }

  /** How many bookings count against the cap: none exactly when no
      booking starts after now. */
  function CountFuture(bookings: seq<Booking>, now: int): (n: nat)
    ensures n <= |bookings|
    ensures n == 0 <==> forall b | b in bookings :: !StartsAfter(b, now)
    ensures n == |FutureBookings(bookings, now)|
  {
    var r := FutureBookings(bookings, now);
    assert r != [] ==> r[0] in r;
    |r|
  }

  /** A booking that starts exactly now, or has no valid start, is not
      counted, nor is one whose start is `null` (the epoch, for any now
      from then on); one that starts a millisecond later is. */
  lemma {:induction false} FutureCountBoundary(b: Booking, now: int)
    requires b.start == Text(Some(now))
    ensures CountFuture([b], now) == 0
    ensures CountFuture([b.(start := Text(Some(now + 1)))], now) == 1
    ensures CountFuture([b.(start := Absent)], now) == 0
    ensures CountFuture([b.(start := Text(None))], now) == 0
    ensures now >= 0 ==> CountFuture([b.(start := Null)], now) == 0
  {
    var later := b.(start := Text(Some(now + 1)));
    assert FutureBookings([later], now) == [later] by {
      assert Filter([later], c => StartsAfter(c, now)) == [later] + Filter([later][1..], c => StartsAfter(c, now));
    }
  }

  /** The cap gate: rules are loaded and the future bookings have reached
      `maximum_future_bookings`. Without rules there is no cap. */
  predicate AtCap(rules: Option<Rules>, futureBookings: int) {
    rules.Some? && futureBookings >= rules.value.maximumFutureBookings
  }

  /** `(start - now) / 3600000 <= last_minute_booking_hours`, stated on
      integers. Without rules nothing is last-minute; a start in the past
      always is. */
  predicate IsLastMinute(rules: Option<Rules>, start: int, now: int) {
    rules.Some? && start - now <= rules.value.lastMinuteBookingHours * MS_PER_HOUR
  }

  /** The window's edges: a start exactly `hours` ahead is last-minute, one
      a millisecond later is not, and every start up to now is, provided
      the window is not negative. */
  lemma LastMinuteEdges(rules: Rules, now: int, start: int)
    ensures IsLastMinute(Some(rules), now + rules.lastMinuteBookingHours * MS_PER_HOUR, now)
    ensures !IsLastMinute(Some(rules), now + rules.lastMinuteBookingHours * MS_PER_HOUR + 1, now)
    ensures rules.lastMinuteBookingHours >= 0 && start <= now ==> IsLastMinute(Some(rules), start, now)
    ensures !IsLastMinute(None, start, now)
  {
  }

  /** What the client's booking gate decides: open the confirmation, or
      show one of its two refusal toasts. */
  datatype BookSpaceOutcome = OpenConfirm | FoodTruckNotFound | MaximumBookingsReached

  /** The gate of `handleBookSpace` (booking page) and `handleBookSlot`
      (available-slots dialog). `slotStart` is the instant tested for the
      last-minute window (`None` when the time does not parse, which is never
      last-minute). */
  function BookSpaceGate(hasFoodTruck: bool, rules: Option<Rules>, futureBookings: int,
                         slotStart: Option<int>, now: int): (g: BookSpaceOutcome)
    ensures !hasFoodTruck ==> g == FoodTruckNotFound
    ensures hasFoodTruck && !AtCap(rules, futureBookings) ==> g == OpenConfirm
    ensures hasFoodTruck && AtCap(rules, futureBookings) ==>
              (g == OpenConfirm <==> slotStart.Some? && IsLastMinute(rules, slotStart.value, now))
    ensures g == OpenConfirm || g == FoodTruckNotFound || g == MaximumBookingsReached
  {
    if !hasFoodTruck then FoodTruckNotFound
    else if AtCap(rules, futureBookings) &&
            !(slotStart.Some? && IsLastMinute(rules, slotStart.value, now))
    then MaximumBookingsReached
    else OpenConfirm
  }

  /** The closed overlap test of the available-slots dialog:
      `bookingStart <= slotEnd && bookingEnd >= slotStart`. */
  predicate OverlapsClosed(bookingStart: int, bookingEnd: int, slotStart: int, slotEnd: int) {
    bookingStart <= slotEnd && bookingEnd >= slotStart
  }
}
