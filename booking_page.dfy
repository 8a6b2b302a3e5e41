/** The booking page: one selected day, the spaces' time slots on that
    day, and the bookings fetched for it. A slot counts as booked when a
    booking of the same space overlaps it under the half-open test, so
    back-to-back bookings do not collide. */
module BookingPage {
  import opened Common
  import opened Clock
  import opened Policy

  /** The first two entries of a split, as `slice(0, 2)` takes them. */
  function TakeTwo(parts: seq<string>): (r: seq<string>)
    ensures |r| == if |parts| < 2 then |parts| else 2
    ensures r <= parts
  {
    if |parts| < 2 then parts else parts[..2]
  }

  /** `formatTimeString`: keeps the first two `:`-separated fields of a
      time that contains a colon; returns any other string unchanged. */
  function FormatTimeString(s: string): string {
    if ':' in s then Join(TakeTwo(Split(s, ':')), ':') else s
  }

  /** The fields of the formatted string are the first two fields of the
      original; a string without a colon comes back unchanged. */
  lemma {:induction false} FormatTimeStringFields(s: string)
    ensures Split(FormatTimeString(s), ':') == TakeTwo(Split(s, ':'))
    ensures ':' !in s ==> FormatTimeString(s) == s
  {
    if ':' in s {
      SplitJoin(TakeTwo(Split(s, ':')), ':');
    } else {
      SplitNoSeparator(s, ':');
    }
  }

  /** Formatting twice is formatting once, and formatting does not
      change the hours and minutes the page reads from the slot. */
  lemma {:induction false} FormatTimeStringStable(s: string)
    ensures FormatTimeString(FormatTimeString(s)) == FormatTimeString(s)
    ensures ClockFields(FormatTimeString(s)) == ClockFields(s)
  {
    FormatTimeStringFields(s);
    var f := FormatTimeString(s);
    FormatTimeStringFields(f);
    if ':' in f {
      assert TakeTwo(Split(f, ':')) == Split(f, ':');
      JoinSplit(f, ':');
    }
  }

  /** A time with seconds loses them: `HH:MM:SS` becomes `HH:MM`. */
  lemma {:induction false} FormatTimeStringDropsSeconds(h: string, m: string, sec: string)
    requires ':' !in h && ':' !in m && ':' !in sec
    ensures FormatTimeString(h + ":" + m + ":" + sec) == h + ":" + m
  {
    var s := h + ":" + m + ":" + sec;
    assert s == h + [':'] + (m + [':'] + sec);
    SplitPrepend(h, m + [':'] + sec, ':');
    SplitPrepend(m, sec, ':');
    SplitNoSeparator(sec, ':');
    assert s[|h|] == ':';
    assert TakeTwo(Split(s, ':')) == [h, m];
    assert [h, m][1..] == [m];
    assert Join([h, m], ':') == h + [':'] + m;
  }

  /** The slot's start and end on the selected day, or `None` when either
      time does not parse (an invalid date, which then matches nothing). */
  function SlotBounds(day: int, slot: TimeSlot): (r: Option<(int, int)>)
    ensures r.Some? <==> SetHours(day, FormatTimeString(slot.start)).Some? &&
                         SetHours(day, FormatTimeString(slot.end)).Some?
  {
    var s := SetHours(day, FormatTimeString(slot.start));
    var e := SetHours(day, FormatTimeString(slot.end));
    if s.Some? && e.Some? then Some((s.value, e.value)) else None
  }

  /** The page's overlap test: `bookingStart < slotEnd && bookingEnd > slotStart`. */
  predicate OverlapsStrict(bookingStart: int, bookingEnd: int, slotStart: int, slotEnd: int) {
    bookingStart < slotEnd && bookingEnd > slotStart
  }

  /** A booking marks the slot: its start and end are truthy (a `null`
      start is skipped here) and valid dates, its space is the slot's, and
      the intervals overlap strictly. */
  predicate Marks(b: Booking, spaceId: string, slotStart: int, slotEnd: int) {
    Truthy(b.start) && Truthy(b.end) && b.space == Some(spaceId) &&
    DateOf(b.start).Some? && DateOf(b.end).Some? &&
    OverlapsStrict(DateOf(b.start).value, DateOf(b.end).value, slotStart, slotEnd)
  }

  /** `isSpaceBooked(spaceId, timeSlot)` on the selected day. */
  function IsSpaceBooked(bookings: seq<Booking>, spaceId: string, day: int, slot: TimeSlot): (r: bool)
    ensures bookings == [] ==> !r
    ensures r <==> SlotBounds(day, slot).Some? &&
                   exists i | 0 <= i < |bookings| ::
                     Marks(bookings[i], spaceId, SlotBounds(day, slot).value.0, SlotBounds(day, slot).value.1)
  {
    if |bookings| == 0 then false
    else match SlotBounds(day, slot)
      case None => false
      case Some((ss, se)) => Any(bookings, b => Marks(b, spaceId, ss, se))
  }

  /** `getBookingDetails`: the first booking, in list order, that marks the slot. */
  function GetBookingDetails(bookings: seq<Booking>, spaceId: string, day: int, slot: TimeSlot): Option<Booking> {
    if |bookings| == 0 then None
    else match SlotBounds(day, slot)
      case None => None
      case Some((ss, se)) => FindFirst(bookings, b => Marks(b, spaceId, ss, se))
  }

  /** The details lookup finds a booking exactly when the slot is booked,
      and what it finds is the first booking that marks the slot. */
  lemma {:induction false} DetailsIffBooked(bookings: seq<Booking>, spaceId: string, day: int, slot: TimeSlot)
    ensures GetBookingDetails(bookings, spaceId, day, slot).Some? <==> IsSpaceBooked(bookings, spaceId, day, slot)
    ensures GetBookingDetails(bookings, spaceId, day, slot).Some? ==>
              var ss, se := SlotBounds(day, slot).value.0, SlotBounds(day, slot).value.1;
              exists k | 0 <= k < |bookings| ::
                bookings[k] == GetBookingDetails(bookings, spaceId, day, slot).value &&
                Marks(bookings[k], spaceId, ss, se) &&
                forall j | 0 <= j < k :: !Marks(bookings[j], spaceId, ss, se)
  {
    if |bookings| > 0 && SlotBounds(day, slot).Some? {
      var ss, se := SlotBounds(day, slot).value.0, SlotBounds(day, slot).value.1;
      var r := FindFirst(bookings, b => Marks(b, spaceId, ss, se));
      if r.None? {
        assert forall i | 0 <= i < |bookings| :: !Marks(bookings[i], spaceId, ss, se);
      }
    }
  }

  /** A booking of the same space that ends exactly when the slot starts,
      or starts exactly when it ends, does not mark the slot; one that
      reaches a millisecond into it does. */
  lemma {:induction false} StrictOverlapBoundary(b: Booking, spaceId: string, day: int, slot: TimeSlot)
    requires SlotBounds(day, slot).Some?
    requires b.space == Some(spaceId)
    ensures var (ss, se) := SlotBounds(day, slot).value;
            && !IsSpaceBooked([b.(start := Text(Some(ss - MS_PER_HOUR)), end := Text(Some(ss)))], spaceId, day, slot)
            && !IsSpaceBooked([b.(start := Text(Some(se)), end := Text(Some(se + MS_PER_HOUR)))], spaceId, day, slot)
            && (ss < se ==> IsSpaceBooked([b.(start := Text(Some(ss - MS_PER_HOUR)), end := Text(Some(ss + 1)))], spaceId, day, slot))
  {
    var (ss, se) := SlotBounds(day, slot).value;
    var into := b.(start := Text(Some(ss - MS_PER_HOUR)), end := Text(Some(ss + 1)));
    if ss < se {
      assert Marks([into][0], spaceId, ss, se);
    }
  }

  /** Appending a booking of another space, or one whose start or end is
      `null`, absent or not a date, never changes whether a slot is booked. */
  lemma {:induction false} OnlySameSpaceCounts(bookings: seq<Booking>, b: Booking, spaceId: string, day: int, slot: TimeSlot)
    requires b.space != Some(spaceId) || !Truthy(b.start) || !Truthy(b.end) ||
             DateOf(b.start).None? || DateOf(b.end).None?
    ensures IsSpaceBooked(bookings + [b], spaceId, day, slot) == IsSpaceBooked(bookings, spaceId, day, slot)
  {
    var all := bookings + [b];
    if SlotBounds(day, slot).Some? {
      var (ss, se) := SlotBounds(day, slot).value;
      assert !Marks(all[|bookings|], spaceId, ss, se);
      forall i | 0 <= i < |bookings| ensures all[i] == bookings[i] { }
    }
  }

  // -----------------------------------------------------------------------
  // Starting a booking: the client-side gate
  // -----------------------------------------------------------------------

  /** The page's booking-dialog state. */
  class BookingPageState {
    var bookingSpace: Option<Space>
    var bookingTimeSlot: Option<TimeSlot>
    var showBookingConfirm: bool

    constructor ()
      ensures bookingSpace == None && bookingTimeSlot == None && !showBookingConfirm
    {
      bookingSpace := None;
      bookingTimeSlot := None;
      showBookingConfirm := false;
    }

    /** `handleBookSpace(space, timeSlot)`: on the gate's approval the
        dialog opens with this space and slot; otherwise nothing changes. */
    method HandleBookSpace(space: Space, slot: TimeSlot, userFoodTruck: Option<string>,
                           rules: Option<Rules>, futureBookings: int, day: int, now: int)
      returns (outcome: BookSpaceOutcome)
      modifies this
      ensures outcome == BookSpaceGate(userFoodTruck.Some?, rules, futureBookings,
                                       SetHours(day, FormatTimeString(slot.start)), now)
      ensures outcome == OpenConfirm ==>
                bookingSpace == Some(space) && bookingTimeSlot == Some(slot) && showBookingConfirm
      ensures outcome != OpenConfirm ==>
                bookingSpace == old(bookingSpace) && bookingTimeSlot == old(bookingTimeSlot) &&
                showBookingConfirm == old(showBookingConfirm)
    {
      if userFoodTruck.None? {
        return FoodTruckNotFound;
      }
      if AtCap(rules, futureBookings) {
        var start := SetHours(day, FormatTimeString(slot.start));
        if !(start.Some? && IsLastMinute(rules, start.value, now)) {
          return MaximumBookingsReached;
        }
      }
      bookingSpace := Some(space);
      bookingTimeSlot := Some(slot);
      showBookingConfirm := true;
      return OpenConfirm;
    }

    /** `cancelBooking`: closes the dialog and forgets the chosen slot. */
    method CancelBooking()
      modifies this
      ensures !showBookingConfirm && bookingSpace == None && bookingTimeSlot == None
    {
      showBookingConfirm := false;
      bookingSpace := None;
      bookingTimeSlot := None;
    }
  }

  // -----------------------------------------------------------------------
  // The date picker's disabled days
  // -----------------------------------------------------------------------

  /** `disabled={{ before: now, after: now + maximum_days_ahead days }}`:
      days before today are disabled; with rules loaded, so are days after
      the last allowed one. */
  predicate IsDateDisabled(date: int, now: int, rules: Option<Rules>) {
    DayOf(date) < DayOf(now) ||
    (rules.Some? && DayOf(date) > DayOf(now) + rules.value.maximumDaysAhead)
  }

  /** Today and the last allowed day are selectable; without rules no day
      from today on is disabled. */
  lemma {:induction false} DisabledWindowEdges(now: int, rules: Rules)
    requires rules.maximumDaysAhead >= 0
    ensures !IsDateDisabled(now, now, Some(rules))
    ensures !IsDateDisabled(now + rules.maximumDaysAhead * MS_PER_DAY, now, Some(rules))
    ensures IsDateDisabled(now + (rules.maximumDaysAhead + 1) * MS_PER_DAY, now, Some(rules))
    ensures IsDateDisabled(now - MS_PER_DAY, now, Some(rules))
    ensures forall k: nat :: !IsDateDisabled(now + k * MS_PER_DAY, now, None)
  {
    DayOfShift(now, rules.maximumDaysAhead);
    DayOfShift(now, rules.maximumDaysAhead + 1);
    DayOfShift(now, -1);
    forall k: nat ensures DayOf(now + k * MS_PER_DAY) == DayOf(now) + k {
      DayOfShift(now, k);
    }
  }
}
