/** The weekly booking calendar: one row per space and fixed time slot,
    one column per day of the range. A cell shows the user's own booking,
    another vendor's booking, or a free slot. Slot instants come from
    `setHours` on the day (`Clock.SetHours`); the overlap test is written
    as two disjuncts that say the same thing. */
module Calendar {
  import opened Common
  import opened Clock
  import opened Policy

  /** An entry of `TIME_SLOTS`. */
  datatype CalendarSlot = CalendarSlot(name: string, start: string, end: string)

  const MORNING := CalendarSlot("Morning (08:00 - 15:00)", "08:00", "15:00")
  const EVENING := CalendarSlot("Evening (15:00 - 22:00)", "15:00", "22:00")
  const TIME_SLOTS := [MORNING, EVENING]

  // -----------------------------------------------------------------------
  // The date range
  // -----------------------------------------------------------------------

  /** The `while` loop: from `startDate`, one day at a time, while not
      past `endDate`. */
  method DateRange(startDate: int, endDate: int) returns (dates: seq<int>)
    ensures forall i | 0 <= i < |dates| :: dates[i] == startDate + i * MS_PER_DAY
    ensures forall i | 0 <= i < |dates| :: dates[i] <= endDate
    ensures startDate + |dates| * MS_PER_DAY > endDate
  {
    dates := [];
    var currentDate := startDate;
    while currentDate <= endDate
      invariant currentDate == startDate + |dates| * MS_PER_DAY
      invariant forall i | 0 <= i < |dates| :: dates[i] == startDate + i * MS_PER_DAY
      invariant forall i | 0 <= i < |dates| :: dates[i] <= endDate
      decreases endDate - currentDate
    {
      dates := dates + [currentDate];
      currentDate := currentDate + MS_PER_DAY;
    }
  }

  /** How many days the range holds: none when the start is after the
      end, else every whole day from the start up to the end, inclusive. */
  function RangeLength(startDate: int, endDate: int): nat {
    if startDate > endDate then 0 else (endDate - startDate) / MS_PER_DAY + 1
  }

  /** Any list of dates with the loop's properties has exactly
      `RangeLength` entries, so the range is empty iff start > end. */
  lemma {:induction false} DateRangeLength(startDate: int, endDate: int, dates: seq<int>)
    requires forall i | 0 <= i < |dates| :: dates[i] == startDate + i * MS_PER_DAY
    requires forall i | 0 <= i < |dates| :: dates[i] <= endDate
    requires startDate + |dates| * MS_PER_DAY > endDate
    ensures |dates| == RangeLength(startDate, endDate)
    ensures dates == [] <==> startDate > endDate
  {
    var n := |dates|;
    if n > 0 {
      assert dates[n - 1] == startDate + (n - 1) * MS_PER_DAY <= endDate;
      DivUnique(n - 1, endDate - startDate);
    }
  }

  /** `a` days and a part of a day make `a` whole days. */
  lemma DivUnique(a: int, x: int)
    requires a * MS_PER_DAY <= x < (a + 1) * MS_PER_DAY
    ensures x / MS_PER_DAY == a
  {
  }

  // -----------------------------------------------------------------------
  // Looking up a cell's booking
  // -----------------------------------------------------------------------

  /** The slot's start and end on `date`, through `setHours`. */
  function CellBounds(date: int, slot: CalendarSlot): (r: Option<(int, int)>)
    ensures r.Some? <==> SetHours(date, slot.start).Some? && SetHours(date, slot.end).Some?
  {
    var s, e := SetHours(date, slot.start), SetHours(date, slot.end);
    if s.Some? && e.Some? then Some((s.value, e.value)) else None
  }

  /** The calendar's overlap test, as written: two disjuncts. */
  predicate OverlapsEitherWay(bookingStart: int, bookingEnd: int, slotStart: int, slotEnd: int) {
    (bookingStart <= slotEnd && bookingEnd >= slotStart) ||
    (slotStart <= bookingEnd && slotEnd >= bookingStart)
  }

  /** The two disjuncts are the same test, the closed one. */
  lemma OverlapDisjunctsAgree(bookingStart: int, bookingEnd: int, slotStart: int, slotEnd: int)
    ensures OverlapsEitherWay(bookingStart, bookingEnd, slotStart, slotEnd) ==
            OverlapsClosed(bookingStart, bookingEnd, slotStart, slotEnd)
  {
  }

  /** A booking falls in the cell: same space, a start and an end, and an
      overlap. A booking without a space makes `booking.space.id` throw;
      here it matches nothing. */
  predicate InCell(b: Booking, spaceId: string, slotStart: int, slotEnd: int) {
    b.space == Some(spaceId) && DateOf(b.start).Some? && DateOf(b.end).Some? &&
    OverlapsEitherWay(DateOf(b.start).value, DateOf(b.end).value, slotStart, slotEnd)
  }

  /** In the cell and made by the truck `truckId`. */
  predicate MineInCell(b: Booking, truckId: string, spaceId: string, slotStart: int, slotEnd: int) {
    InCell(b, spaceId, slotStart, slotEnd) && b.foodtruck == Some(truckId)
  }

  /** `isSlotBooked(spaceId, timeSlot, date)`. */
  function IsSlotBooked(bookings: seq<Booking>, spaceId: string, slot: CalendarSlot, date: int): (r: bool)
    ensures r <==> CellBounds(date, slot).Some? &&
                   exists i | 0 <= i < |bookings| ::
                     InCell(bookings[i], spaceId, CellBounds(date, slot).value.0, CellBounds(date, slot).value.1)
  {
    match CellBounds(date, slot)
    case None => false
    case Some((ss, se)) => Any(bookings, b => InCell(b, spaceId, ss, se))
  }

  /** `getBookingId`: the id of the first booking in the cell, if any. */
  function GetBookingId(bookings: seq<Booking>, spaceId: string, slot: CalendarSlot, date: int): (r: Option<string>)
    ensures r.None? <==> !IsSlotBooked(bookings, spaceId, slot, date)
    ensures r.Some? ==> exists k | 0 <= k < |bookings| ::
              bookings[k].id == r.value &&
              InCell(bookings[k], spaceId, CellBounds(date, slot).value.0, CellBounds(date, slot).value.1) &&
              forall j | 0 <= j < k ::
                !InCell(bookings[j], spaceId, CellBounds(date, slot).value.0, CellBounds(date, slot).value.1)
  {
    match CellBounds(date, slot)
    case None => None
    case Some((ss, se)) =>
      var found := FindFirst(bookings, b => InCell(b, spaceId, ss, se));
      if found.Some? then Some(found.value.id) else None
  }

  /** `isSlotBookedByMe`: without a truck, `false` (`None`); otherwise the
      id of the first of the truck's own bookings in the cell. */
  function IsSlotBookedByMe(bookings: seq<Booking>, foodTruck: Option<FoodTruck>, spaceId: string,
                            slot: CalendarSlot, date: int): (r: Option<string>)
    ensures foodTruck.None? ==> r.None?
    ensures r.Some? ==> IsSlotBooked(bookings, spaceId, slot, date)
    ensures r.Some? ==> exists k | 0 <= k < |bookings| ::
              bookings[k].id == r.value &&
              MineInCell(bookings[k], foodTruck.value.id, spaceId,
                         CellBounds(date, slot).value.0, CellBounds(date, slot).value.1) &&
              forall j | 0 <= j < k ::
                !MineInCell(bookings[j], foodTruck.value.id, spaceId,
                            CellBounds(date, slot).value.0, CellBounds(date, slot).value.1)
    ensures r.None? && foodTruck.Some? && CellBounds(date, slot).Some? ==>
              forall k | 0 <= k < |bookings| ::
                !MineInCell(bookings[k], foodTruck.value.id, spaceId,
                            CellBounds(date, slot).value.0, CellBounds(date, slot).value.1)
  {
    if foodTruck.None? then None
    else match CellBounds(date, slot)
      case None => None
      case Some((ss, se)) =>
        var found := FindFirst(bookings, b => MineInCell(b, foodTruck.value.id, spaceId, ss, se));
        if found.Some? then
          assert IsSlotBooked(bookings, spaceId, slot, date) by {
            var k :| 0 <= k < |bookings| && bookings[k] == found.value &&
                     MineInCell(bookings[k], foodTruck.value.id, spaceId, ss, se);
            assert InCell(bookings[k], spaceId, ss, se);
          }
          Some(found.value.id)
        else None
  }

  const ANOTHER_VENDOR := "Another vendor"

  /** `getBusinessName`: the truck name of the first booking in the cell,
      or "Another vendor" when there is none, it has no truck, or the
      name is missing or empty. */
  function GetBusinessName(bookings: seq<Booking>, spaceId: string, slot: CalendarSlot, date: int): (r: string)
    ensures !IsSlotBooked(bookings, spaceId, slot, date) ==> r == ANOTHER_VENDOR
    ensures r != ANOTHER_VENDOR ==> exists k | 0 <= k < |bookings| ::
              bookings[k].foodtruck.Some? && bookings[k].foodtruckName == Some(r) && r != "" &&
              InCell(bookings[k], spaceId, CellBounds(date, slot).value.0, CellBounds(date, slot).value.1)
    ensures IsSlotBooked(bookings, spaceId, slot, date) ==> exists k | 0 <= k < |bookings| ::
              InCell(bookings[k], spaceId, CellBounds(date, slot).value.0, CellBounds(date, slot).value.1) &&
              (forall j | 0 <= j < k ::
                 !InCell(bookings[j], spaceId, CellBounds(date, slot).value.0, CellBounds(date, slot).value.1)) &&
              r == if bookings[k].foodtruck.Some? && bookings[k].foodtruckName.Some? &&
                      bookings[k].foodtruckName.value != ""
                   then bookings[k].foodtruckName.value else ANOTHER_VENDOR
  {
    match CellBounds(date, slot)
    case None => ANOTHER_VENDOR
    case Some((ss, se)) =>
      var found := FindFirst(bookings, b => InCell(b, spaceId, ss, se));
      if found.Some? && found.value.foodtruck.Some? && found.value.foodtruckName.Some? &&
         found.value.foodtruckName.value != ""
      then found.value.foodtruckName.value
      else ANOTHER_VENDOR
  }

  /** What a cell shows. A cell showing the user's booking carries the id
      its Cancel button passes to `removeBookingFromLocalState` and to
      `onCancelClick`. */
  datatype Cell = YourBooking(cancelId: string) | Booked(businessName: string) | Available

  /** The cell as written: the user's own booking first, then any booking,
      then free. `isMyBooking` is tested for truthiness, so an own booking
      with an empty id shows as another vendor's. The label comes from
      `isSlotBookedByMe`, but Cancel acts on `bookingId`, which is
      `getBookingId`'s: the first booking in the cell, of any truck. */
  function CellState(bookings: seq<Booking>, foodTruck: Option<FoodTruck>, spaceId: string,
                     slot: CalendarSlot, date: int): Cell
  {
    var mine := IsSlotBookedByMe(bookings, foodTruck, spaceId, slot, date);
    if mine.Some? && mine.value != "" then YourBooking(GetBookingId(bookings, spaceId, slot, date).value)
    else if IsSlotBooked(bookings, spaceId, slot, date) then Booked(GetBusinessName(bookings, spaceId, slot, date))
    else Available
  }

  /** Priority mine > booked > available: a cell is free exactly when no
      booking is in it; it shows the user's booking exactly when the first
      of the truck's bookings in it has a non-empty id, and Cancel then
      acts on the first booking in the cell, whichever truck made it;
      otherwise a booked cell shows the business name; without a truck it
      never shows the user's booking. */
  lemma {:induction false} CellPriority(bookings: seq<Booking>, foodTruck: Option<FoodTruck>, spaceId: string,
                                        slot: CalendarSlot, date: int)
    ensures CellState(bookings, foodTruck, spaceId, slot, date) == Available <==>
            !IsSlotBooked(bookings, spaceId, slot, date)
    ensures CellState(bookings, foodTruck, spaceId, slot, date).YourBooking? <==>
            IsSlotBookedByMe(bookings, foodTruck, spaceId, slot, date).Some? &&
            IsSlotBookedByMe(bookings, foodTruck, spaceId, slot, date).value != ""
    ensures CellState(bookings, foodTruck, spaceId, slot, date).YourBooking? ==>
            foodTruck.Some? && IsSlotBooked(bookings, spaceId, slot, date) &&
            GetBookingId(bookings, spaceId, slot, date) ==
              Some(CellState(bookings, foodTruck, spaceId, slot, date).cancelId)
    ensures CellState(bookings, foodTruck, spaceId, slot, date).Booked? ==>
            IsSlotBooked(bookings, spaceId, slot, date) &&
            CellState(bookings, foodTruck, spaceId, slot, date).businessName ==
              GetBusinessName(bookings, spaceId, slot, date)
    ensures foodTruck.None? ==> !CellState(bookings, foodTruck, spaceId, slot, date).YourBooking?
    ensures foodTruck.Some? && CellBounds(date, slot).Some? ==>
              forall k | 0 <= k < |bookings| &&
                         MineInCell(bookings[k], foodTruck.value.id, spaceId, CellBounds(date, slot).value.0,
                                    CellBounds(date, slot).value.1) &&
                         (forall j | 0 <= j < k ::
                            !MineInCell(bookings[j], foodTruck.value.id, spaceId, CellBounds(date, slot).value.0,
                                        CellBounds(date, slot).value.1)) ::
                (bookings[k].id != "" ==> CellState(bookings, foodTruck, spaceId, slot, date).YourBooking?) &&
                (bookings[k].id == "" ==> CellState(bookings, foodTruck, spaceId, slot, date).Booked?)
  {
  }

  /** The evening cell of a day where another vendor's morning booking,
      listed first, ends at 15:00 and the truck's own evening booking
      starts then: both are in the cell. */
  function OverlapWitness(truck: FoodTruck, other: string, spaceId: string, date: int): seq<Booking> {
    [Booking("a", Some(spaceId), Some(other), None,
             Text(SetHours(date, MORNING.start)), Text(SetHours(date, MORNING.end))),
     Booking("b", Some(spaceId), Some(truck.id), None,
             Text(SetHours(date, EVENING.start)), Text(SetHours(date, EVENING.end)))]
  }

  /** Both witness bookings are in the evening cell, and only the second
      is the truck's. */
  lemma {:induction false} WitnessInCell(truck: FoodTruck, other: string, spaceId: string, date: int)
    requires other != truck.id
    ensures CellBounds(date, EVENING).Some?
    ensures var bookings, (ss, se) := OverlapWitness(truck, other, spaceId, date), CellBounds(date, EVENING).value;
            && InCell(bookings[0], spaceId, ss, se)
            && !MineInCell(bookings[0], truck.id, spaceId, ss, se)
            && MineInCell(bookings[1], truck.id, spaceId, ss, se)
  {
    ClockFieldsPadded("08:00");
    ClockFieldsPadded("15:00");
    ClockFieldsPadded("22:00");
  }

  /** As written, Cancel acts on the first booking in the cell even when
      another truck made it: with another vendor's booking `x` listed
      before the truck's own `y`, the cell is the truck's, but Cancel
      carries `x`'s id, and the local removal drops `x` and keeps `y`. */
  lemma {:induction false} CancelTargetsFirstInCell(x: Booking, y: Booking, truck: FoodTruck, spaceId: string,
                                                    slot: CalendarSlot, date: int)
    requires CellBounds(date, slot).Some?
    requires InCell(x, spaceId, CellBounds(date, slot).value.0, CellBounds(date, slot).value.1)
    requires x.foodtruck != Some(truck.id)
    requires MineInCell(y, truck.id, spaceId, CellBounds(date, slot).value.0, CellBounds(date, slot).value.1)
    requires y.id != "" && x.id != y.id
    ensures IsSlotBookedByMe([x, y], Some(truck), spaceId, slot, date) == Some(y.id)
    ensures CellState([x, y], Some(truck), spaceId, slot, date) == YourBooking(x.id)
    ensures Without([x, y], x.id) == [y]
  {
    var bookings := [x, y];
    var (ss, se) := CellBounds(date, slot).value;
    var mine := IsSlotBookedByMe(bookings, Some(truck), spaceId, slot, date);
    assert MineInCell(bookings[1], truck.id, spaceId, ss, se);
    assert mine.Some?;
    assert mine == Some(y.id);
    assert InCell(bookings[0], spaceId, ss, se);
    assert GetBookingId(bookings, spaceId, slot, date) == Some(x.id);
    assert bookings[1..] == [y] && [y][1..] == [];
  }

  /** The concrete case: another vendor's morning booking "a", listed
      before the truck's own evening booking "b", puts both in the evening
      cell, and its Cancel removes "a"; the corrected cell cancels "b". */
  lemma {:induction false} CancelTargetsOtherVendor(truck: FoodTruck, other: string, spaceId: string, date: int)
    requires other != truck.id
    ensures var bookings := OverlapWitness(truck, other, spaceId, date);
            && IsSlotBookedByMe(bookings, Some(truck), spaceId, EVENING, date) == Some("b")
            && CellState(bookings, Some(truck), spaceId, EVENING, date) == YourBooking("a")
            && bookings[0].foodtruck != Some(truck.id)
            && Without(bookings, "a") == [bookings[1]]
            && CellStateIntended(bookings, Some(truck), spaceId, EVENING, date) == YourBooking("b")
  {
    var bookings := OverlapWitness(truck, other, spaceId, date);
    WitnessInCell(truck, other, spaceId, date);
    CancelTargetsFirstInCell(bookings[0], bookings[1], truck, spaceId, EVENING, date);
    assert bookings == [bookings[0], bookings[1]];
  }

  /** The cell as evidently intended: the same label and colours, but
      Cancel acts on the user's own booking, the id `isSlotBookedByMe`
      found. */
  function CellStateIntended(bookings: seq<Booking>, foodTruck: Option<FoodTruck>, spaceId: string,
                             slot: CalendarSlot, date: int): (c: Cell)
    ensures c.YourBooking? <==> CellState(bookings, foodTruck, spaceId, slot, date).YourBooking?
    ensures !c.YourBooking? ==> c == CellState(bookings, foodTruck, spaceId, slot, date)
  {
    match CellState(bookings, foodTruck, spaceId, slot, date)
    case YourBooking(_) => YourBooking(IsSlotBookedByMe(bookings, foodTruck, spaceId, slot, date).value)
    case other => other
  }

  /** With the intended cell, Cancel acts only on the truck's own booking:
      the id is that of the first of the truck's bookings in the cell, and
      when ids are unique every booking the local removal drops is the
      truck's own. In the witness it cancels "b". */
  lemma {:induction false} IntendedCancelIsOwn(bookings: seq<Booking>, foodTruck: Option<FoodTruck>, spaceId: string,
                                               slot: CalendarSlot, date: int)
    requires forall i, j | 0 <= i < j < |bookings| :: bookings[i].id != bookings[j].id
    ensures CellStateIntended(bookings, foodTruck, spaceId, slot, date).YourBooking? ==>
              foodTruck.Some? && CellBounds(date, slot).Some? &&
              exists k | 0 <= k < |bookings| ::
                bookings[k].id == CellStateIntended(bookings, foodTruck, spaceId, slot, date).cancelId &&
                MineInCell(bookings[k], foodTruck.value.id, spaceId, CellBounds(date, slot).value.0,
                           CellBounds(date, slot).value.1)
    ensures CellStateIntended(bookings, foodTruck, spaceId, slot, date).YourBooking? ==>
              forall b | b in bookings &&
                         b !in Without(bookings, CellStateIntended(bookings, foodTruck, spaceId, slot, date).cancelId) ::
                b.foodtruck == Some(foodTruck.value.id)
  {
  }

  /** With the fixed slots, a booking of the whole morning slot also marks
      the evening slot of the same day: it ends at 15:00, the instant the
      evening starts, and the test is closed. */
  lemma {:induction false} MorningMarksEvening(b: Booking, spaceId: string, date: int)
    requires b.space == Some(spaceId)
    requires DateOf(b.start) == SetHours(date, MORNING.start) && DateOf(b.end) == SetHours(date, MORNING.end)
    ensures IsSlotBooked([b], spaceId, MORNING, date)
    ensures IsSlotBooked([b], spaceId, EVENING, date)
  {
    ClockFieldsPadded("08:00");
    ClockFieldsPadded("15:00");
    ClockFieldsPadded("22:00");
    assert InCell([b][0], spaceId, CellBounds(date, EVENING).value.0, CellBounds(date, EVENING).value.1);
    assert InCell([b][0], spaceId, CellBounds(date, MORNING).value.0, CellBounds(date, MORNING).value.1);
  }

  // -----------------------------------------------------------------------
  // The optimistic local list
  // -----------------------------------------------------------------------

  /** The temporary booking `addBookingToLocalState` appends; `stamp` is
      `Date.now()`. */
  function TempBooking(spaceId: string, slot: CalendarSlot, date: int, foodTruckId: string, stamp: int): Booking {
    Booking("temp-" + IntToString(stamp), Some(spaceId), Some(foodTruckId), None,
            Text(SetHours(date, slot.start)), Text(SetHours(date, slot.end)))
  }

  /** `bookings.filter(booking => booking.id !== bookingId)`. */
  function Without(bookings: seq<Booking>, bookingId: string): (r: seq<Booking>)
    ensures forall b :: b in r <==> b in bookings && b.id != bookingId
    ensures IsSubsequence(r, bookings)
  {
    FilterIsSubsequence(bookings, (b: Booking) => b.id != bookingId);
    Filter(bookings, (b: Booking) => b.id != bookingId)
  }

  /** Removal keeps every booking of another id as often as the list holds it. */
  lemma WithoutCounts(bookings: seq<Booking>, bookingId: string)
    ensures forall b :: multiset(Without(bookings, bookingId))[b] == if b.id != bookingId then multiset(bookings)[b] else 0
  {
    FilterCounts(bookings, (b: Booking) => b.id != bookingId);
  }

  /** The calendar's `bookings` state. */
  class CalendarBookings {
    var bookings: seq<Booking>

    constructor ()
      ensures bookings == []
    {
      bookings := [];
    }

    /** `addBookingToLocalState`. `toISOString` throws on an invalid date,
        so a slot time that does not parse appends nothing. */
    method AddBookingToLocalState(spaceId: string, slot: CalendarSlot, date: int, foodTruckId: string, stamp: int)
      modifies this
      ensures CellBounds(date, slot).Some? ==>
                bookings == old(bookings) + [TempBooking(spaceId, slot, date, foodTruckId, stamp)]
      ensures CellBounds(date, slot).None? ==> bookings == old(bookings)
    {
      var slotStart := SetHours(date, slot.start);
      var slotEnd := SetHours(date, slot.end);
      if slotStart.None? || slotEnd.None? {
        return;
      }
      bookings := bookings + [TempBooking(spaceId, slot, date, foodTruckId, stamp)];
    }

    /** `removeBookingFromLocalState`. */
    method RemoveBookingFromLocalState(bookingId: string)
      modifies this
      ensures bookings == Without(old(bookings), bookingId)
    {
      bookings := Without(bookings, bookingId);
    }
  }

  /** After the optimistic add of a slot whose start is not after its end,
      the cell is booked and, for that truck, its own. */
  lemma {:induction false} AddedSlotIsMine(bookings: seq<Booking>, spaceId: string, slot: CalendarSlot, date: int,
                                           truck: FoodTruck, stamp: int)
    requires CellBounds(date, slot).Some? && CellBounds(date, slot).value.0 <= CellBounds(date, slot).value.1
    ensures var after := bookings + [TempBooking(spaceId, slot, date, truck.id, stamp)];
            IsSlotBooked(after, spaceId, slot, date) &&
            IsSlotBookedByMe(after, Some(truck), spaceId, slot, date).Some?
  {
    var after := bookings + [TempBooking(spaceId, slot, date, truck.id, stamp)];
    var (ss, se) := CellBounds(date, slot).value;
    assert MineInCell(after[|bookings|], truck.id, spaceId, ss, se);
  }

  /** After the optimistic removal no booking with that id is left, and the
      bookings of other ids are kept, in order. */
  lemma {:induction false} RemovedIdIsGone(bookings: seq<Booking>, bookingId: string, spaceId: string,
                                           slot: CalendarSlot, date: int)
    ensures GetBookingId(Without(bookings, bookingId), spaceId, slot, date) != Some(bookingId)
    ensures IsSubsequence(Without(bookings, bookingId), bookings)
  {
    var rest := Without(bookings, bookingId);
    var r := GetBookingId(rest, spaceId, slot, date);
    if r.Some? {
      var k :| 0 <= k < |rest| && rest[k].id == r.value &&
               InCell(rest[k], spaceId, CellBounds(date, slot).value.0, CellBounds(date, slot).value.1);
      assert rest[k] in rest;
    }
  }
}
