/** The available-slots dialog of a space: it lists, for the next days,
    every time slot of the space that no booking overlaps, lets the user
    pick one (subject to the client's booking gate) and sends it to
    `createBooking`. Slot instants come from `yyyy-MM-ddTHH:MM:00` strings
    (`IsoSlotInstant`); the overlap test is closed at both ends. */
module SlotsDialog {
  import opened Common
  import opened Clock
  import opened Policy
  import opened Actions

  /** The horizon used when no rules could be loaded. */
  const DEFAULT_DAYS_AHEAD := 14

  /** One day's occurrence of a time slot: `{ date, timeSlot }`. */
  datatype Slot = Slot(date: int, timeSlot: TimeSlot)

  // -----------------------------------------------------------------------
  // Dates and slots
  // -----------------------------------------------------------------------

  /** The `for` loop of `loadAvailableSlots`: `addDays(now, i)` for
      `i` from 0 while below `maxDaysAhead`. */
  method GenerateDates(now: int, maxDaysAhead: int) returns (dates: seq<int>)
    ensures |dates| == if maxDaysAhead > 0 then maxDaysAhead else 0
    ensures forall i | 0 <= i < |dates| :: dates[i] == now + i * MS_PER_DAY
    ensures forall i | 0 <= i < |dates| :: DayOf(dates[i]) == DayOf(now) + i
  {
    dates := [];
    var i := 0;
    while i < maxDaysAhead
      invariant 0 <= i && (i <= maxDaysAhead || i == 0)
      invariant |dates| == i
      invariant forall k | 0 <= k < i :: dates[k] == now + k * MS_PER_DAY
      invariant forall k | 0 <= k < i :: DayOf(dates[k]) == DayOf(now) + k
    {
      DayOfShift(now, i);
      dates := dates + [now + i * MS_PER_DAY];
      i := i + 1;
    }
  }

  /** `timeSlots.map(slot => ({ date, timeSlot: slot }))`. */
  function Row(date: int, timeSlots: seq<TimeSlot>): (r: seq<Slot>)
    ensures |r| == |timeSlots|
    ensures forall j | 0 <= j < |r| :: r[j] == Slot(date, timeSlots[j])
  {
    if timeSlots == [] then []
    else [Slot(date, timeSlots[0])] + Row(date, timeSlots[1..])
  }

  /** `dates.flatMap(...)`: every date with every time slot, date-major. */
  function AllSlots(dates: seq<int>, timeSlots: seq<TimeSlot>): seq<Slot> {
    if dates == [] then []
    else Row(dates[0], timeSlots) + AllSlots(dates[1..], timeSlots)
  }

  /** The product has one slot per date and time slot. */
  lemma AllSlotsLength(dates: seq<int>, timeSlots: seq<TimeSlot>)
    ensures |AllSlots(dates, timeSlots)| == |dates| * |timeSlots|
  {
    AllSlotsRows(dates, timeSlots);
    RowStartIsProduct(|dates|, |timeSlots|);
  }

  lemma {:induction false} AllSlotsRows(dates: seq<int>, timeSlots: seq<TimeSlot>)
    ensures |AllSlots(dates, timeSlots)| == RowStart(|dates|, |timeSlots|)
  {
    if dates != [] {
      AllSlotsRows(dates[1..], timeSlots);
    }
  }

  /** The product holds exactly the pairs of a listed date and a listed
      time slot. */
  lemma {:induction false} AllSlotsMembers(dates: seq<int>, timeSlots: seq<TimeSlot>, s: Slot)
    ensures s in AllSlots(dates, timeSlots) <==> s.date in dates && s.timeSlot in timeSlots
  {
    if dates != [] {
      var row := Row(dates[0], timeSlots);
      var rest := AllSlots(dates[1..], timeSlots);
      AllSlotsMembers(dates[1..], timeSlots, s);
      assert AllSlots(dates, timeSlots) == row + rest;
      assert s in row <==> s.date == dates[0] && s.timeSlot in timeSlots by {
        if s.date == dates[0] && s.timeSlot in timeSlots {
          var j :| 0 <= j < |timeSlots| && timeSlots[j] == s.timeSlot;
          assert row[j] == s;
        }
      }
      assert s.date in dates <==> s.date == dates[0] || s.date in dates[1..] by {
        assert dates == [dates[0]] + dates[1..];
      }
    }
  }

  /** Date-major order: slot `j` of date `i` is at position
      `i * |timeSlots| + j`. */
  lemma AllSlotsIndex(dates: seq<int>, timeSlots: seq<TimeSlot>, i: nat, j: nat)
    requires i < |dates| && j < |timeSlots|
    ensures i * |timeSlots| + j < |AllSlots(dates, timeSlots)|
    ensures AllSlots(dates, timeSlots)[i * |timeSlots| + j] == Slot(dates[i], timeSlots[j])
  {
    AllSlotsAt(dates, timeSlots, i, j);
    RowStartIsProduct(i, |timeSlots|);
  }

  /** Where row `i` begins when every row holds `n` slots. */
  function RowStart(i: nat, n: nat): nat {
    if i == 0 then 0 else n + RowStart(i - 1, n)
  }

  lemma {:induction false} RowStartIsProduct(i: nat, n: nat)
    ensures RowStart(i, n) == i * n
  {
    if i > 0 {
      RowStartIsProduct(i - 1, n);
      MulSucc(i - 1, n);
    }
  }

  lemma {:induction false} AllSlotsAt(dates: seq<int>, timeSlots: seq<TimeSlot>, i: nat, j: nat)
    requires i < |dates| && j < |timeSlots|
    ensures RowStart(i, |timeSlots|) + j < |AllSlots(dates, timeSlots)|
    ensures AllSlots(dates, timeSlots)[RowStart(i, |timeSlots|) + j] == Slot(dates[i], timeSlots[j])
  {
    var n := |timeSlots|;
    var row := Row(dates[0], timeSlots);
    var rest := AllSlots(dates[1..], timeSlots);
    AllSlotsCons(dates, timeSlots);
    if i == 0 {
      assert (row + rest)[j] == row[j];
    } else {
      var k := RowStart(i - 1, n) + j;
      AllSlotsAt(dates[1..], timeSlots, i - 1, j);
      assert dates[1..][i - 1] == dates[i];
      assert (row + rest)[n + k] == rest[k];
    }
  }

  /** One step of `AllSlots`. */
  lemma AllSlotsCons(dates: seq<int>, timeSlots: seq<TimeSlot>)
    requires dates != []
    ensures AllSlots(dates, timeSlots) == Row(dates[0], timeSlots) + AllSlots(dates[1..], timeSlots)
  {
  }

  lemma MulSucc(a: nat, b: nat)
    ensures (a + 1) * b == b + a * b
  {
  }

  // -----------------------------------------------------------------------
  // Booked slots
  // -----------------------------------------------------------------------

  /** A booking marks a dialog slot: it is for the space, has a start and an
      end, and overlaps the slot's closed interval. A booking without a
      space fails inside the `try` and counts as not marking. */
  predicate MarksClosed(b: Booking, spaceId: string, slotStart: int, slotEnd: int) {
    b.space == Some(spaceId) && DateOf(b.start).Some? && DateOf(b.end).Some? &&
    OverlapsClosed(DateOf(b.start).value, DateOf(b.end).value, slotStart, slotEnd)
  }

  /** `isSlotBooked(spaceId, timeSlot, date, bookingsList)`. A slot time that
      is not strict `HH:MM` gives an invalid date, which overlaps nothing. */
  function IsSlotBooked(spaceId: string, timeSlot: TimeSlot, date: int, bookings: seq<Booking>): (r: bool)
    ensures r <==> IsoSlotInstant(date, timeSlot.start).Some? && IsoSlotInstant(date, timeSlot.end).Some? &&
                   exists i | 0 <= i < |bookings| ::
                     MarksClosed(bookings[i], spaceId, IsoSlotInstant(date, timeSlot.start).value,
                                 IsoSlotInstant(date, timeSlot.end).value)
  {
    var ss, se := IsoSlotInstant(date, timeSlot.start), IsoSlotInstant(date, timeSlot.end);
    ss.Some? && se.Some? && Any(bookings, b => MarksClosed(b, spaceId, ss.value, se.value))
  }

  /** The closed test at its edges: a booking of the space that ends exactly
      when the slot starts, or starts exactly when it ends, does mark it;
      one that ends a millisecond before the start does not. */
  lemma {:induction false} ClosedOverlapBoundary(b: Booking, spaceId: string, timeSlot: TimeSlot, date: int)
    requires IsoSlotInstant(date, timeSlot.start).Some? && IsoSlotInstant(date, timeSlot.end).Some?
    requires b.space == Some(spaceId)
    ensures var ss, se := IsoSlotInstant(date, timeSlot.start).value, IsoSlotInstant(date, timeSlot.end).value;
            && (ss <= se ==> IsSlotBooked(spaceId, timeSlot, date, [b.(start := Text(Some(ss - MS_PER_HOUR)), end := Text(Some(ss)))]))
            && (ss <= se ==> IsSlotBooked(spaceId, timeSlot, date, [b.(start := Text(Some(se)), end := Text(Some(se + MS_PER_HOUR)))]))
            && !IsSlotBooked(spaceId, timeSlot, date, [b.(start := Text(Some(ss - MS_PER_HOUR)), end := Text(Some(ss - 1)))])
  {
    var ss, se := IsoSlotInstant(date, timeSlot.start).value, IsoSlotInstant(date, timeSlot.end).value;
    var before := b.(start := Text(Some(ss - MS_PER_HOUR)), end := Text(Some(ss)));
    var after := b.(start := Text(Some(se)), end := Text(Some(se + MS_PER_HOUR)));
    if ss <= se {
      assert MarksClosed([before][0], spaceId, ss, se);
      assert MarksClosed([after][0], spaceId, ss, se);
    }
  }

  /** A slot that ends at `24:00` ends at the next midnight, so a booking of
      the space inside it marks it. */
  lemma {:induction false} MidnightEndMarks(b: Booking, spaceId: string, id: string, description: string, date: int)
    requires b.space == Some(spaceId)
    requires DateOf(b.start) == Some(DayStart(date) + 21 * MS_PER_HOUR)
    requires DateOf(b.end) == Some(DayStart(date) + 22 * MS_PER_HOUR)
    ensures IsSlotBooked(spaceId, TimeSlot(id, "20:00", "24:00", description), date, [b])
  {
    var ss, se := IsoSlotInstant(date, "20:00"), IsoSlotInstant(date, "24:00");
    assert IsPaddedHHMM("20:00") && Hours("20:00") == 20 && Minutes("20:00") == 1200;
    assert IsPaddedHHMM("24:00") && Minutes("24:00") == 1440;
    assert MarksClosed([b][0], spaceId, ss.value, se.value);
  }

  /** `bookingsResult.data?.filter(b => b.space.id === spaceId)`. */
  function SpaceBookings(bookings: seq<Booking>, spaceId: string): (r: seq<Booking>)
    ensures forall b :: b in r <==> b in bookings && b.space == Some(spaceId)
    ensures IsSubsequence(r, bookings)
  {
    FilterIsSubsequence(bookings, (b: Booking) => b.space == Some(spaceId));
    Filter(bookings, (b: Booking) => b.space == Some(spaceId))
  }

  /** The space's bookings keep each booking of the space as often as the list holds it. */
  lemma SpaceBookingsCounts(bookings: seq<Booking>, spaceId: string)
    ensures forall b :: multiset(SpaceBookings(bookings, spaceId))[b] == if b.space == Some(spaceId) then multiset(bookings)[b] else 0
  {
    FilterCounts(bookings, (b: Booking) => b.space == Some(spaceId));
  }

  /** The slots shown: the date-major product filtered to the unbooked ones. */
  function AvailableSlots(dates: seq<int>, timeSlots: seq<TimeSlot>, spaceId: string, bookings: seq<Booking>): (r: seq<Slot>)
    ensures IsSubsequence(r, AllSlots(dates, timeSlots))
    ensures forall s :: s in r <==>
              s.date in dates && s.timeSlot in timeSlots && !IsSlotBooked(spaceId, s.timeSlot, s.date, bookings)
  {
    var all := AllSlots(dates, timeSlots);
    forall s ensures s in all <==> s.date in dates && s.timeSlot in timeSlots {
      AllSlotsMembers(dates, timeSlots, s);
    }
    FilterIsSubsequence(all, (s: Slot) => !IsSlotBooked(spaceId, s.timeSlot, s.date, bookings));
    Filter(all, (s: Slot) => !IsSlotBooked(spaceId, s.timeSlot, s.date, bookings))
  }

  /** The free slots keep each unbooked date/time-slot pair as often as the
      product lists it, so a time slot listed twice is offered twice. */
  lemma AvailableSlotsCounts(dates: seq<int>, timeSlots: seq<TimeSlot>, spaceId: string, bookings: seq<Booking>)
    ensures forall s :: multiset(AvailableSlots(dates, timeSlots, spaceId, bookings))[s] ==
                        if !IsSlotBooked(spaceId, s.timeSlot, s.date, bookings)
                        then multiset(AllSlots(dates, timeSlots))[s] else 0
  {
    FilterCounts(AllSlots(dates, timeSlots), (s: Slot) => !IsSlotBooked(spaceId, s.timeSlot, s.date, bookings));
  }

  /** Bookings of other spaces never hide a slot: the slots shown from the
      space's own bookings are those shown from the whole list. */
  lemma {:induction false} OtherSpacesIgnored(spaceId: string, timeSlot: TimeSlot, date: int, bookings: seq<Booking>)
    ensures IsSlotBooked(spaceId, timeSlot, date, SpaceBookings(bookings, spaceId)) ==
            IsSlotBooked(spaceId, timeSlot, date, bookings)
  {
    var own := SpaceBookings(bookings, spaceId);
    var ss, se := IsoSlotInstant(date, timeSlot.start), IsoSlotInstant(date, timeSlot.end);
    if ss.Some? && se.Some? {
      if IsSlotBooked(spaceId, timeSlot, date, bookings) {
        var i :| 0 <= i < |bookings| && MarksClosed(bookings[i], spaceId, ss.value, se.value);
        assert bookings[i] in own;
      }
      if IsSlotBooked(spaceId, timeSlot, date, own) {
        var i :| 0 <= i < |own| && MarksClosed(own[i], spaceId, ss.value, se.value);
        assert own[i] in bookings;
      }
    }
  }

  /** The dialog's `getBookingsForDateRange` reply: failed, or loaded with
      data that may be absent. */
  datatype RangeReply = RangeFailed | RangeLoaded(data: Option<seq<Booking>>)

  /** `maxDaysAhead`: the rules' horizon, or 14 days without rules. */
  function HorizonDays(rules: Option<Rules>): int {
    if rules.Some? then rules.value.maximumDaysAhead else DEFAULT_DAYS_AHEAD
  }

  /** The dates the loop generates, as a comprehension. */
  ghost function DatesAhead(now: int, days: int): seq<int> {
    seq(if days > 0 then days else 0, i => now + i * MS_PER_DAY)
  }

  lemma DatesAheadExact(dates: seq<int>, now: int, days: int)
    requires |dates| == if days > 0 then days else 0
    requires forall i | 0 <= i < |dates| :: dates[i] == now + i * MS_PER_DAY
    ensures dates == DatesAhead(now, days)
  {
  }

  /** `bookingsResult.data || []` of a loaded reply. */
  function LoadedList(reply: RangeReply): seq<Booking>
    requires reply.RangeLoaded?
  {
    if reply.data.Some? then reply.data.value else []
  }

  /** Some booking lacks its `space`, so `booking.space.id` throws. */
  predicate SpaceMissing(list: seq<Booking>) {
    exists i | 0 <= i < |list| :: list[i].space.None?
  }

  // -----------------------------------------------------------------------
  // Grouping by day
  // -----------------------------------------------------------------------

  /** The slots whose date falls on `day`, in list order: the group the
      `reduce` builds under that day's `yyyy-MM-dd` key. */
  function SlotsOn(slots: seq<Slot>, day: int): (r: seq<Slot>)
    ensures forall s :: s in r <==> s in slots && DayOf(s.date) == day
    ensures |r| <= |slots|
  {
    if slots == [] then []
    else
      var init, last := slots[..|slots| - 1], slots[|slots| - 1];
      assert slots == init + [last];
      SlotsOn(init, day) + (if DayOf(last.date) == day then [last] else [])
  }

  /** Appending a slot extends exactly its own day's group. */
  lemma SlotsOnSnoc(xs: seq<Slot>, x: Slot, day: int)
    ensures SlotsOn(xs + [x], day) == SlotsOn(xs, day) + (if DayOf(x.date) == day then [x] else [])
  {
    assert (xs + [x])[..|xs|] == xs;
  }

  /** A day none of the slots falls on has an empty group. */
  lemma {:induction false} SlotsOnNone(xs: seq<Slot>, day: int)
    requires forall i | 0 <= i < |xs| :: DayOf(xs[i].date) != day
    ensures SlotsOn(xs, day) == []
  {
    if xs != [] {
      SlotsOnNone(xs[..|xs| - 1], day);
    }
  }

  /** The `reduce` over the shown slots: one group per day that has a
      slot. A JavaScript object remembers the order its keys were added
      in; `keys` is that order, which `Object.keys` returns. */
  method GroupSlots(slots: seq<Slot>) returns (groups: map<int, seq<Slot>>, keys: seq<int>)
    ensures forall d :: d in groups <==> exists i | 0 <= i < |slots| :: DayOf(slots[i].date) == d
    ensures forall d | d in groups :: groups[d] == SlotsOn(slots, d)
    ensures forall d :: d in keys <==> d in groups
    ensures forall i, j | 0 <= i < j < |keys| :: keys[i] != keys[j]
  {
    groups := map[];
    keys := [];
    var i := 0;
    while i < |slots|
      invariant 0 <= i <= |slots|
      invariant forall d :: d in groups <==> exists k | 0 <= k < i :: DayOf(slots[k].date) == d
      invariant forall d | d in groups :: groups[d] == SlotsOn(slots[..i], d)
      invariant forall d :: d in keys <==> d in groups
      invariant forall a, b | 0 <= a < b < |keys| :: keys[a] != keys[b]
    {
      var key := DayOf(slots[i].date);
      assert slots[..i + 1] == slots[..i] + [slots[i]];
      forall d ensures SlotsOn(slots[..i + 1], d) ==
                       SlotsOn(slots[..i], d) + (if key == d then [slots[i]] else []) {
        SlotsOnSnoc(slots[..i], slots[i], d);
      }
      if key !in groups {
        SlotsOnNone(slots[..i], key);
        groups := groups[key := []];
        keys := keys + [key];
      }
      groups := groups[key := groups[key] + [slots[i]]];
      i := i + 1;
    }
    assert slots[..i] == slots;
  }

  /** Each slot lies in its own day's group and in no other. */
  lemma {:induction false} GroupsPlaceEachSlotOnce(slots: seq<Slot>, groups: map<int, seq<Slot>>)
    requires forall d :: d in groups <==> exists i | 0 <= i < |slots| :: DayOf(slots[i].date) == d
    requires forall d | d in groups :: groups[d] == SlotsOn(slots, d)
    ensures forall i | 0 <= i < |slots| :: DayOf(slots[i].date) in groups && slots[i] in groups[DayOf(slots[i].date)]
    ensures forall d, s | d in groups && s in groups[d] :: DayOf(s.date) == d
  {
    forall i | 0 <= i < |slots|
      ensures DayOf(slots[i].date) in groups && slots[i] in groups[DayOf(slots[i].date)]
    {
      assert slots[i] in slots;
    }
  }

  /** Strictly ascending. */
  predicate Ascending(xs: seq<int>) {
    forall i, j | 0 <= i < j < |xs| :: xs[i] < xs[j]
  }

  lemma AscendingCons(x: int, xs: seq<int>)
    requires Ascending(xs) && forall y | y in xs :: x < y
    ensures Ascending([x] + xs)
  {
    var r := [x] + xs;
    forall i, j | 0 <= i < j < |r| ensures r[i] < r[j] {
      assert r[j] == xs[j - 1] && xs[j - 1] in xs;
      if i > 0 { assert r[i] == xs[i - 1]; }
    }
  }

  /** `d` placed into an ascending list that lacks it. */
  function InsertSorted(xs: seq<int>, d: int): (r: seq<int>)
    requires Ascending(xs) && d !in xs
    ensures Ascending(r)
    ensures forall x :: x in r <==> x in xs || x == d
    ensures |r| == |xs| + 1
  {
    if xs == [] then [d]
    else if d < xs[0] then
      forall x | x in xs ensures d < x {
        var k :| 0 <= k < |xs| && xs[k] == x;
        assert k == 0 || xs[0] < xs[k];
      }
      AscendingCons(d, xs);
      [d] + xs
    else
      var rest := InsertSorted(xs[1..], d);
      forall x | x in rest ensures xs[0] < x {
        if x in xs[1..] {
          var k :| 0 <= k < |xs[1..]| && xs[1..][k] == x;
          assert xs[k + 1] == x;
        }
      }
      AscendingCons(xs[0], rest);
      [xs[0]] + rest
  }

  /** `Object.keys(groupedSlots).sort()` on keys without repeats: the
      same days, in ascending order. */
  method DatesList(keys: seq<int>) returns (dates: seq<int>)
    requires forall i, j | 0 <= i < j < |keys| :: keys[i] != keys[j]
    ensures Ascending(dates)
    ensures forall d :: d in dates <==> d in keys
    ensures |dates| == |keys|
  {
    dates := [];
    var i := 0;
    while i < |keys|
      invariant 0 <= i <= |keys|
      invariant Ascending(dates)
      invariant forall d :: d in dates <==> d in keys[..i]
      invariant |dates| == i
    {
      assert keys[i] !in keys[..i];
      dates := InsertSorted(dates, keys[i]);
      assert keys[..i + 1] == keys[..i] + [keys[i]];
      i := i + 1;
    }
    assert keys[..i] == keys;
  }

  // -----------------------------------------------------------------------
  // Confirming
  // -----------------------------------------------------------------------

  /** The booking `confirmBooking` sends: the truck, the space and the
      instants the server reads from `${date}T${start}:00` and
      `${date}T${end}:00`. */
  datatype SlotRequest = SlotRequest(foodtruck: string, space: string, start: Option<int>, end: Option<int>)

  /** The toast `confirmBooking` shows. `Confirmed` also closes the dialog. */
  datatype ConfirmToast =
    | MissingInformation
    | Confirmed
    | BookingFailed(description: string)
    | BookingError(description: string)

  /** How a `createBooking` reply is reported. */
  function ConfirmReport(reply: Call<ActionResult<Json>>): (t: ConfirmToast)
    ensures t != MissingInformation
    ensures t == Confirmed <==> reply.Returned? && reply.value.Success?
    ensures reply.Returned? && reply.value.Failure? && reply.value.error == "" ==>
              t == BookingFailed("Failed to create booking")
    ensures reply.Returned? && reply.value.Failure? && reply.value.error != "" ==>
              t == BookingFailed(reply.value.error)
    ensures reply.Threw? ==> t == BookingError(MessageOr(reply.error, "An error occurred"))
  {
    match reply
    case Threw(e) => BookingError(MessageOr(e, "An error occurred"))
    case Returned(result) =>
      match result
      case Success(_) => Confirmed
      case Failure(msg) => BookingFailed(if msg == "" then "Failed to create booking" else msg)
  }

  /** The dialog's gate tests `slot.date`, the moment of loading shifted by
      whole days, not the slot's start time. At the cap with a non-negative
      window, a slot of the first day is therefore let through even when it
      starts well beyond the window, which its start time would refuse. */
  lemma {:induction false} GateTestsSlotDate(rules: Rules, futureBookings: int, now: int, slot: Slot, start: int)
    requires futureBookings >= rules.maximumFutureBookings && rules.lastMinuteBookingHours >= 0
    requires slot.date == now
    requires IsoSlotInstant(slot.date, slot.timeSlot.start) == Some(start)
    requires start > now + rules.lastMinuteBookingHours * MS_PER_HOUR
    ensures BookSpaceGate(true, Some(rules), futureBookings, Some(slot.date), now) == OpenConfirm
    ensures BookSpaceGate(true, Some(rules), futureBookings, Some(start), now) == MaximumBookingsReached
  {
  }

  // -----------------------------------------------------------------------
  // The dialog's state
  // -----------------------------------------------------------------------

  class AvailableSlotsDialog {
    var isLoading: bool
    var bookings: seq<Booking>
    var slots: seq<Slot>
    var userFoodTruck: Option<FoodTruck>
    var bookingRules: Option<Rules>
    var futureBookings: int
    var selectedSlot: Option<Slot>
    var isBooking: bool
    var error: string

    /** The initial `useState` values. */
    constructor ()
      ensures isLoading && bookings == [] && slots == [] && userFoodTruck == None
      ensures bookingRules == None && futureBookings == 0 && selectedSlot == None
      ensures !isBooking && error == ""
    {
      isLoading := true;
      bookings := [];
      slots := [];
      userFoodTruck := None;
      bookingRules := None;
      futureBookings := 0;
      selectedSlot := None;
      isBooking := false;
      error := "";
    }

    /** `loadUserData`: `truck` and `rules` are the successful, non-empty
        results of the two lookups (`None` otherwise); `truckBookings` is
        the truck's `bookings` field. */
    method LoadUserData(truck: Option<FoodTruck>, truckBookings: Option<seq<Booking>>,
                        rules: Option<Rules>, now: int)
      modifies this`userFoodTruck, this`futureBookings, this`bookingRules
      ensures userFoodTruck == if truck.Some? then truck else old(userFoodTruck)
      ensures futureBookings == if truck.Some? && truckBookings.Some?
                                then CountFuture(truckBookings.value, now) else old(futureBookings)
      ensures bookingRules == if rules.Some? then rules else old(bookingRules)
    {
      if truck.Some? {
        userFoodTruck := truck;
        if truckBookings.Some? {
          futureBookings := |FutureBookings(truckBookings.value, now)|;
        }
      }
      if rules.Some? {
        bookingRules := rules;
      }
    }

    /** `loadAvailableSlots`. `fetched` is the rules lookup made when no
        rules are loaded yet (`None` when it fails or returns nothing).
        A booking without a space makes the space filter throw, which the
        `catch` reports. */
    method LoadAvailableSlots(spaceId: string, timeSlots: seq<TimeSlot>, fetched: Option<Rules>,
                              reply: RangeReply, now: int)
      modifies this`isLoading, this`error, this`bookingRules, this`bookings, this`slots
      ensures !isLoading
      ensures bookingRules == if old(bookingRules).Some? then old(bookingRules) else fetched
      ensures reply.RangeFailed? ==>
                error == "Failed to load bookings" && bookings == old(bookings) && slots == old(slots)
      ensures reply.RangeLoaded? && SpaceMissing(LoadedList(reply)) ==>
                error == "Failed to load available slots" && bookings == old(bookings) && slots == old(slots)
      ensures reply.RangeLoaded? && !SpaceMissing(LoadedList(reply)) ==>
                error == "" && bookings == SpaceBookings(LoadedList(reply), spaceId) &&
                slots == AvailableSlots(DatesAhead(now, HorizonDays(bookingRules)), timeSlots, spaceId, bookings)
    {
      isLoading := true;
      error := "";
      if bookingRules.None? && fetched.Some? {
        bookingRules := fetched;
      }
      var maxDaysAhead := HorizonDays(bookingRules);
      var dates := GenerateDates(now, maxDaysAhead);
      DatesAheadExact(dates, now, maxDaysAhead);
      if reply.RangeFailed? {
        error := "Failed to load bookings";
      } else {
        var list := LoadedList(reply);
        if SpaceMissing(list) {
          error := "Failed to load available slots";
        } else {
          bookings := SpaceBookings(list, spaceId);
          slots := AvailableSlots(dates, timeSlots, spaceId, bookings);
        }
      }
      isLoading := false;
    }

    /** `handleBookSlot`: the client gate, tested on `slot.date`; only an
        open gate selects the slot, and nothing else changes. */
    method HandleBookSlot(slot: Slot, now: int) returns (outcome: BookSpaceOutcome)
      modifies this`selectedSlot
      ensures outcome == BookSpaceGate(userFoodTruck.Some?, bookingRules, futureBookings, Some(slot.date), now)
      ensures outcome == OpenConfirm ==> selectedSlot == Some(slot)
      ensures outcome != OpenConfirm ==> selectedSlot == old(selectedSlot)
    {
      if userFoodTruck.None? {
        return FoodTruckNotFound;
      }
      if AtCap(bookingRules, futureBookings) {
        if !IsLastMinute(bookingRules, slot.date, now) {
          return MaximumBookingsReached;
        }
      }
      selectedSlot := Some(slot);
      return OpenConfirm;
    }

    /** `confirmBooking`. Without a truck or a selected slot it only shows
        the error toast. Otherwise it sends the request and, whatever the
        reply, ends with `isBooking` false and no slot selected. */
    method ConfirmBooking(spaceId: string, reply: Call<ActionResult<Json>>)
      returns (toast: ConfirmToast, request: Option<SlotRequest>)
      modifies this`isBooking, this`selectedSlot
      ensures old(userFoodTruck).None? || old(selectedSlot).None? ==>
                toast == MissingInformation && request == None &&
                isBooking == old(isBooking) && selectedSlot == old(selectedSlot)
      ensures old(userFoodTruck).Some? && old(selectedSlot).Some? ==>
                var slot := old(selectedSlot).value;
                toast == ConfirmReport(reply) && !isBooking && selectedSlot == None &&
                request == Some(SlotRequest(userFoodTruck.value.id, spaceId,
                                            IsoSlotInstant(slot.date, slot.timeSlot.start),
                                            IsoSlotInstant(slot.date, slot.timeSlot.end)))
    {
      if userFoodTruck.None? || selectedSlot.None? {
        return MissingInformation, None;
      }
      isBooking := true;
      var slot := selectedSlot.value;
      request := Some(SlotRequest(userFoodTruck.value.id, spaceId,
                                  IsoSlotInstant(slot.date, slot.timeSlot.start),
                                  IsoSlotInstant(slot.date, slot.timeSlot.end)));
      toast := ConfirmReport(reply);
      isBooking := false;
      selectedSlot := None;
    }

    /** `cancelBooking`: forgets the selected slot. */
    method CancelBooking()
      modifies this`selectedSlot
      ensures selectedSlot == None
    {
      selectedSlot := None;
    }
  }
}
