/** The week-by-week date-range picker: the visible week, which days may be
    clicked, and how a click moves the selected range. Dates are instants in
    milliseconds; `now` stands for `new Date()`. */
module RangePicker {
  import opened Common
  import opened Clock

  const MS_PER_WEEK: int := 7 * MS_PER_DAY

  /** Days since the last Monday: day 0 of the epoch, 1 January 1970, was a
      Thursday. */
  function Weekday(t: int): (w: int)
    ensures 0 <= w < 7
  {
    (DayOf(t) + 3) % 7
  }

  /** `startOfWeek(now, { weekStartsOn: 1 })`: midnight of the Monday that
      opens the week holding `now`. */
  function WeekStart(now: int): (r: int)
    ensures r <= now < r + MS_PER_WEEK
    ensures r % MS_PER_DAY == 0
    ensures Weekday(r) == 0
  {
    var r := DayStart(now) - Weekday(now) * MS_PER_DAY;
    assert DayOf(now) == DayStart(now) / MS_PER_DAY;
    DayOfShift(DayStart(now), -Weekday(now));
    r
  }

  /** `addWeeks(baseStartOfWeek, weekOffset)`. */
  function VisibleWeekStart(now: int, weekOffset: int): int {
    WeekStart(now) + weekOffset * MS_PER_WEEK
  }

  /** `weekDates`: the visible week's seven days, from its Monday. */
  function WeekDates(now: int, weekOffset: int): (r: seq<int>)
    ensures |r| == 7
    ensures r[0] == VisibleWeekStart(now, weekOffset)
    ensures forall i | 0 < i < 7 :: r[i] == r[i - 1] + MS_PER_DAY
    ensures forall i | 0 <= i < 7 :: Weekday(r[i]) == i
  {
    var start := VisibleWeekStart(now, weekOffset);
    var r := seq(7, i => start + i * MS_PER_DAY);
    forall i | 0 <= i < 7 ensures Weekday(r[i]) == i {
      DayOfShift(WeekStart(now), weekOffset * 7 + i);
      assert r[i] == WeekStart(now) + (weekOffset * 7 + i) * MS_PER_DAY;
    }
    r
  }

  /** `addDays(new Date(), maxDaysAhead)`: the last instant that may be picked. */
  function LastAllowed(now: int, maxDaysAhead: int): int {
    now + maxDaysAhead * MS_PER_DAY
  }

  /** `canSelectNextWeek`: the next week's Monday is not beyond the limit. */
  predicate CanSelectNextWeek(now: int, weekOffset: int, maxDaysAhead: int) {
    VisibleWeekStart(now, weekOffset + 1) <= LastAllowed(now, maxDaysAhead)
  }

  /** Once the next week is out of reach, every later one is too; and the
      one after the current week is always reachable when the limit is at
      least a week. */
  lemma NextWeekMonotone(now: int, weekOffset: int, later: int, maxDaysAhead: int)
    requires weekOffset <= later
    ensures !CanSelectNextWeek(now, weekOffset, maxDaysAhead) ==> !CanSelectNextWeek(now, later, maxDaysAhead)
    ensures maxDaysAhead >= 7 ==> CanSelectNextWeek(now, 0, maxDaysAhead)
  {
    assert weekOffset * MS_PER_WEEK <= later * MS_PER_WEEK;
  }

  /** `isSelectedDate`: inside the inclusive range. */
  predicate IsSelectedDate(date: int, startDate: int, endDate: int) {
    startDate <= date <= endDate
  }

  /** `handleDateClick`: `None` when `onChange` is not called, else the
      range it is called with. */
  function HandleDateClick(date: int, startDate: int, endDate: int, now: int, maxDaysAhead: int)
    : (r: Option<(int, int)>)
    ensures r.None? <==> date > LastAllowed(now, maxDaysAhead)
    ensures r.Some? && IsSelectedDate(date, startDate, endDate) ==> r.value == (date, date)
    ensures r.Some? && date < startDate ==> r.value == (date, endDate)
    ensures r.Some? && !IsSelectedDate(date, startDate, endDate) && date >= startDate ==> r.value == (startDate, date)
    ensures r.Some? ==> r.value.0 == date || r.value.1 == date
  {
    if date > LastAllowed(now, maxDaysAhead) then None
    else if IsSelectedDate(date, startDate, endDate) then Some((date, date))
    else if date < startDate then Some((date, endDate))
    else Some((startDate, date))
  }

  /** A click keeps an ordered range ordered. */
  lemma ClickKeepsOrder(date: int, startDate: int, endDate: int, now: int, maxDaysAhead: int)
    requires startDate <= endDate
    requires HandleDateClick(date, startDate, endDate, now, maxDaysAhead).Some?
    ensures HandleDateClick(date, startDate, endDate, now, maxDaysAhead).value.0 <=
            HandleDateClick(date, startDate, endDate, now, maxDaysAhead).value.1
  {
  }

  /** A day button's `isDisabled`, AS WRITTEN: beyond the limit, or before
      the current instant. The buttons hold midnights, so today's own button
      is before `now` except at midnight itself. */
  predicate IsDisabledAsWritten(date: int, now: int, maxDaysAhead: int) {
    date > LastAllowed(now, maxDaysAhead) || date < now
  }

  /** The evidently intended test: only days before today are past. */
  predicate IsDisabled(date: int, now: int, maxDaysAhead: int) {
    date > LastAllowed(now, maxDaysAhead) || date < DayStart(now)
  }

  /** As written, today's button is disabled whenever the current instant is
      not a midnight, although `handleDateClick` would accept the click. */
  lemma TodayDisabledAsWritten(now: int, maxDaysAhead: int)
    requires now % MS_PER_DAY != 0 && maxDaysAhead >= 0
    ensures IsDisabledAsWritten(WeekDates(now, 0)[Weekday(now)], now, maxDaysAhead)
    ensures !IsDisabled(WeekDates(now, 0)[Weekday(now)], now, maxDaysAhead)
    ensures forall s, e :: HandleDateClick(DayStart(now), s, e, now, maxDaysAhead).Some?
  {
    TodaysButton(now);
    assert DayStart(now) != now;
  }

  /** Today's button in the current week holds today's midnight. */
  lemma TodaysButton(now: int)
    ensures WeekDates(now, 0)[Weekday(now)] == DayStart(now)
  {
    assert WeekStart(now) == DayStart(now) - Weekday(now) * MS_PER_DAY;
  }

  /** With the intended test, a button that is not disabled always
      reaches `onChange`, and holds a day from today on. */
  lemma EnabledDayClicks(date: int, startDate: int, endDate: int, now: int, maxDaysAhead: int)
    requires !IsDisabled(date, now, maxDaysAhead)
    ensures HandleDateClick(date, startDate, endDate, now, maxDaysAhead).Some?
    ensures DayStart(now) <= date
  {
  }

  /** The picker's own state: the offset of the visible week from the
      current one. */
  class Picker {
    var weekOffset: int

    /** Never before the current week. */
    predicate Valid()
      reads this
    {
      weekOffset >= 0
    }

    constructor()
      ensures weekOffset == 0 && Valid()
    {
      weekOffset := 0;
    }

    /** The left chevron: `setWeekOffset(prev => Math.max(prev - 1, 0))`,
      disabled at offset 0. */
    method PreviousWeek()
      requires Valid()
      modifies this`weekOffset
      ensures Valid()
      ensures old(weekOffset) == 0 ==> weekOffset == 0
      ensures old(weekOffset) > 0 ==> weekOffset == old(weekOffset) - 1
    {
      if weekOffset != 0 {
        weekOffset := if weekOffset - 1 > 0 then weekOffset - 1 else 0;
      }
    }

    /** The right chevron: `prev + 1`, disabled unless the next week can be
      selected. */
    method NextWeek(now: int, maxDaysAhead: int)
      requires Valid()
      modifies this`weekOffset
      ensures Valid()
      ensures CanSelectNextWeek(now, old(weekOffset), maxDaysAhead) ==> weekOffset == old(weekOffset) + 1
      ensures !CanSelectNextWeek(now, old(weekOffset), maxDaysAhead) ==> weekOffset == old(weekOffset)
      ensures weekOffset != old(weekOffset) ==>
                VisibleWeekStart(now, weekOffset) <= LastAllowed(now, maxDaysAhead)
    {
      if CanSelectNextWeek(now, weekOffset, maxDaysAhead) {
        weekOffset := weekOffset + 1;
      }
    }
  }
}
