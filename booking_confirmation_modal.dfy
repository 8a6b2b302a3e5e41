/** The booking confirmation dialog: whether the slot may be booked, the
    confirm button's label, variant and state, and the detail lines. */
module ConfirmationModal {
  import opened Common
  import opened Policy
  import opened StatusIndicator

  /** `!hasReachedMaxBookings() || (timeSlot && isLastMinuteBooking(timeSlot))`. */
  predicate IsBookable(atCap: bool, hasSlot: bool, lastMinute: bool) {
    !atCap || (hasSlot && lastMinute)
  }

  datatype ConfirmLabel = Processing | LastMinute | Confirm

  datatype ConfirmButton = ConfirmButton(caption: ConfirmLabel, secondary: bool, disabled: bool)

  /** The confirm button. */
  function ConfirmButtonOf(isBooking: bool, atCap: bool, hasSlot: bool, lastMinute: bool): (b: ConfirmButton)
    ensures b.disabled <==> !IsBookable(atCap, hasSlot, lastMinute) || isBooking
    ensures b.caption == Processing <==> isBooking
    ensures b.caption == LastMinute <==> !isBooking && atCap && hasSlot && lastMinute
    ensures b.caption == Confirm <==> !isBooking && !(atCap && hasSlot && lastMinute)
    ensures b.secondary <==> atCap && hasSlot && lastMinute
  {
    var lastMinuteCase := atCap && hasSlot && lastMinute;
    ConfirmButton(
      if isBooking then Processing else if lastMinuteCase then LastMinute else Confirm,
      lastMinuteCase,
      !IsBookable(atCap, hasSlot, lastMinute) || isBooking)
  }

  /** The dialog and its badge agree: the slot is bookable exactly when the
      badge does not show the maximum, and the secondary variant appears
      exactly with the last-minute badge; while not booking, it is the
      "Last-Minute" label. */
  lemma ButtonMatchesBadge(isBooking: bool, atCap: bool, hasSlot: bool, lastMinute: bool)
    ensures IsBookable(atCap, hasSlot, lastMinute) <==> SelectStatus(atCap, hasSlot, lastMinute) != MaximumReached
    ensures ConfirmButtonOf(isBooking, atCap, hasSlot, lastMinute).secondary <==>
            SelectStatus(atCap, hasSlot, lastMinute) == LastMinuteAvailable
    ensures !isBooking ==>
              (ConfirmButtonOf(isBooking, atCap, hasSlot, lastMinute).secondary <==>
               ConfirmButtonOf(isBooking, atCap, hasSlot, lastMinute).caption == LastMinute)
  {
  }

  const NO_DESCRIPTION := "No description available"

  /** The space's description line: cut to 120 characters and "...", and
      a missing or empty description replaced. */
  function DescriptionLine(description: Option<string>): (r: string)
    ensures description.None? || description.value == "" ==> r == NO_DESCRIPTION
    ensures description.Some? && description.value != "" ==> r == Truncate(description.value, 120)
  {
    if description.Some? && description.value != "" then Truncate(description.value, 120) else NO_DESCRIPTION
  }

  /** The time line: the slot's own description, else
      `start.substring(0, 5) - end.substring(0, 5)`. */
  function SlotLine(slot: TimeSlot): (r: string)
    ensures slot.description != "" ==> r == slot.description
    ensures slot.description == "" ==>
              r == slot.start[..if |slot.start| < 5 then |slot.start| else 5] + " - " +
                   slot.end[..if |slot.end| < 5 then |slot.end| else 5]
  {
    if slot.description != "" then slot.description
    else Prefix(slot.start, 5) + " - " + Prefix(slot.end, 5)
  }

  /** A slot stored with seconds and no description shows `HH:MM - HH:MM`. */
  lemma SlotLineDropsSeconds(slot: TimeSlot)
    requires slot.description == ""
    requires |slot.start| == 8 && |slot.end| == 8
    ensures SlotLine(slot) == slot.start[..5] + " - " + slot.end[..5]
  {
  }
}
