# Food-truck booking: availability and booking policy

This project models the booking logic of a food-truck booking web front end. Food trucks book time slots at spaces. A CMS stores the spaces, the bookings and one record of booking rules:

- the maximum number of future bookings;
- how many days ahead a booking may be made;
- a "last-minute" window in hours.

The model covers each of these parts, one Dafny module per source file:

- **The client-side booking gate.** A truck at the cap may still book a slot inside the last-minute window. The gate lives on the booking page (`BookingPage`) and in the available-slots dialog (`SlotsDialog`).
- **The server action that enforces the same rules, with no last-minute exception** (`Actions.CreateBooking`).
- **The overlap tests.** Each view decides whether a slot is taken with a different test:
  - a strict test on the booking page;
  - a closed test in the dialog and the calendar (`Calendar`).
- **Time handling.** How slot times such as `"08:00"` or `"08:00:00"` become instants (`Clock`). A time without the `:SS` part reads the same through `setHours` and through the dialog's ISO string. A time with seconds is an invalid date for the dialog, and `24:00` is the midnight that ends the day.
- **The date lists.**
  - the dialog's days ahead, and its slots grouped by day;
  - the calendar's date range;
  - the picker's week (`RangePicker`);
  - the dashboard's upcoming and past tabs (`Dashboard`).
- **The CMS client's error messages** (`Directus`) and the authentication actions that rewrite them (`Actions`).
- **The state of several components:**
  - the toast list (`Toasts`);
  - the space form's time-slot editor (`SpaceForm`);
  - the password-reset form (`ResetForm`);
  - the food-truck details card (`TruckDetails`);
  - the search pages (`SpacesPage`, `FoodTrucksPage`);
  - the sidebar's highlighting (`Sidebar`);
  - the status badge and the confirmation modal (`StatusIndicator`, `ConfirmationModal`).

Instants are integers in milliseconds. The current time, CMS replies, random ids and `Date.now()` stamps are parameters. A JavaScript `Invalid Date` is `None`: every comparison with it is false, so such a booking or slot matches nothing. A booking's date field is `null`, absent, or a text (`Policy.DateField`). `new Date(null)` is the epoch, a valid date, while an absent or empty field is an invalid date. Only the booking page tests the fields for truthiness before it reads them.

Component state the source keeps in React state becomes a class whose methods update its fields. Pure helpers are functions. The loops in the source stay loops, proved against specification functions:

- the dialog's `generateDates`;
- the grouping of slots by day;
- the calendar's date range.

The dashboard's tabs follow the code rather than the description of the tabs. The code compares `new Date(start)` with now. A booking whose start is absent or unparsable is shown in neither tab. A booking whose start is `null` reads as the epoch, so it is in the past tab (`Dashboard.NullStartIsPast`). The tabs therefore partition the bookings whose start reads as a valid date, not every booking (`Dashboard.TabsPartitionBookings`).

## Model

| member | source | states |
|---|---|---|
| Policy.FutureBookings | app/booking/page.tsx:128-130 | the bookings kept are exactly those starting strictly after now, in their original order |
| Policy.FutureBookingsCounts | app/booking/page.tsx:128-130 | each booking starting after now is kept as often as the list holds it; any other is dropped |
| Policy.CountFuture | app/booking/page.tsx:128-131 | the count is the number of bookings starting strictly after now, duplicates included; at most the list's length, and zero exactly when no booking starts after now |
| Policy.FutureCountBoundary | app/booking/page.tsx:129 | a booking that starts exactly now, or has an absent or unparsable start, is not counted; one a millisecond later is; a `null` start is the epoch and is not counted from the epoch on |
| Policy.LastMinuteEdges | app/booking/page.tsx:264-271 | a start exactly the window's hours ahead is last-minute; one millisecond later is not; a past start is; without rules nothing is |
| Policy.BookSpaceGate | app/booking/page.tsx:274-310 | no truck gives "food truck not found"; below the cap the confirmation opens; at the cap it opens exactly when the slot start parses and is last-minute |
| Clock.DayStart | app/booking/page.tsx:58-59 | the result is a midnight, at or before the instant and less than a day before it |
| Clock.SetHours | components/booking-calendar.tsx:112-118 | the result is defined exactly when the time's first two fields parse, and never lies before that day's midnight |
| Clock.ClockFieldsPadded | components/booking-calendar.tsx:113 | a zero-padded `HH:MM` time reads as its hours and minutes |
| Clock.IsoSlotInstant | components/available-slots-dialog.tsx:148-150 | `date T hh:mm:00` is a valid instant exactly for a padded `HH:MM` with hour at most 23 or for `24:00`; it falls within that day, and at the next midnight exactly for `24:00` |
| Clock.SlotInstantsAgree | components/available-slots-dialog.tsx:148-150 | on such times, `24:00` included, the page's `setHours` and the dialog's ISO string give the same instant |
| Clock.SecondsFormatDiverges | components/available-slots-dialog.tsx:149 | `HH:MM:SS` reads as `HH:MM` through `setHours` but is an invalid date for the dialog |
| BookingPage.TakeTwo | app/booking/page.tsx:179 | `slice(0, 2)` yields the first two entries, or all of them when there are fewer |
| BookingPage.FormatTimeStringFields | app/booking/page.tsx:178-180 | the formatted time's fields are the first two fields of the input; a string without ':' is unchanged |
| BookingPage.FormatTimeStringStable | app/booking/page.tsx:178-185 | formatting is idempotent and does not change the hours and minutes the slot bounds read |
| BookingPage.FormatTimeStringDropsSeconds | app/booking/page.tsx:178-180 | `h:m:s` formats as `h:m` |
| BookingPage.SlotBounds | app/booking/page.tsx:182-190 | the slot has bounds exactly when both formatted times parse |
| BookingPage.IsSpaceBooked | app/booking/page.tsx:175-220 | booked exactly when the slot bounds parse and some booking of that space has both dates and strictly overlaps them; never with no bookings |
| BookingPage.DetailsIffBooked | app/booking/page.tsx:223-261 | details are found exactly when the slot is booked, and they are the first booking in list order that marks the slot |
| BookingPage.StrictOverlapBoundary | app/booking/page.tsx:205-213 | a booking that ends exactly at the slot start, or starts exactly at its end, does not book it; one reaching a millisecond in does |
| BookingPage.OnlySameSpaceCounts | app/booking/page.tsx:193-206 | appending a booking of another space, or one whose start or end is falsy or unparsable, never changes whether the slot is booked |
| BookingPage.BookingPageState.constructor | app/booking/page.tsx:38-40 | the dialog starts closed, with no space and no slot chosen |
| BookingPage.BookingPageState.HandleBookSpace | app/booking/page.tsx:274-310 | the outcome is the gate's verdict on the slot's start that day; only an open gate records the space and slot and opens the dialog |
| BookingPage.BookingPageState.CancelBooking | app/booking/page.tsx:404-408 | the dialog is closed and the chosen space and slot are cleared |
| BookingPage.DisabledWindowEdges | app/booking/page.tsx:481-484 | today and the last allowed day are selectable; the day after it and yesterday are not; without rules no future day is disabled |
| SlotsDialog.GenerateDates | components/available-slots-dialog.tsx:96-101 | one date per day ahead (none for a non-positive count), the i-th one i days after now and on calendar day today + i |
| SlotsDialog.Row | components/available-slots-dialog.tsx:125-129 | one slot per time slot, in order, all on the given date |
| SlotsDialog.AllSlotsLength | components/available-slots-dialog.tsx:124-130 | the nested loop yields dates × time slots entries |
| SlotsDialog.AllSlotsMembers | components/available-slots-dialog.tsx:124-130 | a slot is produced exactly when its date and its time slot are both listed |
| SlotsDialog.AllSlotsIndex | components/available-slots-dialog.tsx:124-130 | the order is date-major: entry i·n + j is date i with time slot j |
| SlotsDialog.IsSlotBooked | components/available-slots-dialog.tsx:146-167 | booked exactly when both ISO instants parse and some booking of the space whose dates both read as valid overlaps the slot, edges included |
| SlotsDialog.ClosedOverlapBoundary | components/available-slots-dialog.tsx:161 | a booking ending exactly at the slot start, or starting exactly at its end, books it; one ending a millisecond earlier does not |
| SlotsDialog.MidnightEndMarks | components/available-slots-dialog.tsx:148-161 | a slot ending at `24:00` is marked by a booking of the space inside it |
| SlotsDialog.SpaceBookings | components/available-slots-dialog.tsx:117-119 | exactly the bookings of the given space, in order |
| SlotsDialog.SpaceBookingsCounts | components/available-slots-dialog.tsx:117-119 | each booking of the space is kept as often as the list holds it |
| SlotsDialog.AvailableSlots | components/available-slots-dialog.tsx:124-133 | the shown slots keep the date-major order and are exactly the date/time-slot pairs that are not booked |
| SlotsDialog.AvailableSlotsCounts | components/available-slots-dialog.tsx:124-133 | each unbooked date/time-slot pair is offered as often as the product lists it |
| SlotsDialog.OtherSpacesIgnored | components/available-slots-dialog.tsx:153-161 | filtering to the space's own bookings first changes no slot's booked state |
| SlotsDialog.DatesAheadExact | components/available-slots-dialog.tsx:99-101 | any list meeting the date loop's contract is the one specification list of days ahead |
| SlotsDialog.SlotsOn | components/available-slots-dialog.tsx:276-283 | the slots on a day are exactly the slots whose date falls on that day |
| SlotsDialog.GroupSlots | components/available-slots-dialog.tsx:276-283 | a day has a group exactly when some slot falls on it; each group is that day's slots, in order; the key list holds each day once |
| SlotsDialog.GroupsPlaceEachSlotOnce | components/available-slots-dialog.tsx:276-283 | every slot lies in the group of its own day, and every grouped slot lies on its group's day |
| SlotsDialog.DatesList | components/available-slots-dialog.tsx:286 | the sorted day list is strictly ascending and holds exactly the group keys |
| SlotsDialog.ConfirmReport | components/available-slots-dialog.tsx:239-263 | success is confirmed; a failure shows its error, or "Failed to create booking" when it is empty; a thrown error shows its message or "An error occurred" |
| SlotsDialog.GateTestsSlotDate | components/available-slots-dialog.tsx:197-199 | at the cap, a first-day slot starting beyond the window is let through, because the gate tests the slot's date; testing its start would refuse it |
| SlotsDialog.AvailableSlotsDialog.constructor | components/available-slots-dialog.tsx:28-36 | starts loading, with no bookings, slots, truck, rules or selection, and a zero count |
| SlotsDialog.AvailableSlotsDialog.LoadUserData | components/available-slots-dialog.tsx:40-62 | a found truck is stored with its future-booking count; found rules are stored; otherwise the fields keep their values |
| SlotsDialog.AvailableSlotsDialog.LoadAvailableSlots | components/available-slots-dialog.tsx:76-143 | rules are fetched only when missing; a failed reply or a booking without space sets its error message and keeps the lists; otherwise the lists are the space's bookings and the free slots over the horizon |
| SlotsDialog.AvailableSlotsDialog.HandleBookSlot | components/available-slots-dialog.tsx:186-210 | the outcome is the gate's verdict on the slot's date; only an open gate selects the slot |
| SlotsDialog.AvailableSlotsDialog.ConfirmBooking | components/available-slots-dialog.tsx:213-268 | without a truck or a selection only the missing-information toast is shown; otherwise it sends the truck, the space and the slot's ISO instants, reports the reply, and clears the selection |
| SlotsDialog.AvailableSlotsDialog.CancelBooking | components/available-slots-dialog.tsx:271-273 | the selection is cleared |
| Calendar.DateRange | components/booking-calendar.tsx:38-43 | the dates step one day from the start, none lies after the end, and the next step would |
| Calendar.DateRangeLength | components/booking-calendar.tsx:38-43 | the number of dates is the number of whole days in the range, and the list is empty exactly when the start is after the end |
| Calendar.CellBounds | components/booking-calendar.tsx:112-118 | the cell has bounds exactly when both slot times parse |
| Calendar.OverlapDisjunctsAgree | components/booking-calendar.tsx:128-131 | the two disjuncts of the calendar's overlap test are the same closed test |
| Calendar.IsSlotBooked | components/booking-calendar.tsx:110-133 | booked exactly when the cell bounds parse and some booking of the space whose dates both read as valid (a `null` one as the epoch) overlaps the cell, edges included |
| Calendar.GetBookingId | components/booking-calendar.tsx:199-224 | an id is found exactly when the cell is booked, and it is the id of the first booking in list order that is in the cell |
| Calendar.IsSlotBookedByMe | components/booking-calendar.tsx:164-196 | without a truck, nothing; it finds an id only for a booked cell, and it is the id of the first of the truck's own bookings in the cell; finding none means the truck has no booking there |
| Calendar.GetBusinessName | components/booking-calendar.tsx:227-252 | a free cell shows "another vendor"; a booked cell shows the name of the first booking in the cell, or "another vendor" when that booking lacks a truck or a non-empty name |
| Calendar.CellPriority | components/booking-calendar.tsx:290-318 | a cell is free exactly when not booked; it is "your booking" exactly when the first of the truck's bookings in it has a non-empty id, which needs a truck; that cell's Cancel carries `getBookingId`'s id, the first booking in the cell of any truck; with an empty own id the cell is booked; a booked cell shows the business name |
| Calendar.CancelTargetsFirstInCell | components/booking-calendar.tsx:292-318 | as written, with another vendor's booking listed before the truck's own in a cell, the cell is "your booking" but Cancel carries the other booking's id, and the local removal drops that booking |
| Calendar.CancelTargetsOtherVendor | components/booking-calendar.tsx:292-318 | the concrete case: a morning booking of another vendor and the truck's evening booking both lie in the evening cell, whose Cancel removes the other vendor's booking, while the corrected cell cancels the truck's own |
| Calendar.CellStateIntended | components/booking-calendar.tsx:292-318 | the corrected cell shows the same state and differs only in the id Cancel carries |
| Calendar.IntendedCancelIsOwn | components/booking-calendar.tsx:292-318 | with the corrected cell, Cancel carries the id of one of the truck's own bookings in the cell; with unique ids the local removal drops only the truck's bookings |
| Calendar.MorningMarksEvening | components/booking-calendar.tsx:20-23 | a booking of the whole morning slot also marks the evening slot, which starts when the morning ends |
| Calendar.Without | components/booking-calendar.tsx:160 | exactly the bookings of other ids remain, in order |
| Calendar.WithoutCounts | components/booking-calendar.tsx:160 | each booking of another id is kept as often as the list holds it; the id's bookings are all dropped |
| Calendar.CalendarBookings.constructor | components/booking-calendar.tsx:33 | the local list starts empty |
| Calendar.CalendarBookings.AddBookingToLocalState | components/booking-calendar.tsx:136-156 | appends the temporary booking when both slot times parse, else leaves the list |
| Calendar.CalendarBookings.RemoveBookingFromLocalState | components/booking-calendar.tsx:159-161 | the list loses exactly the bookings with that id |
| Calendar.AddedSlotIsMine | components/booking-calendar.tsx:146-155 | after the optimistic add the cell is booked and is the truck's own |
| Calendar.RemovedIdIsGone | components/booking-calendar.tsx:159-161 | after removal the cell never reports the removed id, and the rest keep their order |
| ConfirmationModal.ConfirmButtonOf | components/booking-confirmation-modal.tsx:109-130 | disabled exactly while booking or when not bookable; captions "Processing", "Last-Minute" and "Confirm" each in their exact case; secondary exactly for a last-minute booking at the cap |
| ConfirmationModal.ButtonMatchesBadge | components/booking-confirmation-modal.tsx:46-120 | bookable exactly when the badge does not show the maximum; the secondary variant appears exactly with the last-minute badge |
| ConfirmationModal.DescriptionLine | components/booking-confirmation-modal.tsx:60-62 | a missing or empty description gives the placeholder; otherwise it is cut to 120 characters |
| ConfirmationModal.SlotLine | components/booking-confirmation-modal.tsx:74 | a slot with a description shows it; otherwise the first five characters of each time, joined by " - " |
| ConfirmationModal.SlotLineDropsSeconds | components/booking-confirmation-modal.tsx:74 | without a description, `HH:MM:SS` times show as `HH:MM - HH:MM` |
| StatusIndicator.SelectStatus | components/booking-status-indicator.tsx:23-77 | below the cap, available; the maximum badge exactly at the cap without a last-minute slot; otherwise last-minute |
| StatusIndicator.MaxBookingsShown | components/booking-status-indicator.tsx:20 | the rules' maximum, or 0 without rules |
| StatusIndicator.WindowHoursShown | components/booking-status-indicator.tsx:53 | the window's hours, or 24 without rules or for a zero window |
| StatusIndicator.BadgeMatchesGate | components/booking-status-indicator.tsx:23-59 | the badge shows the maximum exactly when the booking gate refuses the slot for the cap |
| StatusIndicator.ZeroWindowShownAs24 | components/booking-status-indicator.tsx:53 | a zero-hour window is shown as 24 hours, although only starts up to now are last-minute under it |
| Dashboard.SortBy | app/dashboard/page.tsx:74 | the result is sorted by the key and is a permutation of the input |
| Dashboard.PastBookings | app/dashboard/page.tsx:76-77 | exactly the bookings with a valid start at or before now |
| Dashboard.PastBookingsCounts | app/dashboard/page.tsx:76-77 | each booking starting up to now is kept as often as the list holds it |
| Dashboard.Dated | app/dashboard/page.tsx:72-77 | exactly the bookings whose start reads as a valid date |
| Dashboard.DatedCounts | app/dashboard/page.tsx:72-77 | each dated booking is kept as often as the list holds it |
| Dashboard.Upcoming | app/dashboard/page.tsx:72-74 | a permutation of the future bookings, earliest first, as long as the count the cap uses |
| Dashboard.Past | app/dashboard/page.tsx:76-78 | a permutation of the past bookings, latest first |
| Dashboard.FiltersSplitDated | app/dashboard/page.tsx:72-77 | the future and past filters together hold each dated booking exactly as often as the list does |
| Dashboard.TabsPartitionBookings | app/dashboard/page.tsx:72-81 | the two tabs partition the dated bookings, and a booking whose start is an invalid date is in neither |
| Dashboard.InProgressIsPast | app/dashboard/page.tsx:73-77 | a booking under way is in the past tab only |
| Dashboard.NullStartIsPast | app/dashboard/page.tsx:76-77 | a booking whose start is `null` is in the past tab from the epoch on, and one whose start is absent is in neither tab |
| Dashboard.FormatTime | app/dashboard/page.tsx:48-53 | fails exactly when the string has no 'T'; otherwise at most five characters without a 'T' |
| Dashboard.FormatTimeOfIso | app/dashboard/page.tsx:50-51 | an ISO timestamp shows its `hh:mm`, whatever follows it |
| RangePicker.WeekStart | components/date-range-picker.tsx:25 | a Monday midnight at or before now, less than a week before it |
| RangePicker.WeekDates | components/date-range-picker.tsx:28-31 | seven consecutive days from the visible Monday, Monday to Sunday |
| RangePicker.NextWeekMonotone | components/date-range-picker.tsx:34-38 | once the next week is out of reach, every later one is; with a limit of a week or more, the next week is reachable |
| RangePicker.HandleDateClick | components/date-range-picker.tsx:48-62 | a day beyond the limit is ignored; a day in the range selects only that day; one before the start moves the start; any other day, an inverted range included, becomes the end |
| RangePicker.ClickKeepsOrder | components/date-range-picker.tsx:48-62 | a click keeps an ordered range ordered |
| RangePicker.TodayDisabledAsWritten | components/date-range-picker.tsx:94 | except at midnight, today's button is disabled as written although a click on it would be accepted |
| RangePicker.TodaysButton | components/date-range-picker.tsx:25-31 | today's button in the current week holds today's midnight |
| RangePicker.EnabledDayClicks | components/date-range-picker.tsx:94 | with the corrected test, every enabled button reaches `onChange` and holds a day from today on |
| RangePicker.Picker.constructor | components/date-range-picker.tsx:22 | starts at the current week |
| RangePicker.Picker.PreviousWeek | components/date-range-picker.tsx:73-74 | moves back one week, never before the current one |
| RangePicker.Picker.NextWeek | components/date-range-picker.tsx:82-83 | moves forward exactly when the next week can be selected, so the visible Monday never passes the limit |
| Directus.StatusMessage | lib/directus-server.ts:52-64 | each of 401, 403, 404, 429 and 5xx has its message; other statuses have none |
| Directus.RequestErrorAsWritten | lib/directus-server.ts:25-67 | as written, the thrown message depends on the status alone |
| Directus.RequestErrorIntended | lib/directus-server.ts:26-49 | the CMS's own message wins, then the status message, then "Request failed (n)" |
| Directus.AsWrittenDropsCmsMessage | lib/directus-server.ts:26-67 | as written, the body never matters and "Request failed (n)" never escapes; a 400 with a CMS message shows the generic error |
| Directus.IntendedReportsStatus | lib/directus-server.ts:44-46 | with the corrected client, a 400 without a message reports "Request failed (400)" |
| Directus.UploadErrorAsWritten | lib/directus-server.ts:242-252 | as written, an upload failure always reads "File upload failed with status n" |
| Directus.UploadErrorIntended | lib/directus-server.ts:243-248 | the CMS's message, else "Directus request failed with status n" |
| Directus.UploadDropsCmsMessage | lib/directus-server.ts:242-252 | as written, a CMS upload message is replaced; with the corrected client it is kept |
| Directus.OkBody | lib/directus-server.ts:70-77 | a non-empty body with a JSON content type is parsed; anything else is `{}` |
| Directus.EmptyRepliesGiveEmptyObject | lib/directus-server.ts:70-77 | a 204 reply, an empty JSON body and a text content type all give `{}` |
| Actions.MessageOr | app/actions.ts:167 | an `Error`'s message, or the fallback for anything else thrown |
| Actions.LoginErrorMessage | app/actions.ts:34-51 | a non-`Error` gives "Failed to login"; an error gives the invalid-login message, the connection message or its own message |
| Actions.LoginErrorPrecedence | app/actions.ts:40-49 | the credential rule wins over the network rule; a message naming neither passes through unchanged |
| Actions.RequestPasswordReset | app/actions.ts:58-89 | a reply is a success, `{}` when empty; an error naming a missing account is a success; any other error gives the connection message when it mentions the network and its own message otherwise; a non-`Error` gives the fallback |
| Actions.ResetPasswordErrorMessage | app/actions.ts:99-117 | a non-`Error` gives the fallback; an error gives the expired-link message, the connection message or its own message |
| Actions.ResetPasswordErrorPrecedence | app/actions.ts:105-114 | the expiry rule wins over the network rule; anything else passes through |
| Actions.ServerErrorsThroughAuthActions | app/actions.ts:40-49 | with the CMS client as written, no HTTP error message triggers a rewrite; a password reset answered 404 is a success, any other status a failure |
| Actions.CmsMessagesReachAuthRules | app/actions.ts:40-49 | with the corrected client, the CMS's message reaches the rewrite rules; a 400 naming invalid credentials reads as a failed login, not as the generic error |
| Actions.GetUserFoodTruck | app/actions.ts:147-170 | no token gives "Not authenticated"; a reply gives its first truck or none; a thrown error gives its message or the fallback |
| Actions.CreateBooking | app/actions.ts:362-440 | the CMS is called exactly when every guard passes, the cap counted from the first clock reading and the horizon from the second; no token is refused first; a booking is created exactly when the CMS call returns, with its data |
| Actions.ServerCapHasNoOverride | app/actions.ts:401-410 | at the cap every booking is refused with the cap message, even one that is also too far ahead |
| Actions.HorizonBoundary | app/actions.ts:413-422 | a start exactly at the horizon, counted from the second clock reading, reaches the CMS; a millisecond later it is refused; an unparsable start is not refused by the horizon |
| Actions.ClientOverrideRefusedByServer | app/actions.ts:405-410 | a last-minute booking at the cap opens the client's confirmation, but the server refuses it for the cap |
| Toasts.Merge | components/toast-notification.tsx:106 | each key of the patch replaces the prop; absent keys keep it |
| Toasts.MergeLaws | components/toast-notification.tsx:103-109 | an empty patch changes nothing, and two patches compose key by key with the later one winning |
| Toasts.Updated | components/toast-notification.tsx:103-109 | same length and ids; toasts of other ids are unchanged; the id's toast gets the merged props |
| Toasts.UpdateUnknownId | components/toast-notification.tsx:105-107 | updating an id no toast has changes nothing |
| Toasts.Without | components/toast-notification.tsx:111-113 | exactly the toasts of other ids remain, in order |
| Toasts.WithoutCounts | components/toast-notification.tsx:111-113 | each toast of another id is kept as often as the list holds it; the id's toasts are all dropped |
| Toasts.ShowThenClose | components/toast-notification.tsx:94-99 | showing a toast under a fresh id and then closing it restores the list |
| Toasts.DismissUpdateCommute | components/toast-notification.tsx:103-113 | dismissing one id and updating another commute |
| Toasts.ToastList.constructor | components/toast-notification.tsx:84 | the list starts empty |
| Toasts.ToastList.ShowToast | components/toast-notification.tsx:86-101 | appends the toast with the given or default type and duration, and returns its id |
| Toasts.ToastList.UpdateToast | components/toast-notification.tsx:103-109 | the list becomes its update by id |
| Toasts.ToastList.DismissToast | components/toast-notification.tsx:111-113 | the list loses exactly the toasts with that id |
| Toasts.DefaultToastAutoCloses | components/toast-notification.tsx:50-57 | a toast with the defaults closes by itself; one patched into a loading toast does not |
| Toasts.BackgroundColor | components/toast-notification.tsx:20-27 | success gets the green classes, error the red, loading the blue and info the grey |
| Toasts.IconOf | components/toast-notification.tsx:30-39 | the spinner appears exactly for a loading toast; success shows ✓, error ✕ and info ℹ |
| Toasts.KindsLookDistinct | components/toast-notification.tsx:30-39 | no two toast types share an icon |
| Toasts.ToastView.constructor | components/toast-notification.tsx:16-17 | a toast starts visible |
| Toasts.ToastView.HandleClose | components/toast-notification.tsx:42-47 | hides the toast and schedules `onClose` exactly when one was given |
| Toasts.ToastView.Rendered | components/toast-notification.tsx:59-69 | renders exactly while visible, with the colour, icon and message of its type |
| SpaceForm.AddCheck | components/space-form.tsx:26-44 | missing times are refused first; then a start not before the end in string order; otherwise the slot is added |
| SpaceForm.PaddedOrderIsTimeOrder | components/space-form.tsx:37 | on padded `HH:MM` strings, string order is the order of times of day |
| SpaceForm.AddCheckOnPaddedTimes | components/space-form.tsx:36-44 | padded times are accepted exactly when the end is later; equal times are refused; the defaults pass |
| SpaceForm.WithoutSlot | components/space-form.tsx:63 | exactly the slots of other ids remain, in order |
| SpaceForm.WithoutSlotCounts | components/space-form.tsx:63 | each slot of another id is kept as often as the list holds it |
| SpaceForm.Form.constructor | components/space-form.tsx:21-23 | no slots, and the inputs hold 09:00 and 17:00 |
| SpaceForm.Form.SetTimes | components/space-form.tsx:144-153 | the inputs hold the typed times |
| SpaceForm.Form.HandleAddTimeSlot | components/space-form.tsx:26-60 | the outcome is the add check; a refusal changes nothing; an accepted slot is appended under the stamp and the inputs reset; every listed slot keeps passing the check |
| SpaceForm.Form.HandleRemoveTimeSlot | components/space-form.tsx:62-63 | the slots lose exactly that id, and the rest still pass the check |
| SpacesPage.HandleSearch | app/spaces/page.tsx:59-73 | a blank query lists every space; otherwise exactly the matching spaces, in order |
| SpacesPage.HandleSearchCounts | app/spaces/page.tsx:59-73 | for a non-blank query each matching space is kept as often as listed |
| SpacesPage.QueryNotTrimmed | app/spaces/page.tsx:62-69 | the query is not trimmed, so a leading space keeps a space's own name from matching |
| SpacesPage.CardDescription | app/spaces/page.tsx:197-203 | no line for a missing or empty description; otherwise cut to 100 characters |
| SpacesPage.SlotTimes | app/spaces/page.tsx:215 | the slot line is the description, ": ", and the first five characters of each time joined by " - " |
| FoodTrucksPage.HandleSearch | app/foodtrucks/page.tsx:60-74 | a blank query lists every truck; otherwise exactly the matching trucks, in order |
| FoodTrucksPage.HandleSearchCounts | app/foodtrucks/page.tsx:60-74 | for a non-blank query each matching truck is kept as often as listed |
| FoodTrucksPage.TruckSearchCases | app/foodtrucks/page.tsx:63-71 | a truck without name or description is never found by a non-blank query; the empty query lists every truck |
| FoodTrucksPage.CardDescription | app/foodtrucks/page.tsx:188-194 | no line for a missing or empty description; otherwise cut to 200 characters |
| Sidebar.ActiveRules | components/app-sidebar.tsx:29-43 | no pathname lights nothing; an exact match or a '/'-ended prefix lights the entry; a list lights when one of its patterns does |
| Sidebar.MenuEntries | components/app-sidebar.tsx:77-93 | the food-truck entry lights on its page and the pages below it, but not on a look-alike name; the spaces entry stays dark on the spaces overview |
| ResetForm.ValidationError | components/password-reset-form.tsx:32-48 | a mismatch is reported first, then a password under 8 characters, then a missing token; no error exactly when all three hold |
| ResetForm.ValidationOrder | components/password-reset-form.tsx:32-42 | a mismatch is reported even when the token is missing, and so is a short password |
| ResetForm.FailureMessage | components/password-reset-form.tsx:61-64 | the action's error, or the fallback when it is empty; a thrown error gives its message or the fallback |
| ResetForm.Form.constructor | components/password-reset-form.tsx:19-23 | empty fields, no error, not loading, no success |
| ResetForm.Form.HandleSubmit | components/password-reset-form.tsx:26-68 | the action is called exactly when validation passes; a validation error is shown; success sets the flag; a failure shows its message; loading ends |
| TruckDetails.CleanBase | components/food-truck-details.tsx:36 | one trailing '/' is removed |
| TruckDetails.ConstructImageUrl | components/food-truck-details.tsx:31-38 | no URL exactly without an image id; otherwise the CMS base (or its default) joined with `/assets/` and the id |
| TruckDetails.ImageUrlForms | components/food-truck-details.tsx:34-37 | a trailing '/' on the base makes no difference, and an empty base uses the default CMS address |
| TruckDetails.Details.constructor | components/food-truck-details.tsx:23-42 | the fields start from the truck's name, description and image URL, not editing |
| TruckDetails.Details.HandleEdit | components/food-truck-details.tsx:60-65 | editing starts with the truck's saved name, description and image |
| TruckDetails.Details.HandleCancel | components/food-truck-details.tsx:67-71 | editing stops, the error clears and the saved image is shown again |

## Left out

- Time zones and daylight saving time are not modelled. A day is a fixed 86 400 000 ms step, so local `setHours` and the ISO form without an offset read the same clock.
- The data fetching is not modelled: react-query, `fetch`, cookies, `revalidatePath` and the CMS itself. Every reply is a parameter, and so is the current time.
- The booking page's `confirmBooking` is not part of this model. It builds its instants with `Date.UTC`, which only differs from the others in a time zone.
- The booking page's fetching of the day's bookings is not part of this model.
- The other server actions are not part of this model, such as updating a truck, cancelling a booking and listing spaces. Only the ones named in the table above are modelled.
- A booking without a `space` makes `booking.space.id` throw while the calendar renders. In the model such a booking marks no cell.
- The `catch` of the dialog's `loadUserData` is not modelled: a rejected lookup there only sets "Failed to load user data". The lookups are taken as succeeded or empty.
- A rules record that is `null` after a successful lookup is not modelled. In `createBooking` reading its fields throws into the `catch`.
- The keys of the slots grouped by day are day numbers. The source sorts `Object.keys` strings, and the two orders agree only for four-digit years.
- `parseInt` and `Number` accept surrounding whitespace, trailing text and (for `Number`) the empty string. The model reads a time field only as a non-empty string of ASCII digits.
- `toLowerCase` and `trim` are modelled for ASCII letters and whitespace only.
- String lengths are counted in characters, not UTF-16 code units. This affects truncation and the password-length check.
- The sidebar's `[id]` pattern branch is not modelled, because no menu entry passes such a pattern.
- Toast ids from `Math.random` and slot ids from `Date.now()` are parameters.
- The toast's timers (`setTimeout`, the 300 ms fade) are not modelled. The timer's effect is `ToastView.HandleClose`.
- A patch key explicitly set to `undefined` is not modelled. A patch key is either present with a value or absent.
- A JSON body under a JSON content type that fails to parse is not modelled; its throw is out of scope.
- Durations and hours are integers, so `NaN` and fractional values are not modelled.
- JSX layout, class names other than the toast colours, icons and animations are not modelled.
- A dashboard card of a booking whose start or end is `null` calls `formatTime(null)`, which throws while rendering. The card's time is modelled on strings only.
- Toasts.KindsLookDistinct: states that the icons differ, not that the colour classes differ; the four classes are stated one by one in `Toasts.BackgroundColor`.
- `ResetForm.SubmitDisabled` is a plain predicate with no lemma about it.
- Dashboard.SortBy: states a sorted permutation, but not that the sort is stable, which the engine's `sort` guarantees.

## Findings

| source | as written | input that shows it | evidently intended | confidence | as-written member | corrected member |
|---|---|---|---|---|---|---|
| lib/directus-server.ts:26-67 | the message thrown inside the inner `try` is caught by its own `catch`, which rebuilds the message from the status alone | status 400 with the CMS message "Invalid payload" throws "An error occurred" | the CMS's own message, else the status message, else "Request failed (400)" | not executed | Directus.RequestErrorAsWritten, Directus.AsWrittenDropsCmsMessage | Directus.RequestErrorIntended, Directus.IntendedReportsStatus, Actions.CmsMessagesReachAuthRules |
| lib/directus-server.ts:242-252 | `uploadFile` has the same nesting, so every upload failure reads "File upload failed with status n" | status 413 with the CMS message "File too large" | the CMS's message, else "Directus request failed with status n" | not executed | Directus.UploadErrorAsWritten, Directus.UploadDropsCmsMessage | Directus.UploadErrorIntended |
| components/date-range-picker.tsx:94 | a day button is disabled when its date, a midnight, is before the current instant | today's button at 10:00 today is disabled, although `handleDateClick` accepts that day | disable only the days before today | not executed | RangePicker.IsDisabledAsWritten, RangePicker.TodayDisabledAsWritten | RangePicker.IsDisabled, RangePicker.EnabledDayClicks |
| components/booking-calendar.tsx:292-318 | a "Your Booking" cell's Cancel passes `bookingId`, which `getBookingId` takes from the first booking in the cell of any truck, to the local removal and to `onCancelClick`; the server's `cancelBooking` does not compare owners | another vendor's booking "a" from 08:00 to 15:00, listed before the truck's own "b" from 15:00 to 22:00 at the same space: the evening cell shows "Your Booking" and its Cancel removes "a" | Cancel acts on the truck's own booking, the id `isSlotBookedByMe` found | not executed | Calendar.CellState, Calendar.CancelTargetsFirstInCell, Calendar.CancelTargetsOtherVendor | Calendar.CellStateIntended, Calendar.IntendedCancelIsOwn |
