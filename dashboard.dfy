/** The food-truck dashboard: splitting the truck's bookings into the
    upcoming and the past tab, each sorted by start, and the time shown on
    each booking card. */
module Dashboard {
  import opened Common
  import opened Policy

  /** `new Date(booking.start) <= now`: false for a booking without a valid
      start, like every comparison with an invalid date. */
  predicate StartsUpTo(b: Booking, now: int) {
    DateOf(b.start).Some? && DateOf(b.start).value <= now
  }

  /** The sort key `new Date(b.start).getTime()`; only ever applied to
      bookings that have a valid start. */
  function StartKey(b: Booking): int {
    if DateOf(b.start).Some? then DateOf(b.start).value else 0
  }

  /** The past tab's comparator `b - a`, as an ascending key. */
  function LatestFirstKey(b: Booking): int {
    -StartKey(b)
  }

  /** Each entry's key is at most the next one's. */
  predicate SortedBy(xs: seq<Booking>, key: Booking -> int) {
    forall i | 0 <= i < |xs| - 1 :: key(xs[i]) <= key(xs[i + 1])
  }

  /** Order between neighbours is order between any two entries. */
  lemma {:induction false} SortedByPairs(xs: seq<Booking>, key: Booking -> int)
    requires SortedBy(xs, key)
    ensures forall i, j | 0 <= i < j < |xs| :: key(xs[i]) <= key(xs[j])
  {
    if |xs| > 1 {
      var rest := xs[1..];
      SortedByPairs(rest, key);
      forall i, j | 0 <= i < j < |xs| ensures key(xs[i]) <= key(xs[j]) {
        assert xs[j] == rest[j - 1];
        if i > 0 {
          assert xs[i] == rest[i - 1];
        } else if j > 1 {
          assert key(rest[0]) <= key(rest[j - 1]);
        }
      }
    }
  }

  /** Puts `b` in front of the first entry whose key is not smaller, so it
      stays ahead of entries with the same key. */
  function InsertBy(b: Booking, xs: seq<Booking>, key: Booking -> int): (r: seq<Booking>)
    requires SortedBy(xs, key)
    ensures SortedBy(r, key)
    ensures multiset(r) == multiset(xs) + multiset{b}
    ensures |r| == |xs| + 1 && (r[0] == b || (xs != [] && r[0] == xs[0]))
  {
    if xs == [] || key(b) <= key(xs[0]) then
      var r := [b] + xs;
      assert forall i | 1 <= i < |r| :: r[i] == xs[i - 1];
      r
    else
      var tail := xs[1..];
      var rest := InsertBy(b, tail, key);
      assert SortedBy(tail, key) by {
        assert forall i | 0 <= i < |tail| :: tail[i] == xs[i + 1];
      }
      assert xs == [xs[0]] + tail;
      var r := [xs[0]] + rest;
      assert forall i | 1 <= i < |r| :: r[i] == rest[i - 1];
      assert key(r[0]) <= key(r[1]);
      r
  }

  /** `xs.sort((a, b) => key(a) - key(b))`: a stable sort by `key`. */
  function SortBy(xs: seq<Booking>, key: Booking -> int): (r: seq<Booking>)
    ensures SortedBy(r, key)
    ensures multiset(r) == multiset(xs)
  {
    if xs == [] then []
    else
      assert xs == [xs[0]] + xs[1..];
      InsertBy(xs[0], SortBy(xs[1..], key), key)
  }

  /** The bookings of the past tab before sorting: a valid start up to now. */
  function PastBookings(bookings: seq<Booking>, now: int): (r: seq<Booking>)
    ensures forall b :: b in r <==> b in bookings && StartsUpTo(b, now)
  {
    Filter(bookings, b => StartsUpTo(b, now))
  }

  /** The past filter keeps each booking that starts up to now as often as the list holds it. */
  lemma PastBookingsCounts(bookings: seq<Booking>, now: int)
    ensures forall b :: multiset(PastBookings(bookings, now))[b] == if StartsUpTo(b, now) then multiset(bookings)[b] else 0
  {
    FilterCounts(bookings, b => StartsUpTo(b, now));
  }

  /** The bookings with a valid start. */
  function Dated(bookings: seq<Booking>): (r: seq<Booking>)
    ensures forall b :: b in r <==> b in bookings && DateOf(b.start).Some?
  {
    Filter(bookings, (b: Booking) => DateOf(b.start).Some?)
  }

  /** The dated filter keeps each dated booking as often as the list holds it. */
  lemma DatedCounts(bookings: seq<Booking>)
    ensures forall b :: multiset(Dated(bookings))[b] == if DateOf(b.start).Some? then multiset(bookings)[b] else 0
  {
    FilterCounts(bookings, (b: Booking) => DateOf(b.start).Some?);
  }

  /** The upcoming tab: the bookings starting strictly after now, earliest
      first. Its length is the future-booking count the cap is checked
      against, which is the "n of max future bookings used" the tab shows. */
  function Upcoming(bookings: seq<Booking>, now: int): (r: seq<Booking>)
    ensures multiset(r) == multiset(FutureBookings(bookings, now))
    ensures forall b :: b in r <==> b in bookings && StartsAfter(b, now)
    ensures forall i | 0 <= i < |r| :: StartsAfter(r[i], now)
    ensures forall i, j | 0 <= i < j < |r| :: DateOf(r[i].start).value <= DateOf(r[j].start).value
    ensures |r| == CountFuture(bookings, now)
  {
    var r := SortBy(FutureBookings(bookings, now), StartKey);
    SameMembers(r, FutureBookings(bookings, now));
    SortedByPairs(r, StartKey);
    assert forall i | 0 <= i < |r| :: r[i] in r;
    assert |multiset(r)| == |r|;
    r
  }

  /** The past tab: the bookings starting at or before now, latest first. */
  function Past(bookings: seq<Booking>, now: int): (r: seq<Booking>)
    ensures multiset(r) == multiset(PastBookings(bookings, now))
    ensures forall b :: b in r <==> b in bookings && StartsUpTo(b, now)
    ensures forall i | 0 <= i < |r| :: StartsUpTo(r[i], now)
    ensures forall i, j | 0 <= i < j < |r| :: DateOf(r[i].start).value >= DateOf(r[j].start).value
  {
    var r := SortBy(PastBookings(bookings, now), LatestFirstKey);
    SameMembers(r, PastBookings(bookings, now));
    SortedByPairs(r, LatestFirstKey);
    assert forall i | 0 <= i < |r| :: r[i] in r;
    r
  }

  /** Before sorting, the two filters split the dated bookings: together
      they hold each of them exactly as often as the list does. */
  lemma {:induction false} FiltersSplitDated(bookings: seq<Booking>, now: int)
    ensures multiset(FutureBookings(bookings, now)) + multiset(PastBookings(bookings, now)) ==
            multiset(Dated(bookings))
  {
    if bookings != [] {
      var b, rest := bookings[0], bookings[1..];
      FiltersSplitDated(rest, now);
      assert FutureBookings(bookings, now) ==
             (if StartsAfter(b, now) then [b] else []) + FutureBookings(rest, now);
      assert PastBookings(bookings, now) ==
             (if StartsUpTo(b, now) then [b] else []) + PastBookings(rest, now);
      assert Dated(bookings) == (if DateOf(b.start).Some? then [b] else []) + Dated(rest);
    }
  }

  /** The two tabs partition the bookings that have a valid start: each
      such booking is shown in exactly one tab, as often as it is listed;
      a booking without one is shown in neither. */
  lemma {:induction false} TabsPartitionBookings(bookings: seq<Booking>, now: int, b: Booking)
    ensures multiset(Upcoming(bookings, now)) + multiset(Past(bookings, now)) == multiset(Dated(bookings))
    ensures b in bookings && DateOf(b.start).Some? ==>
              (b in Upcoming(bookings, now) <==> b !in Past(bookings, now))
    ensures DateOf(b.start).None? ==> b !in Upcoming(bookings, now) && b !in Past(bookings, now)
  {
    FiltersSplitDated(bookings, now);
  }

  /** The tabs look at the start only: a booking under way (started, not
      yet ended) is in the past tab. */
  lemma InProgressIsPast(bookings: seq<Booking>, now: int, b: Booking)
    requires b in bookings && DateOf(b.start).Some? && DateOf(b.end).Some?
    requires DateOf(b.start).value <= now < DateOf(b.end).value
    ensures b in Past(bookings, now) && b !in Upcoming(bookings, now)
  {
  }

  /** The CMS stores an unset start as `null`, and `new Date(null)` is the
      epoch, a valid date: such a booking is in the past tab from the epoch
      on, and a start that is missing from the record is in neither tab. */
  lemma NullStartIsPast(bookings: seq<Booking>, now: int, b: Booking)
    requires b in bookings && b.start == Null && now >= 0
    ensures b in Past(bookings, now) && b !in Upcoming(bookings, now)
    ensures b.(start := Absent) !in Past(bookings, now) && b.(start := Absent) !in Upcoming(bookings, now)
  {
  }

  // -----------------------------------------------------------------------
  // The card's time
  // -----------------------------------------------------------------------

  /** `dateStr.split('T')[1].substring(0, 5)`. A string without a 'T' has
      no second part, and reading `substring` of `undefined` throws: `None`. */
  function FormatTime(dateStr: string): (r: Option<string>)
    ensures r.None? <==> 'T' !in dateStr
    ensures r.Some? ==> |r.value| <= 5 && 'T' !in r.value
  {
    var parts := Split(dateStr, 'T');
    SplitHasSecondPart(dateStr, 'T');
    if |parts| < 2 then None else Some(Prefix(parts[1], 5))
  }

  /** On an ISO timestamp `date T hh:mm rest` the card shows `hh:mm`,
      whatever follows it. */
  lemma {:induction false} FormatTimeOfIso(date: string, hhmm: string, rest: string)
    requires 'T' !in date && 'T' !in hhmm && 'T' !in rest && |hhmm| == 5
    ensures FormatTime(date + "T" + hhmm + rest) == Some(hhmm)
  {
    var s := date + "T" + (hhmm + rest);
    assert date + "T" + hhmm + rest == s;
    SplitPrepend(date, hhmm + rest, 'T');
    assert 'T' !in hhmm + rest;
    SplitNoSeparator(hhmm + rest, 'T');
    assert Split(s, 'T') == [date, hhmm + rest];
    assert (hhmm + rest)[..5] == hhmm;
  }
}
