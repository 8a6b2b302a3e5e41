/** Instants are integer milliseconds. Days are fixed steps of
    86 400 000 ms starting at multiples of that step (no time zones and
    no daylight-saving shifts). This module turns the `HH:MM` strings of
    time slots into instants, in the two ways the components do it. */
module Clock {
  import opened Common

  const MS_PER_MINUTE: int := 60_000
  const MS_PER_HOUR: int := 3_600_000
  const MS_PER_DAY: int := 86_400_000

  /** Midnight of the day holding `t`. */
  function DayStart(t: int): (r: int)
    ensures r <= t < r + MS_PER_DAY
    ensures r % MS_PER_DAY == 0
  {
    t - t % MS_PER_DAY
  }

  /** The first two `:`-separated fields of `s`, read as numbers, as
      `const [h, m] = s.split(':').map(Number)` does. A missing or
      non-numeric field gives NaN, modelled as `None`. */
  function ClockFields(s: string): Option<(nat, nat)> {
    var parts := Split(s, ':');
    if |parts| >= 2 && AllDigits(parts[0]) && AllDigits(parts[1])
    then Some((DigitsValue(parts[0]), DigitsValue(parts[1])))
    else None
  }

  /** `d.setHours(h, m, 0, 0)` on a copy of `date`: midnight of that day
      plus the slot's clock time. Hours or minutes beyond their range roll
      over into later days, as they do in JavaScript. NaN fields give an
      invalid date (`None`). */
  function SetHours(date: int, s: string): (r: Option<int>)
    ensures r.Some? <==> ClockFields(s).Some?
    ensures r.Some? ==> r.value >= DayStart(date)
  {
    match ClockFields(s)
    case None => None
    case Some((h, m)) => Some(DayStart(date) + h * MS_PER_HOUR + m * MS_PER_MINUTE)
  }

  /** A zero-padded `HH:MM` string with minutes below 60. */
  predicate IsPaddedHHMM(s: string) {
    |s| == 5 && IsDigit(s[0]) && IsDigit(s[1]) && s[2] == ':' &&
    IsDigit(s[3]) && IsDigit(s[4]) && s[3] <= '5'
  }

  function Hours(s: string): nat
    requires IsPaddedHHMM(s)
  {
    10 * (s[0] as int - '0' as int) + (s[1] as int - '0' as int)
  }

  /** Minutes since midnight of a padded `HH:MM` string. */
  function Minutes(s: string): (r: nat)
    requires IsPaddedHHMM(s)
    ensures r == 60 * Hours(s) + 10 * (s[3] as int - '0' as int) + (s[4] as int - '0' as int)
    ensures r < 60 * (Hours(s) + 1)
  {
    60 * Hours(s) + 10 * (s[3] as int - '0' as int) + (s[4] as int - '0' as int)
  }

  /** A padded `HH:MM` string splits into its two fields and reads as its
      hours and minutes. */
  lemma ClockFieldsPadded(s: string)
    requires IsPaddedHHMM(s)
    ensures ClockFields(s) == Some((Hours(s), Minutes(s) - 60 * Hours(s)))
  {
    var a, b := s[..2], s[3..];
    assert s == a + [':'] + b;
    SplitPrepend(a, b, ':');
    SplitNoSeparator(b, ':');
    assert Split(s, ':') == [a, b];
    TwoDigitsValue(a);
    TwoDigitsValue(b);
  }

  lemma TwoDigitsValue(x: string)
    requires |x| == 2 && IsDigit(x[0]) && IsDigit(x[1])
    ensures DigitsValue(x) == 10 * (x[0] as int - '0' as int) + (x[1] as int - '0' as int)
  {
    var y := x[..1];
    assert y[..0] == [] && y[0] == x[0];
    assert DigitsValue(y) == DigitsValue(y[..0]) * 10 + (y[0] as int - '0' as int);
    assert x[..|x| - 1] == y;
  }

  /** The instant of `new Date(`${yyyy-MM-dd}T${s}:00`)`: the date-time
      string is valid only when `s` is exactly `HH:MM` with an hour below
      24, or `24:00`, which ECMAScript's date-time format reads as the
      midnight ending the day; anything else (for example `08:00:00` or
      `24:30`) is an invalid date. */
  function IsoSlotInstant(date: int, s: string): (r: Option<int>)
    ensures r.Some? <==> IsPaddedHHMM(s) && (Hours(s) <= 23 || s == "24:00")
    ensures r.Some? ==> DayStart(date) <= r.value <= DayStart(date) + MS_PER_DAY
    ensures r.Some? ==> (r.value == DayStart(date) + MS_PER_DAY <==> s == "24:00")
  {
    if IsPaddedHHMM(s) && (Hours(s) <= 23 || s == "24:00")
    then Some(DayStart(date) + Minutes(s) * MS_PER_MINUTE)
    else None
  }

  /** On the strings the ISO form accepts, the two ways of building a slot
      instant agree. */
  lemma {:induction false} SlotInstantsAgree(date: int, s: string)
    requires IsPaddedHHMM(s) && (Hours(s) <= 23 || s == "24:00")
    ensures SetHours(date, s) == IsoSlotInstant(date, s)
  {
    ClockFieldsPadded(s);
  }

  /** A time stored with seconds (`HH:MM:SS`) reads as its `HH:MM` part
      through `setHours` but as an invalid date through the ISO string. */
  lemma {:induction false} SecondsFormatDiverges(date: int, s: string, sec: string)
    requires IsPaddedHHMM(s) && ':' !in sec
    ensures SetHours(date, s + ":" + sec) == SetHours(date, s)
    ensures IsoSlotInstant(date, s + ":" + sec) == None
  {
    var h, m := s[..2], s[3..];
    assert ':' !in h && ':' !in m by {
      assert h == [s[0], s[1]] && m == [s[3], s[4]];
    }
    assert s + ":" + sec == h + [':'] + (m + [':'] + sec);
    SplitPrepend(h, m + [':'] + sec, ':');
    SplitPrepend(m, sec, ':');
    SplitNoSeparator(sec, ':');
    ClockFieldsPadded(s);
    assert s == h + [':'] + m;
    SplitPrepend(h, m, ':');
    SplitNoSeparator(m, ':');
  }

  /** The calendar day holding instant `t`. */
  function DayOf(t: int): int { t / MS_PER_DAY }

  /** Moving by whole days moves the day number by as many. */
  lemma DayOfShift(t: int, k: int)
    ensures DayOf(t + k * MS_PER_DAY) == DayOf(t) + k
  {
    var q, r := t / MS_PER_DAY, t % MS_PER_DAY;
    assert t + k * MS_PER_DAY == (q + k) * MS_PER_DAY + r;
  }
}
