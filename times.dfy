/**
 * Broken-down UTC times as the time clock uses them: the calendar date of a
 * timestamp (for grouping by day) and its instant (for durations).
 */
module Times {

  datatype Option<T> = None | Some(value: T)

  /**
   * A broken-down time (`time::Tm`), reduced to the fields the time clock reads:
   * the calendar date (`tm_year`, `tm_mon`, `tm_mday`) and the instant as whole
   * seconds since the epoch (what `to_timespec` yields).
   */
  datatype Tm = Tm(year: int, mon: int, mday: int, epoch: int)

  /** `empty_tm()`: every field zero. A day of month of 0 is no calendar date. */
  const EMPTY_TM: Tm := Tm(0, 0, 0, 0)

  /** A date that a timestamp parse can produce: its day of month is 1..31. */
  predicate IsCalendarDate(t: Tm) {
    1 <= t.mday <= 31
  }

  /** A working interval: from a punch-in to the matching punch-out (or to "now"). */
  datatype Interval = Interval(start: Tm, end: Tm)

  /** The length of an interval in seconds (`end.to_timespec() - start.to_timespec()`). */
  function Duration(iv: Interval): int {
    iv.end.epoch - iv.start.epoch
  }

  /** `same_day`: the two times fall on the same year, month and day of month. */
  predicate SameDay(a: Tm, b: Tm) {
    a.year == b.year && a.mon == b.mon && a.mday == b.mday
  }

  /** `same_day` is an equivalence relation on times. */
  lemma SameDayIsEquivalence(a: Tm, b: Tm, c: Tm)
    ensures SameDay(a, a)
    ensures SameDay(a, b) <==> SameDay(b, a)
    ensures SameDay(a, b) && SameDay(b, c) ==> SameDay(a, c)
  {
  }

  /** The `empty_tm()` sentinel never falls on the day of a parsed timestamp. */
  lemma SentinelIsNoDay(t: Tm)
    requires IsCalendarDate(t)
    ensures !SameDay(t, EMPTY_TM) && !SameDay(EMPTY_TM, t)
  {
  }
}
