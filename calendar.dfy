/** Instants and calendar days. An instant is a count of milliseconds
    (`Date.getTime()`); a day is a day number. Dates are taken in a single
    time zone, so local midnight is a multiple of one day. */
module Calendar {

  const MsPerDay: int := 86_400_000

  /** The day an instant falls on (`setHours(0, 0, 0, 0)` turned into a day
      number). */
  function DayOf(t: int): int
  {
    t / MsPerDay
  }

  /** Midnight at the start of a day: a "YYYY-MM-DD" input read by `new Date`. */
  function StartOfDay(day: int): int
  {
    day * MsPerDay
  }

  /** 23:59:59.999 on a day (`setHours(23, 59, 59, 999)`). */
  function EndOfDay(day: int): int
  {
    StartOfDay(day + 1) - 1
  }

  lemma DayOfBounds(t: int)
    ensures StartOfDay(DayOf(t)) <= t <= EndOfDay(DayOf(t))
  {
    var q := t / MsPerDay;
    assert t == q * MsPerDay + t % MsPerDay;
  }

  lemma StartOfDayMonotone(a: int, b: int)
    requires a < b
    ensures EndOfDay(a) < StartOfDay(b)
  {
    assert (b - (a + 1)) * MsPerDay >= 0;
  }

  /** An instant lies between midnight of `first` and the last millisecond
      of `last` exactly when its day lies between the two days. */
  lemma WithinDays(t: int, first: int, last: int)
    ensures StartOfDay(first) <= t <= EndOfDay(last) <==> first <= DayOf(t) <= last
  {
    var d := DayOf(t);
    DayOfBounds(t);
    if d < first {
      StartOfDayMonotone(d, first);
    }
    if last < d {
      StartOfDayMonotone(last, d);
    }
    if first <= d {
      assert StartOfDay(first) <= StartOfDay(d) by {
        assert (d - first) * MsPerDay >= 0;
      }
    }
    if d <= last {
      assert EndOfDay(d) <= EndOfDay(last) by {
        assert (last - d) * MsPerDay >= 0;
      }
    }
  }

  lemma AfterStart(t: int, first: int)
    ensures StartOfDay(first) <= t <==> first <= DayOf(t)
  {
    WithinDays(t, first, DayOf(t));
    DayOfBounds(t);
  }

  lemma BeforeEnd(t: int, last: int)
    ensures t <= EndOfDay(last) <==> DayOf(t) <= last
  {
    WithinDays(t, DayOf(t), last);
    DayOfBounds(t);
  }
}
