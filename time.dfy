/**
 * Time as integer millisecond timestamps. `new Date()` becomes an input
 * `now`; `setHours(0, 0, 0, 0)` becomes StartOfDay, with days counted in
 * the server's local time (the offset is folded into the timestamps).
 */
module Time {

  const DayMs: int := 86_400_000

  /** Local midnight of the day that contains t. */
  function StartOfDay(t: int): (d: int)
    ensures d <= t < d + DayMs
    ensures d % DayMs == 0
  {
    t - t % DayMs
  }

  /** The midnight of a day is the only multiple of DayMs in that day. */
  lemma StartOfDayUnique(t: int, d: int)
    requires d % DayMs == 0 && d <= t < d + DayMs
    ensures StartOfDay(t) == d
  {
    var s := StartOfDay(t);
    var q, p := d / DayMs, s / DayMs;
    assert d == q * DayMs;
    assert s == p * DayMs;
    assert s - d == (p - q) * DayMs;
    assert -DayMs < s - d < DayMs;
  }

  lemma StartOfDayOfMidnight(d: int)
    requires d % DayMs == 0
    ensures StartOfDay(d) == d
  {
    StartOfDayUnique(d, d);
  }

  /**
   * A timestamp lies on a strictly later calendar day than `now` exactly
   * when it is at or after the next midnight.
   */
  lemma LaterDayIffAfterNextMidnight(t: int, now: int)
    ensures StartOfDay(t) > StartOfDay(now) <==> t >= StartOfDay(now) + DayMs
  {
    var a, b := StartOfDay(t), StartOfDay(now);
    var p, q := a / DayMs, b / DayMs;
    assert a == p * DayMs;
    assert b == q * DayMs;
    if a > b {
      assert p > q;
      assert p >= q + 1;
      assert a >= b + DayMs;
    }
  }

  /**
   * A date as it arrives in a request: absent (or falsy), present but
   * not parseable (`isNaN(new Date(x).getTime())`), or a timestamp.
   */
  datatype DateInput = Absent | Invalid | At(t: int)

  /** What `new Date(x)` gives for a value that is present: never Absent. */
  type ParsedDate = d: DateInput | !d.Absent? witness Invalid
}
