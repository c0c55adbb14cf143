/**
 * Days left until a due date: the milliseconds from now to the last
 * millisecond (23:59:59.999) of the due day, divided by a day's length and
 * rounded up. A missing due date gives `None`, the script's `Infinity`.
 */
module Dates {
  import opened Wrappers
  import opened Tasks

  const DayMs: int := 86400000

  type MsOfDay = m: int | 0 <= m < DayMs

  /** The current moment: a local day number and the milliseconds since its midnight. */
  datatype Moment = Moment(day: Day, ms: MsOfDay)

  /** `Math.ceil(a / b)` for a positive divisor. */
  function CeilDiv(a: int, b: int): (q: int)
    requires b > 0
    ensures (q - 1) * b < a <= q * b
  {
    -((-a) / b)
  }

  function DaysLeft(due: Option<Day>, now: Moment): (dl: Option<int>)
    ensures dl.None? <==> due.None?
  {
    match due
    case None => None
    case Some(d) => Some(CeilDiv((d - now.day) * DayMs + (DayMs - 1) - now.ms, DayMs))
  }

  /**
   * In calendar terms: the number of days from today to the due day, plus
   * one for the part of today still to come; only at the very last
   * millisecond of a day does the extra day vanish.
   */
  lemma {:induction false} DaysLeftInDays(d: Day, now: Moment)
    ensures DaysLeft(Some(d), now) == Some(d - now.day + if now.ms < DayMs - 1 then 1 else 0)
  {
    var k := d - now.day;
    var a := k * DayMs + (DayMs - 1) - now.ms;
    var q := CeilDiv(a, DayMs);
    var expected := k + if now.ms < DayMs - 1 then 1 else 0;
    assert (expected - 1) * DayMs < a <= expected * DayMs;
    CeilDivUnique(a, DayMs, q, expected);
  }

  lemma CeilDivUnique(a: int, b: int, q: int, q': int)
    requires b > 0
    requires (q - 1) * b < a <= q * b
    requires (q' - 1) * b < a <= q' * b
    ensures q == q'
  {
  }

  /** A task due today still has a day left until its last millisecond. */
  lemma DueTodayHasOneDayLeft(now: Moment)
    requires now.ms < DayMs - 1
    ensures DaysLeft(Some(now.day), now) == Some(1)
  {
    DaysLeftInDays(now.day, now);
  }

  /** Days left never grow as the due date moves earlier. */
  lemma DaysLeftMonotone(d1: Day, d2: Day, now: Moment)
    requires d1 <= d2
    ensures DaysLeft(Some(d1), now).value <= DaysLeft(Some(d2), now).value
  {
    DaysLeftInDays(d1, now);
    DaysLeftInDays(d2, now);
  }
}
