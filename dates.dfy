/** Calendar dates as Python `date` ordinals, and the calendar-day offset
    `date + timedelta(days=k)`.

    A date is its proleptic Gregorian ordinal: 1 is 0001-01-01 (a Monday)
    and 3652059 is 9999-12-31, the last date Python can represent. Adding a
    `timedelta` of k days is integer addition; a result outside that range
    raises OverflowError, which is modelled as an `Err` result. */
module Dates {

  const MinOrdinal: int := 1
  const MaxOrdinal: int := 3652059

  /** The ordinals that name a representable date. */
  predicate IsDate(d: int) {
    MinOrdinal <= d <= MaxOrdinal
  }

  type Date = d: int | MinOrdinal <= d <= MaxOrdinal witness MinOrdinal

  datatype Error = OverflowError

  datatype Result<T> = Ok(value: T) | Err(error: Error)

  /** `date.weekday()`: Monday is 0, ..., Sunday is 6. */
  function Weekday(d: int): (w: int)
    ensures 0 <= w < 7
  {
    (d + 6) % 7
  }

  /** Monday to Friday: `weekday() < 5`. */
  predicate IsBusinessDay(d: int) {
    Weekday(d) < 5
  }

  /** `d + timedelta(days=k)`: the date k calendar days after d, with no
      weekday filtering, or OverflowError when it is not representable. */
  function AddDays(d: Date, k: int): (r: Result<Date>)
    ensures r.Ok? <==> IsDate(d + k)
    ensures r.Ok? ==> r.value - d == k
  {
    if IsDate(d + k) then Ok(d + k) else Err(OverflowError)
  }

  /** Moving k calendar days, forwards or back, moves the weekday k places
      round the week. */
  lemma WeekdayShift(d: int, k: int)
    ensures Weekday(d + k) == (Weekday(d) + k) % 7
  {
  }

  /** A calendar offset of a multiple of seven days keeps the weekday, so
      calendar mode lands on a weekend whenever the base date and the offset
      put it there. */
  lemma AddDaysWeeks(d: Date, weeks: nat)
    requires AddDays(d, 7 * weeks).Ok?
    ensures Weekday(AddDays(d, 7 * weeks).value) == Weekday(d)
  {
    WeekdayShift(d, 7 * weeks);
  }
}
