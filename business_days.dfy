/** `add_business_days(start_date, days)` (cps.py): advance one calendar day
    at a time, counting a day only when it falls Monday to Friday, until
    `days` such days have been counted. The start day itself is never
    counted, because the loop advances before it looks at the weekday. */
module BusinessDays {
  import opened Dates

  /** The number of weekend days straight after d: 2 on a Friday, 1 on a
      Saturday, 0 otherwise. It falls on every step that lands on a weekend
      day, which is what makes the stepping loop terminate. */
  function WeekendAhead(d: int): nat {
    if Weekday(d) == 4 then 2 else if Weekday(d) == 5 then 1 else 0
  }

  lemma WeekdayNext(d: int)
    ensures Weekday(d + 1) == (Weekday(d) + 1) % 7
  {
    WeekdayShift(d, 1);
  }

  /** The day the loop stops on, over unbounded ordinals: the function the
      loop computes, step for step. A non-positive count never enters the
      loop and gives back the start. */
  function BusinessDaysAfter(current: int, days: int): (r: int)
    decreases if days > 0 then days else 0, WeekendAhead(current)
    ensures current <= r
    ensures days > 0 ==> current + days <= r && IsBusinessDay(r)
  {
    if days <= 0 then current
    else if IsBusinessDay(current + 1) then BusinessDaysAfter(current + 1, days - 1)
    else WeekdayNext(current); BusinessDaysAfter(current + 1, days)
  }

  /** The number of business days in the half-open span (lo, hi]. */
  function CountBusinessDays(lo: int, hi: int): (c: nat)
    decreases hi - lo
    ensures c <= if lo < hi then hi - lo else 0
  {
    if hi <= lo then 0
    else CountBusinessDays(lo, hi - 1) + (if IsBusinessDay(hi) then 1 else 0)
  }

  /** The first business day strictly after d, written out from the weekday:
      Friday jumps to Monday three days on, Saturday two, every other day
      goes to the next one. */
  function NextBusinessDay(d: int): (r: int)
    ensures d < r && IsBusinessDay(r)
    ensures forall x :: d < x < r ==> !IsBusinessDay(x)
  {
    WeekdayShift(d, 1); WeekdayShift(d, 2); WeekdayShift(d, 3);
    d + (if Weekday(d) == 4 then 3 else if Weekday(d) == 5 then 2 else 1)
  }

  /** Counting over adjacent spans adds up. */
  lemma {:induction false} CountSplit(a: int, b: int, c: int)
    requires a <= b <= c
    ensures CountBusinessDays(a, c) == CountBusinessDays(a, b) + CountBusinessDays(b, c)
    decreases c - b
  {
    if b < c {
      CountSplit(a, b, c - 1);
    }
  }

  /** A later business day always raises the count. */
  lemma CountStrict(lo: int, x: int, y: int)
    requires lo <= x < y && IsBusinessDay(y)
    ensures CountBusinessDays(lo, x) < CountBusinessDays(lo, y)
  {
    CountSplit(lo, x, y);
  }

  /** Exactly `days` business days lie in (start, result]: the start day is
      never counted, the result always is. */
  lemma {:induction false} CountToResult(start: int, days: nat)
    ensures CountBusinessDays(start, BusinessDaysAfter(start, days)) == days
    decreases days, WeekendAhead(start)
  {
    if days > 0 {
      var r := BusinessDaysAfter(start, days);
      CountSplit(start, start + 1, r);
      if IsBusinessDay(start + 1) {
        CountToResult(start + 1, days - 1);
      } else {
        WeekdayNext(start);
        CountToResult(start + 1, days);
      }
    }
  }

  /** For a positive count the result is THE business day after the start
      that completes the count: both directions of the characterisation. */
  lemma Characterisation(start: int, days: int, x: int)
    requires days > 0
    ensures x == BusinessDaysAfter(start, days)
        <==> start < x && IsBusinessDay(x) && CountBusinessDays(start, x) == days
  {
    var r := BusinessDaysAfter(start, days);
    CountToResult(start, days);
    if start < x && IsBusinessDay(x) && CountBusinessDays(start, x) == days {
      if x < r {
        CountStrict(start, x, r);
      } else if r < x {
        CountStrict(start, r, x);
      }
    }
  }

  /** One business day more lands on the first business day after the
      previous result, so the function is strictly increasing in `days`. */
  lemma Successor(start: int, days: nat)
    ensures BusinessDaysAfter(start, days + 1) == NextBusinessDay(BusinessDaysAfter(start, days))
  {
    var r := BusinessDaysAfter(start, days);
    var next := NextBusinessDay(r);
    CountToResult(start, days);
    CountSplit(start, r, next);
    CountSplit(r, next - 1, next);
    assert CountBusinessDays(r, next - 1) == 0 by {
      ZeroCount(r, next - 1);
    }
    Characterisation(start, days + 1, next);
  }

  /** A span free of business days counts zero. */
  lemma {:induction false} ZeroCount(lo: int, hi: int)
    requires forall x :: lo < x <= hi ==> !IsBusinessDay(x)
    ensures CountBusinessDays(lo, hi) == 0
    decreases hi - lo
  {
    if lo < hi {
      ZeroCount(lo, hi - 1);
    }
  }

  /** More business days never land earlier, and strictly more land strictly
      later. */
  lemma {:induction false} StrictlyMonotone(start: int, m: nat, n: nat)
    requires m < n
    ensures BusinessDaysAfter(start, m) < BusinessDaysAfter(start, n)
    decreases n
  {
    Successor(start, n - 1);
    if m < n - 1 {
      StrictlyMonotone(start, m, n - 1);
    }
  }

  /** A weekend start is skipped before anything is counted: one business
      day from a Saturday or a Sunday is the following Monday. */
  lemma WeekendStart(start: int)
    requires !IsBusinessDay(start)
    ensures Weekday(BusinessDaysAfter(start, 1)) == 0
    ensures BusinessDaysAfter(start, 1) == start + (7 - Weekday(start))
  {
    Successor(start, 0);
    WeekdayShift(start, 7 - Weekday(start));
  }

  /** `add_business_days` on representable dates: the unbounded result, or
      OverflowError when the loop has to step past 9999-12-31. */
  function BusinessOffset(start: Date, days: int): (r: Result<Date>)
    ensures r.Ok? <==> BusinessDaysAfter(start, days) <= MaxOrdinal
    ensures r.Ok? ==> r.value == BusinessDaysAfter(start, days)
  {
    var d: int := BusinessDaysAfter(start, days);
    if d <= MaxOrdinal then Ok(d as Date) else Err(OverflowError)
  }

  /** The business-day result is never earlier than the calendar-day result
      for the same offset, and is representable only if the calendar one is. */
  lemma CalendarNotLater(start: Date, days: nat)
    requires BusinessOffset(start, days).Ok?
    ensures AddDays(start, days).Ok?
    ensures AddDays(start, days).value <= BusinessOffset(start, days).value
  {
  }

  /** The loop of cps.py:6-12, over representable dates. */
  method AddBusinessDays(start: Date, days: int) returns (r: Result<Date>)
    ensures r == BusinessOffset(start, days)
    ensures days <= 0 ==> r == Ok(start)
    ensures r.Ok? && days > 0 ==> start < r.value && IsBusinessDay(r.value)
    ensures r.Ok? && days >= 0 ==> CountBusinessDays(start, r.value) == days
  {
    var current: Date := start;
    var remaining := days;
    while remaining > 0
      invariant start <= current
      invariant BusinessDaysAfter(current, remaining) == BusinessDaysAfter(start, days)
      decreases remaining, WeekendAhead(current)
    {
      if current >= MaxOrdinal {
        return Err(OverflowError);
      }
      current := current + 1;
      WeekdayNext(current - 1);
      if IsBusinessDay(current) {
        remaining := remaining - 1;
      }
    }
    if days >= 0 {
      CountToResult(start, days);
    }
    r := Ok(current);
  }

  /** Worked examples on January 2024, as ordinals: 738886 is Monday 2024-01-01, 738891 Saturday 2024-01-06 and
      738893 Monday 2024-01-08. */
  lemma January2024()
    ensures Weekday(738886) == 0 && Weekday(738891) == 5
    ensures BusinessOffset(738886, 5) == Ok(738893)
    ensures AddDays(738886, 5) == Ok(738891)
    ensures BusinessOffset(738891, 1) == Ok(738893)
  {
    Successor(738886, 0);
    Successor(738886, 1);
    Successor(738886, 2);
    Successor(738886, 3);
    Successor(738886, 4);
    WeekendStart(738891);
  }
}
