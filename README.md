# Critical Path Schedule generator: date arithmetic

A Dafny model of the computing core of `cps.py`, a small Streamlit script
that turns a base date and a list of named milestones, each an offset in
days, into a dated schedule. Two parts are modelled:

- `add_business_days(start_date, days)`: a loop that steps one calendar day
  at a time and counts a day only when it falls Monday to Friday, until
  `days` days have been counted (module `BusinessDays`, file
  `business_days.dfy`).
- the schedule builder: the form rows are written into the `milestones`
  dict, then the dict is walked in insertion order to give one
  `(name, offset, date)` row per milestone. The date is the business-day
  result or `base_date + timedelta(days=offset)` (module `Schedule`, file
  `schedule.dfy`).

Dates are Python `date` ordinals (module `Dates`, file `dates.dfy`).
Ordinal 1 is 0001-01-01, a Monday, and 3652059 is 9999-12-31, Python's
`date.max`. Adding a `timedelta` of k days is integer addition, and
`weekday()` is `(ordinal + 6) % 7`, with Monday 0 and Sunday 6. Date
arithmetic that leaves that range raises OverflowError in Python. It is
modelled as `Err(OverflowError)`. This happens in the business-day loop
when it has to step past 9999-12-31, and in calendar mode when
`base + offset` is out of range. An OverflowError anywhere in the schedule
loop ends the script, so `BuildSchedule` then returns no schedule.

`add_business_days` is specified by `BusinessDaysAfter`, the day the loop
stops on over unbounded ordinals. That function is tied to three
independent descriptions, each by an all-inputs lemma:

- the weekday count `CountBusinessDays(lo, hi)` over `(lo, hi]`
  (`CountToResult`, `Characterisation`);
- the closed-form `NextBusinessDay` (`Successor`);
- the calendar offset (`CalendarNotLater`).

The `milestones` dict is an association list in insertion order.
`milestones[name] = offset` is `Upsert`: a name already present keeps its
position and takes the new offset, and a new name is appended.

What `cps.py` builds, and so what the model builds:

- Each schedule row has three columns: Milestone, Days After Base Date and
  Date. No end date is computed.
- The form rows are written into a dict, so a repeated milestone name
  overwrites the earlier offset in place and keeps its first position; it
  does not make a second row (`CollectedNames`, `CollectedOrder`,
  `CollectedOffsets`).

## Model

| member | source | states |
|---|---|---|
| `Dates.Weekday` | cps.py:10 | `date.weekday()` on an ordinal: `(ordinal + 6) % 7`, always in 0..6, with Monday 0 and Sunday 6 (ordinal 1, 0001-01-01, is a Monday) |
| `Dates.AddDays` | cps.py:40 | `base + timedelta(days=k)` succeeds exactly when the result is a representable date; the result is then exactly k calendar days after the base, with no weekday filtering; otherwise OverflowError |
| `Dates.WeekdayShift` | cps.py:40 | moving k calendar days moves the weekday k places round the week |
| `Dates.AddDaysWeeks` | cps.py:40 | a calendar offset of whole weeks keeps the weekday, so calendar mode may land on a weekend |
| `BusinessDays.BusinessDaysAfter` | cps.py:6-12 | the day the loop stops on is never before the start; for a positive count it is at least `days` days later and is Monday to Friday |
| `BusinessDays.NextBusinessDay` | cps.py:8-11 | the first day strictly after d whose weekday is below 5: it is a business day and every day between is a weekend day |
| `BusinessDays.CountToResult` | cps.py:8-11 | exactly `days` business days lie in (start, result]: the start day is never counted |
| `BusinessDays.Characterisation` | cps.py:6-12 | for a positive count, x is the result if and only if x is after the start, is a business day, and (start, x] holds exactly `days` business days |
| `BusinessDays.Successor` | cps.py:8-11 | one more business day lands on the first business day strictly after the previous result |
| `BusinessDays.StrictlyMonotone` | cps.py:8-11 | a larger count gives a strictly later date |
| `BusinessDays.WeekendStart` | cps.py:8-10 | from a Saturday or a Sunday, one business day is the following Monday: the weekend start is skipped before anything is counted |
| `BusinessDays.BusinessOffset` | cps.py:9 | on representable dates the call succeeds exactly when the unbounded result is no later than 9999-12-31, and then returns that result; otherwise stepping past `date.max` raises OverflowError |
| `BusinessDays.CalendarNotLater` | cps.py:8-10 | when the business-day result exists, so does the calendar-day result for the same offset, and it is no later |
| `BusinessDays.AddBusinessDays` | cps.py:6-12 | the loop returns the business-day result or OverflowError; a count of 0 or less returns the start unchanged; a positive count lands on a business day after the start with exactly `days` business days counted |
| `BusinessDays.January2024` | cps.py:6-12 | 2024-01-01 (a Monday) plus 5 business days is 2024-01-08, plus 5 calendar days is 2024-01-06 (a Saturday), and 2024-01-06 plus 1 business day is 2024-01-08 |
| `Schedule.Upsert` | cps.py:29 | dict assignment: a name already present keeps the name order, a new name is appended; the name then maps to the new offset and every other name keeps its value |
| `Schedule.CollectedNames` | cps.py:26-29 | the collected dict holds each name of the form exactly once and no other name, so it has at most as many items as rows |
| `Schedule.CollectedOffsets` | cps.py:26-29 | every name holds the offset of the last row that gave it |
| `Schedule.CollectedOrder` | cps.py:26-29 | the dict's names stand in the order of their first rows in the form, whatever later rows overwrote them |
| `Schedule.CollectedItems` | cps.py:26-29 | each item of the dict pairs its name with the offset of that name's last row |
| `Schedule.ResolveDateMeaning` | cps.py:37-40 | of `ResolveDate`, the if/else at cps.py:37-40 (`add_business_days` when the flag is set, `base + timedelta(days=offset)` otherwise): in calendar mode a milestone's date is exactly base plus offset; in business-day mode with a positive offset it is a business day after the base with exactly `offset` business days up to it; with a non-negative offset it is never before base plus offset |
| `Schedule.ResolveMonotone` | cps.py:36-40 | milestones are resolved independently: a larger offset never gives an earlier date, and a strictly larger one gives a strictly later date |
| `Schedule.CollectMilestones` | cps.py:22-29 | the collection loop returns the collected dict: distinct names, exactly the form's names, each with its last row's offset |
| `Schedule.BuildSchedule` | cps.py:35-41 | one row per dict item, in the dict's order, with name and offset copied and the date resolved in the chosen mode; OverflowError exactly when some item's date is not representable |
| `Schedule.GenerateSchedule` | cps.py:22-41 | with the form's bounds (1 to 20 rows, offsets at least 0): OverflowError exactly when some collected item's date is not representable; otherwise between 1 and 20 rows, one per collected item in order, with its name and offset, dated by `add_business_days` or by base plus offset as the flag says, and never before base plus offset |

## Left out

- The Streamlit calls (`st.title`, `st.date_input`, `st.number_input`, `st.text_input`, `st.checkbox`, `st.subheader`, `st.write`, `st.download_button`) are interactive I/O. Their results are parameters: the base date, the form rows and the business-day flag.
- The form's bounds (1 to 20 milestones, offsets at least 0, cps.py:23 and cps.py:28) are stated as the requires of `GenerateSchedule`. `add_business_days`, the collection loop and the schedule loop handle any input.
- `datetime.now()` (cps.py:18) reads the host clock. It only gives the form's default date and is left out.
- The pandas DataFrame and its CSV text (cps.py:44, cps.py:51) belong to an external library and are left out. The model stops at the list `schedule_data`.
- Conversion between ordinals and year/month/day is left out. Dates are ordinals, which is all `timedelta` arithmetic and `weekday()` need. The January 2024 dates in `January2024` appear as their ordinals.
- The form's default names and offsets (`Milestone {i+1}`, `i * 5`) are UI defaults and are left out.
- The dict is modelled as a value that the collection loop reassigns, not as a shared mutable object. Nothing else in the script holds a reference to it, so no aliasing is lost.
