/** Dates as day numbers, Ruby's `Date#wday`, and the calendar's step lookup. */
module Dates {
  import opened Wrappers

  /** A calendar date as a day number: day 0 is 1970-01-01, a Thursday. */
  type Date = int

  /** Ruby's `Date#wday`: 0 is Sunday, 1 Monday, ..., 6 Saturday. */
  function Weekday(d: Date): (w: nat)
    ensures w < 7
  {
    (d + 4) % 7
  }

  /** Day 0, 1970-01-01, is a Thursday. */
  lemma EpochIsThursday()
    ensures Weekday(0) == 4
  {
  }

  /** 2024-01-01, day 19723, is a Monday. */
  lemma KnownMonday()
    ensures Weekday(19723) == 1
  {
  }

  /** The next day is the next weekday, Saturday wrapping round to Sunday. */
  lemma WeekdayNext(d: Date)
    ensures Weekday(d + 1) == (Weekday(d) + 1) % 7
  {
  }

  /** Weekdays repeat every seven days, backwards as well as forwards. */
  lemma WeekdayPeriodic(d: Date, k: int)
    ensures Weekday(d + 7 * k) == Weekday(d)
  {
  }

  /** Saturday or Sunday. */
  predicate Weekend(d: Date) {
    Weekday(d) == 0 || Weekday(d) == 6
  }

  /** One step (bimester, trimester, ...) of a school calendar, both ends included. */
  datatype StepRange = StepRange(startAt: Date, endAt: Date)

  predicate Covers(step: StepRange, d: Date) {
    step.startAt <= d <= step.endAt
  }

  /** The school calendar's `step(date)`: the first step whose range holds `d`, or nil
      when the date lies outside every step. */
  function StepFor(steps: seq<StepRange>, d: Date): (r: Option<StepRange>)
    ensures r.None? <==> forall i :: 0 <= i < |steps| ==> !Covers(steps[i], d)
    ensures r.Some? ==> r.value in steps && Covers(r.value, d)
  {
    if steps == [] then None
    else if Covers(steps[0], d) then Some(steps[0])
    else
      var r := StepFor(steps[1..], d);
      assert forall i :: 1 <= i < |steps| ==> steps[i] == steps[1..][i - 1];
      r
  }
}
