/** SchoolDayChecker: decides whether a date is a school day for a calendar, optionally
    for a grade and a classroom. */
module SchoolDays {
  import opened Wrappers
  import opened Dates
  import opened CalendarEvents

  /** What the checker reads of a school calendar: its event rows and its steps. */
  datatype SchoolCalendar = SchoolCalendar(events: seq<Event>, steps: seq<StepRange>)

  /** A constructed checker: the inputs it stores once. */
  datatype SchoolDayChecker = SchoolDayChecker(
    calendar: SchoolCalendar, date: Date, gradeId: Option<int>, classroomId: Option<int>)

  datatype CheckerError = ArgumentError | RecordNotFound

  /** The constructor: raises `ArgumentError` unless both a calendar and a date are given. */
  function NewSchoolDayChecker(calendar: Option<SchoolCalendar>, date: Option<Date>,
                               gradeId: Option<int>, classroomId: Option<int>): (r: Result<SchoolDayChecker, CheckerError>)
    ensures r.Failure? <==> calendar.None? || date.None?
    ensures r.Failure? ==> r.error == ArgumentError
    ensures r.Success? ==> r.value == SchoolDayChecker(calendar.value, date.value, gradeId, classroomId)
  {
    if calendar.None? || date.None? then Failure(ArgumentError)
    else Success(SchoolDayChecker(calendar.value, date.value, gradeId, classroomId))
  }

  /** `room` is what `Classroom.find(classroom_id)` returned, when a classroom id is given. */
  predicate LookedUp(ch: SchoolDayChecker, room: Option<Classroom>) {
    ch.classroomId.Some? ==> room.Some? && room.value.id == ch.classroomId.value
  }

  // ---------------------------------------------------------------- the three tiers

  /** `any_classroom_event?`. */
  function AnyClassroomEvent(query: seq<Event>, gradeId: Option<int>, classroomId: Option<int>): (r: bool)
    ensures r <==> exists e :: e in query && e.gradeId == gradeId && e.classroomId == classroomId
  {
    var rows := ByClassroomId(ByGradeId(query, gradeId), classroomId);
    assert rows != [] ==> rows[0] in rows;
    rows != []
  }

  /** `any_grade_event?`: the grade matches and there is no classroom. */
  function AnyGradeEvent(query: seq<Event>, gradeId: Option<int>): (r: bool)
    ensures r <==> exists e :: e in query && e.gradeId == gradeId && e.classroomId.None?
  {
    var rows := WithoutClassroom(ByGradeId(query, gradeId));
    assert rows != [] ==> rows[0] in rows;
    rows != []
  }

  /** `any_global_event?`: neither a grade nor a classroom. */
  function AnyGlobalEvent(query: seq<Event>): (r: bool)
    ensures r <==> exists e :: e in query && e.gradeId.None? && e.classroomId.None?
  {
    var rows := WithoutClassroom(WithoutGrade(query));
    assert rows != [] ==> rows[0] in rows;
    rows != []
  }

  /** The rule used when no event decides: a date outside every step is not a school
      day, otherwise any day but Saturday and Sunday is. */
  function DefaultRule(ch: SchoolDayChecker): (b: bool)
    ensures b <==> && (exists i :: 0 <= i < |ch.calendar.steps| && Covers(ch.calendar.steps[i], ch.date))
                   && Weekday(ch.date) != 0 && Weekday(ch.date) != 6
  {
    StepFor(ch.calendar.steps, ch.date).Some? && !Weekend(ch.date)
  }

  /** `school_day?`. */
  function SchoolDay(ch: SchoolDayChecker, room: Option<Classroom>): (r: bool)
    requires LookedUp(ch, room)
    ensures r == Expected(ch, room)
  {
    var eventsByDate := ByDate(ch.calendar.events, ch.date);
    var withoutFrequency := WithoutFrequency(eventsByDate);
    var withFrequency := WithFrequency(eventsByDate);
    if ch.classroomId.Some? then
      var period := room.value.period;
      ClassroomQueries(ch);
      PeriodQueries(ch, period);
      if AnyClassroomEvent(withoutFrequency, ch.gradeId, ch.classroomId) then false
      else if AnyClassroomEvent(withFrequency, ch.gradeId, ch.classroomId) then true
      else if AnyGradeEvent(ByPeriod(withoutFrequency, period), ch.gradeId) then false
      else if AnyGradeEvent(ByPeriod(withFrequency, period), ch.gradeId) then true
      else if AnyGlobalEvent(ByPeriod(withoutFrequency, period)) then false
      else if AnyGlobalEvent(ByPeriod(withFrequency, period)) then true
      else DefaultRule(ch)
    else
      PlainQueries(ch);
      if ch.gradeId.Some? && AnyGradeEvent(withoutFrequency, ch.gradeId) then false
      else if ch.gradeId.Some? && AnyGradeEvent(withFrequency, ch.gradeId) then true
      else if AnyGlobalEvent(withoutFrequency) then false
      else if AnyGlobalEvent(withFrequency) then true
      else DefaultRule(ch)
  }

  /** `Classroom.find(id)`: the classroom with that id, if there is one. */
  function FindClassroom(classrooms: seq<Classroom>, id: int): (r: Option<Classroom>)
    ensures r.None? <==> forall i :: 0 <= i < |classrooms| ==> classrooms[i].id != id
    ensures r.Some? ==> r.value in classrooms && r.value.id == id
  {
    if classrooms == [] then None
    else if classrooms[0].id == id then Some(classrooms[0])
    else
      assert forall i :: 1 <= i < |classrooms| ==> classrooms[i] == classrooms[1..][i - 1];
      FindClassroom(classrooms[1..], id)
  }

  /** `school_day?` including its `Classroom.find`, which raises `RecordNotFound` for an
      unknown classroom id; without a classroom id nothing is looked up. */
  function SchoolDayWithLookup(ch: SchoolDayChecker, classrooms: seq<Classroom>): (r: Result<bool, CheckerError>)
    ensures r.Failure? <==> ch.classroomId.Some? && forall i :: 0 <= i < |classrooms| ==> classrooms[i].id != ch.classroomId.value
    ensures r.Failure? ==> r.error == RecordNotFound
    ensures ch.classroomId.None? ==> r == Success(Expected(ch, None))
    ensures r.Success? && ch.classroomId.Some? ==>
              exists room :: room in classrooms && room.id == ch.classroomId.value && r.value == Expected(ch, Some(room))
  {
    if ch.classroomId.None? then Success(SchoolDay(ch, None))
    else
      var room := FindClassroom(classrooms, ch.classroomId.value);
      if room.None? then Failure(RecordNotFound) else Success(SchoolDay(ch, room))
  }

  // ---------------------------------------------------------------- reference statement

  /** `e` is one of the calendar's rows dated on the checker's date. */
  predicate OnTheDay(ch: SchoolDayChecker, e: Event) {
    e in ch.calendar.events && e.eventDate == Some(ch.date)
  }

  predicate ClassroomTier(ch: SchoolDayChecker, e: Event) {
    e.gradeId == ch.gradeId && e.classroomId == ch.classroomId
  }

  predicate GradeTier(ch: SchoolDayChecker, e: Event) {
    e.gradeId == ch.gradeId && e.classroomId.None?
  }

  predicate GlobalTier(e: Event) {
    e.gradeId.None? && e.classroomId.None?
  }

  /** The six tests of the classroom branch, in order. */
  ghost predicate ClassroomBlocks(ch: SchoolDayChecker) {
    exists e :: OnTheDay(ch, e) && NoFrequency(e) && ClassroomTier(ch, e)
  }
  ghost predicate ClassroomOpens(ch: SchoolDayChecker) {
    exists e :: OnTheDay(ch, e) && CountsFrequency(e) && ClassroomTier(ch, e)
  }
  ghost predicate GradeBlocksIn(ch: SchoolDayChecker, period: string) {
    exists e :: OnTheDay(ch, e) && NoFrequency(e) && HasPeriod(e, period) && GradeTier(ch, e)
  }
  ghost predicate GradeOpensIn(ch: SchoolDayChecker, period: string) {
    exists e :: OnTheDay(ch, e) && CountsFrequency(e) && HasPeriod(e, period) && GradeTier(ch, e)
  }
  ghost predicate GlobalBlocksIn(ch: SchoolDayChecker, period: string) {
    exists e :: OnTheDay(ch, e) && NoFrequency(e) && HasPeriod(e, period) && GlobalTier(e)
  }
  ghost predicate GlobalOpensIn(ch: SchoolDayChecker, period: string) {
    exists e :: OnTheDay(ch, e) && CountsFrequency(e) && HasPeriod(e, period) && GlobalTier(e)
  }

  /** The four tests of the branch without a classroom, with no period filter. */
  ghost predicate GradeBlocks(ch: SchoolDayChecker) {
    exists e :: OnTheDay(ch, e) && NoFrequency(e) && GradeTier(ch, e)
  }
  ghost predicate GradeOpens(ch: SchoolDayChecker) {
    exists e :: OnTheDay(ch, e) && CountsFrequency(e) && GradeTier(ch, e)
  }
  ghost predicate GlobalBlocks(ch: SchoolDayChecker) {
    exists e :: OnTheDay(ch, e) && NoFrequency(e) && GlobalTier(e)
  }
  ghost predicate GlobalOpens(ch: SchoolDayChecker) {
    exists e :: OnTheDay(ch, e) && CountsFrequency(e) && GlobalTier(e)
  }

  /** Some event decides the day, so the default rule is not consulted. */
  ghost predicate EventDecides(ch: SchoolDayChecker, room: Option<Classroom>)
    requires LookedUp(ch, room)
  {
    if ch.classroomId.Some? then
      var p := room.value.period;
      ClassroomBlocks(ch) || ClassroomOpens(ch) || GradeBlocksIn(ch, p) || GradeOpensIn(ch, p)
      || GlobalBlocksIn(ch, p) || GlobalOpensIn(ch, p)
    else
      (ch.gradeId.Some? && (GradeBlocks(ch) || GradeOpens(ch))) || GlobalBlocks(ch) || GlobalOpens(ch)
  }

  /** The decision stated over the calendar's rows directly: the first test that some row
      on the date passes decides, a "not a school day" test before the matching "school
      day" test, the classroom before the grade before the whole unity. */
  ghost function Expected(ch: SchoolDayChecker, room: Option<Classroom>): bool
    requires LookedUp(ch, room)
  {
    if ch.classroomId.Some? then
      var p := room.value.period;
      if ClassroomBlocks(ch) then false
      else if ClassroomOpens(ch) then true
      else if GradeBlocksIn(ch, p) then false
      else if GradeOpensIn(ch, p) then true
      else if GlobalBlocksIn(ch, p) then false
      else if GlobalOpensIn(ch, p) then true
      else DefaultRule(ch)
    else
      if ch.gradeId.Some? && GradeBlocks(ch) then false
      else if ch.gradeId.Some? && GradeOpens(ch) then true
      else if GlobalBlocks(ch) then false
      else if GlobalOpens(ch) then true
      else DefaultRule(ch)
  }

  // ---------------------------------------------------------------- the queries against the reference

  /** The rows of the two frequency queries on the date are the rows of the day that pass
      the frequency tests. */
  lemma DayQueries(ch: SchoolDayChecker)
    ensures forall e :: e in WithoutFrequency(ByDate(ch.calendar.events, ch.date)) <==> OnTheDay(ch, e) && NoFrequency(e)
    ensures forall e :: e in WithFrequency(ByDate(ch.calendar.events, ch.date)) <==> OnTheDay(ch, e) && CountsFrequency(e)
  {
  }

  lemma ClassroomQueries(ch: SchoolDayChecker)
    ensures var byDate := ByDate(ch.calendar.events, ch.date);
      && (AnyClassroomEvent(WithoutFrequency(byDate), ch.gradeId, ch.classroomId) <==> ClassroomBlocks(ch))
      && (AnyClassroomEvent(WithFrequency(byDate), ch.gradeId, ch.classroomId) <==> ClassroomOpens(ch))
  {
    DayQueries(ch);
  }

  lemma PeriodQueries(ch: SchoolDayChecker, p: string)
    ensures var byDate := ByDate(ch.calendar.events, ch.date);
      && (AnyGradeEvent(ByPeriod(WithoutFrequency(byDate), p), ch.gradeId) <==> GradeBlocksIn(ch, p))
      && (AnyGradeEvent(ByPeriod(WithFrequency(byDate), p), ch.gradeId) <==> GradeOpensIn(ch, p))
      && (AnyGlobalEvent(ByPeriod(WithoutFrequency(byDate), p)) <==> GlobalBlocksIn(ch, p))
      && (AnyGlobalEvent(ByPeriod(WithFrequency(byDate), p)) <==> GlobalOpensIn(ch, p))
  {
    DayQueries(ch);
  }

  lemma PlainQueries(ch: SchoolDayChecker)
    ensures var byDate := ByDate(ch.calendar.events, ch.date);
      && (AnyGradeEvent(WithoutFrequency(byDate), ch.gradeId) <==> GradeBlocks(ch))
      && (AnyGradeEvent(WithFrequency(byDate), ch.gradeId) <==> GradeOpens(ch))
      && (AnyGlobalEvent(WithoutFrequency(byDate)) <==> GlobalBlocks(ch))
      && (AnyGlobalEvent(WithFrequency(byDate)) <==> GlobalOpens(ch))
  {
    DayQueries(ch);
  }

  // ---------------------------------------------------------------- properties

  /** With a classroom, a "not a school day" row for that grade and classroom closes the
      day whatever else is on the date; its periods are not looked at. */
  lemma ClassroomClosingEventWins(ch: SchoolDayChecker, room: Option<Classroom>, e: Event)
    requires LookedUp(ch, room) && ch.classroomId.Some?
    requires OnTheDay(ch, e) && NoFrequency(e) && ClassroomTier(ch, e)
    ensures !SchoolDay(ch, room)
  {
  }

  /** With a classroom and no closing classroom row, an EXTRA_SCHOOL row for the classroom
      opens the day even when the whole unity has a holiday. */
  lemma ClassroomExtraSchoolBeatsUnityHoliday(ch: SchoolDayChecker, room: Option<Classroom>, e: Event, holiday: Event)
    requires LookedUp(ch, room) && ch.classroomId.Some?
    requires !ClassroomBlocks(ch)
    requires OnTheDay(ch, e) && e.eventType == Some(ExtraSchool) && ClassroomTier(ch, e)
    requires OnTheDay(ch, holiday) && holiday.eventType == Some(Holiday) && GlobalTier(holiday)
    ensures SchoolDay(ch, room)
  {
  }

  /** Without a classroom but with a grade, a "not a school day" row of the grade (without
      a classroom) closes the day whatever its periods; failing that, an EXTRA_SCHOOL row
      of the grade opens it, ahead of any unity-wide row. */
  lemma GradeEventsUnfilteredByPeriod(ch: SchoolDayChecker, e: Event)
    requires ch.classroomId.None? && ch.gradeId.Some?
    requires OnTheDay(ch, e) && GradeTier(ch, e)
    ensures NoFrequency(e) ==> !SchoolDay(ch, None)
    ensures CountsFrequency(e) && !GradeBlocks(ch) ==> SchoolDay(ch, None)
  {
  }

  /** When no row decides, a date in no step is never a school day, and a date in a step is
      one exactly when it is neither Sunday (0) nor Saturday (6). */
  lemma DefaultWhenNoEventDecides(ch: SchoolDayChecker, room: Option<Classroom>)
    requires LookedUp(ch, room) && !EventDecides(ch, room)
    ensures StepFor(ch.calendar.steps, ch.date).None? ==> !SchoolDay(ch, room)
    ensures StepFor(ch.calendar.steps, ch.date).Some? ==>
              (SchoolDay(ch, room) <==> Weekday(ch.date) != 0 && Weekday(ch.date) != 6)
  {
  }

  /** A row that one of the checker's tests can select: dated on the day, typed, and with
      a grade and classroom (and, with a classroom, periods) that fit one of the tiers. */
  ghost predicate Relevant(ch: SchoolDayChecker, room: Option<Classroom>, e: Event)
    requires LookedUp(ch, room)
  {
    && e.eventDate == Some(ch.date)
    && e.eventType.Some?
    && if ch.classroomId.Some? then
         ClassroomTier(ch, e) || ((GradeTier(ch, e) || GlobalTier(e)) && HasPeriod(e, room.value.period))
       else
         (ch.gradeId.Some? && GradeTier(ch, e)) || GlobalTier(e)
  }

  function WithEvent(ch: SchoolDayChecker, e: Event): SchoolDayChecker {
    ch.(calendar := ch.calendar.(events := ch.calendar.events + [e]))
  }

  /** Adding a row that no test can select leaves the verdict as it was. */
  lemma IrrelevantEventIgnored(ch: SchoolDayChecker, room: Option<Classroom>, e: Event)
    requires LookedUp(ch, room) && !Relevant(ch, room, e)
    ensures SchoolDay(WithEvent(ch, e), room) == SchoolDay(ch, room)
  {
    var ch' := WithEvent(ch, e);
    assert forall x :: OnTheDay(ch', x) <==> OnTheDay(ch, x) || (x == e && e.eventDate == Some(ch.date));
    assert StepFor(ch'.calendar.steps, ch'.date) == StepFor(ch.calendar.steps, ch.date);
    if ch.classroomId.Some? {
      var p := room.value.period;
      assert ClassroomBlocks(ch') == ClassroomBlocks(ch);
      assert ClassroomOpens(ch') == ClassroomOpens(ch);
      assert GradeBlocksIn(ch', p) == GradeBlocksIn(ch, p);
      assert GradeOpensIn(ch', p) == GradeOpensIn(ch, p);
      assert GlobalBlocksIn(ch', p) == GlobalBlocksIn(ch, p);
      assert GlobalOpensIn(ch', p) == GlobalOpensIn(ch, p);
    } else {
      assert ch.gradeId.Some? ==> GradeBlocks(ch') == GradeBlocks(ch);
      assert ch.gradeId.Some? ==> GradeOpens(ch') == GradeOpens(ch);
      assert GlobalBlocks(ch') == GlobalBlocks(ch);
      assert GlobalOpens(ch') == GlobalOpens(ch);
    }
  }

  /** With a classroom, a grade-level or unity-wide row counts only when its periods hold
      the classroom's period. */
  lemma OutOfPeriodEventIgnored(ch: SchoolDayChecker, room: Option<Classroom>, e: Event)
    requires LookedUp(ch, room) && ch.classroomId.Some?
    requires !ClassroomTier(ch, e) && !HasPeriod(e, room.value.period)
    ensures SchoolDay(WithEvent(ch, e), room) == SchoolDay(ch, room)
  {
    IrrelevantEventIgnored(ch, room, e);
  }

  /** A row with a grade but no classroom is never unity-wide: for any other grade it has
      no effect, with or without a classroom. */
  lemma OtherGradeEventIgnored(ch: SchoolDayChecker, room: Option<Classroom>, e: Event)
    requires LookedUp(ch, room)
    requires e.gradeId.Some? && e.gradeId != ch.gradeId && e.classroomId.None?
    ensures SchoolDay(WithEvent(ch, e), room) == SchoolDay(ch, room)
  {
    IrrelevantEventIgnored(ch, room, e);
  }

  /** Rows dated on another day have no effect. */
  lemma OtherDayEventIgnored(ch: SchoolDayChecker, room: Option<Classroom>, e: Event)
    requires LookedUp(ch, room) && e.eventDate != Some(ch.date)
    ensures SchoolDay(WithEvent(ch, e), room) == SchoolDay(ch, room)
  {
    IrrelevantEventIgnored(ch, room, e);
  }

  // ---------------------------------------------------------------- worked examples

  /** A row of a concrete calendar (calendar 1, with a legend). */
  function Row(id: int, t: EventType, d: Date, coverage: Coverage, periods: Option<seq<string>>,
               gradeId: Option<int>, classroomId: Option<int>): Event
  {
    Event(id, Some(1), Some("event"), Some(t), Some(d), Some(coverage), periods, gradeId, classroomId, Some("H"))
  }

  /** A 2021 calendar with one step, 2021-01-01 (day 18628) to 2021-06-30 (day 18808),
      and a unity-wide holiday on Monday 2021-02-15 (day 18673). */
  function HolidayCalendar(): SchoolCalendar {
    SchoolCalendar([Row(1, Holiday, 18673, ByUnity, None, None, None)], [StepRange(18628, 18808)])
  }

  /** The holiday is not a school day. */
  lemma HolidayExample()
    ensures !SchoolDay(SchoolDayChecker(HolidayCalendar(), 18673, None, None), None)
  {
    var ch := SchoolDayChecker(HolidayCalendar(), 18673, None, None);
    assert OnTheDay(ch, ch.calendar.events[0]);
  }

  /** Away from the holiday no row decides the day. */
  lemma NoRowDecides(d: Date)
    requires d != 18673
    ensures !EventDecides(SchoolDayChecker(HolidayCalendar(), d, None, None), None)
  {
    var ch := SchoolDayChecker(HolidayCalendar(), d, None, None);
    assert ch.calendar.events == [Row(1, Holiday, 18673, ByUnity, None, None, None)];
    assert forall e :: !OnTheDay(ch, e);
  }

  /** Tuesday 2021-02-16 (day 18674), inside the step, is a school day. */
  lemma WeekdayInStepExample()
    ensures SchoolDay(SchoolDayChecker(HolidayCalendar(), 18674, None, None), None)
  {
    NoRowDecides(18674);
    assert StepFor(HolidayCalendar().steps, 18674).Some?;
    assert Weekday(18674) == 2;
    DefaultWhenNoEventDecides(SchoolDayChecker(HolidayCalendar(), 18674, None, None), None);
  }

  /** 2020-12-31 (day 18627) lies before the calendar's only step. */
  lemma OutsideStepExample()
    ensures !SchoolDay(SchoolDayChecker(HolidayCalendar(), 18627, None, None), None)
  {
    NoRowDecides(18627);
    assert StepFor(HolidayCalendar().steps, 18627).None?;
    DefaultWhenNoEventDecides(SchoolDayChecker(HolidayCalendar(), 18627, None, None), None);
  }

  /** Saturday 2021-03-06 (day 18692), without any row, is not a school day. */
  lemma WeekendExample()
    ensures !SchoolDay(SchoolDayChecker(HolidayCalendar(), 18692, None, None), None)
  {
    NoRowDecides(18692);
    assert Weekday(18692) == 6;
    DefaultWhenNoEventDecides(SchoolDayChecker(HolidayCalendar(), 18692, None, None), None);
  }

  /** Saturday 2021-03-06 (day 18692) with an EXTRA_SCHOOL row for grade 7 in period "1"
      and a unity-wide holiday for periods "1" and "2". */
  function SaturdayCalendar(): SchoolCalendar {
    SchoolCalendar([Row(1, ExtraSchool, 18692, ByGrade, Some(["1"]), Some(7), None),
                    Row(2, Holiday, 18692, ByUnity, Some(["1", "2"]), None, None)],
                   [StepRange(18628, 18808)])
  }

  /** The grade's EXTRA_SCHOOL row makes the Saturday a school day for the grade, despite
      the holiday. */
  lemma GradeExtraSchoolSaturdayExample()
    ensures SchoolDay(SchoolDayChecker(SaturdayCalendar(), 18692, Some(7), None), None)
  {
    var cal := SaturdayCalendar();
    var ch := SchoolDayChecker(cal, 18692, Some(7), None);
    assert forall e :: e in cal.events ==> e == cal.events[0] || e == cal.events[1];
    assert OnTheDay(ch, cal.events[0]);
    assert !GradeBlocks(ch);
  }

  /** For classroom 30, of grade 7 in period "1", only the grade's rows can decide, and
      the EXTRA_SCHOOL row opens the day. */
  lemma PeriodOneRows(ch: SchoolDayChecker)
    requires ch == SchoolDayChecker(SaturdayCalendar(), 18692, Some(7), Some(30))
    ensures !ClassroomBlocks(ch) && !ClassroomOpens(ch)
    ensures !GradeBlocksIn(ch, "1") && GradeOpensIn(ch, "1")
  {
    var rows := ch.calendar.events;
    assert forall e :: e in rows ==> e == rows[0] || e == rows[1];
    assert OnTheDay(ch, rows[0]);
  }

  /** The same EXTRA_SCHOOL row makes the Saturday a school day for a classroom of the
      grade in period "1". */
  lemma ClassroomExtraSchoolSaturdayExample()
    ensures SchoolDay(SchoolDayChecker(SaturdayCalendar(), 18692, Some(7), Some(30)), Some(Classroom(30, "1", 7)))
  {
    PeriodOneRows(SchoolDayChecker(SaturdayCalendar(), 18692, Some(7), Some(30)));
  }

  /** For classroom 31 only the holiday can decide: neither row is the classroom's, and
      the grade's row is not in period "2". */
  lemma OtherPeriodRows(ch: SchoolDayChecker)
    requires ch == SchoolDayChecker(SaturdayCalendar(), 18692, Some(7), Some(31))
    ensures !ClassroomBlocks(ch) && !ClassroomOpens(ch)
    ensures !GradeBlocksIn(ch, "2") && !GradeOpensIn(ch, "2")
  {
    var rows := ch.calendar.events;
    assert "1" != "2" by { assert "1"[0] != "2"[0]; }
    assert !HasPeriod(rows[0], "2");
    assert forall e :: OnTheDay(ch, e) ==> e == rows[0] || e == rows[1];
  }

  /** For a classroom of the grade in period "2" the grade's row does not count, and the
      holiday closes the day. */
  lemma OtherPeriodSaturdayExample()
    ensures !SchoolDay(SchoolDayChecker(SaturdayCalendar(), 18692, Some(7), Some(31)), Some(Classroom(31, "2", 7)))
  {
    var ch := SchoolDayChecker(SaturdayCalendar(), 18692, Some(7), Some(31));
    OtherPeriodRows(ch);
    var holiday := ch.calendar.events[1];
    assert OnTheDay(ch, holiday) && HasPeriod(holiday, "2") && NoFrequency(holiday) && GlobalTier(holiday);
  }
}
