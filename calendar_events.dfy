/** SchoolCalendarEvent: the event record, its query scopes as in-memory filters, the
    `periods=` normaliser, its validations and the per-day selection behind
    `all_events_for_classroom`. Columns that SQL lets be NULL are `Option`s, and each
    scope follows SQL's reading of NULL. */
module CalendarEvents {
  import opened Wrappers
  import opened Collections
  import opened Text
  import opened Dates
  import opened Validation

  /** Event types. Only the three named ones are distinguished by this code; every other
      type of the enumeration is an `OtherEventType`. */
  datatype EventType = Holiday | ExtraSchool | ExtraSchoolWithoutFrequency | OtherEventType(code: string)

  datatype Coverage = ByUnity | ByGrade | ByClassroom

  /** One row of `school_calendar_events`. */
  datatype Event = Event(
    id: int,
    schoolCalendarId: Option<int>,
    description: Option<string>,
    eventType: Option<EventType>,
    eventDate: Option<Date>,
    coverage: Option<Coverage>,
    periods: Option<seq<string>>,
    gradeId: Option<int>,
    classroomId: Option<int>,
    legend: Option<string>)

  /** The looked-up classroom: its id, its period (shift) and its grade's id. */
  datatype Classroom = Classroom(id: int, period: string, gradeId: int)

  // ---------------------------------------------------------------- row tests

  /** `event_type = EXTRA_SCHOOL`. */
  predicate CountsFrequency(e: Event) {
    e.eventType == Some(ExtraSchool)
  }

  /** `event_type <> EXTRA_SCHOOL`; a NULL type passes neither this test nor the one above. */
  predicate NoFrequency(e: Event) {
    e.eventType.Some? && e.eventType.value != ExtraSchool
  }

  predicate HasPeriod(e: Event, period: string) {
    e.periods.Some? && period in e.periods.value
  }

  predicate OnDate(e: Event, d: Date) {
    e.eventDate == Some(d)
  }

  predicate DatedBetween(e: Event, startAt: Date, endAt: Date) {
    e.eventDate.Some? && startAt <= e.eventDate.value <= endAt
  }

  // ---------------------------------------------------------------- scopes

  /** Scope `with_frequency`. */
  function WithFrequency(es: seq<Event>): (r: seq<Event>)
    ensures forall e :: e in r <==> e in es && e.eventType == Some(ExtraSchool)
    ensures IsSubsequenceOf(r, es)
  {
    Filter(es, CountsFrequency)
  }

  /** Scope `without_frequency`. */
  function WithoutFrequency(es: seq<Event>): (r: seq<Event>)
    ensures forall e :: e in r <==> e in es && e.eventType.Some? && e.eventType.value != ExtraSchool
    ensures IsSubsequenceOf(r, es)
  {
    Filter(es, NoFrequency)
  }

  /** Scope `extra_school_without_frequency`. */
  function OfExtraSchoolWithoutFrequency(es: seq<Event>): (r: seq<Event>)
    ensures forall e :: e in r <==> e in es && e.eventType == Some(ExtraSchoolWithoutFrequency)
    ensures IsSubsequenceOf(r, es)
  {
    Filter(es, (e: Event) => e.eventType == Some(ExtraSchoolWithoutFrequency))
  }

  /** Scope `without_grade`: `grade_id IS NULL`. */
  function WithoutGrade(es: seq<Event>): (r: seq<Event>)
    ensures forall e :: e in r <==> e in es && e.gradeId.None?
    ensures IsSubsequenceOf(r, es)
  {
    Filter(es, (e: Event) => e.gradeId.None?)
  }

  /** Scope `without_classroom`: `classroom_id IS NULL`. */
  function WithoutClassroom(es: seq<Event>): (r: seq<Event>)
    ensures forall e :: e in r <==> e in es && e.classroomId.None?
    ensures IsSubsequenceOf(r, es)
  {
    Filter(es, (e: Event) => e.classroomId.None?)
  }

  /** Scope `by_period`: `period = ANY (periods)`, false when `periods` is NULL. */
  function ByPeriod(es: seq<Event>, period: string): (r: seq<Event>)
    ensures forall e :: e in r <==> e in es && e.periods.Some? && period in e.periods.value
    ensures IsSubsequenceOf(r, es)
  {
    Filter(es, (e: Event) => HasPeriod(e, period))
  }

  /** Scope `by_date`. */
  function ByDate(es: seq<Event>, d: Date): (r: seq<Event>)
    ensures forall e :: e in r <==> e in es && e.eventDate == Some(d)
    ensures IsSubsequenceOf(r, es)
  {
    Filter(es, (e: Event) => OnDate(e, d))
  }

  /** Scope `by_date_between`: both ends included. */
  function ByDateBetween(es: seq<Event>, startAt: Date, endAt: Date): (r: seq<Event>)
    ensures forall e :: e in r <==> e in es && e.eventDate.Some? && startAt <= e.eventDate.value <= endAt
    ensures startAt > endAt ==> r == []
  {
    Filter(es, (e: Event) => DatedBetween(e, startAt, endAt))
  }

  /** Scope `by_type`. */
  function ByType(es: seq<Event>, t: EventType): (r: seq<Event>)
    ensures forall e :: e in r <==> e in es && e.eventType == Some(t)
  {
    Filter(es, (e: Event) => e.eventType == Some(t))
  }

  /** Scope `by_grade`: `where(grade_id: g)`, which reads `IS NULL` when `g` is nil. */
  function ByGradeId(es: seq<Event>, g: Option<int>): (r: seq<Event>)
    ensures forall e :: e in r <==> e in es && e.gradeId == g
    ensures IsSubsequenceOf(r, es)
  {
    Filter(es, (e: Event) => e.gradeId == g)
  }

  /** Scope `by_classroom_id`: `where(classroom_id: c)`, `IS NULL` when `c` is nil. */
  function ByClassroomId(es: seq<Event>, c: Option<int>): (r: seq<Event>)
    ensures forall e :: e in r <==> e in es && e.classroomId == c
    ensures IsSubsequenceOf(r, es)
  {
    Filter(es, (e: Event) => e.classroomId == c)
  }

  /** Every event with a type is in exactly one of `with_frequency` and
      `without_frequency`; EXTRA_SCHOOL_WITHOUT_FREQUENCY is on the "without" side. */
  lemma FrequencyClassification(e: Event)
    requires e.eventType.Some?
    ensures CountsFrequency(e) != NoFrequency(e)
    ensures CountsFrequency(e) <==> e.eventType.value == ExtraSchool
    ensures e.eventType == Some(ExtraSchoolWithoutFrequency) ==> NoFrequency(e)
  {
  }

  /** The two frequency scopes split a list of typed events between them, each event
      going to exactly one side. */
  lemma FrequencyPartition(es: seq<Event>)
    requires forall i :: 0 <= i < |es| ==> es[i].eventType.Some?
    ensures multiset(WithFrequency(es)) + multiset(WithoutFrequency(es)) == multiset(es)
    ensures |WithFrequency(es)| + |WithoutFrequency(es)| == |es|
  {
    FilterPartition(es, CountsFrequency, NoFrequency);
    assert |multiset(WithFrequency(es))| + |multiset(WithoutFrequency(es))| == |multiset(es)|;
  }

  // ---------------------------------------------------------------- periods=

  /** `periods=`: a nil input is stored as nil; a string is split at commas and the
      pieces stored in sorted order. */
  function NormalizedPeriods(input: Option<string>): (r: Option<seq<string>>)
    ensures r.None? <==> input.None?
    ensures input.Some? ==> Sorted(r.value)
    ensures input.Some? ==> multiset(r.value) == multiset(Split(input.value, ','))
    ensures input.Some? ==> forall i :: 0 <= i < |r.value| ==> ',' !in r.value[i]
  {
    if input.None? then None
    else
      var pieces := Split(input.value, ',');
      var sorted := Sort(pieces);
      assert forall i :: 0 <= i < |sorted| ==> sorted[i] in multiset(pieces);
      Some(sorted)
  }

  /** Assigning the comma-joined form of a stored (sorted, comma-free) list of periods
      stores the same list again. */
  lemma PeriodsRoundTrip(stored: seq<string>)
    requires Sorted(stored)
    requires forall i :: 0 <= i < |stored| ==> ',' !in stored[i]
    requires stored != [] ==> stored[|stored| - 1] != ""
    ensures NormalizedPeriods(Some(Join(stored, ','))) == Some(stored)
  {
    SplitJoin(stored, ',');
    var r := NormalizedPeriods(Some(Join(stored, ',')));
    SortedPermutationUnique(r.value, stored);
  }

  // ---------------------------------------------------------------- validations

  const ReservedLegends: set<string> := {"F", "f", "N", "n", "."}

  const AlreadyExists := ValidationError(EventDate, AlreadyExistsEventInThisDate)

  /** What a validation run can raise: the uniqueness validators call
      `school_calendar.events`, which fails on a record whose `school_calendar` is nil. */
  datatype Raised = NoMethodError

  /** `coverage_by_unity?`: an event for the whole unity is checked for neither periods, a
      grade nor a classroom. */
  function CoverageByUnity(e: Event): (b: bool)
    ensures b ==> !CoverageByClassroom(e) && !ShouldValidateGrade(e) && !ShouldValidateClassroom(e)
    ensures e.coverage.Some? ==> (b <==> !CoverageByClassroom(e) && !ShouldValidateGrade(e))
    ensures e.coverage.None? ==> !b
  {
    assert e.coverage.Some? ==> e.coverage.value.ByUnity? || e.coverage.value.ByGrade? || e.coverage.value.ByClassroom?;
    e.coverage == Some(ByUnity)
  }

  predicate CoverageByClassroom(e: Event) {
    e.coverage == Some(ByClassroom)
  }

  predicate ShouldValidateGrade(e: Event) {
    e.coverage == Some(ByGrade) || e.coverage == Some(ByClassroom)
  }

  predicate ShouldValidateClassroom(e: Event) {
    CoverageByClassroom(e)
  }

  /** Only EXTRA_SCHOOL events go without a legend; a nil type is validated too. */
  predicate ShouldValidateLegend(e: Event) {
    e.eventType != Some(ExtraSchool)
  }

  /** Rails' presence test on the stored `periods` array: present and not empty. */
  predicate PeriodsPresent(e: Event) {
    e.periods.Some? && e.periods.value != []
  }

  /** Rails' presence test on the type column: nil, or an empty or whitespace-only code
      (what an unselected form field submits), is blank. */
  predicate TypeBlank(e: Event) {
    e.eventType.None? || (e.eventType.value.OtherEventType? && AllSpace(e.eventType.value.code))
  }

  /** The presence checks on the description, the type, the date and the calendar id: one
      `blank` error for each of them that is missing. */
  function PresenceErrors(e: Event): (r: seq<ValidationError>)
    ensures ValidationError(Description, Blank) in r <==> IsBlank(e.description)
    ensures ValidationError(EventTypeAttribute, Blank) in r <==>
              e.eventType.None? || (e.eventType.value.OtherEventType? && AllSpace(e.eventType.value.code))
    ensures ValidationError(EventDate, Blank) in r <==> e.eventDate.None?
    ensures ValidationError(SchoolCalendarId, Blank) in r <==> e.schoolCalendarId.None?
    ensures forall err :: err in r ==> err.key == Blank && err.attribute in {Description, EventTypeAttribute, EventDate, SchoolCalendarId}
    ensures r == [] <==> !IsBlank(e.description) && !TypeBlank(e) && e.eventDate.Some? && e.schoolCalendarId.Some?
  {
    ErrorIf(IsBlank(e.description), ValidationError(Description, Blank))
    + ErrorIf(TypeBlank(e), ValidationError(EventTypeAttribute, Blank))
    + ErrorIf(e.eventDate.None?, ValidationError(EventDate, Blank))
    + ErrorIf(e.schoolCalendarId.None?, ValidationError(SchoolCalendarId, Blank))
  }

  /** The presence checks that depend on the coverage: periods for BY_CLASSROOM, a grade
      for BY_GRADE and BY_CLASSROOM, a classroom for BY_CLASSROOM. */
  function CoverageErrors(e: Event): (r: seq<ValidationError>)
    ensures ValidationError(Periods, Blank) in r <==> e.coverage == Some(ByClassroom) && !PeriodsPresent(e)
    ensures ValidationError(Grade, Blank) in r <==> (e.coverage == Some(ByGrade) || e.coverage == Some(ByClassroom)) && e.gradeId.None?
    ensures ValidationError(ClassroomAttribute, Blank) in r <==> e.coverage == Some(ByClassroom) && e.classroomId.None?
    ensures forall err :: err in r ==> err.key == Blank && err.attribute in {Periods, Grade, ClassroomAttribute}
    ensures r == [] <==> (CoverageByClassroom(e) ==> PeriodsPresent(e) && e.classroomId.Some?)
                         && (ShouldValidateGrade(e) ==> e.gradeId.Some?)
  {
    ErrorIf(CoverageByClassroom(e) && !PeriodsPresent(e), ValidationError(Periods, Blank))
    + ErrorIf(ShouldValidateGrade(e) && e.gradeId.None?, ValidationError(Grade, Blank))
    + ErrorIf(ShouldValidateClassroom(e) && e.classroomId.None?, ValidationError(ClassroomAttribute, Blank))
  }

  /** Unless the type is EXTRA_SCHOOL, the legend must be present and must not be one of
      the reserved marks F, f, N, n and `.`. A nil legend is blank but not excluded. */
  function LegendErrors(e: Event): (r: seq<ValidationError>)
    ensures ValidationError(Legend, Blank) in r <==> e.eventType != Some(ExtraSchool) && IsBlank(e.legend)
    ensures ValidationError(Legend, Exclusion) in r <==>
              e.eventType != Some(ExtraSchool) && e.legend.Some? && e.legend.value in ReservedLegends
    ensures forall err :: err in r ==> err.attribute == Legend
    ensures r == [] <==> e.eventType == Some(ExtraSchool) || (!IsBlank(e.legend) && e.legend.value !in ReservedLegends)
  {
    var checked := ShouldValidateLegend(e);
    ErrorIf(checked && IsBlank(e.legend), ValidationError(Legend, Blank))
    + ErrorIf(checked && e.legend.Some? && e.legend.value in ReservedLegends, ValidationError(Legend, Exclusion))
  }

  /** Every validation except the two uniqueness checks, in declaration order. */
  function AttributeErrors(e: Event): seq<ValidationError> {
    PresenceErrors(e) + CoverageErrors(e) + LegendErrors(e)
  }

  /** The guard of `uniquenesss_of_event_in_grade`: a type, a date and a grade, and
      BY_GRADE coverage. */
  predicate GradeGuard(e: Event) {
    e.eventType.Some? && e.eventDate.Some? && e.gradeId.Some? && e.coverage == Some(ByGrade)
  }

  /** The guard of `uniquenesss_of_event_in_classroom`: a type, a date and a classroom,
      and BY_CLASSROOM coverage. */
  predicate ClassroomGuard(e: Event) {
    e.eventType.Some? && e.eventDate.Some? && e.classroomId.Some? && e.coverage == Some(ByClassroom)
  }

  /** The `where` clauses of the uniqueness queries, one test each. `event_type <> t`
      fails on a NULL type. */
  function OfOtherType(e: Event): Event -> bool {
    (x: Event) => x.eventType.Some? && x.eventType != e.eventType
  }

  function OnSameDate(e: Event): Event -> bool {
    (x: Event) => x.eventDate == e.eventDate
  }

  function OfSameGrade(e: Event): Event -> bool {
    (x: Event) => x.gradeId == e.gradeId
  }

  function OfSameClassroom(e: Event): Event -> bool {
    (x: Event) => x.classroomId == e.classroomId
  }

  predicate WithoutClassroomId(x: Event) {
    x.classroomId.None?
  }

  /** A row of the calendar that makes a BY_GRADE record a duplicate: same date, same
      grade, no classroom, and a different (non-NULL) type. */
  predicate ConflictsInGrade(x: Event, e: Event) {
    x.eventType.Some? && x.eventType != e.eventType && x.eventDate == e.eventDate
    && x.gradeId == e.gradeId && x.classroomId.None?
  }

  /** A row that makes a BY_CLASSROOM record a duplicate: same date, same classroom and
      a different type; the grade is not compared. */
  predicate ConflictsInClassroom(x: Event, e: Event) {
    x.eventType.Some? && x.eventType != e.eventType && x.eventDate == e.eventDate
    && x.classroomId == e.classroomId
  }

  /** The grade query, its four `where`s chained in the order they are written: exactly
      the calendar's rows that conflict with the record. */
  function GradeQuery(e: Event, calendarEvents: seq<Event>): seq<Event> {
    Filter(Filter(Filter(Filter(calendarEvents, OfOtherType(e)), OnSameDate(e)), OfSameGrade(e)), WithoutClassroomId)
  }

  /** The classroom query, its three `where`s chained. */
  function ClassroomQuery(e: Event, calendarEvents: seq<Event>): seq<Event> {
    Filter(Filter(Filter(calendarEvents, OfOtherType(e)), OnSameDate(e)), OfSameClassroom(e))
  }

  /** Chaining the grade query's `where`s selects the same rows, in the same order, as
      one `where` on their conjunction. */
  lemma GradeQueryIsOneWhere(e: Event, calendarEvents: seq<Event>)
    ensures GradeQuery(e, calendarEvents) == Filter(calendarEvents, (x: Event) => ConflictsInGrade(x, e))
    ensures forall x :: x in GradeQuery(e, calendarEvents) <==> x in calendarEvents && ConflictsInGrade(x, e)
  {
    var s: seq<Event> := calendarEvents;
    var p1, p2, p3, p4 := OfOtherType(e), OnSameDate(e), OfSameGrade(e), WithoutClassroomId;
    var p12 := (x: Event) => p1(x) && p2(x);
    var p123 := (x: Event) => p12(x) && p3(x);
    FilterFilter(s, p1, p2, p12);
    FilterFilter(s, p12, p3, p123);
    FilterFilter(s, p123, p4, (x: Event) => ConflictsInGrade(x, e));
  }

  /** The same for the classroom query. */
  lemma ClassroomQueryIsOneWhere(e: Event, calendarEvents: seq<Event>)
    ensures ClassroomQuery(e, calendarEvents) == Filter(calendarEvents, (x: Event) => ConflictsInClassroom(x, e))
    ensures forall x :: x in ClassroomQuery(e, calendarEvents) <==> x in calendarEvents && ConflictsInClassroom(x, e)
  {
    var s: seq<Event> := calendarEvents;
    var p1, p2, p3 := OfOtherType(e), OnSameDate(e), OfSameClassroom(e);
    var p12 := (x: Event) => p1(x) && p2(x);
    FilterFilter(s, p1, p2, p12);
    FilterFilter(s, p12, p3, (x: Event) => ConflictsInClassroom(x, e));
  }

  /** `uniquenesss_of_event_in_grade` for a record whose calendar holds `calendarEvents`:
      past the guard, a record without a calendar raises. */
  function GradeUniquenessErrors(e: Event, calendarEvents: seq<Event>): (r: Result<seq<ValidationError>, Raised>)
    ensures r.Failure? <==> GradeGuard(e) && e.schoolCalendarId.None?
    ensures r.Success? ==> r.value == [] || r.value == [AlreadyExists]
    ensures r.Success? ==> (r.value != [] <==> GradeGuard(e) && exists x :: x in calendarEvents && ConflictsInGrade(x, e))
  {
    if !GradeGuard(e) then Success([])
    else if e.schoolCalendarId.None? then Failure(NoMethodError)
    else
      GradeQueryIsOneWhere(e, calendarEvents);
      var query := GradeQuery(e, calendarEvents);
      assert query != [] ==> query[0] in query;
      Success(if query != [] then [AlreadyExists] else [])
  }

  /** `uniquenesss_of_event_in_classroom`, likewise. */
  function ClassroomUniquenessErrors(e: Event, calendarEvents: seq<Event>): (r: Result<seq<ValidationError>, Raised>)
    ensures r.Failure? <==> ClassroomGuard(e) && e.schoolCalendarId.None?
    ensures r.Success? ==> r.value == [] || r.value == [AlreadyExists]
    ensures r.Success? ==> (r.value != [] <==> ClassroomGuard(e) && exists x :: x in calendarEvents && ConflictsInClassroom(x, e))
  {
    if !ClassroomGuard(e) then Success([])
    else if e.schoolCalendarId.None? then Failure(NoMethodError)
    else
      ClassroomQueryIsOneWhere(e, calendarEvents);
      var query := ClassroomQuery(e, calendarEvents);
      assert query != [] ==> query[0] in query;
      Success(if query != [] then [AlreadyExists] else [])
  }

  /** Everything `valid?` reports for a record whose calendar holds `calendarEvents`, or
      what it raises. */
  function ValidationErrors(e: Event, calendarEvents: seq<Event>): Result<seq<ValidationError>, Raised> {
    match GradeUniquenessErrors(e, calendarEvents)
    case Failure(err) => Failure(err)
    case Success(inGrade) =>
      match ClassroomUniquenessErrors(e, calendarEvents)
      case Failure(err) => Failure(err)
      case Success(inClassroom) => Success(AttributeErrors(e) + inGrade + inClassroom)
  }

  /** `valid?` raises exactly when a uniqueness guard passes on a record without a
      calendar; the presence error on `school_calendar_id` does not prevent it. */
  lemma MissingCalendarRaises(e: Event, calendarEvents: seq<Event>)
    ensures ValidationErrors(e, calendarEvents).Failure? <==>
              e.schoolCalendarId.None? && (GradeGuard(e) || ClassroomGuard(e))
  {
  }

  /** A BY_GRADE record is rejected on `event_date` when its calendar already has a row of
      another type on the same date for the same grade without a classroom. */
  lemma GradeDuplicateRejected(e: Event, calendarEvents: seq<Event>, x: Event)
    requires e.eventType.Some? && e.eventDate.Some? && e.gradeId.Some? && e.coverage == Some(ByGrade)
    requires e.schoolCalendarId.Some?
    requires x in calendarEvents && x.eventType.Some? && x.eventType != e.eventType
    requires x.eventDate == e.eventDate && x.gradeId == e.gradeId && x.classroomId.None?
    ensures ValidationErrors(e, calendarEvents).Success?
    ensures AlreadyExists in ValidationErrors(e, calendarEvents).value
  {
    assert ConflictsInGrade(x, e);
    assert GradeUniquenessErrors(e, calendarEvents) == Success([AlreadyExists]);
  }

  /** Rows of the record's own type never make it a duplicate. */
  lemma SameTypeDuplicatesAllowed(e: Event, calendarEvents: seq<Event>)
    requires forall x :: x in calendarEvents ==> x.eventType == e.eventType
    ensures GradeUniquenessErrors(e, calendarEvents).Success? ==> GradeUniquenessErrors(e, calendarEvents).value == []
    ensures ClassroomUniquenessErrors(e, calendarEvents).Success? ==> ClassroomUniquenessErrors(e, calendarEvents).value == []
  {
  }

  /** A record is valid exactly when every validation passes (and then nothing raises). */
  lemma ValidIff(e: Event, calendarEvents: seq<Event>)
    ensures ValidationErrors(e, calendarEvents) == Success([]) <==>
              && !IsBlank(e.description) && !TypeBlank(e) && e.eventDate.Some? && e.schoolCalendarId.Some?
              && (CoverageByClassroom(e) ==> PeriodsPresent(e) && e.classroomId.Some?)
              && (ShouldValidateGrade(e) ==> e.gradeId.Some?)
              && (e.eventType != Some(ExtraSchool) ==> !IsBlank(e.legend) && e.legend.value !in ReservedLegends)
              && !(e.coverage == Some(ByGrade) && exists x :: x in calendarEvents && ConflictsInGrade(x, e))
              && !(e.coverage == Some(ByClassroom) && exists x :: x in calendarEvents && ConflictsInClassroom(x, e))
  {
    var attrs := AttributeErrors(e);
    assert attrs == [] <==> PresenceErrors(e) == [] && CoverageErrors(e) == [] && LegendErrors(e) == [];
    var inGrade, inClassroom := GradeUniquenessErrors(e, calendarEvents), ClassroomUniquenessErrors(e, calendarEvents);
    assert ValidationErrors(e, calendarEvents) == Success([]) <==>
             attrs == [] && inGrade == Success([]) && inClassroom == Success([]);
  }

  /** An event record: its attributes, which `periods=` rewrites, and its `errors`. */
  class EventRecord {
    var attributes: Event
    var errors: seq<ValidationError>

    constructor (attributes: Event)
      ensures this.attributes == attributes && errors == []
    {
      this.attributes := attributes;
      errors := [];
    }

    /** `periods=`. */
    method AssignPeriods(input: Option<string>)
      modifies this`attributes
      ensures attributes == old(attributes).(periods := NormalizedPeriods(input))
    {
      attributes := attributes.(periods := NormalizedPeriods(input));
    }

    /** `uniquenesss_of_event_in_grade`: adds `already_exists_event_in_this_date` on
        `event_date` when another type already occupies the date for the grade, and
        raises, adding nothing, when past the guard the record has no calendar. */
    method ValidateUniquenessInGrade(calendarEvents: seq<Event>) returns (outcome: Result<(), Raised>)
      modifies this`errors
      ensures GradeUniquenessErrors(attributes, calendarEvents).Failure? ==>
                outcome == Failure(NoMethodError) && errors == old(errors)
      ensures GradeUniquenessErrors(attributes, calendarEvents).Success? ==>
                outcome == Success(()) && errors == old(errors) + GradeUniquenessErrors(attributes, calendarEvents).value
    {
      var e := attributes;
      if !GradeGuard(e) {
        return Success(());
      }
      if e.schoolCalendarId.None? {
        return Failure(NoMethodError);
      }
      var query := Filter(calendarEvents, OfOtherType(e));
      query := Filter(query, OnSameDate(e));
      query := Filter(query, OfSameGrade(e));
      query := Filter(query, WithoutClassroomId);
      if query != [] {
        errors := errors + [AlreadyExists];
      }
      return Success(());
    }

    /** `uniquenesss_of_event_in_classroom`. */
    method ValidateUniquenessInClassroom(calendarEvents: seq<Event>) returns (outcome: Result<(), Raised>)
      modifies this`errors
      ensures ClassroomUniquenessErrors(attributes, calendarEvents).Failure? ==>
                outcome == Failure(NoMethodError) && errors == old(errors)
      ensures ClassroomUniquenessErrors(attributes, calendarEvents).Success? ==>
                outcome == Success(()) && errors == old(errors) + ClassroomUniquenessErrors(attributes, calendarEvents).value
    {
      var e := attributes;
      if !ClassroomGuard(e) {
        return Success(());
      }
      if e.schoolCalendarId.None? {
        return Failure(NoMethodError);
      }
      var query := Filter(calendarEvents, OfOtherType(e));
      query := Filter(query, OnSameDate(e));
      query := Filter(query, OfSameClassroom(e));
      if query != [] {
        errors := errors + [AlreadyExists];
      }
      return Success(());
    }

    /** `valid?`: clears `errors` and runs every validation in declaration order. It
        answers whether none failed, or raises, with the attribute errors recorded, when
        a uniqueness validator reaches the missing calendar. */
    method Validate(calendarEvents: seq<Event>) returns (valid: Result<bool, Raised>)
      modifies this`errors
      ensures ValidationErrors(attributes, calendarEvents).Success? ==>
                errors == ValidationErrors(attributes, calendarEvents).value && valid == Success(errors == [])
      ensures ValidationErrors(attributes, calendarEvents).Failure? ==>
                valid == Failure(NoMethodError) && errors == AttributeErrors(attributes)
    {
      errors := AttributeErrors(attributes);
      var inGrade := ValidateUniquenessInGrade(calendarEvents);
      if inGrade.Failure? {
        return Failure(inGrade.error);
      }
      var inClassroom := ValidateUniquenessInClassroom(calendarEvents);
      if inClassroom.Failure? {
        return Failure(inClassroom.error);
      }
      valid := Success(errors == []);
    }
  }

  // ---------------------------------------------------------------- all_events_for_classroom

  /** The two row filters of `all_events_for_classroom`: the classroom's period is among
      the event's periods or the event is the classroom's own, and the event has no grade
      or the classroom's grade. */
  predicate MatchesClassroom(e: Event, room: Classroom) {
    (HasPeriod(e, room.period) || e.classroomId == Some(room.id))
    && (e.gradeId.None? || e.gradeId == Some(room.gradeId))
  }

  /** `a` sorts strictly before `b` under PostgreSQL's `ORDER BY classroom_id DESC`, where
      NULL counts as the greatest value and so comes first. */
  predicate SortsBefore(a: Event, b: Event) {
    || (a.classroomId.None? && b.classroomId.Some?)
    || (a.classroomId.Some? && b.classroomId.Some? && a.classroomId.value > b.classroomId.value)
  }

  lemma SortsBeforeOrder(a: Event, b: Event, c: Event)
    ensures !SortsBefore(a, a)
    ensures SortsBefore(a, b) && SortsBefore(b, c) ==> SortsBefore(a, c)
    ensures !SortsBefore(a, b) && !SortsBefore(b, a) ==> a.classroomId == b.classroomId
    ensures !SortsBefore(a, b) && SortsBefore(c, b) ==> SortsBefore(c, a)
  {
  }

  /** Position of the row `ORDER BY classroom_id DESC LIMIT 1` returns: no row sorts
      before it, and it sorts before every row ahead of it (rows that tie on
      `classroom_id` are taken in list order). */
  function FirstIndex(cands: seq<Event>): (k: nat)
    requires cands != []
    ensures k < |cands|
    ensures forall j :: 0 <= j < |cands| ==> !SortsBefore(cands[j], cands[k])
    ensures forall j :: 0 <= j < k ==> SortsBefore(cands[k], cands[j])
  {
    if |cands| == 1 then 0
    else
      var init := cands[..|cands| - 1];
      var k := FirstIndex(init);
      var last := cands[|cands| - 1];
      assert forall j :: 0 <= j < |cands| - 1 ==> cands[j] == init[j];
      if SortsBefore(last, cands[k]) then
        assert forall j :: 0 <= j < |cands| - 1 ==> SortsBefore(last, cands[j]) by {
          forall j | 0 <= j < |cands| - 1 ensures SortsBefore(last, cands[j]) {
            SortsBeforeOrder(cands[j], cands[k], last);
          }
        }
        |cands| - 1
      else
        k
  }

  /** The rows of the whole table the correlated subquery ranges over for one
      (calendar, date). */
  function DayCandidates(table: seq<Event>, calendarId: int, d: Date, room: Classroom): (r: seq<Event>)
    ensures forall x :: x in r <==> x in table && x.schoolCalendarId == Some(calendarId) && x.eventDate == Some(d) && MatchesClassroom(x, room)
  {
    Filter(table, (x: Event) => x.schoolCalendarId == Some(calendarId) && x.eventDate == Some(d) && MatchesClassroom(x, room))
  }

  /** The row the subquery picks for one (calendar, date). */
  function DayPick(table: seq<Event>, calendarId: int, d: Date, room: Classroom): (r: Option<Event>)
    ensures r.None? <==> DayCandidates(table, calendarId, d, room) == []
    ensures r.Some? ==> r.value in DayCandidates(table, calendarId, d, room)
    ensures r.Some? ==> forall x :: x in DayCandidates(table, calendarId, d, room) ==> !SortsBefore(x, r.value)
  {
    var cands := DayCandidates(table, calendarId, d, room);
    if cands == [] then None else Some(cands[FirstIndex(cands)])
  }

  /** Whether the outer query keeps `e`: it passes both row filters and its id is the id
      the subquery, run over the whole `table`, picks for its calendar and date (SQL
      equality fails on NULL). */
  predicate Kept(table: seq<Event>, e: Event, room: Classroom) {
    && MatchesClassroom(e, room)
    && e.schoolCalendarId.Some? && e.eventDate.Some?
    && var pick := DayPick(table, e.schoolCalendarId.value, e.eventDate.value, room);
       pick.Some? && pick.value.id == e.id
  }

  /** `all_events_for_classroom(classroom)` applied to the relation `rows` (the scope it is
      chained onto, such as one calendar's `events`) inside the table `table`: the outer
      filters see only `rows`, the subquery sees all of `table`. */
  function AllEventsForClassroom(table: seq<Event>, rows: seq<Event>, room: Classroom): (r: seq<Event>)
    ensures IsSubsequenceOf(r, rows)
    ensures forall e :: e in r ==> e in rows && MatchesClassroom(e, room)
    ensures forall e :: e in r ==> e.schoolCalendarId.Some? && e.eventDate.Some?
  {
    Filter(rows, (e: Event) => Kept(table, e, room))
  }

  /** Row ids are unique (the primary key). */
  predicate UniqueIds(table: seq<Event>) {
    forall i, j :: 0 <= i < |table| && 0 <= j < |table| && table[i].id == table[j].id ==> i == j
  }

  /** `rows` is a relation over `table`: each of its rows is a row of the table. */
  predicate RowsOf(rows: seq<Event>, table: seq<Event>) {
    forall x :: x in rows ==> x in table
  }

  /** A kept row is the one the subquery picks: no matching row of the table with its
      calendar and date sorts before it. */
  lemma KeptRowIsFirst(table: seq<Event>, rows: seq<Event>, room: Classroom, e: Event)
    requires UniqueIds(table) && RowsOf(rows, table)
    requires e in AllEventsForClassroom(table, rows, room)
    ensures DayPick(table, e.schoolCalendarId.value, e.eventDate.value, room) == Some(e)
    ensures forall x :: (x in table && x.schoolCalendarId == e.schoolCalendarId && x.eventDate == e.eventDate
                         && MatchesClassroom(x, room)) ==> !SortsBefore(x, e)
  {
    var pick := DayPick(table, e.schoolCalendarId.value, e.eventDate.value, room).value;
    assert pick in table && e in table && pick.id == e.id;
    var i :| 0 <= i < |table| && table[i] == pick;
    var j :| 0 <= j < |table| && table[j] == e;
  }

  /** At most one row is kept per (calendar, date). */
  lemma AtMostOnePerDay(table: seq<Event>, rows: seq<Event>, room: Classroom, a: Event, b: Event)
    requires UniqueIds(table) && RowsOf(rows, table)
    requires a in AllEventsForClassroom(table, rows, room) && b in AllEventsForClassroom(table, rows, room)
    requires a.schoolCalendarId == b.schoolCalendarId && a.eventDate == b.eventDate
    ensures a == b
  {
    KeptRowIsFirst(table, rows, room, a);
    KeptRowIsFirst(table, rows, room, b);
  }

  /** Every (calendar, date) that has a matching row in the table has a pick, a row of
      the table, and the pick is kept whenever it is one of `rows`. */
  lemma EveryMatchingDayKept(table: seq<Event>, rows: seq<Event>, room: Classroom, x: Event)
    requires x in table && MatchesClassroom(x, room) && x.schoolCalendarId.Some? && x.eventDate.Some?
    ensures var pick := DayPick(table, x.schoolCalendarId.value, x.eventDate.value, room);
            && pick.Some? && pick.value in table
            && (pick.value in rows ==> pick.value in AllEventsForClassroom(table, rows, room))
  {
    var cal, d := x.schoolCalendarId.value, x.eventDate.value;
    assert x in DayCandidates(table, cal, d, room);
    var pick := DayPick(table, cal, d, room).value;
    assert Kept(table, pick, room);
  }

  /** When the subquery's pick for a day lies outside `rows`, that day keeps nothing,
      even if `rows` holds other matching rows of it. */
  lemma FilteredPickDropsDay(table: seq<Event>, rows: seq<Event>, room: Classroom, calendarId: int, d: Date)
    requires UniqueIds(table) && RowsOf(rows, table)
    requires DayPick(table, calendarId, d, room).Some? && DayPick(table, calendarId, d, room).value !in rows
    ensures forall e :: e in AllEventsForClassroom(table, rows, room) ==>
              !(e.schoolCalendarId == Some(calendarId) && e.eventDate == Some(d))
  {
    forall e | e in AllEventsForClassroom(table, rows, room)
      ensures !(e.schoolCalendarId == Some(calendarId) && e.eventDate == Some(d))
    {
      KeptRowIsFirst(table, rows, room, e);
    }
  }

  /** The descending order puts NULL first: when some matching row of a day has no
      classroom, the row picked for that day has none either, so a row for the whole grade
      or unity shadows the classroom's own row. */
  lemma NullClassroomPreferred(table: seq<Event>, room: Classroom, x: Event)
    requires x in table && MatchesClassroom(x, room) && x.schoolCalendarId.Some? && x.eventDate.Some?
    requires x.classroomId.None?
    ensures var pick := DayPick(table, x.schoolCalendarId.value, x.eventDate.value, room);
            pick.Some? && pick.value.classroomId.None?
  {
    assert x in DayCandidates(table, x.schoolCalendarId.value, x.eventDate.value, room);
  }
}
