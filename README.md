# School calendar rules of i-Diário, modelled in Dafny

i-Diário is a school diary. Each school unity has a school calendar. The calendar is
divided into steps (bimesters, trimesters, ...) and holds dated events: holidays,
EXTRA_SCHOOL days (extra days that count for attendance), EXTRA_SCHOOL_WITHOUT_FREQUENCY
days, and others. An event covers the whole unity, a grade, or a classroom, and may be
limited to some periods (shifts).

This project models four parts of that system and proves properties about them:

- **The school-day checker** (`SchoolDays`, `school_days.dfy`). Given a calendar, a date
  and an optional grade and classroom, it decides whether the date is a school day.
  - The calendar's rows are checked in tiers: classroom, then grade, then the whole
    unity. In each tier a "not a school day" row is checked before an EXTRA_SCHOOL row.
  - With a classroom, the grade and unity tiers only count rows whose periods contain the
    classroom's period.
  - When no row decides, the date is a school day exactly when some step contains it and
    it is not a Saturday or a Sunday.
  - `SchoolDay` is proved equal to `Expected`, a reference statement written over "some
    row of the day exists with ...". The precedence lemmas are proved about that statement.
- **The calendar event model** (`CalendarEvents`, `calendar_events.dfy`):
  - the query scopes, as filters over a sequence of rows with SQL NULL semantics;
  - `periods=`, which splits at commas and sorts;
  - the presence, coverage, legend and uniqueness validations;
  - `all_events_for_classroom`, which keeps one row per (calendar, date), chosen by
    `ORDER BY classroom_id DESC LIMIT 1`.
- **The recovery-step fetcher** (`RecoverySteps`, `recovery_steps.dfy`). It picks the
  classroom steps that the recovery exam rule closing at a given step covers. When there
  is no such rule, or the rule covers none of the steps, it returns the given step alone.
- **The user rules** (`Users`, `users.dfy`):
  - feature permissions, through the administrator flag and the current role;
  - the display names `name`, `to_s`, `logged_as` and `navigation_display`;
  - the setters for e-mail and CPF, which ignore blank values;
  - the newsletter flags, with their normalisation before validation and their validation.

Supporting modules:

- `Wrappers`: Option and Result.
- `Collections`: `Filter`, which stands in for both SQL `WHERE` and Ruby `select`, and the
  subsequence relation.
- `Text`: Ruby's `blank?`/`present?`, `strip`, `split`, `sort` on strings, and
  `split(' ').last`.
- `Dates`: dates as day numbers, `wday`, and the calendar's step lookup.
- `Validation`: the `errors` collection.

Four behaviours of the code that are easy to misread:

- **EXTRA_SCHOOL_WITHOUT_FREQUENCY.** `without_frequency` is `event_type <> EXTRA_SCHOOL`,
  so this type counts as a "not a school day" row. It is not left out of both sides.
- **Whole-unity rows with a classroom.** With a classroom given, whole-unity rows are
  only consulted through the period filter. There is no later unfiltered check.
- **Coverage and tiers.** The checker never reads the `coverage` column. A row's tier
  comes from its `grade_id` and `classroom_id` alone.
- **Tie-break.** `ORDER BY classroom_id DESC` in PostgreSQL puts NULL first. A row
  without a classroom therefore beats a classroom's own row, and among non-NULL ids the
  highest wins.

Two further points about the validations:

- **A blank type code.** The presence check treats an empty or whitespace-only type code
  as blank, but the uniqueness guards test the type's truthiness, and an empty Ruby
  string is truthy. So such a record fails presence and still reaches the uniqueness
  queries.
- **A record without a calendar.** The uniqueness validators call `school_calendar.events`
  without checking for nil. Past their guard, a record without a calendar raises
  NoMethodError instead of just reporting the blank `school_calendar_id`. The model
  returns this failure as a `Result`.

## Model

| member | source | states |
|---|---|---|
| SchoolDays.NewSchoolDayChecker | app/services/school_day_checker.rb:2-9 | construction fails with ArgumentError exactly when the calendar or the date is missing; otherwise the checker holds the four inputs |
| SchoolDays.AnyClassroomEvent | app/services/school_day_checker.rb:44-48 | true iff some row of the query has exactly the given grade id and classroom id (nil compares as IS NULL) |
| SchoolDays.AnyGradeEvent | app/services/school_day_checker.rb:50-54 | true iff some row has the given grade id and no classroom |
| SchoolDays.AnyGlobalEvent | app/services/school_day_checker.rb:57-61 | true iff some row has neither a grade nor a classroom |
| SchoolDays.SchoolDay | app/services/school_day_checker.rb:11-40 | the verdict equals the reference decision `Expected`: the first tier test with a matching row of the day decides, otherwise the step-and-weekday rule applies |
| SchoolDays.FindClassroom | app/services/school_day_checker.rb:17 | no result iff no classroom has the id; otherwise a listed classroom with that id |
| SchoolDays.SchoolDayWithLookup | app/services/school_day_checker.rb:16-17 | RecordNotFound iff a classroom id is given that no classroom has; otherwise the reference verdict for the classroom found, or for no classroom |
| SchoolDays.DayQueries | app/services/school_day_checker.rb:12-14 | the two frequency queries of the day hold exactly the day's rows that pass each frequency test |
| SchoolDays.ClassroomQueries | app/services/school_day_checker.rb:18-19 | the two classroom-tier queries answer the reference classroom tests |
| SchoolDays.PeriodQueries | app/services/school_day_checker.rb:21-25 | the period-filtered grade and unity queries answer the reference tests for that period |
| SchoolDays.PlainQueries | app/services/school_day_checker.rb:30-35 | the unfiltered grade and unity queries answer the reference tests |
| SchoolDays.ClassroomClosingEventWins | app/services/school_day_checker.rb:18 | with a classroom, one "not a school day" row for the grade and classroom closes the day whatever else exists, with no period check |
| SchoolDays.ClassroomExtraSchoolBeatsUnityHoliday | app/services/school_day_checker.rb:19-24 | with a classroom and no closing classroom row, a classroom EXTRA_SCHOOL row opens the day despite a unity-wide holiday |
| SchoolDays.GradeEventsUnfilteredByPeriod | app/services/school_day_checker.rb:29-32 | without a classroom, a grade row closes (non-frequency) or, with no closing grade row, opens (EXTRA_SCHOOL) the day whatever its periods |
| SchoolDays.DefaultWhenNoEventDecides | app/services/school_day_checker.rb:38-39 | when no row decides: outside every step never a school day; inside a step a school day iff the weekday is neither 0 nor 6 |
| SchoolDays.IrrelevantEventIgnored | app/services/school_day_checker.rb:12-36 | adding a row that no tier test can select leaves the verdict unchanged |
| SchoolDays.OutOfPeriodEventIgnored | app/services/school_day_checker.rb:21-25 | with a classroom, a row outside the classroom tier whose periods miss the classroom's period has no effect |
| SchoolDays.OtherGradeEventIgnored | app/services/school_day_checker.rb:50-61 | a row with another grade and no classroom has no effect: it is never treated as unity-wide |
| SchoolDays.OtherDayEventIgnored | app/services/school_day_checker.rb:12 | rows on other dates have no effect |
| SchoolDays.HolidayExample | app/services/school_day_checker.rb:34 | a unity-wide holiday on Monday 2021-02-15 is not a school day |
| SchoolDays.NoRowDecides | app/services/school_day_checker.rb:34-35 | in the holiday calendar no row decides any other date |
| SchoolDays.WeekdayInStepExample | app/services/school_day_checker.rb:39 | Tuesday 2021-02-16, inside the step, is a school day |
| SchoolDays.OutsideStepExample | app/services/school_day_checker.rb:38 | 2020-12-31, outside every step, is not a school day |
| SchoolDays.WeekendExample | app/services/school_day_checker.rb:39 | Saturday 2021-03-06 without rows is not a school day |
| SchoolDays.GradeExtraSchoolSaturdayExample | app/services/school_day_checker.rb:29-31 | a grade's EXTRA_SCHOOL Saturday is a school day for the grade, despite a unity holiday |
| SchoolDays.PeriodOneRows | app/services/school_day_checker.rb:18-22 | for a classroom of the grade in the row's period, no classroom row decides and the grade's EXTRA_SCHOOL row opens the day |
| SchoolDays.ClassroomExtraSchoolSaturdayExample | app/services/school_day_checker.rb:16-22 | that classroom has the Saturday as a school day, despite the unity holiday |
| SchoolDays.OtherPeriodRows | app/services/school_day_checker.rb:18-22 | for a classroom of another period, the grade's row and the classroom tier decide nothing |
| SchoolDays.OtherPeriodSaturdayExample | app/services/school_day_checker.rb:24 | for that classroom the unity holiday closes the Saturday |
| Dates.Weekday | app/services/school_day_checker.rb:39 | `wday` of a day number is below 7 |
| Dates.EpochIsThursday | app/services/school_day_checker.rb:39 | day 0, 1970-01-01, has `wday` 4 (Thursday) |
| Dates.KnownMonday | app/services/school_day_checker.rb:39 | 2024-01-01 has `wday` 1 (Monday) |
| Dates.WeekdayNext | app/services/school_day_checker.rb:39 | the next day's `wday` is one more, modulo 7 |
| Dates.WeekdayPeriodic | app/services/school_day_checker.rb:39 | `wday` repeats every 7 days, in both directions |
| SchoolDays.DefaultRule | app/services/school_day_checker.rb:38-39 | true iff some step of the calendar covers the date and its `wday` is neither 0 nor 6 |
| Dates.StepFor | app/services/school_day_checker.rb:38 | no step iff no step of the calendar covers the date; otherwise a step of the calendar that covers it |
| Collections.Filter | app/models/school_calendar_event.rb:29-41 | an in-memory `where`/`select`: exactly the rows satisfying the test, as a subsequence (order kept), at most as many, with multiset inclusion; all rows when all pass |
| Collections.FilterConcat | app/models/school_calendar_event.rb:29-41 | filtering a concatenation is concatenating the filters |
| Collections.FilterFilter | app/models/school_calendar_event.rb:91-94 | chaining two `where`s selects the same rows, in the same order, as one `where` on their conjunction |
| Collections.FilterPartition | app/models/school_calendar_event.rb:29-30 | two complementary tests split a sequence between them (multiset sum) |
| CalendarEvents.WithFrequency | app/models/school_calendar_event.rb:29 | exactly the rows of type EXTRA_SCHOOL, order kept |
| CalendarEvents.WithoutFrequency | app/models/school_calendar_event.rb:30 | exactly the rows with a non-NULL type other than EXTRA_SCHOOL, order kept |
| CalendarEvents.OfExtraSchoolWithoutFrequency | app/models/school_calendar_event.rb:31 | exactly the rows of type EXTRA_SCHOOL_WITHOUT_FREQUENCY |
| CalendarEvents.WithoutGrade | app/models/school_calendar_event.rb:32 | exactly the rows with a NULL grade |
| CalendarEvents.WithoutClassroom | app/models/school_calendar_event.rb:33 | exactly the rows with a NULL classroom |
| CalendarEvents.ByPeriod | app/models/school_calendar_event.rb:34 | exactly the rows whose non-NULL periods contain the period |
| CalendarEvents.ByDate | app/models/school_calendar_event.rb:35 | exactly the rows on the date |
| CalendarEvents.ByDateBetween | app/models/school_calendar_event.rb:36 | exactly the rows dated within both ends inclusive; nothing when the range is reversed |
| CalendarEvents.ByType | app/models/school_calendar_event.rb:38 | exactly the rows of the type |
| CalendarEvents.ByGradeId | app/models/school_calendar_event.rb:39 | exactly the rows whose grade equals the argument, nil meaning IS NULL |
| CalendarEvents.ByClassroomId | app/models/school_calendar_event.rb:41 | exactly the rows whose classroom equals the argument, nil meaning IS NULL |
| CalendarEvents.FrequencyClassification | app/models/school_calendar_event.rb:29-31 | a typed row is on exactly one frequency side, EXTRA_SCHOOL_WITHOUT_FREQUENCY on the "without" side |
| CalendarEvents.FrequencyPartition | app/models/school_calendar_event.rb:29-30 | the two frequency scopes partition typed rows (multisets and counts add up) |
| CalendarEvents.NormalizedPeriods | app/models/school_calendar_event.rb:48-50 | nil stays nil; a string becomes a sorted, comma-free permutation of its comma-split pieces |
| CalendarEvents.PeriodsRoundTrip | app/models/school_calendar_event.rb:48-50 | assigning the comma-join of a stored sorted list stores the same list |
| CalendarEvents.PresenceErrors | app/models/school_calendar_event.rb:20 | one blank error per missing description, type (nil or an all-whitespace code), date or calendar, and none otherwise |
| CalendarEvents.CoverageByUnity | app/models/school_calendar_event.rb:52-54 | a BY_UNITY event is checked for neither periods, a grade nor a classroom; a row with a coverage has BY_UNITY iff it is neither BY_CLASSROOM nor validated for a grade, so the three coverages split every row that has one; no coverage is not BY_UNITY |
| CalendarEvents.CoverageErrors | app/models/school_calendar_event.rb:21-23 | periods missing is an error only for BY_CLASSROOM, grade for BY_GRADE or BY_CLASSROOM, classroom only for BY_CLASSROOM (via `coverage_by_classroom?`, `should_validate_grade?`, `should_validate_classroom?` at lines 56-58 and 77-83) |
| CalendarEvents.LegendErrors | app/models/school_calendar_event.rb:24 | unless the type is EXTRA_SCHOOL (`should_validate_legend?`, lines 85-87), a blank legend and a legend in {F, f, N, n, .} are errors |
| CalendarEvents.GradeQueryIsOneWhere | app/models/school_calendar_event.rb:91-94 | the four chained `where`s of the grade query select exactly the calendar's rows of another non-NULL type on the date, for the grade, without a classroom |
| CalendarEvents.ClassroomQueryIsOneWhere | app/models/school_calendar_event.rb:100-102 | the three chained `where`s of the classroom query select exactly the rows of another non-NULL type on the date for the classroom |
| CalendarEvents.GradeUniquenessErrors | app/models/school_calendar_event.rb:89-96 | raises NoMethodError iff the guard holds and there is no calendar; otherwise at most the one `already_exists_event_in_this_date` error, present iff the guard holds and the calendar has a row of another type on the date for the grade without a classroom |
| CalendarEvents.ClassroomUniquenessErrors | app/models/school_calendar_event.rb:98-104 | the same for BY_CLASSROOM, matching the classroom and ignoring the grade |
| CalendarEvents.MissingCalendarRaises | app/models/school_calendar_event.rb:25-26 | validation raises iff there is no calendar and one of the two uniqueness guards holds |
| CalendarEvents.GradeDuplicateRejected | app/models/school_calendar_event.rb:89-95 | a BY_GRADE record with a calendar, meeting a row of another type on its date and grade, does not raise and is rejected on `event_date` |
| CalendarEvents.SameTypeDuplicatesAllowed | app/models/school_calendar_event.rb:91 | rows of the record's own type never make it a duplicate |
| CalendarEvents.ValidIff | app/models/school_calendar_event.rb:20-26 | a record validates without raising and without errors iff every presence, coverage, legend and uniqueness condition holds |
| CalendarEvents.EventRecord.AssignPeriods | app/models/school_calendar_event.rb:48-50 | `periods=` changes only the periods attribute, to the normalised value |
| CalendarEvents.EventRecord.ValidateUniquenessInGrade | app/models/school_calendar_event.rb:89-96 | raises, adding nothing, when past the guard the record has no calendar; otherwise appends exactly the grade uniqueness errors |
| CalendarEvents.EventRecord.ValidateUniquenessInClassroom | app/models/school_calendar_event.rb:98-104 | the same with the classroom uniqueness errors |
| CalendarEvents.EventRecord.Validate | app/models/school_calendar_event.rb:20-26 | errors become all validation errors in declaration order and it answers whether there are none; when a uniqueness validator raises, it raises with the attribute errors recorded |
| CalendarEvents.SortsBeforeOrder | app/models/school_calendar_event.rb:72 | `classroom_id DESC` with NULL first is a strict order, and rows it does not separate tie on classroom |
| CalendarEvents.FirstIndex | app/models/school_calendar_event.rb:72-73 | the `LIMIT 1` row: nothing sorts before it, and it sorts strictly before every earlier row |
| CalendarEvents.DayCandidates | app/models/school_calendar_event.rb:66-71 | exactly the rows of the (calendar, date) that match the classroom's period or id and its grade |
| CalendarEvents.DayPick | app/models/school_calendar_event.rb:65-74 | none iff the day has no candidate; otherwise a candidate that no candidate sorts before |
| CalendarEvents.AllEventsForClassroom | app/models/school_calendar_event.rb:62-75 | over a relation `rows` of the table: the kept rows are a subsequence of `rows`, match the classroom conditions, and have a calendar and a date |
| CalendarEvents.KeptRowIsFirst | app/models/school_calendar_event.rb:72-73 | a kept row is the day's pick over the whole table: no matching row of its day sorts before it |
| CalendarEvents.AtMostOnePerDay | app/models/school_calendar_event.rb:65-74 | at most one row is kept per (calendar, date) |
| CalendarEvents.EveryMatchingDayKept | app/models/school_calendar_event.rb:63-74 | every (calendar, date) with a matching row of the table has a pick, kept whenever it lies in `rows` |
| CalendarEvents.FilteredPickDropsDay | app/models/school_calendar_event.rb:65-74 | when the table's pick for a day lies outside `rows`, nothing is kept for that day |
| CalendarEvents.NullClassroomPreferred | app/models/school_calendar_event.rb:72 | when a matching row of the day has no classroom, the picked row has no classroom either |
| Text.Strip | app/models/user.rb:144 | `strip`: a slice with only whitespace cut from either end; empty iff all whitespace; otherwise no whitespace at its ends |
| Text.StripIdempotent | app/models/user.rb:180 | stripping twice is stripping once |
| Text.Fields | app/models/school_calendar_event.rb:49 | at least one field, none holding the separator |
| Text.JoinFields | app/models/school_calendar_event.rb:49 | joining the fields restores the string |
| Text.Split | app/models/school_calendar_event.rb:49 | `split(',')`: the fields with trailing empty fields dropped |
| Text.SplitJoin | app/models/school_calendar_event.rb:49 | splitting a join of comma-free pieces, the last non-empty, restores the pieces |
| Text.SortedCons | app/models/school_calendar_event.rb:49 | a string at most every element of a sorted sequence can head it |
| Text.Insert | app/models/school_calendar_event.rb:49 | inserting keeps a sequence sorted and adds exactly the element |
| Text.Sort | app/models/school_calendar_event.rb:49 | `sort`: sorted and a permutation of the input |
| Text.SortedPermutationUnique | app/models/school_calendar_event.rb:49 | two sorted sequences with the same strings are equal |
| Text.TrimStart | app/models/user.rb:144 | the leading part of `strip`: a suffix of the string with only whitespace before it; empty iff all whitespace; otherwise starting with a non-space |
| Text.TrimEnd | app/models/user.rb:144 | the trailing part of `strip`: a prefix of the string with only whitespace after it; empty iff all whitespace; otherwise ending with a non-space |
| Text.LastWord | app/models/user.rb:187 | `split(' ').last`: empty iff all whitespace; no whitespace inside |
| Text.TrailingWord | app/models/user.rb:187 | the final run of non-space characters: a suffix of the string, with whitespace or nothing before it |
| Text.LastWordIsTrailingWord | app/models/user.rb:187 | a string ending in a non-space character has that final run as its last word |
| Text.TrailingWordAtEnd | app/models/user.rb:187 | the final run of non-space characters ends the string as a word |
| Text.EndsInWord | app/models/user.rb:187 | a string ending in a non-space character ends with its last word |
| Text.EndsInSpace | app/models/user.rb:187 | appending whitespace leaves the last word where it was |
| Text.LastWordInContext | app/models/user.rb:187 | the last word is followed only by whitespace and preceded by whitespace or nothing: it is a whole word, not part of one |
| RecoverySteps.RecoveryExamRuleFor | app/services/recovery_school_calendar_classroom_steps_fetcher.rb:36-40 | none iff no rule's last step is the number; otherwise the first such rule in list order |
| RecoverySteps.StepsInRule | app/services/recovery_school_calendar_classroom_steps_fetcher.rb:10-14 | exactly the classroom steps whose number is in the rule, in calendar order |
| RecoverySteps.StepsInRuleAppend | app/services/recovery_school_calendar_classroom_steps_fetcher.rb:12-14 | selecting over one more step appends that step when the rule covers it |
| RecoverySteps.Fetch | app/services/recovery_school_calendar_classroom_steps_fetcher.rb:7-20 | the loop and the final append return exactly `Fetched` |
| RecoverySteps.Fetched | app/services/recovery_school_calendar_classroom_steps_fetcher.rb:7-20 | never empty; every step returned is the given step or a classroom step |
| RecoverySteps.NoRuleGivesStep | app/services/recovery_school_calendar_classroom_steps_fetcher.rb:9-17 | with no rule closing at the step, the result is the given step alone |
| RecoverySteps.FirstRuleDecides | app/services/recovery_school_calendar_classroom_steps_fetcher.rb:37-39 | the first rule closing at the step is used, whatever later rules say, and it selects the result |
| RecoverySteps.FetchedUnderRule | app/services/recovery_school_calendar_classroom_steps_fetcher.rb:10-17 | under the rule, a step is returned iff the rule covers it, or it is the given step and the rule covers no classroom step |
| RecoverySteps.FetchedInOrder | app/services/recovery_school_calendar_classroom_steps_fetcher.rb:10-17 | unless the given step stands alone, the result keeps the classroom steps' order |
| Users.Permission | app/models/user.rb:107-125 | general configurations: the admin flag; otherwise admins get true, others get the role's answer, nil without a role |
| Users.GeneralConfigurationsIgnoreRole | app/models/user.rb:108-110 | for general configurations the role makes no difference and only admins are allowed |
| Users.PermissionGranted | app/models/user.rb:111-114 | any other feature is granted iff admin or the role grants it |
| Users.User.CanShow | app/models/user.rb:107-115 | truthy iff (general configurations: admin; else admin or the current role shows it); nil iff not general configurations, not admin and no role |
| Users.User.CanChange | app/models/user.rb:117-125 | the same with the role's changeable features |
| Users.User.LoggedAs | app/models/user.rb:139-141 | the login when present, the e-mail otherwise; present iff login or e-mail is |
| Users.User.Name | app/models/user.rb:143-145 | empty iff both names are blank; no whitespace at its ends; first + " " + last with only whitespace trimmed |
| Users.User.ToS | app/models/user.rb:179-183 | the e-mail when both names are blank; otherwise the name, which is then present |
| Users.User.NavigationDisplay | app/models/user.rb:185-195 | "first.lastword" when both names are present, else the first name, else the login; empty iff first name and login are blank |
| Users.User.SetEmail | app/models/user.rb:197-199 | a present value is stored, a blank one leaves the e-mail unchanged |
| Users.User.SetCpf | app/models/user.rb:201-203 | a present value is stored, a blank one leaves the CPF unchanged |
| Users.User.AccessLevels | app/models/user.rb:229 | the access level of each role, in order |
| Users.Uniq | app/models/user.rb:229 | `uniq`: the same elements, without repeats |
| Users.AnyLevelIn | app/models/user.rb:229 | true iff some level is in the allowed set |
| Users.User.CanReceiveNewsRelatedDailyTeacher | app/models/user.rb:228-230 | true iff some role's access level is administrator, employee or teacher |
| Users.User.CanReceiveNewsRelatedToolsForParents | app/models/user.rb:232-234 | true iff some role's access level is administrator, employee, parent or student |
| Users.User.CanReceiveNewsRelatedAllMatters | app/models/user.rb:236-238 | true iff some role's access level is administrator or employee |
| Users.AllMattersEntitlesOthers | app/models/user.rb:228-238 | whoever may receive all-matters news may receive the other two kinds |
| Users.NormalizedFlag | app/models/user.rb:281-293 | a flag ends truthy iff it was truthy and the record is new or receives news and is entitled; otherwise a persisted record gets false |
| Users.NormalizedFlagIdempotent | app/models/user.rb:281-293 | normalising twice is normalising once |
| Users.User.VerifyReceiveNewsFields | app/models/user.rb:281-293 | answers true; each of the three flags becomes its normalised value and nothing else changes |
| Users.EmailOrCpfErrors | app/models/user.rb:263-269 | at most the `must_inform_email_or_cpf` error on base; present iff no e-mail or CPF error exists and both are blank |
| Users.ReceiveNewsErrors | app/models/user.rb:295-301 | at most the `must_fill_receive_news_options` error; present iff news is received and no flag is truthy |
| Users.UnentitledReceiverRejected | app/models/user.rb:283-299 | a persisted user receiving news whose roles entitle them to no kind is always rejected after normalisation |
| Users.User.PresenceOfEmailOrCpf | app/models/user.rb:263-269 | appends exactly the e-mail-or-CPF errors |
| Users.User.ValidateReceiveNewsFields | app/models/user.rb:295-301 | appends exactly the receive-news errors |
| Users.User.Validate | app/models/user.rb:23-54 | normalises the flags, then appends the two custom validations in order, the second only when the accessor is set; valid iff no error |
| Users.HasToValidate | app/models/user.rb:248-250 | true iff the accessor holds `true` or the string "true"; unset is false |
| Users.AllSpaceJoin | app/models/user.rb:143-145 | "first last" is all whitespace iff both parts are |

## Left out

- I/O, persistence and ActiveRecord query mechanics. Scopes are filters over a sequence of rows. The records that `Classroom.find` and `SchoolCalendarClassroomStep.find` load are inputs. `SchoolDay` takes the looked-up classroom under a precondition, and `SchoolDayWithLookup` models the lookup with its RecordNotFound failure.
- SchoolDays.SchoolDay: how the calendar's `step(date)` is implemented is not part of this model. It is taken to be the first step whose range holds the date.
- The scopes `ordered`, `by_description` and `by_classroom`. They sort or match with ILIKE (case-insensitive, accent-dependent pattern matching), which this model does not cover.
- The order of the rows a query returns. `Filter` keeps the sequence order. SQL promises no order without `ORDER BY`.
- CalendarEvents.FirstIndex: rows that tie under `ORDER BY classroom_id DESC` are taken in sequence order. PostgreSQL leaves this choice unspecified.
- CalendarEvents.CoverageErrors: the presence of the `grade` and `classroom` associations is read from `grade_id` and `classroom_id`. So is the truthiness of `grade` and `classroom` in the uniqueness guards. A dangling id is not modelled.
- CalendarEvents.EventRecord.ValidateUniquenessInGrade and ValidateUniquenessInClassroom take the rows of the record's calendar as a parameter. The rows are given, not loaded through `school_calendar.events`. Only a nil `school_calendar_id` stands for a missing calendar; an id naming no calendar is not modelled.
- Event type codes other than HOLIDAY, EXTRA_SCHOOL and EXTRA_SCHOOL_WITHOUT_FREQUENCY are one open constructor. Their enumeration is not part of this model. An `OtherEventType` is assumed never to carry the code of one of the three named types (such as "extra_school"); the model would treat that value as a different type.
- Users.User.CanShow and CanChange: `Role#can_show?` and `Role#can_change?` are not part of this model. A role is the set of features it shows and the set it lets change.
- Text.IsSpace: whitespace is Ruby's ASCII set. Unicode spaces, which Rails' `blank?` also treats as blank, are not modelled. Neither is the NUL that `strip` also removes.
- Text.AtMost: strings compare by character code. Ruby compares bytes, and the two orders agree for ASCII.
- RecoverySteps: a step's `to_number` is an abstract number on the step. How the number is computed is not modelled.
- Users: only the two custom validations and the `before_validation` callback are modelled. All validators that run before line 53 enter as already-computed errors: Devise's `:validatable` module (lines 14-15), which adds `email` and `password` errors; the validation of the nested `user_roles` that `accepts_nested_attributes_for` (line 43) and `validates_associated` (line 51) add; and the mask, format, length and uniqueness validators of lines 45-49. The two login checks of lines 55-56 are left out too: `can_not_be_a_cpf` needs the CPF gem, which is not part of this model, and `can_not_be_an_email` is a regular-expression match. Both run after the modelled validations and only add `login` errors, so they would only extend the end of `errors`.
- Users: Devise authentication, `find_for_authentication`, `User.current`, CSV export, audits, `update_column` writes, the current unity, classroom, discipline and teacher lookups, and notifications are outside the modelled rules.
- Users.User.Validate: Rails' ordering of callbacks and validators is modelled only as far as lines 23, 53 and 54 state it.
