/** The steps a recovery exam covers: given the classroom step a recovery is recorded for,
    the classroom calendar's steps that the classroom's recovery exam rule closing at that
    step recovers, or the given step alone. */
module RecoverySteps {
  import opened Wrappers
  import opened Collections

  /** A step of a classroom's own school calendar; `number` is its `to_number`. */
  datatype ClassroomStep = ClassroomStep(id: int, number: int)

  /** One of the recovery exam rules of the classroom's exam rule: the numbers of the
      steps it recovers, the last one being the step at which the recovery is held. */
  datatype RecoveryExamRule = RecoveryExamRule(id: int, steps: seq<int>)

  /** `steps.last.eql?(number)`: the last step of the rule is `number`; a rule without
      steps has a nil last step, which equals no number. */
  predicate ClosesAt(rule: RecoveryExamRule, number: int) {
    |rule.steps| > 0 && rule.steps[|rule.steps| - 1] == number
  }

  /** `recovery_exam_rule`: the first rule, in list order, closing at `number`, or nil. */
  function RecoveryExamRuleFor(rules: seq<RecoveryExamRule>, number: int): (r: Option<RecoveryExamRule>)
    ensures r.None? <==> forall i :: 0 <= i < |rules| ==> !ClosesAt(rules[i], number)
    ensures r.Some? ==> ClosesAt(r.value, number)
    ensures r.Some? ==> exists i :: 0 <= i < |rules| && rules[i] == r.value &&
                          forall j :: 0 <= j < i ==> !ClosesAt(rules[j], number)
  {
    if rules == [] then None
    else if ClosesAt(rules[0], number) then
      Some(rules[0])
    else
      var r := RecoveryExamRuleFor(rules[1..], number);
      assert forall i :: 1 <= i < |rules| ==> rules[i] == rules[1..][i - 1];
      if r.Some? then
        var i :| 0 <= i < |rules[1..]| && rules[1..][i] == r.value &&
                 forall j :: 0 <= j < i ==> !ClosesAt(rules[1..][j], number);
        assert rules[i + 1] == r.value && forall j :: 0 <= j < i + 1 ==> !ClosesAt(rules[j], number);
        r
      else r
  }

  /** The rule's test on one classroom step: `steps.include?(step.to_number)`. */
  function RecoveredBy(rule: RecoveryExamRule): ClassroomStep -> bool {
    (s: ClassroomStep) => s.number in rule.steps
  }

  /** The classroom steps the rule recovers, in the calendar's order. */
  function StepsInRule(classroomSteps: seq<ClassroomStep>, rule: RecoveryExamRule): (r: seq<ClassroomStep>)
    ensures forall s :: s in r <==> s in classroomSteps && s.number in rule.steps
    ensures IsSubsequenceOf(r, classroomSteps)
  {
    Filter(classroomSteps, RecoveredBy(rule))
  }

  /** Selecting over one more step extends the selection by that step when it is
      recovered. */
  lemma StepsInRuleAppend(a: seq<ClassroomStep>, x: ClassroomStep, rule: RecoveryExamRule)
    ensures StepsInRule(a + [x], rule) ==
            StepsInRule(a, rule) + (if x.number in rule.steps then [x] else [])
  {
    FilterConcat(a, [x], RecoveredBy(rule));
    assert [x][1..] == [];
  }

  /** `fetch`: `step` is the classroom step the recovery is recorded for, `classroomSteps`
      the steps of its classroom calendar and `rules` the recovery exam rules of the
      classroom's exam rule. */
  method Fetch(step: ClassroomStep, classroomSteps: seq<ClassroomStep>, rules: seq<RecoveryExamRule>)
    returns (result: seq<ClassroomStep>)
    ensures result == Fetched(step, classroomSteps, rules)
  {
    result := [];
    var rule := RecoveryExamRuleFor(rules, step.number);
    if rule.Some? {
      var i := 0;
      while i < |classroomSteps|
        invariant 0 <= i <= |classroomSteps|
        invariant result == StepsInRule(classroomSteps[..i], rule.value)
      {
        StepsInRuleAppend(classroomSteps[..i], classroomSteps[i], rule.value);
        assert classroomSteps[..i + 1] == classroomSteps[..i] + [classroomSteps[i]];
        if classroomSteps[i].number in rule.value.steps {
          result := result + [classroomSteps[i]];
        }
        i := i + 1;
      }
      assert classroomSteps[..i] == classroomSteps;
    }
    if result == [] {
      result := result + [step];
    }
  }

  /** What `fetch` returns: the steps the first rule closing at the step's number
      recovers, or the given step when there is no such rule or it recovers none of the
      classroom's steps. */
  function Fetched(step: ClassroomStep, classroomSteps: seq<ClassroomStep>, rules: seq<RecoveryExamRule>): (r: seq<ClassroomStep>)
    ensures |r| > 0
    ensures forall s :: s in r ==> s == step || s in classroomSteps
  {
    match RecoveryExamRuleFor(rules, step.number)
    case None => [step]
    case Some(rule) =>
      var selected := StepsInRule(classroomSteps, rule);
      if selected == [] then [step] else selected
  }

  /** Without a rule closing at the step, the step stands alone. */
  lemma NoRuleGivesStep(step: ClassroomStep, classroomSteps: seq<ClassroomStep>, rules: seq<RecoveryExamRule>)
    requires forall i :: 0 <= i < |rules| ==> !ClosesAt(rules[i], step.number)
    ensures Fetched(step, classroomSteps, rules) == [step]
  {
  }

  /** The first rule closing at the step decides, whatever the later rules say. */
  lemma {:induction false} FirstRuleDecides(step: ClassroomStep, classroomSteps: seq<ClassroomStep>,
                                            rules: seq<RecoveryExamRule>, i: nat)
    requires i < |rules| && ClosesAt(rules[i], step.number)
    requires forall j :: 0 <= j < i ==> !ClosesAt(rules[j], step.number)
    ensures RecoveryExamRuleFor(rules, step.number) == Some(rules[i])
    ensures var selected := StepsInRule(classroomSteps, rules[i]);
            Fetched(step, classroomSteps, rules) == if selected == [] then [step] else selected
  {
    var r := RecoveryExamRuleFor(rules, step.number);
    var k :| 0 <= k < |rules| && rules[k] == r.value &&
             forall j :: 0 <= j < k ==> !ClosesAt(rules[j], step.number);
    assert ClosesAt(rules[k], step.number);
  }

  /** Under a matching rule, a step is fetched exactly when the rule recovers it, or when
      the rule recovers none of the classroom's steps and it is the given step. */
  lemma FetchedUnderRule(step: ClassroomStep, classroomSteps: seq<ClassroomStep>,
                         rules: seq<RecoveryExamRule>, rule: RecoveryExamRule, s: ClassroomStep)
    requires RecoveryExamRuleFor(rules, step.number) == Some(rule)
    ensures s in Fetched(step, classroomSteps, rules) <==>
              (s in classroomSteps && s.number in rule.steps) ||
              (s == step && forall t :: t in classroomSteps ==> t.number !in rule.steps)
  {
    var selected := StepsInRule(classroomSteps, rule);
    if selected != [] {
      var t := selected[0];
      assert t in classroomSteps && t.number in rule.steps;
    }
  }

  /** Unless the given step stands alone, the fetched steps are classroom steps kept in
      their calendar order. */
  lemma FetchedInOrder(step: ClassroomStep, classroomSteps: seq<ClassroomStep>, rules: seq<RecoveryExamRule>)
    ensures Fetched(step, classroomSteps, rules) == [step] ||
            IsSubsequenceOf(Fetched(step, classroomSteps, rules), classroomSteps)
  {
  }
}
