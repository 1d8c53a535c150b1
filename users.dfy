/** A user of the diary: feature permissions through the current role, the display names,
    the conditional e-mail and CPF setters, and the newsletter preferences with their
    normalisation and validation. */
module Users {
  import opened Wrappers
  import opened Text
  import opened Validation

  /** A role as the user's roles expose it: its access level and the features it lets its
      holders see and change (`Role#can_show?` and `Role#can_change?` are answered by
      membership). */
  datatype Role = Role(accessLevel: string, shown: set<string>, changeable: set<string>)

  /** What the `has_to_validate_receive_news_fields` accessor holds: nothing, a boolean, or
      a string coming from a form. */
  datatype AccessorValue = Unset | BoolValue(b: bool) | StringValue(s: string)

  /** `has_to_validate_receive_news_fields?`: the flag is `true` or the string "true". */
  function HasToValidate(v: AccessorValue): (b: bool)
    ensures v.Unset? ==> !b
    ensures v.BoolValue? ==> (b <==> v.b)
    ensures v.StringValue? ==> (b <==> v.s == "true")
  {
    v == BoolValue(true) || v == StringValue("true")
  }

  /** Rails' `flag?` on a nullable boolean column: only `true` is truthy. */
  predicate Truthy(b: Option<bool>) {
    b == Some(true)
  }

  const GeneralConfigurations := "general_configurations"

  // ---------------------------------------------------------------- permissions

  /** The decision shared by `can_show?` and `can_change?`: `roleAnswer` is what the
      current role answers for the feature, `None` when there is no current role. */
  function Permission(feature: string, admin: bool, roleAnswer: Option<bool>): (r: Option<bool>)
    ensures feature == GeneralConfigurations ==> r == Some(admin)
    ensures feature != GeneralConfigurations && admin ==> r == Some(true)
    ensures feature != GeneralConfigurations && !admin ==> r == roleAnswer
  {
    if feature == GeneralConfigurations then Some(admin)
    else if admin then Some(true)
    else if roleAnswer.None? then None
    else roleAnswer
  }

  /** Whatever the role says, the general configurations are open to administrators only. */
  lemma GeneralConfigurationsIgnoreRole(admin: bool, a: Option<bool>, b: Option<bool>)
    ensures Permission(GeneralConfigurations, admin, a) == Permission(GeneralConfigurations, admin, b)
    ensures Truthy(Permission(GeneralConfigurations, admin, a)) <==> admin
  {
  }

  /** For any other feature a feature is granted exactly to administrators and to holders
      of a current role that grants it. */
  lemma PermissionGranted(feature: string, admin: bool, roleAnswer: Option<bool>)
    requires feature != GeneralConfigurations
    ensures Truthy(Permission(feature, admin, roleAnswer)) <==> admin || Truthy(roleAnswer)
  {
  }

  // ---------------------------------------------------------------- news entitlements

  const DailyTeacherLevels: set<string> := {"administrator", "employee", "teacher"}
  const ToolsForParentsLevels: set<string> := {"administrator", "employee", "parent", "student"}
  const AllMattersLevels: set<string> := {"administrator", "employee"}

  /** Ruby's `uniq`: the first occurrence of each element, in order. */
  function Uniq(s: seq<string>): (r: seq<string>)
    ensures forall x :: x in r <==> x in s
    ensures forall i, j :: 0 <= i < j < |r| ==> r[i] != r[j]
  {
    if s == [] then []
    else
      var init := s[..|s| - 1];
      assert s == init + [s[|s| - 1]];
      var r := Uniq(init);
      if s[|s| - 1] in r then r else r + [s[|s| - 1]]
  }

  /** `levels.any? { |level| allowed.include?(level) }`. */
  function AnyLevelIn(levels: seq<string>, allowed: set<string>): (r: bool)
    ensures r <==> exists l :: l in levels && l in allowed
  {
    if levels == [] then false
    else
      assert levels == [levels[0]] + levels[1..];
      levels[0] in allowed || AnyLevelIn(levels[1..], allowed)
  }

  /** Whoever may receive news on all matters may receive the other two kinds. */
  lemma AllMattersEntitlesOthers(levels: seq<string>)
    requires AnyLevelIn(levels, AllMattersLevels)
    ensures AnyLevelIn(levels, DailyTeacherLevels) && AnyLevelIn(levels, ToolsForParentsLevels)
  {
    var l :| l in levels && l in AllMattersLevels;
    assert l in DailyTeacherLevels && l in ToolsForParentsLevels;
  }

  // ---------------------------------------------------------------- news normalisation

  /** The value `verify_receive_news_fields` leaves in one news flag: untouched on a new
      record; on a persisted one, `false` when the user may not receive that kind of news
      or does not receive news at all, and untouched otherwise. */
  function NormalizedFlag(flag: Option<bool>, persisted: bool, receiveNews: Option<bool>, entitled: bool): (r: Option<bool>)
    ensures Truthy(r) <==> Truthy(flag) && (!persisted || (Truthy(receiveNews) && entitled))
    ensures persisted && (!Truthy(receiveNews) || !entitled) ==> r == Some(false)
    ensures !persisted || (Truthy(receiveNews) && entitled) ==> r == flag
  {
    if !persisted then flag
    else if !entitled || !Truthy(receiveNews) then Some(false)
    else flag
  }

  /** Normalising a second time changes nothing. */
  lemma NormalizedFlagIdempotent(flag: Option<bool>, persisted: bool, receiveNews: Option<bool>, entitled: bool)
    ensures var once := NormalizedFlag(flag, persisted, receiveNews, entitled);
            NormalizedFlag(once, persisted, receiveNews, entitled) == once
  {
  }

  // ---------------------------------------------------------------- validations

  const MustInformEmailOrCpfError := ValidationError(Base, MustInformEmailOrCpf)
  const MustFillReceiveNewsOptionsError := ValidationError(ReceiveNews, MustFillReceiveNewsOptions)

  /** `presence_of_email_or_cpf`: skipped when e-mail or CPF already failed a validation;
      otherwise an error on `base` when both are blank. */
  function EmailOrCpfErrors(errors: seq<ValidationError>, email: Option<string>, cpf: Option<string>): (r: seq<ValidationError>)
    ensures r == [] || r == [MustInformEmailOrCpfError]
    ensures r != [] <==> !AnyOn(errors, Email) && !AnyOn(errors, Cpf) && IsBlank(email) && IsBlank(cpf)
  {
    if AnyOn(errors, Email) || AnyOn(errors, Cpf) then []
    else if IsBlank(email) && IsBlank(cpf) then [MustInformEmailOrCpfError]
    else []
  }

  /** `validate_receive_news_fields`: a user receiving news must choose at least one kind. */
  function ReceiveNewsErrors(receiveNews: Option<bool>, dailyTeacher: Option<bool>,
                             toolsForParents: Option<bool>, allMatters: Option<bool>): (r: seq<ValidationError>)
    ensures r == [] || r == [MustFillReceiveNewsOptionsError]
    ensures r != [] <==> Truthy(receiveNews) && !Truthy(dailyTeacher) && !Truthy(toolsForParents) && !Truthy(allMatters)
  {
    ErrorIf(Truthy(receiveNews) && !(Truthy(dailyTeacher) || Truthy(toolsForParents) || Truthy(allMatters)),
            MustFillReceiveNewsOptionsError)
  }

  /** A persisted user who receives news but holds no access level entitled to any kind of
      news has every flag cleared by the normalisation, and so fails the validation. */
  lemma UnentitledReceiverRejected(levels: seq<string>, receiveNews: Option<bool>,
                                   d: Option<bool>, t: Option<bool>, a: Option<bool>)
    requires Truthy(receiveNews)
    requires forall l :: l in levels ==> l !in DailyTeacherLevels + ToolsForParentsLevels
    ensures ReceiveNewsErrors(receiveNews,
              NormalizedFlag(d, true, receiveNews, AnyLevelIn(levels, DailyTeacherLevels)),
              NormalizedFlag(t, true, receiveNews, AnyLevelIn(levels, ToolsForParentsLevels)),
              NormalizedFlag(a, true, receiveNews, AnyLevelIn(levels, AllMattersLevels)))
            == [MustFillReceiveNewsOptionsError]
  {
    assert !AnyLevelIn(levels, DailyTeacherLevels);
    assert !AnyLevelIn(levels, ToolsForParentsLevels);
    assert !AnyLevelIn(levels, AllMattersLevels) by {
      if AnyLevelIn(levels, AllMattersLevels) {
        AllMattersEntitlesOthers(levels);
      }
    }
  }

  // ---------------------------------------------------------------- the record

  class User {
    var admin: bool
    var firstName: Option<string>
    var lastName: Option<string>
    var login: Option<string>
    var email: Option<string>
    var cpf: Option<string>
    /** The role of `current_user_role`, if any. */
    var currentRole: Option<Role>
    /** The roles of all the user's user roles. */
    var roles: seq<Role>
    var persisted: bool
    var receiveNews: Option<bool>
    var receiveNewsRelatedDailyTeacher: Option<bool>
    var receiveNewsRelatedToolsForParents: Option<bool>
    var receiveNewsRelatedAllMatters: Option<bool>
    var hasToValidateReceiveNewsFields: AccessorValue
    var errors: seq<ValidationError>

    /** `User.new`: a new record with every attribute nil. */
    constructor ()
      ensures !admin && firstName.None? && lastName.None? && login.None? && email.None? && cpf.None?
      ensures currentRole.None? && roles == [] && !persisted
      ensures receiveNews.None? && receiveNewsRelatedDailyTeacher.None?
      ensures receiveNewsRelatedToolsForParents.None? && receiveNewsRelatedAllMatters.None?
      ensures hasToValidateReceiveNewsFields == Unset && errors == []
    {
      admin := false;
      firstName, lastName, login, email, cpf := None, None, None, None, None;
      currentRole, roles, persisted := None, [], false;
      receiveNews := None;
      receiveNewsRelatedDailyTeacher, receiveNewsRelatedToolsForParents := None, None;
      receiveNewsRelatedAllMatters := None;
      hasToValidateReceiveNewsFields := Unset;
      errors := [];
    }

    /** `can_show?(feature)`; `None` is the nil a user without a current role gets. */
    function CanShow(feature: string): (r: Option<bool>)
      reads this
      ensures Truthy(r) <==> if feature == GeneralConfigurations then admin
                             else admin || (currentRole.Some? && feature in currentRole.value.shown)
      ensures r.None? <==> feature != GeneralConfigurations && !admin && currentRole.None?
    {
      Permission(feature, admin, if currentRole.None? then None else Some(feature in currentRole.value.shown))
    }

    /** `can_change?(feature)`. */
    function CanChange(feature: string): (r: Option<bool>)
      reads this
      ensures Truthy(r) <==> if feature == GeneralConfigurations then admin
                             else admin || (currentRole.Some? && feature in currentRole.value.changeable)
      ensures r.None? <==> feature != GeneralConfigurations && !admin && currentRole.None?
    {
      Permission(feature, admin, if currentRole.None? then None else Some(feature in currentRole.value.changeable))
    }

    /** `logged_as`: the login when present, else the e-mail. */
    function LoggedAs(): (r: Option<string>)
      reads this
      ensures IsPresent(login) ==> r == login
      ensures IsBlank(login) ==> r == email
      ensures IsPresent(r) <==> IsPresent(login) || IsPresent(email)
    {
      if IsPresent(login) then login else email
    }

    /** `name`: first and last name joined by a space, stripped. */
    function Name(): (r: string)
      reads this
      ensures r == [] <==> AllSpace(OrEmpty(firstName)) && AllSpace(OrEmpty(lastName))
      ensures r != [] ==> !IsSpace(r[0]) && !IsSpace(r[|r| - 1])
      ensures exists p, q :: AllSpace(p) && AllSpace(q) && OrEmpty(firstName) + " " + OrEmpty(lastName) == p + r + q
    {
      var full := OrEmpty(firstName) + " " + OrEmpty(lastName);
      AllSpaceJoin(OrEmpty(firstName), OrEmpty(lastName));
      Strip(full)
    }

    /** `to_s`: the e-mail when the name is blank, the name otherwise. */
    function ToS(): (r: Option<string>)
      reads this
      ensures AllSpace(OrEmpty(firstName)) && AllSpace(OrEmpty(lastName)) ==> r == email
      ensures !(AllSpace(OrEmpty(firstName)) && AllSpace(OrEmpty(lastName))) ==> r == Some(Name()) && IsPresent(r)
    {
      var name := Name();
      var stripped := Strip(name);
      assert AllSpace(stripped) <==> stripped == [] by {
        if stripped != [] { assert !IsSpace(stripped[0]); }
      }
      assert AllSpace(name) <==> name == [] by {
        if name != [] { assert !IsSpace(name[0]); }
      }
      if IsBlank(Some(stripped)) then email else Some(name)
    }

    /** `navigation_display`: "first.lastword" when both names are present, where
        `lastword` is the last word of the last name; else the first name; else the
        login; else the empty string. */
    function NavigationDisplay(): (r: string)
      reads this
      ensures IsPresent(firstName) && IsPresent(lastName) ==>
                exists w :: r == firstName.value + "." + w && w == LastWord(lastName.value) && w != []
      ensures IsPresent(firstName) && IsBlank(lastName) ==> r == firstName.value
      ensures IsBlank(firstName) && IsPresent(login) ==> r == login.value
      ensures r == [] <==> IsBlank(firstName) && IsBlank(login)
    {
      if IsPresent(firstName) && IsPresent(lastName) then firstName.value + "." + LastWord(lastName.value)
      else if IsPresent(firstName) then firstName.value
      else if IsPresent(login) then login.value
      else ""
    }

    /** `email=`: a blank value leaves the stored e-mail as it was. */
    method SetEmail(value: Option<string>)
      modifies this`email
      ensures email == if IsPresent(value) then value else old(email)
    {
      if IsPresent(value) {
        email := value;
      }
    }

    /** `cpf=`: a blank value leaves the stored CPF as it was. */
    method SetCpf(value: Option<string>)
      modifies this`cpf
      ensures cpf == if IsPresent(value) then value else old(cpf)
    {
      if IsPresent(value) {
        cpf := value;
      }
    }

    /** The access levels of the user's roles. */
    function AccessLevels(): (r: seq<string>)
      reads this`roles
      ensures |r| == |roles|
      ensures forall i :: 0 <= i < |r| ==> r[i] == roles[i].accessLevel
    {
      var rs := roles;
      seq(|rs|, i requires 0 <= i < |rs| => rs[i].accessLevel)
    }

    /** `can_receive_news_related_daily_teacher?`. */
    function CanReceiveNewsRelatedDailyTeacher(): (r: bool)
      reads this`roles
      ensures r <==> exists i :: 0 <= i < |roles| && roles[i].accessLevel in DailyTeacherLevels
    {
      var levels := AccessLevels();
      var r := AnyLevelIn(Uniq(levels), DailyTeacherLevels);
      assert r ==> exists i :: 0 <= i < |roles| && roles[i].accessLevel in DailyTeacherLevels;
      r
    }

    /** `can_receive_news_related_tools_for_parents?`. */
    function CanReceiveNewsRelatedToolsForParents(): (r: bool)
      reads this`roles
      ensures r <==> exists i :: 0 <= i < |roles| && roles[i].accessLevel in ToolsForParentsLevels
    {
      var levels := AccessLevels();
      var r := AnyLevelIn(Uniq(levels), ToolsForParentsLevels);
      assert r ==> exists i :: 0 <= i < |roles| && roles[i].accessLevel in ToolsForParentsLevels;
      r
    }

    /** `can_receive_news_related_all_matters?`. */
    function CanReceiveNewsRelatedAllMatters(): (r: bool)
      reads this`roles
      ensures r <==> exists i :: 0 <= i < |roles| && roles[i].accessLevel in AllMattersLevels
    {
      var levels := AccessLevels();
      var r := AnyLevelIn(Uniq(levels), AllMattersLevels);
      assert r ==> exists i :: 0 <= i < |roles| && roles[i].accessLevel in AllMattersLevels;
      r
    }

    /** `verify_receive_news_fields`, run before validation: on a persisted record each
        news flag the user's roles do not entitle them to is set to false, and all three
        are set to false when the user does not receive news. The callback always answers
        true, so it never halts the save. */
    method VerifyReceiveNewsFields() returns (continueSave: bool)
      modifies this`receiveNewsRelatedDailyTeacher, this`receiveNewsRelatedToolsForParents,
               this`receiveNewsRelatedAllMatters
      ensures continueSave
      ensures receiveNewsRelatedDailyTeacher ==
                NormalizedFlag(old(receiveNewsRelatedDailyTeacher), persisted, receiveNews, CanReceiveNewsRelatedDailyTeacher())
      ensures receiveNewsRelatedToolsForParents ==
                NormalizedFlag(old(receiveNewsRelatedToolsForParents), persisted, receiveNews, CanReceiveNewsRelatedToolsForParents())
      ensures receiveNewsRelatedAllMatters ==
                NormalizedFlag(old(receiveNewsRelatedAllMatters), persisted, receiveNews, CanReceiveNewsRelatedAllMatters())
    {
      if !persisted {
        return true;
      }
      if !CanReceiveNewsRelatedDailyTeacher() {
        receiveNewsRelatedDailyTeacher := Some(false);
      }
      if !CanReceiveNewsRelatedToolsForParents() {
        receiveNewsRelatedToolsForParents := Some(false);
      }
      if !CanReceiveNewsRelatedAllMatters() {
        receiveNewsRelatedAllMatters := Some(false);
      }
      if !Truthy(receiveNews) {
        receiveNewsRelatedDailyTeacher := Some(false);
        receiveNewsRelatedToolsForParents := Some(false);
        receiveNewsRelatedAllMatters := Some(false);
      }
      return true;
    }

    /** `presence_of_email_or_cpf`. */
    method PresenceOfEmailOrCpf()
      modifies this`errors
      ensures errors == old(errors) + EmailOrCpfErrors(old(errors), email, cpf)
    {
      if AnyOn(errors, Email) || AnyOn(errors, Cpf) {
        return;
      }
      if IsBlank(email) && IsBlank(cpf) {
        errors := errors + [MustInformEmailOrCpfError];
      }
    }

    /** `validate_receive_news_fields`. */
    method ValidateReceiveNewsFields()
      modifies this`errors
      ensures errors == old(errors) + ReceiveNewsErrors(receiveNews, receiveNewsRelatedDailyTeacher,
                                                        receiveNewsRelatedToolsForParents, receiveNewsRelatedAllMatters)
    {
      if Truthy(receiveNews) && !(Truthy(receiveNewsRelatedDailyTeacher) ||
                                  Truthy(receiveNewsRelatedToolsForParents) || Truthy(receiveNewsRelatedAllMatters)) {
        errors := errors + [MustFillReceiveNewsOptionsError];
      }
    }

    /** `valid?` as far as this model goes: the `before_validation` normalisation, then the
        errors of the built-in validators (given), then the two custom validations in
        declaration order, the second one only when the accessor asks for it. */
    method Validate(builtInErrors: seq<ValidationError>) returns (valid: bool)
      modifies this`errors, this`receiveNewsRelatedDailyTeacher, this`receiveNewsRelatedToolsForParents,
               this`receiveNewsRelatedAllMatters
      ensures receiveNewsRelatedDailyTeacher ==
                NormalizedFlag(old(receiveNewsRelatedDailyTeacher), persisted, receiveNews, CanReceiveNewsRelatedDailyTeacher())
      ensures receiveNewsRelatedToolsForParents ==
                NormalizedFlag(old(receiveNewsRelatedToolsForParents), persisted, receiveNews, CanReceiveNewsRelatedToolsForParents())
      ensures receiveNewsRelatedAllMatters ==
                NormalizedFlag(old(receiveNewsRelatedAllMatters), persisted, receiveNews, CanReceiveNewsRelatedAllMatters())
      ensures errors == builtInErrors + EmailOrCpfErrors(builtInErrors, email, cpf) +
                        (if HasToValidate(hasToValidateReceiveNewsFields)
                         then ReceiveNewsErrors(receiveNews, receiveNewsRelatedDailyTeacher,
                                                receiveNewsRelatedToolsForParents, receiveNewsRelatedAllMatters)
                         else [])
      ensures valid <==> errors == []
    {
      var _ := VerifyReceiveNewsFields();
      errors := builtInErrors;
      PresenceOfEmailOrCpf();
      if HasToValidate(hasToValidateReceiveNewsFields) {
        ValidateReceiveNewsFields();
      }
      valid := errors == [];
    }
  }

  /** The joined name is blank exactly when both of its parts are. */
  lemma AllSpaceJoin(a: string, b: string)
    ensures AllSpace(a + " " + b) <==> AllSpace(a) && AllSpace(b)
  {
    var s := a + " " + b;
    assert forall i :: 0 <= i < |a| ==> s[i] == a[i];
    assert forall i :: 0 <= i < |b| ==> s[|a| + 1 + i] == b[i];
  }
}
