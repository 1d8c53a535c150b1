/** The `errors` collection of a record: which attribute failed and under which key. */
module Validation {

  datatype Attribute =
    | Base
    | Description | EventTypeAttribute | EventDate | SchoolCalendarId | Periods | Grade
    | ClassroomAttribute | Legend
    | Email | Cpf | ReceiveNews
    | OtherAttribute(name: string)

  datatype ErrorKey =
    | Blank
    | Exclusion
    | AlreadyExistsEventInThisDate
    | MustInformEmailOrCpf
    | MustFillReceiveNewsOptions
    | OtherKey(name: string)

  datatype ValidationError = ValidationError(attribute: Attribute, key: ErrorKey)

  /** The error a validator adds, if its test fails. */
  function ErrorIf(failed: bool, err: ValidationError): (r: seq<ValidationError>)
    ensures forall x :: x in r <==> failed && x == err
  {
    if failed then [err] else []
  }

  /** `errors[attribute].any?`. */
  predicate AnyOn(errors: seq<ValidationError>, attribute: Attribute) {
    exists i :: 0 <= i < |errors| && errors[i].attribute == attribute
  }
}
