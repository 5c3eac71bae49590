/** How the source's pydantic models are built: every field constraint is checked first, and
    a model validator (`@model_validator(mode="after")`) runs only on fields that all passed.
    A failure is either the list of fields whose constraints failed, in declaration order,
    or the validator's `ValueError` message. */
module ModelChecks {
  import opened Wrappers
  import opened Text

  datatype ModelError = FieldsInvalid(fields: seq<string>) | Rejected(message: string)

  /** A field constraint: the field's name and whether its value meets it. */
  type FieldCheck = (string, bool)

  /** The names of the failing constraints, in order. */
  function Failing(checks: seq<FieldCheck>): (r: seq<string>)
    ensures |r| <= |checks|
    ensures r == [] <==> forall i :: 0 <= i < |checks| ==> checks[i].1
    ensures forall i :: 0 <= i < |checks| && !checks[i].1 ==> checks[i].0 in r
    ensures forall x :: x in r ==> exists i :: 0 <= i < |checks| && checks[i].0 == x && !checks[i].1
    ensures |checks| == 1 && !checks[0].1 ==> r == [checks[0].0]
  {
    if checks == [] then []
    else (if checks[0].1 then [] else [checks[0].0]) + Failing(checks[1..])
  }

  /** Building a model: the field errors if there are any, otherwise the validator's
      rejection if it rejects, otherwise the model. */
  function Build<T>(model: T, checks: seq<FieldCheck>, rejection: Option<string>): (r: Result<T, ModelError>)
    ensures r.Ok? <==> (forall i :: 0 <= i < |checks| ==> checks[i].1) && rejection.None?
    ensures r.Ok? ==> r.value == model
    ensures r.Err? && r.error.Rejected? ==> Failing(checks) == [] && rejection == Some(r.error.message)
  {
    if Failing(checks) != [] then Err(FieldsInvalid(Failing(checks)))
    else if rejection.Some? then Err(Rejected(rejection.value))
    else Ok(model)
  }

  /** `ge=0.0, le=1.0` */
  predicate UnitInterval(x: real)
  {
    0.0 <= x <= 1.0
  }

  /** The items that fail `accepts`, in their order (a list comprehension with an `if`). */
  function Rejects(items: seq<string>, accepts: string -> bool): (r: seq<string>)
    ensures |r| <= |items|
    ensures forall x :: x in r ==> x in items && !accepts(x)
    ensures forall i :: 0 <= i < |items| && !accepts(items[i]) ==> items[i] in r
    ensures r == [] <==> forall i :: 0 <= i < |items| ==> accepts(items[i])
  {
    if items == [] then []
    else (if accepts(items[0]) then [] else [items[0]]) + Rejects(items[1..], accepts)
  }

  /** The message both `validate_sections` validators raise. */
  function InvalidSectionsMessage(invalid: seq<string>): string
  {
    "Invalid section names: " + Join(invalid, ", ")
  }
}
