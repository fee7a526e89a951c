/** Request validation: each field rule of a request either holds or contributes the default
    message naming its field, and any message at all turns the request into a `ValidationError`. */
module Validation {
  import opened Errors

  /** One `#[validate(...)]` attribute of a request field, already evaluated on the request. */
  datatype Rule = Rule(field: string, holds: bool)

  /** The default message of a failed rule. */
  function RequiredMessage(field: string): (m: string)
    ensures m == field + " is required"
  {
    field + " is required"
  }

  /** `collect_errors`: one message per failed rule, in rule order. */
  function Messages(rules: seq<Rule>): (ms: seq<string>)
    ensures |ms| <= |rules|
    ensures ms == [] <==> forall i :: 0 <= i < |rules| ==> rules[i].holds
    ensures forall m :: m in ms <==> exists r :: r in rules && !r.holds && m == RequiredMessage(r.field)
    decreases |rules|
  {
    if rules == [] then []
    else
      var rest := Messages(rules[1..]);
      assert forall i :: 1 <= i < |rules| ==> rules[i] == rules[1..][i - 1];
      (if rules[0].holds then [] else [RequiredMessage(rules[0].field)]) + rest
  }

  /** `validate`: success exactly when every rule holds, otherwise the collected messages. */
  function Validate(rules: seq<Rule>): (r: Result<()>)
    ensures r.Ok? <==> forall i :: 0 <= i < |rules| ==> rules[i].holds
    ensures r.Err? ==> r.error == ValidationError(Messages(rules)) && Messages(rules) != []
  {
    if Messages(rules) == [] then Ok(()) else Err(ValidationError(Messages(rules)))
  }
}
