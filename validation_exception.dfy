/**
  * `ValidationException`: an immutable field-name to message map and a
  * message, fixed at construction, and the pass/fail verdict a validator
  * reaches (returned instead of thrown).
  */
module ValidationErrors {
  import opened Wrappers

  datatype ValidationException = ValidationException(message: string, errors: map<string, string>)

  /** `new ValidationException(message)`: the message, and the one error `"error" -> message`. */
  function WithMessage(message: string): (e: ValidationException)
    ensures e.message == message
    ensures e.errors.Keys == {"error"} && e.errors["error"] == message
  {
    ValidationException(message, map["error" := message])
  }

  /** `new ValidationException(errors)`: the fixed message; a `null` map becomes empty, any other is kept. */
  function WithErrors(errors: Option<map<string, string>>): (e: ValidationException)
    ensures e.message == "Validation failed"
    ensures errors.None? ==> e.errors == map[]
    ensures errors.Some? ==> e.errors == errors.value
  {
    ValidationException("Validation failed", if errors.Some? then errors.value else map[])
  }

  /** A validator's verdict: it returns normally, or it throws. */
  datatype Outcome = Pass | Fail(exception: ValidationException)

  /** `if (!errors.isEmpty()) throw new ValidationException(errors)`. */
  function Check(errors: map<string, string>): (r: Outcome)
    ensures r.Pass? <==> errors == map[]
    ensures r.Fail? ==> r.exception.errors == errors && r.exception.message == "Validation failed"
  {
    if |errors| == 0 then Pass else Fail(WithErrors(Some(errors)))
  }
}
