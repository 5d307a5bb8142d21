/** The status-code policy of Http: the expected code derived from the request
    method, the default and the errors-only status checks, and the throwable
    synthesized when the validation block itself throws. */
module StatusPolicy {
  import opened Common
  import opened Data
  import opened HttpTypes

  /** What one status check does: compares nothing, compares and matches, or
      compares and reports the mismatch message. */
  datatype StatusCheck = Skipped | Passed | Failed(message: string)

  predicate Is2xx(code: int)
  {
    200 <= code < 300
  }

  /** Http.defaultExpectedStatusCodeByRequest. */
  function DefaultExpectedStatusCode(requestMethod: string, hasResponseContent: bool): (code: int)
    ensures Is2xx(code)
    ensures code == 201 <==> requestMethod == "POST"
    ensures code == 204 <==> (requestMethod == "PUT" || requestMethod == "DELETE") && !hasResponseContent
    ensures code == 200 <==> requestMethod != "POST" && !((requestMethod == "PUT" || requestMethod == "DELETE") && !hasResponseContent)
  {
    match requestMethod
    case "GET" => 200
    case "POST" => 201
    case "PUT" => if hasResponseContent then 200 else 204
    case "DELETE" => if hasResponseContent then 200 else 204
    case _ => 200
  }

  /** The message the equality comparator reports for a status-code mismatch. */
  function StatusCodeMismatch(actual: int, expected: int): string
  {
    "header.statusCode: actual: " + IntToString(actual) + " expected: " + IntToString(expected)
  }

  /** The status-code comparison, `statusCode.should(equal(expected))`. */
  function CompareStatusCode(actual: int, expected: int): StatusCheck
  {
    if actual == expected then Passed else Failed(StatusCodeMismatch(actual, expected))
  }

  /** Http.validateStatusCode: nothing is compared once the status-code node
      has been examined; otherwise it must equal the expected code. */
  function ValidateStatusCode(level: CheckLevel, actual: int, expected: int): (c: StatusCheck)
    ensures c.Skipped? <==> level != CheckLevel.None
    ensures c.Failed? <==> level == CheckLevel.None && actual != expected
    ensures c.Failed? ==> c.message == StatusCodeMismatch(actual, expected)
  {
    if level != CheckLevel.None then Skipped else CompareStatusCode(actual, expected)
  }

  /** Http.validateErrorsOnlyStatusCode: as ValidateStatusCode, but any 2xx
      code also compares nothing. */
  function ValidateErrorsOnlyStatusCode(level: CheckLevel, actual: int, expected: int): (c: StatusCheck)
    ensures c.Skipped? <==> level != CheckLevel.None || Is2xx(actual)
    ensures c.Failed? <==> level == CheckLevel.None && !Is2xx(actual) && actual != expected
    ensures c.Failed? ==> c.message == StatusCodeMismatch(actual, expected)
  {
    if level != CheckLevel.None then Skipped
    else if Is2xx(actual) then Skipped
    else CompareStatusCode(actual, expected)
  }

  /** Against the method's default code, the errors-only check never passes a
      code it compares: it fails exactly on the unexamined non-2xx codes, and
      whenever it fails the default check fails with the same message. */
  lemma ErrorsOnlyAgainstDefault(level: CheckLevel, actual: int, requestMethod: string, hasResponseContent: bool)
    ensures var expected := DefaultExpectedStatusCode(requestMethod, hasResponseContent);
            var c := ValidateErrorsOnlyStatusCode(level, actual, expected);
            && !c.Passed?
            && (c.Failed? <==> level == CheckLevel.None && !Is2xx(actual))
            && (c.Failed? ==> ValidateStatusCode(level, actual, expected) == c)
  {
  }

  const AdditionalExceptionMessage := "\n\nadditional exception message:\n"

  /** The error the default handler chain raises for a mismatch it is passed. */
  function MismatchError(message: string): Throwable
  {
    Throwable(AssertionFailure, "\n" + message, Option.None)
  }

  /** The catch block of Http.validateAndRecord: the outcome of the
      errors-only check decides what is thrown in place of `original`. */
  function SynthesizeFailure(original: Throwable, check: StatusCheck): (t: Throwable)
    ensures !check.Failed? ==> t == original
    ensures check.Failed? ==> t.kind == AssertionFailure
    ensures check.Failed? && original.kind == AssertionFailure ==> t == MismatchError(check.message)
    ensures check.Failed? && original.kind != AssertionFailure ==> t.cause == Some(original)
  {
    if !check.Failed? then original
    else if original.kind == AssertionFailure then MismatchError(check.message)
    else Throwable(AssertionFailure, "\n" + check.message + AdditionalExceptionMessage + original.message, Some(original))
  }

  /** A non-assertion fault is never lost: the synthesized error starts with
      the status message and ends with the original message. */
  lemma SynthesizedKeepsOriginal(original: Throwable, check: StatusCheck)
    requires check.Failed? && original.kind != AssertionFailure
    ensures var t := SynthesizeFailure(original, check);
            && t.message[..1 + |check.message|] == "\n" + check.message
            && t.message[|t.message| - |original.message|..] == original.message
  {
  }
}
