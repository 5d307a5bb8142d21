/** The collaborators of the HTTP pipeline, as records: the request header,
    the response with the predicates the pipeline asks of it, Java throwables
    and the normal/abrupt completion of a call. */
module HttpTypes {
  import opened Common

  datatype HttpHeader = HttpHeader(properties: seq<(string, string)>)

  /** A request body descriptor: only stored in the validation result. */
  datatype HttpRequestBody = HttpRequestBody(contentType: string, content: seq<bv8>)

  /** An HttpResponse. Its classification predicates are given as they are
      answered by the response itself: `isRedirect` (a redirect status with a
      Location header), `locationHeader`, `isBinary`, `isText`, `isJson` (from
      the content type) and `hasResponseContent`. `textContent` is None for
      Java's null. */
  datatype HttpResponse = HttpResponse(
    statusCode: int,
    isRedirect: bool,
    locationHeader: string,
    isBinary: bool,
    isText: bool,
    isJson: bool,
    textContent: Option<string>,
    binaryContent: seq<bv8>,
    hasResponseContent: bool)
  {
    predicate NullOrEmptyTextContent()
    {
      textContent.None? || textContent.value == ""
    }

    /** The text content as string concatenation renders it ("null" for null). */
    function TextForMessage(): string
    {
      if textContent.None? then "null" else textContent.value
    }
  }

  /** The kinds of throwable the pipeline tells apart: AssertionError,
      HttpException, RuntimeException and anything else. */
  datatype ErrorKind = AssertionFailure | HttpFailure | RuntimeFailure | OtherFailure

  datatype Throwable = Throwable(kind: ErrorKind, message: string, cause: Option<Throwable>)

  /** How a Java call ends: it returns a value or throws. */
  datatype Completion<+T> = Normal(value: T) | Abrupt(error: Throwable)

  /** HttpCall.execute(fullUrl, fullHeader): the abstract transport. A
      transport fault is an abrupt completion. */
  type HttpCall = (string, HttpHeader) -> Completion<HttpResponse>
}
