/** The request-validate-report pipeline of Http: execute the call, follow
    redirects, build the header and body nodes, run the validation block and
    the default status check under a recording expectation handler, and turn
    what was recorded into the call's outcome. The last validation result is
    a field of the Http object. */
module HttpPipeline {
  import opened Common
  import opened Data
  import opened HttpTypes
  import opened Redirects
  import opened StatusPolicy
  import opened ResponseData

  /** What a validation block did when it ran: the mismatches it reported to
      the expectation handlers, in order; whether it compared the status-code
      node (which moves that node's check level to ExplicitAssert); and how it
      ended. */
  datatype BlockRun = BlockRun(reported: seq<string>, assertedStatusCode: bool, completion: Completion<Value>)

  /** HttpResponseValidatorWithReturn.validate(header, body). */
  type Validator = (HeaderDataNode, DataNode) -> BlockRun

  /** ExpectationHandler.Flow. */
  datatype Flow = PassToNext | Terminate

  /** The configuration and collaborators a call consults: URL and header
      resolution, the redirect policy, JSON deserialization, and the answer the
      expectation handlers installed below the recording handler give for a
      mismatch passed on to them. */
  datatype HttpConfig = HttpConfig(
    fullUrl: string -> string,
    fullHeader: (string, string, HttpHeader) -> HttpHeader,
    shouldFollowRedirects: bool,
    maxRedirects: int,
    parseJson: JsonParse,
    handlersBelow: Flow)

  /** The handler chain's answer for a mismatch the recording handler passed
      on; anything but Terminate makes `should` raise MismatchError. */
  function ChainFlow(recordingFlow: Flow, handlersBelow: Flow): Flow
  {
    if recordingFlow == Terminate || handlersBelow == Terminate then Terminate else PassToNext
  }

  function FailedMessages(check: StatusCheck): seq<string>
  {
    if check.Failed? then [check.message] else []
  }

  /** The header node after a status check: any comparison marks it. */
  function AfterCheck(header: HeaderDataNode, check: StatusCheck): HeaderDataNode
  {
    if check.Skipped? then header else MarkStatusCodeChecked(header)
  }

  /** A stage of validateAndRecord: the header node, the messages recorded so
      far and how the stage ended. */
  datatype Stage = Stage(header: HeaderDataNode, recorded: seq<string>, completion: Completion<Value>)

  /** The try block: the user block, then (if it returned) the default status
      check, both under the recording handler. */
  function TryStage(run: BlockRun, header: HeaderDataNode, statusCode: int, expected: int, handlersBelow: Flow): Stage
  {
    var marked := if run.assertedStatusCode then MarkStatusCodeChecked(header) else header;
    match run.completion
    case Abrupt(e) => Stage(marked, run.reported, Abrupt(e))
    case Normal(v) =>
      var check := ValidateStatusCode(marked.statusCode.checkLevel, statusCode, expected);
      var raises := check.Failed? && ChainFlow(PassToNext, handlersBelow) != Terminate;
      Stage(AfterCheck(marked, check), run.reported + FailedMessages(check),
            if raises then Abrupt(MismatchError(check.message)) else Normal(ExtractOriginalValue(v)))
  }

  /** The catch block: when the try block threw, the errors-only status check
      decides what is thrown instead. */
  function CatchStage(tried: Stage, statusCode: int, expected: int): Stage
  {
    match tried.completion
    case Normal(_) => tried
    case Abrupt(e) =>
      var check := ValidateErrorsOnlyStatusCode(tried.header.statusCode.checkLevel, statusCode, expected);
      Stage(AfterCheck(tried.header, check), tried.recorded + FailedMessages(check),
            Abrupt(SynthesizeFailure(e, check)))
  }

  /** What Http.validateAndRecord does for a response: the nodes it stores
      (none when the body cannot be built), the messages it records and how
      it ends. */
  datatype Validation = Validation(
    header: Option<HeaderDataNode>,
    body: Option<DataNode>,
    recorded: seq<string>,
    completion: Completion<Value>)

  function ValidationOf(requestMethod: string, response: HttpResponse, validator: Validator,
                        parse: JsonParse, handlersBelow: Flow): Validation
  {
    match CreateBodyDataNode(response, parse)
    case Abrupt(e) => Validation(Option.None, Option.None, [], Abrupt(e))
    case Normal(body) =>
      var header := HeaderNode(response);
      var expected := DefaultExpectedStatusCode(requestMethod, response.hasResponseContent);
      var tried := TryStage(validator(header, body), header, response.statusCode, expected, handlersBelow);
      var caught := CatchStage(tried, response.statusCode, expected);
      Validation(Some(caught.header), Some(body), caught.recorded, caught.completion)
  }

  /** The HttpException a non-assertion fault is wrapped in. */
  function HttpFault(requestMethod: string, fullUrl: string, cause: Throwable): Throwable
  {
    Throwable(HttpFailure, "error during http." + Lower(requestMethod) + "(" + fullUrl + ")", Some(cause))
  }

  /** HttpValidationResult.renderMismatches. */
  function RenderMismatches(mismatches: seq<string>): string
  {
    Join(mismatches, "\n")
  }

  /** The single AssertionError that carries every recorded mismatch. */
  function AggregatedFailure(mismatches: seq<string>): Throwable
  {
    Throwable(AssertionFailure, "\n" + RenderMismatches(mismatches), Option.None)
  }

  /** Everything one call leaves behind: the calls made to the transport, the
      state of the validation result and how the call ends. */
  datatype CallRecord = CallRecord(
    calls: seq<Hop>,
    response: Option<HttpResponse>,
    header: Option<HeaderDataNode>,
    body: Option<DataNode>,
    mismatches: seq<string>,
    error: Option<Throwable>,
    completion: Completion<Value>)

  /** The catch clauses of the call supplier: an AssertionError is rethrown
      as it is; any other throwable is recorded as the error and rethrown
      wrapped in the HTTP fault. */
  function Caught(calls: seq<Hop>, response: Option<HttpResponse>, header: Option<HeaderDataNode>,
                  body: Option<DataNode>, mismatches: seq<string>,
                  requestMethod: string, fullUrl: string, e: Throwable): CallRecord
  {
    if e.kind == AssertionFailure then
      CallRecord(calls, response, header, body, mismatches, Option.None, Abrupt(e))
    else
      CallRecord(calls, response, header, body, mismatches, Some(e), Abrupt(HttpFault(requestMethod, fullUrl, e)))
  }

  /** The body of the call supplier Http.createHttpStep builds. */
  function CallOf(requestMethod: string, fullUrl: string, fullHeader: HttpHeader, httpCall: HttpCall,
                  validator: Validator, config: HttpConfig): CallRecord
  {
    var first := Hop(fullUrl, fullHeader);
    match httpCall(fullUrl, fullHeader)
    case Abrupt(e) => Caught([first], Option.None, Option.None, Option.None, [], requestMethod, fullUrl, e)
    case Normal(response) =>
      var followed := Followed(httpCall, fullHeader, config.shouldFollowRedirects, config.maxRedirects, response, 0);
      var calls := [first] + followed.1;
      match followed.0
      case Abrupt(e) => Caught(calls, Option.None, Option.None, Option.None, [], requestMethod, fullUrl, e)
      case Normal(final) =>
        var v := ValidationOf(requestMethod, final, validator, config.parseJson, config.handlersBelow);
        match v.completion
        case Abrupt(e) => Caught(calls, Some(final), v.header, v.body, v.recorded, requestMethod, fullUrl, e)
        case Normal(x) =>
          CallRecord(calls, Some(final), v.header, v.body, v.recorded, Option.None,
                     if v.recorded != [] then Abrupt(AggregatedFailure(v.recorded)) else Normal(x))
  }

  /** HttpValidationResult: the record of one request cycle, updated as the
      pipeline goes. `error` holds the throwable whose full cause message
      setErrorMessage stores. */
  class HttpValidationResult {
    const requestMethod: string
    const url: string
    const fullUrl: string
    const requestHeader: HttpHeader
    const requestBody: Option<HttpRequestBody>
    var response: Option<HttpResponse>
    var headerNode: Option<HeaderDataNode>
    var bodyNode: Option<DataNode>
    var mismatches: seq<string>
    var error: Option<Throwable>

    constructor(requestMethod: string, url: string, fullUrl: string, requestHeader: HttpHeader,
                requestBody: Option<HttpRequestBody>)
      ensures this.requestMethod == requestMethod && this.url == url && this.fullUrl == fullUrl
      ensures this.requestHeader == requestHeader && this.requestBody == requestBody
      ensures Fresh()
    {
      this.requestMethod := requestMethod;
      this.url := url;
      this.fullUrl := fullUrl;
      this.requestHeader := requestHeader;
      this.requestBody := requestBody;
      response := Option.None;
      headerNode := Option.None;
      bodyNode := Option.None;
      mismatches := [];
      error := Option.None;
    }

    /** Nothing has been recorded yet. */
    predicate Fresh()
      reads this
    {
      response.None? && headerNode.None? && bodyNode.None? && mismatches == [] && error.None?
    }

    method SetResponse(r: HttpResponse)
      modifies this`response
      ensures response == Some(r)
    {
      response := Some(r);
    }

    method SetResponseNodes(header: HeaderDataNode, body: DataNode)
      modifies this`headerNode, this`bodyNode
      ensures headerNode == Some(header) && bodyNode == Some(body)
    {
      headerNode := Some(header);
      bodyNode := Some(body);
    }

    /** A comparison touched the status-code node. */
    method MarkStatusCode()
      requires headerNode.Some?
      modifies this`headerNode
      ensures headerNode == Some(MarkStatusCodeChecked(old(headerNode.value)))
    {
      headerNode := Some(MarkStatusCodeChecked(headerNode.value));
    }

    method AddMismatch(message: string)
      modifies this`mismatches
      ensures mismatches == old(mismatches) + [message]
    {
      mismatches := mismatches + [message];
    }

    method SetErrorMessage(e: Throwable)
      modifies this`error
      ensures error == Some(e)
    {
      error := Some(e);
    }

    method HasMismatches() returns (b: bool)
      ensures b <==> mismatches != []
    {
      b := mismatches != [];
    }
  }

  /** The recording handler of validateAndRecord: it appends the message and
      passes the mismatch on. */
  method RecordAndPass(validationResult: HttpValidationResult, message: string) returns (flow: Flow)
    modifies validationResult`mismatches
    ensures validationResult.mismatches == old(validationResult.mismatches) + [message]
    ensures flow == PassToNext
  {
    validationResult.AddMismatch(message);
    flow := PassToNext;
  }

  /** Http.validateAndRecord. */
  method ValidateAndRecord(validationResult: HttpValidationResult, validator: Validator,
                           parse: JsonParse, handlersBelow: Flow) returns (o: Completion<Value>)
    requires validationResult.response.Some?
    modifies validationResult`headerNode, validationResult`bodyNode, validationResult`mismatches
    ensures var spec := ValidationOf(validationResult.requestMethod, validationResult.response.value,
                                     validator, parse, handlersBelow);
            && o == spec.completion
            && validationResult.mismatches == old(validationResult.mismatches) + spec.recorded
            && (spec.header.Some? ==> validationResult.headerNode == spec.header && validationResult.bodyNode == spec.body)
            && (spec.header.None? ==> validationResult.headerNode == old(validationResult.headerNode)
                                      && validationResult.bodyNode == old(validationResult.bodyNode))
  {
    var response := validationResult.response.value;
    var header := HeaderNode(response);
    var body := CreateBodyDataNode(response, parse);
    if body.Abrupt? {
      o := Abrupt(body.error);
      return;
    }
    validationResult.SetResponseNodes(header, body.value);
    var expected := DefaultExpectedStatusCode(validationResult.requestMethod, response.hasResponseContent);
    ghost var before := validationResult.mismatches;

    // 1. the validation block; it hands each mismatch it finds to the
    //    recording handler
    var run := validator(header, body.value);
    for k := 0 to |run.reported|
      invariant validationResult.mismatches == before + run.reported[..k]
      invariant validationResult.headerNode == Some(header) && validationResult.bodyNode == Some(body.value)
    {
      var _ := RecordAndPass(validationResult, run.reported[k]);
    }
    assert run.reported[..|run.reported|] == run.reported;
    if run.assertedStatusCode {
      validationResult.MarkStatusCode();
    }

    var thrown: Option<Throwable> := Option.None;
    var extracted: Value := Null;
    if run.completion.Abrupt? {
      thrown := Some(run.completion.error);
    } else {
      extracted := ExtractOriginalValue(run.completion.value);
      // 2. the default status check, under the same recording handler
      var check := ValidateStatusCode(validationResult.headerNode.value.statusCode.checkLevel, response.statusCode, expected);
      if !check.Skipped? {
        validationResult.MarkStatusCode();
      }
      if check.Failed? {
        var flow := RecordAndPass(validationResult, check.message);
        if ChainFlow(flow, handlersBelow) != Terminate {
          thrown := Some(MismatchError(check.message));
        }
      }
    }

    if thrown.Some? {
      // 3. the block or the status check threw: the errors-only status check
      //    decides what is thrown
      var check := ValidateErrorsOnlyStatusCode(validationResult.headerNode.value.statusCode.checkLevel, response.statusCode, expected);
      if !check.Skipped? {
        validationResult.MarkStatusCode();
      }
      if check.Failed? {
        validationResult.AddMismatch(check.message);
      }
      o := Abrupt(SynthesizeFailure(thrown.value, check));
    } else {
      o := Normal(extracted);
    }
  }

  /** The catch clauses of the call supplier. */
  method CatchFault(validationResult: HttpValidationResult, e: Throwable) returns (o: Completion<Value>)
    modifies validationResult`error
    ensures e.kind == AssertionFailure ==> o == Abrupt(e) && validationResult.error == old(validationResult.error)
    ensures e.kind != AssertionFailure ==>
              o == Abrupt(HttpFault(validationResult.requestMethod, validationResult.fullUrl, e))
              && validationResult.error == Some(e)
  {
    if e.kind == AssertionFailure {
      o := Abrupt(e);
    } else {
      validationResult.SetErrorMessage(e);
      o := Abrupt(HttpFault(validationResult.requestMethod, validationResult.fullUrl, e));
    }
  }

  /** The call supplier of Http.createHttpStep: the transport, the redirects
      and the validation run inside one try block; an AssertionError escapes
      as it is, any other throwable is recorded and wrapped in an
      HttpException. Returns the calls made to the transport alongside the
      outcome. */
  method HttpCallSupplier(validationResult: HttpValidationResult, httpCall: HttpCall,
                          validator: Validator, config: HttpConfig)
    returns (o: Completion<Value>, calls: seq<Hop>)
    requires validationResult.Fresh()
    modifies validationResult`response, validationResult`headerNode, validationResult`bodyNode,
             validationResult`mismatches, validationResult`error
    ensures var spec := CallOf(validationResult.requestMethod, validationResult.fullUrl,
                               validationResult.requestHeader, httpCall, validator, config);
            && o == spec.completion && calls == spec.calls
            && validationResult.response == spec.response
            && validationResult.headerNode == spec.header && validationResult.bodyNode == spec.body
            && validationResult.mismatches == spec.mismatches && validationResult.error == spec.error
  {
    var requestMethod, fullUrl, fullHeader := validationResult.requestMethod, validationResult.fullUrl, validationResult.requestHeader;
    calls := [Hop(fullUrl, fullHeader)];
    var first := httpCall(fullUrl, fullHeader);
    if first.Abrupt? {
      o := CatchFault(validationResult, first.error);
      return;
    }
    var fetched, hops := FollowRedirects(httpCall, fullHeader, config.shouldFollowRedirects, config.maxRedirects, first.value);
    calls := calls + hops;
    if fetched.Abrupt? {
      o := CatchFault(validationResult, fetched.error);
      return;
    }
    validationResult.SetResponse(fetched.value);

    var returned := ValidateAndRecord(validationResult, validator, config.parseJson, config.handlersBelow);
    ghost var v := ValidationOf(requestMethod, fetched.value, validator, config.parseJson, config.handlersBelow);
    assert returned == v.completion && validationResult.mismatches == v.recorded;
    if returned.Abrupt? {
      o := CatchFault(validationResult, returned.error);
      return;
    }
    var hasMismatches := validationResult.HasMismatches();
    if hasMismatches {
      o := Abrupt(AggregatedFailure(validationResult.mismatches));
    } else {
      o := returned;
    }
  }

  /** The Http entry point. `lastValidationResult` stands for the per-thread
      slot holding the result of the latest call. */
  class Http {
    var lastValidationResult: HttpValidationResult?

    constructor()
      ensures lastValidationResult == null
    {
      lastValidationResult := null;
    }

    method GetLastValidationResult() returns (r: HttpValidationResult?)
      ensures r == lastValidationResult
    {
      r := lastValidationResult;
    }

    /** Http.executeAndValidateHttpCall: resolve the full URL and header,
        run the call on a new validation result and, however the call ends,
        leave that result in the last-result slot. */
    method ExecuteAndValidateHttpCall(requestMethod: string, url: string, httpCall: HttpCall,
                                      requestHeader: HttpHeader, requestBody: Option<HttpRequestBody>,
                                      validator: Validator, config: HttpConfig)
      returns (o: Completion<Value>)
      modifies this
      ensures lastValidationResult != null && fresh(lastValidationResult)
      ensures var result := lastValidationResult;
              && result.requestMethod == requestMethod && result.url == url
              && result.fullUrl == config.fullUrl(url)
              && result.requestHeader == config.fullHeader(config.fullUrl(url), url, requestHeader)
              && result.requestBody == requestBody
      ensures var result := lastValidationResult;
              var spec := CallOf(requestMethod, result.fullUrl, result.requestHeader, httpCall, validator, config);
              && o == spec.completion
              && result.response == spec.response
              && result.headerNode == spec.header && result.bodyNode == spec.body
              && result.mismatches == spec.mismatches && result.error == spec.error
    {
      var fullUrl := config.fullUrl(url);
      var fullHeader := config.fullHeader(fullUrl, url, requestHeader);
      var validationResult := new HttpValidationResult(requestMethod, url, fullUrl, fullHeader, requestBody);
      var calls;
      o, calls := HttpCallSupplier(validationResult, httpCall, validator, config);
      lastValidationResult := validationResult;
    }
  }
}
