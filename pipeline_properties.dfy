/** What the request-validate-report pipeline guarantees: which calls reach
    the transport, in what order mismatches are recorded, when the default
    status check reports, and how the outcome of a call follows from what was
    recorded. */
module PipelineProperties {
  import opened Common
  import opened Data
  import opened HttpTypes
  import opened Redirects
  import opened StatusPolicy
  import opened ResponseData
  import opened HttpPipeline

  /** The first call goes to the full URL; every call, redirects included,
      carries the full header; at most maxRedirects redirect hops follow. */
  lemma {:induction false} TransportCalls(requestMethod: string, fullUrl: string, fullHeader: HttpHeader,
                                          httpCall: HttpCall, validator: Validator, config: HttpConfig)
    ensures var r := CallOf(requestMethod, fullUrl, fullHeader, httpCall, validator, config);
            && 1 <= |r.calls| <= 1 + Max0(config.maxRedirects)
            && r.calls[0] == Hop(fullUrl, fullHeader)
            && (forall k :: 0 <= k < |r.calls| ==> r.calls[k].header == fullHeader)
  {
    var first := httpCall(fullUrl, fullHeader);
    if first.Normal? {
      HopsBounded(httpCall, fullHeader, config.shouldFollowRedirects, config.maxRedirects, first.value, 0);
      HopTargets(httpCall, fullHeader, config.shouldFollowRedirects, config.maxRedirects, first.value, 0);
      var r := CallOf(requestMethod, fullUrl, fullHeader, httpCall, validator, config);
      var hops := Followed(httpCall, fullHeader, config.shouldFollowRedirects, config.maxRedirects, first.value, 0).1;
      assert r.calls == [Hop(fullUrl, fullHeader)] + hops;
      forall k | 0 <= k < |r.calls|
        ensures r.calls[k].header == fullHeader
      {
        if k > 0 {
          assert r.calls[k] == hops[k - 1];
        }
      }
    }
  }

  /** A transport failure, on the first call or on a redirect hop, stores no
      response and validates nothing. An AssertionError escapes as it is,
      with no error recorded; any other fault is recorded as the error and
      surfaces wrapped in the HTTP fault. */
  lemma TransportFailure(requestMethod: string, fullUrl: string, fullHeader: HttpHeader,
                         httpCall: HttpCall, validator: Validator, config: HttpConfig, e: Throwable)
    requires httpCall(fullUrl, fullHeader) == Abrupt(e)
             || (httpCall(fullUrl, fullHeader).Normal?
                 && Followed(httpCall, fullHeader, config.shouldFollowRedirects, config.maxRedirects,
                             httpCall(fullUrl, fullHeader).value, 0).0 == Abrupt(e))
    ensures var r := CallOf(requestMethod, fullUrl, fullHeader, httpCall, validator, config);
            && r.response.None? && r.header.None? && r.body.None? && r.mismatches == []
            && (e.kind == AssertionFailure ==> r.error.None? && r.completion == Abrupt(e))
            && (e.kind != AssertionFailure ==>
                  r.error == Some(e) && r.completion == Abrupt(HttpFault(requestMethod, fullUrl, e)))
  {
  }

  /** A JSON body that does not parse stops the call before the validation
      block runs: nothing is recorded but the parse error, which surfaces
      wrapped in the HTTP fault. */
  lemma BodyParseFailure(requestMethod: string, fullUrl: string, fullHeader: HttpHeader,
                         httpCall: HttpCall, validator: Validator, config: HttpConfig, final: HttpResponse)
    requires httpCall(fullUrl, fullHeader).Normal?
    requires Followed(httpCall, fullHeader, config.shouldFollowRedirects, config.maxRedirects,
                      httpCall(fullUrl, fullHeader).value, 0).0 == Normal(final)
    requires BodyValue(final, config.parseJson).Abrupt?
    ensures var r := CallOf(requestMethod, fullUrl, fullHeader, httpCall, validator, config);
            && r.response == Some(final) && r.header.None? && r.body.None? && r.mismatches == []
            && r.error.Some? && r.error.value.kind == RuntimeFailure
            && r.error.value.message == "error parsing body: " + final.TextForMessage()
            && r.error.value.cause == Some(BodyValue(final, config.parseJson).error)
            && r.completion == Abrupt(HttpFault(requestMethod, fullUrl, r.error.value))
  {
  }

  /** The run of the validation block on a response whose body node builds. */
  function RunOn(response: HttpResponse, validator: Validator, parse: JsonParse): BlockRun
    requires CreateBodyDataNode(response, parse).Normal?
  {
    validator(HeaderNode(response), CreateBodyDataNode(response, parse).value)
  }

  /** The block's own mismatches are recorded first, in the order it reported
      them; at most one status-code mismatch follows, and only for a code that
      differs from the method's default. The default check and the errors-only
      check never both report: a failing default check marks the status node,
      which makes the errors-only check compare nothing. */
  lemma RecordedOrder(requestMethod: string, response: HttpResponse, validator: Validator,
                      parse: JsonParse, handlersBelow: Flow)
    requires CreateBodyDataNode(response, parse).Normal?
    ensures var run := RunOn(response, validator, parse);
            var v := ValidationOf(requestMethod, response, validator, parse, handlersBelow);
            var expected := DefaultExpectedStatusCode(requestMethod, response.hasResponseContent);
            && |run.reported| <= |v.recorded| <= |run.reported| + 1
            && v.recorded[..|run.reported|] == run.reported
            && (|v.recorded| > |run.reported| ==>
                  response.statusCode != expected
                  && v.recorded[|run.reported|] == StatusCodeMismatch(response.statusCode, expected))
  {
  }

  /** Once the block has compared the status code, the default status checks
      add nothing: only the block's own mismatches are recorded, and its own
      outcome (the unwrapped return value or what it threw) stands. */
  lemma ExplicitStatusAssertion(requestMethod: string, response: HttpResponse, validator: Validator,
                                parse: JsonParse, handlersBelow: Flow)
    requires CreateBodyDataNode(response, parse).Normal?
    requires RunOn(response, validator, parse).assertedStatusCode
    ensures var run := RunOn(response, validator, parse);
            var v := ValidationOf(requestMethod, response, validator, parse, handlersBelow);
            && v.recorded == run.reported
            && v.completion == (match run.completion
                                case Normal(x) => Normal(ExtractOriginalValue(x))
                                case Abrupt(e) => Abrupt(e))
  {
  }

  /** A block that compares nothing and returns normally: a code equal to the
      method's default passes with no mismatch; any other code records exactly
      the status mismatch, raised as an assertion unless the handlers below
      terminate it. */
  lemma DefaultStatusCheck(requestMethod: string, response: HttpResponse, validator: Validator,
                           parse: JsonParse, handlersBelow: Flow, returned: Value)
    requires CreateBodyDataNode(response, parse).Normal?
    requires RunOn(response, validator, parse) == BlockRun([], false, Normal(returned))
    ensures var v := ValidationOf(requestMethod, response, validator, parse, handlersBelow);
            var expected := DefaultExpectedStatusCode(requestMethod, response.hasResponseContent);
            var message := StatusCodeMismatch(response.statusCode, expected);
            && (response.statusCode == expected ==>
                  v.recorded == [] && v.completion == Normal(ExtractOriginalValue(returned)))
            && (response.statusCode != expected ==>
                  v.recorded == [message]
                  && v.completion == (if handlersBelow == Terminate then Normal(ExtractOriginalValue(returned))
                                      else Abrupt(MismatchError(message))))
            && v.header.value.statusCode.checkLevel == CheckLevel.ExplicitAssert
  {
  }

  /** When the block throws, the errors-only status check decides the
      outcome: an unexamined non-2xx code is recorded and replaces (or, for a
      fault that is not an assertion, wraps) what was thrown; otherwise the
      thrown value stands. */
  lemma BlockFailure(requestMethod: string, response: HttpResponse, validator: Validator,
                     parse: JsonParse, handlersBelow: Flow, e: Throwable)
    requires CreateBodyDataNode(response, parse).Normal?
    requires RunOn(response, validator, parse).completion == Abrupt(e)
    ensures var run := RunOn(response, validator, parse);
            var v := ValidationOf(requestMethod, response, validator, parse, handlersBelow);
            var expected := DefaultExpectedStatusCode(requestMethod, response.hasResponseContent);
            var reports := !run.assertedStatusCode && !Is2xx(response.statusCode);
            && v.recorded == run.reported + (if reports then [StatusCodeMismatch(response.statusCode, expected)] else [])
            && (!reports ==> v.completion == Abrupt(e))
            && (reports && e.kind == AssertionFailure ==>
                  v.completion == Abrupt(MismatchError(StatusCodeMismatch(response.statusCode, expected))))
            && (reports && e.kind != AssertionFailure ==>
                  v.completion.error.kind == AssertionFailure && v.completion.error.cause == Some(e))
  {
  }

  /** The outcome of a call follows from what was recorded: a call succeeds
      only with no mismatch and no error; an error is recorded exactly when a
      fault other than an assertion ends the call, and the call then ends with
      that fault wrapped; any recorded mismatch makes the call fail. */
  lemma OutcomeMatchesRecord(requestMethod: string, fullUrl: string, fullHeader: HttpHeader,
                              httpCall: HttpCall, validator: Validator, config: HttpConfig)
    ensures var r := CallOf(requestMethod, fullUrl, fullHeader, httpCall, validator, config);
            && (r.completion.Normal? ==> r.mismatches == [] && r.error.None?)
            && (r.mismatches != [] ==> r.completion.Abrupt?)
            && (r.error.Some? <==> r.completion.Abrupt? && r.completion.error.kind != AssertionFailure)
            && (r.error.Some? ==> r.completion.error == HttpFault(requestMethod, fullUrl, r.error.value))
  {
  }

  /** The aggregated failure names every recorded mismatch. */
  lemma {:induction false} AggregatedFailureNamesEach(mismatches: seq<string>, k: nat)
    requires k < |mismatches|
    ensures AggregatedFailure(mismatches).kind == AssertionFailure
    ensures IsInfix(mismatches[k], AggregatedFailure(mismatches).message)
  {
    var rendered := RenderMismatches(mismatches);
    JoinContains(mismatches, "\n", k);
    var i, j :| 0 <= i <= j <= |rendered| && rendered[i..j] == mismatches[k];
    var message := AggregatedFailure(mismatches).message;
    assert message == "\n" + rendered;
    assert message[i + 1..j + 1] == rendered[i..j];
  }

  /** When validation returns normally, any recorded mismatch makes the whole
      call fail with one assertion naming each of them. */
  lemma {:induction false} RecordedMismatchesFailTheCall(requestMethod: string, fullUrl: string, fullHeader: HttpHeader,
                                                         httpCall: HttpCall, validator: Validator, config: HttpConfig, k: nat)
    requires var r := CallOf(requestMethod, fullUrl, fullHeader, httpCall, validator, config);
             && r.response.Some? && k < |r.mismatches|
             && ValidationOf(requestMethod, r.response.value, validator, config.parseJson, config.handlersBelow).completion.Normal?
    ensures var r := CallOf(requestMethod, fullUrl, fullHeader, httpCall, validator, config);
            && r.completion == Abrupt(AggregatedFailure(r.mismatches))
            && IsInfix(r.mismatches[k], r.completion.error.message)
  {
    var r := CallOf(requestMethod, fullUrl, fullHeader, httpCall, validator, config);
    AggregatedFailureNamesEach(r.mismatches, k);
  }
}
