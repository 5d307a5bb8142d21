# webtau HTTP validation pipeline and comparator re-entry handlers, in Dafny

This project models the core of webtau's HTTP testing entry point, `Http`:

- **One request cycle.** `executeAndValidateHttpCall` resolves the full URL and header, then creates an `HttpValidationResult`. The call supplier runs the transport and follows redirects up to `maxRedirects`. `validateAndRecord` builds the header and body data nodes, then runs the user's validation block and the default status-code check. Both run under an expectation handler that records every mismatch. If the block throws, an errors-only status check decides what is thrown instead. The recorded mismatches then become one `AssertionError`. An `AssertionError` from any step, the transport included, escapes as it is. Any other fault is recorded and wrapped in an `HttpException`. The result always ends up in the last-validation-result slot.
- **Comparator re-entry.** It also models the two equality-comparator extension handlers that unwrap a value and re-enter the comparator. `LiveValueEqualHandler` compares what a live value yields now, at the same path. `ElementValueEqualHandler` compares what a page element yields, at a path named after the element.

Modules:

- `Common`: `Option`, `Join`, `IsInfix`, the decimal rendering of integers that string concatenation performs, and the `toLowerCase()` applied to the request method in the HTTP fault's message.
- `Data`: the values the pipeline sees (`Value`), `TraceableValue` with its `CheckLevel`, the `DataNode` tree, `DataNode.get()` and `DataNodeBuilder.fromValue`.
- `HttpTypes`: header, request body, response, throwables, and `Completion<T>` (a Java call either returns or throws). The transport is `HttpCall`.
- `Redirects`: `followRedirects`. It is a `while` loop proved against the recursive hop function `Followed`.
- `StatusPolicy`: the default expected code, the default and errors-only status checks, and the throwable that the catch block of `validateAndRecord` synthesizes.
- `ResponseData`: the header node, `createBodyDataNode` and `extractOriginalValue`.
- `EqualComparison`, `LiveValueEqualHandler`, `ElementValueEqualHandler`, `ComparatorChain`: the two handlers as methods on a comparator object that records the `compare` calls made to it. The chain of re-entries they cause is given as a function and lemmas.
- `HttpPipeline`:
  - `HttpValidationResult` and `Http` are classes whose methods update their fields.
  - `validateAndRecord` and the call supplier are methods. Each is proved against a specification function: `ValidationOf` for the first, `CallOf` for the second.
- `PipelineProperties`: lemmas about `ValidationOf` and `CallOf`.

Modelling choices:

- **Validation block.** It is a function of the header and body nodes. It returns a `BlockRun`, which holds three things:
  - the mismatch messages the block handed to the expectation handlers, in order;
  - whether it compared the status-code node, which moves that node to `ExplicitAssert`;
  - how it ended.
- **Handlers below the recording handler.** Their answer to a mismatch passed on to them is a parameter (`HttpConfig.handlersBelow`). When nobody answers `Terminate`, `should` raises `AssertionError("\n" + message)`.
- **Redirected response.** The response that ends the redirect loop is validated as it is. If the loop stopped at `maxRedirects` on a 3xx, that 3xx goes through the default status check like any other code.
- **When the block throws and the errors-only check fails.**
  - An `AssertionError` from the block is replaced by the status-code assertion.
  - Any other throwable becomes an assertion whose message starts with the status mismatch and ends with the original message. The original throwable is its cause.

  This is what `Http.java:559-571` does: the status-code mismatch message always comes first, and an original `AssertionError` is dropped.
- **Default status check failure.** When the default check in the `try` block fails and raises, it marks the status node. The errors-only check in the `catch` block therefore compares nothing, and the status assertion propagates (`PipelineProperties.RecordedOrder`).

## Model

| member | source | states |
|---|---|---|
| Redirects.FollowRedirects | webtau-http/src/main/java/com/twosigma/webtau/http/Http.java:507-514 | the loop returns the response and hop list of the hop recursion; with no redirect or following off it makes no call and returns the response; it makes at most max(maxRedirects, 0) hops |
| Redirects.HopsBounded | webtau-http/src/main/java/com/twosigma/webtau/http/Http.java:507-514 | from hop count n at most max(maxRedirects - n, 0) further hops are made |
| Redirects.EndlessRedirectsStopAtMax | webtau-http/src/main/java/com/twosigma/webtau/http/Http.java:507-514 | when every answer is a redirect, exactly max(maxRedirects, 0) hops are made and the last fetched redirect is returned without error |
| Redirects.HopTargets | webtau-http/src/main/java/com/twosigma/webtau/http/Http.java:507-523 | every hop reuses the full request header; the first goes to the response's Location, each next one to the Location of the previous answer; the loop hands on the answer of its last hop |
| Redirects.StopReason | webtau-http/src/main/java/com/twosigma/webtau/http/Http.java:509 | a loop that ends normally ends on a non-redirect, with following off, or with the hop budget spent |
| StatusPolicy.DefaultExpectedStatusCode | webtau-http/src/main/java/com/twosigma/webtau/http/Http.java:629-641 | the default code is 2xx; 201 exactly for POST; 204 exactly for PUT/DELETE without content; 200 otherwise |
| StatusPolicy.ValidateStatusCode | webtau-http/src/main/java/com/twosigma/webtau/http/Http.java:606-613 | nothing is compared exactly when the node was examined; it fails exactly for an unexamined code different from the expected one, with the status mismatch message |
| StatusPolicy.ValidateErrorsOnlyStatusCode | webtau-http/src/main/java/com/twosigma/webtau/http/Http.java:615-627 | nothing is compared exactly when the node was examined or the code is 2xx; it fails exactly for an unexamined non-2xx code different from the expected one |
| StatusPolicy.ErrorsOnlyAgainstDefault | webtau-http/src/main/java/com/twosigma/webtau/http/Http.java:615-641 | against the method's default code the errors-only check never passes a code it compares, fails exactly on unexamined non-2xx codes, and then agrees with the default check |
| StatusPolicy.SynthesizeFailure | webtau-http/src/main/java/com/twosigma/webtau/http/Http.java:558-577 | without a status failure the original throwable is rethrown; with one the result is an assertion: the status assertion alone for an original assertion, otherwise one caused by the original |
| StatusPolicy.SynthesizedKeepsOriginal | webtau-http/src/main/java/com/twosigma/webtau/http/Http.java:568-571 | the combined message starts with the status mismatch and ends with the original message |
| Data.FromValue | webtau-http/src/main/java/com/twosigma/webtau/http/Http.java:596-598 | a node built from a value carries the id it was built at |
| Data.GetFromValue | webtau-http/src/main/java/com/twosigma/webtau/http/Http.java:596-598 | reading back a node built from a value gives that value |
| Data.FromValueUnchecked | webtau-http/src/main/java/com/twosigma/webtau/http/Http.java:596-598 | a freshly built body tree has no examined scalar |
| Data.GetPlain | webtau-http/src/main/java/com/twosigma/webtau/http/Http.java:733-735 | reading a tree of raw scalars gives raw data |
| ResponseData.MarkStatusCodeChecked | webtau-http/src/main/java/com/twosigma/webtau/http/Http.java:606-627 | a comparison keeps the status value and leaves the node ExplicitAssert |
| ResponseData.CreateBodyDataNode | webtau-http/src/main/java/com/twosigma/webtau/http/Http.java:583-604 | it fails exactly when a JSON body does not parse, with a RuntimeException naming the body text and caused by the parse exception; otherwise the node has id "body", is unexamined and reads back the classified body value |
| ResponseData.ExtractOriginalValue | webtau-http/src/main/java/com/twosigma/webtau/http/Http.java:732-747 | a data node becomes its get(), a traceable value its value, a list a list of the same length; anything else (a map, a live value, raw data) is returned unchanged |
| ResponseData.ExtractYieldsPlain | webtau-http/src/main/java/com/twosigma/webtau/http/Http.java:732-747 | unwrapping nodes, traceable values and lists of them yields raw data, so unwrapping is idempotent on them |
| ResponseData.ExtractListElementwise | webtau-http/src/main/java/com/twosigma/webtau/http/Http.java:741-743 | a list is unwrapped element by element, in order |
| ResponseData.ExtractBuiltNode | webtau-http/src/main/java/com/twosigma/webtau/http/Http.java:733-735 | a body node returned from the block comes back as the raw value it was built from |
| EqualComparison.EqualComparator.constructor | webtau-core/src/main/java/com/twosigma/webtau/expectation/equality/handlers/LiveValueEqualHandler.java:31-34 | a new comparator has received no call |
| EqualComparison.EqualComparator.Compare | webtau-core/src/main/java/com/twosigma/webtau/expectation/equality/handlers/LiveValueEqualHandler.java:33 | each compare call is appended to the calls received, nothing else changes |
| LiveValueEqualHandler.Redispatch | webtau-core/src/main/java/com/twosigma/webtau/expectation/equality/handlers/LiveValueEqualHandler.java:31-34 | the re-entry keeps the path and the expected value and compares the live value's current value, which is smaller than the live value |
| LiveValueEqualHandler.Compare | webtau-core/src/main/java/com/twosigma/webtau/expectation/equality/handlers/LiveValueEqualHandler.java:31-34 | compare makes exactly one call back into the comparator, the re-entry |
| LiveValueEqualHandler.HandleIgnoresExpected | webtau-core/src/main/java/com/twosigma/webtau/expectation/equality/handlers/LiveValueEqualHandler.java:26-28 | the handler accepts exactly live values, whatever is expected |
| ElementValueEqualHandler.Redispatch | webtau/src/main/java/com/twosigma/webtau/expectation/ElementValueEqualHandler.java:32-37 | the re-entry drops the incoming path for one named after the element, keeps the expected value and compares the element's current value |
| ElementValueEqualHandler.Compare | webtau/src/main/java/com/twosigma/webtau/expectation/ElementValueEqualHandler.java:32-37 | compare makes exactly one call back into the comparator, the re-entry |
| ElementValueEqualHandler.HandleIgnoresExpected | webtau/src/main/java/com/twosigma/webtau/expectation/ElementValueEqualHandler.java:27-37 | the handler accepts exactly element values, whatever is expected, and the re-entry path does not depend on the incoming path |
| ComparatorChain.Trace | webtau/src/main/java/com/twosigma/webtau/expectation/ElementValueEqualHandler.java:32-37 | the chain of compare calls starts with the caller's call |
| ComparatorChain.HandlersExclusive | webtau-core/src/main/java/com/twosigma/webtau/expectation/equality/handlers/LiveValueEqualHandler.java:26-28 | in the model, where live values and element values are distinct kinds of value, no value is accepted by both handlers, so their order does not matter |
| ComparatorChain.TraceShape | webtau-core/src/main/java/com/twosigma/webtau/expectation/equality/handlers/LiveValueEqualHandler.java:31-34 | re-entry makes one call per wrapper layer plus the caller's, never changes the expected value, ends at the unwrapped value at the innermost element's path (or the caller's) |
| ComparatorChain.TraceEndsAtDefaults | webtau/src/main/java/com/twosigma/webtau/expectation/ElementValueEqualHandler.java:27-29 | in the model, where a wrapper's current value is a smaller value, re-entry always ends at a value neither handler accepts |
| ComparatorChain.LiveKeepsPath | webtau-core/src/main/java/com/twosigma/webtau/expectation/equality/handlers/LiveValueEqualHandler.java:33 | with no element layer every call in the chain is at the caller's path |
| HttpPipeline.HttpValidationResult.constructor | webtau-http/src/main/java/com/twosigma/webtau/http/Http.java:460 | a new result holds the request method, URL, full URL, full header and body and has recorded nothing |
| HttpPipeline.HttpValidationResult.SetResponse | webtau-http/src/main/java/com/twosigma/webtau/http/Http.java:485 | stores the final response, nothing else changes |
| HttpPipeline.HttpValidationResult.SetResponseNodes | webtau-http/src/main/java/com/twosigma/webtau/http/Http.java:532-533 | stores the header and body nodes, nothing else changes |
| HttpPipeline.HttpValidationResult.MarkStatusCode | webtau-http/src/main/java/com/twosigma/webtau/http/Http.java:612 | a status comparison leaves the stored status node ExplicitAssert |
| HttpPipeline.HttpValidationResult.AddMismatch | webtau-http/src/main/java/com/twosigma/webtau/http/Http.java:536 | appends one mismatch message, nothing else changes |
| HttpPipeline.HttpValidationResult.SetErrorMessage | webtau-http/src/main/java/com/twosigma/webtau/http/Http.java:497 | records the fault, nothing else changes |
| HttpPipeline.HttpValidationResult.HasMismatches | webtau-http/src/main/java/com/twosigma/webtau/http/Http.java:489 | true exactly when some mismatch was recorded |
| HttpPipeline.RecordAndPass | webtau-http/src/main/java/com/twosigma/webtau/http/Http.java:535-538 | the recording handler appends the message and passes the mismatch on |
| HttpPipeline.ValidateAndRecord | webtau-http/src/main/java/com/twosigma/webtau/http/Http.java:526-581 | the nodes stored, the mismatches appended and the outcome are those of the try/catch specification ValidationOf; nothing is stored when the body cannot be built |
| HttpPipeline.CatchFault | webtau-http/src/main/java/com/twosigma/webtau/http/Http.java:494-499 | an AssertionError is rethrown as it is with nothing recorded; any other throwable is recorded as the error and rethrown wrapped in the HTTP fault |
| HttpPipeline.HttpCallSupplier | webtau-http/src/main/java/com/twosigma/webtau/http/Http.java:474-500 | the calls made, the response, nodes, mismatches and error stored and the outcome are those of CallOf, where transport, redirects and validation share one try block |
| HttpPipeline.Http.constructor | webtau-http/src/main/java/com/twosigma/webtau/http/Http.java:75 | no call has left a result yet |
| HttpPipeline.Http.GetLastValidationResult | webtau-http/src/main/java/com/twosigma/webtau/http/Http.java:433-435 | returns the result the latest call left |
| HttpPipeline.Http.ExecuteAndValidateHttpCall | webtau-http/src/main/java/com/twosigma/webtau/http/Http.java:453-469 | a new result for the resolved URL and header is left in the last-result slot however the call ends, holding the state CallOf describes, and the call ends as CallOf says |
| PipelineProperties.TransportCalls | webtau-http/src/main/java/com/twosigma/webtau/http/Http.java:477-479 | the first call goes to the full URL; every call carries the full header; at most 1 + max(maxRedirects, 0) calls are made |
| PipelineProperties.TransportFailure | webtau-http/src/main/java/com/twosigma/webtau/http/Http.java:476-499 | a transport fault on any hop stores no response and no nodes; an AssertionError escapes unrecorded and unwrapped, any other fault is recorded as the error and ends the call as the HTTP fault wrapping it |
| PipelineProperties.BodyParseFailure | webtau-http/src/main/java/com/twosigma/webtau/http/Http.java:526-534 | a JSON body that does not parse stops the call before validation: no nodes, no mismatch, the parse error (caused by the parse exception) recorded and wrapped |
| PipelineProperties.RecordedOrder | webtau-http/src/main/java/com/twosigma/webtau/http/Http.java:544-577 | the block's mismatches are recorded first, in order; at most one status mismatch follows, only for a code other than the default |
| PipelineProperties.ExplicitStatusAssertion | webtau-http/src/main/java/com/twosigma/webtau/http/Http.java:606-627 | after the block compared the status code, no status mismatch is added and the block's own outcome stands |
| PipelineProperties.DefaultStatusCheck | webtau-http/src/main/java/com/twosigma/webtau/http/Http.java:550-557 | for a block that checks nothing: the default code gives no mismatch and the unwrapped value; another code gives exactly the status mismatch, raised unless the handlers below terminate |
| PipelineProperties.BlockFailure | webtau-http/src/main/java/com/twosigma/webtau/http/Http.java:558-577 | when the block throws, an unexamined non-2xx code is recorded and replaces an assertion or wraps any other fault; otherwise the thrown value stands |
| PipelineProperties.OutcomeMatchesRecord | webtau-http/src/main/java/com/twosigma/webtau/http/Http.java:487-499 | a call succeeds only with no mismatch and no error; an error is recorded exactly when a non-assertion fault ends the call, which then ends with that fault wrapped; any mismatch makes the call fail |
| PipelineProperties.AggregatedFailureNamesEach | webtau-http/src/main/java/com/twosigma/webtau/http/Http.java:489-491 | the aggregated failure is an assertion whose message contains every recorded mismatch |
| PipelineProperties.RecordedMismatchesFailTheCall | webtau-http/src/main/java/com/twosigma/webtau/http/Http.java:487-493 | when validation returns normally, recorded mismatches end the call with the aggregated failure, which names each of them |

## Left out

- The transport and request building (`Http.java:657-722`, `request`, multipart and body encodings) are not modelled. The transport is the function value `HttpCall`: a fault is an abrupt completion and a response is a record.
- The null-header check in `request` is left out, because the model has no null header.
- `renderResponse` (`Http.java:643-655`) and the step reporting (`TestStep` messages, `step.addPayload`, start and elapsed time) are left out. They only print or time.
- The 70-odd public `get`/`post`/`put`/`delete` overloads are not modelled. They only pick a method string, attach query parameters and choose a body before reaching `executeAndValidateHttpCall`.
- HttpPipeline.ValidateAndRecord: `HttpValidationHandlers.validate` (`Http.java:555`) runs user-registered handlers outside this model. The model treats it as doing nothing.
- HttpPipeline.Http: the per-thread `ThreadLocal` slot is a plain field of the `Http` object, so concurrent pipelines on different threads are not modelled.
- `HttpResponse`, `HttpValidationResult`, `ExpectationHandlers`, `DataNodeBuilder`, `StackTraceUtils` and `EqualComparator` are not part of this model beyond what the core calls on them. Specifically:
  - The response's classification predicates are record fields.
  - `fullCauseMessage(e)` is kept as the throwable `e` itself.
  - The comparator's own handler dispatch is the function `ComparatorChain.Trace`.
  - `renderMismatches` is taken to join the messages with line breaks.
- StatusPolicy.StatusCodeMismatch: the comparator's mismatch wording is assumed. Only its dependence on the actual and expected code is relied on.
- ResponseData.CreateBodyDataNode: JSON deserialization is the parameter `JsonParse`. An abrupt completion stands for a `JsonParseException`; other exceptions of the deserializer are not modelled.
- Data.FromValue: the node tree keeps the mapping and list structure of `DataNodeBuilder` but not its other node kinds.
- Common.Lower: `toLowerCase` is modelled for ASCII letters only, which covers HTTP method names.
- ComparatorChain: two modelling assumptions make `TraceEndsAtDefaults` and `HandlersExclusive` hold. First, `LiveValue.get()` and `ElementValue.get()` are calls into foreign objects; the model stores their result as a structurally smaller value, so a `get()` that keeps yielding another live value (re-entering until the stack overflows) is not modelled. Second, live values and element values are distinct constructors, so a class that is both, where handler order would decide, is not modelled.
- HttpPipeline.ValidateAndRecord: the stored body node does not reflect the validation block's comparisons. Neither do header fields other than the status code. In the source the block examines the same node objects that are stored, so every scalar it compares is `ExplicitAssert` in the stored tree afterwards. The model tracks only the status-code node's check level (`BlockRun.assertedStatusCode`) and stores the body tree as it was built. No pipeline decision reads the other check levels; only response rendering, which is left out, does.
- HttpPipeline.BlockRun: the validation block is abstract. It may report any sequence of mismatches and end in any way, so the model also allows behaviour that a concrete block under a given handler chain cannot show.
