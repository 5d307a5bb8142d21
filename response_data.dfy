/** The data nodes Http builds from a response (the header node with its
    status code, the body node by content classification) and the unwrapping
    of the value a validation block returns. */
module ResponseData {
  import opened Common
  import opened Data
  import opened HttpTypes

  /** The header node; the pipeline reads only its status-code scalar. */
  datatype HeaderDataNode = HeaderDataNode(statusCode: TraceableValue)

  function HeaderNode(response: HttpResponse): HeaderDataNode
  {
    HeaderDataNode(TraceableValue(Int(response.statusCode), CheckLevel.None))
  }

  /** The status-code scalar after a comparison touched it. */
  function MarkStatusCodeChecked(h: HeaderDataNode): (r: HeaderDataNode)
    ensures r.statusCode.value == h.statusCode.value
    ensures r.statusCode.checkLevel == CheckLevel.ExplicitAssert
  {
    HeaderDataNode(h.statusCode.(checkLevel := CheckLevel.ExplicitAssert))
  }

  const BodyId: DataNodeId := [Field("body")]

  /** JsonUtils.deserialize: the parsed value, or the JsonParseException it
      throws when the text is not JSON. */
  type JsonParse = Option<string> -> Completion<Value>

  /** The raw value Http.createBodyDataNode wraps for a response, or the parse
      exception when the response declares JSON that does not parse. The tests
      are applied in the source's order: empty non-binary content, text, JSON,
      binary. */
  function BodyValue(response: HttpResponse, parse: JsonParse): Completion<Value>
  {
    if !response.isBinary && response.NullOrEmptyTextContent() then Normal(Null)
    else if response.isText then Normal(if response.textContent.None? then Null else Str(response.textContent.value))
    else if response.isJson then parse(response.textContent)
    else Normal(Bytes(response.binaryContent))
  }

  /** Http.createBodyDataNode. A JSON body that fails to parse becomes a
      RuntimeException naming the body text and caused by the parse
      exception. */
  function CreateBodyDataNode(response: HttpResponse, parse: JsonParse): (r: Completion<DataNode>)
    ensures r.Abrupt? <==> BodyValue(response, parse).Abrupt?
    ensures r.Abrupt? ==> response.isJson && r.error.kind == RuntimeFailure
                          && r.error.message == "error parsing body: " + response.TextForMessage()
                          && r.error.cause == Some(BodyValue(response, parse).error)
    ensures r.Normal? ==> r.value.id == BodyId && Unchecked(r.value)
                          && Get(r.value) == BodyValue(response, parse).value
  {
    var id := BodyId;
    if !response.isBinary && response.NullOrEmptyTextContent() then
      Normal(Scalar(id, TraceableValue(Null, CheckLevel.None)))
    else if response.isText then
      Normal(Scalar(id, TraceableValue(if response.textContent.None? then Null else Str(response.textContent.value), CheckLevel.None)))
    else if response.isJson then
      match parse(response.textContent)
      case Normal(parsed) =>
        GetFromValue(id, parsed);
        FromValueUnchecked(id, parsed);
        Normal(FromValue(id, parsed))
      case Abrupt(parseError) =>
        Abrupt(Throwable(RuntimeFailure, "error parsing body: " + response.TextForMessage(), Some(parseError)))
    else
      Normal(Scalar(id, TraceableValue(Bytes(response.binaryContent), CheckLevel.None)))
  }

  /** Http.extractOriginalValue: a data node becomes its `get()`, a traceable
      value its value, a list is unwrapped element by element; anything else
      (a map, even one holding nodes, or a live value) is returned as it is. */
  function ExtractOriginalValue(v: Value): (r: Value)
    ensures v.Node? ==> r == Get(v.node)
    ensures v.Traceable? ==> r == v.tv.value
    ensures v.ListOf? ==> r.ListOf? && |r.items| == |v.items|
    ensures !(v.Node? || v.Traceable? || v.ListOf?) ==> r == v
    ensures Plain(v) ==> r == v
  {
    match v
    case Node(n) => Get(n)
    case Traceable(tv) => tv.value
    case ListOf(items) => ListOf(seq(|items|, i requires 0 <= i < |items| => ExtractOriginalValue(items[i])))
    case _ => v
  }

  /** Values whose wrappers ExtractOriginalValue strips completely: raw data,
      data nodes and traceable values over raw data, and lists of those. */
  predicate Unwrappable(v: Value)
  {
    match v
    case Node(n) => PlainNode(n)
    case Traceable(tv) => Plain(tv.value)
    case ListOf(items) => forall i :: 0 <= i < |items| ==> Unwrappable(items[i])
    case _ => Plain(v)
  }

  /** Unwrapping yields raw data, so unwrapping again changes nothing. */
  lemma {:induction false} ExtractYieldsPlain(v: Value)
    requires Unwrappable(v)
    ensures Plain(ExtractOriginalValue(v))
    ensures ExtractOriginalValue(ExtractOriginalValue(v)) == ExtractOriginalValue(v)
  {
    match v
    case Node(n) => GetPlain(n);
    case Traceable(_) =>
    case ListOf(items) =>
      var r := ExtractOriginalValue(v);
      forall i | 0 <= i < |items|
        ensures Plain(r.items[i])
      {
        ExtractYieldsPlain(items[i]);
      }
    case _ =>
  }

  /** A list is unwrapped in place: same length, same order. */
  lemma ExtractListElementwise(items: seq<Value>, k: nat)
    requires k < |items|
    ensures ExtractOriginalValue(ListOf(items)).items[k] == ExtractOriginalValue(items[k])
  {
  }

  /** A node read out of a JSON body comes back as the raw value it was built
      from (`body.get("price")` returns an Integer). */
  lemma ExtractBuiltNode(id: DataNodeId, parsed: Value)
    ensures ExtractOriginalValue(Node(FromValue(id, parsed))) == parsed
  {
    GetFromValue(id, parsed);
  }
}
