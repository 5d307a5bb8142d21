/** The re-entry pattern of the comparator's handler chain, restricted to the
    two extension handlers: compare(path, actual, expected) asks each handler
    whether it accepts (actual, expected); an accepting extension handler
    unwraps one layer and calls compare again; a value neither accepts goes
    to the default handlers. */
module ComparatorChain {
  import opened Data
  import opened EqualComparison
  import Live = LiveValueEqualHandler
  import Element = ElementValueEqualHandler

  /** The calls made to compare, starting from the given one, until the
      actual value reaches the default handlers. */
  function Trace(actualPath: ActualPath, actual: Value, expected: Value): (calls: seq<CompareCall>)
    ensures |calls| >= 1 && calls[0] == CompareCall(actualPath, actual, expected)
    decreases actual
  {
    [CompareCall(actualPath, actual, expected)] +
    if Live.Handle(actual, expected) then
      var call := Live.Redispatch(actualPath, actual, expected);
      Trace(call.path, call.actual, call.expected)
    else if Element.Handle(actual, expected) then
      var call := Element.Redispatch(actualPath, actual, expected);
      Trace(call.path, call.actual, call.expected)
    else
      []
  }

  /** At most one extension handler accepts a pair, so their order in the
      chain does not matter. */
  lemma HandlersExclusive(actual: Value, expected: Value)
    ensures !(Live.Handle(actual, expected) && Element.Handle(actual, expected))
  {
  }

  /** The number of live and element layers around a value. */
  function Depth(v: Value): nat
  {
    match v
    case Live(c) => 1 + Depth(c)
    case Element(_, c) => 1 + Depth(c)
    case _ => 0
  }

  /** The value under all live and element layers. */
  function Innermost(v: Value): Value
  {
    match v
    case Live(c) => Innermost(c)
    case Element(_, c) => Innermost(c)
    case _ => v
  }

  /** The names of the element layers, outermost first. */
  function ElementNames(v: Value): seq<string>
  {
    match v
    case Live(c) => ElementNames(c)
    case Element(n, c) => [n] + ElementNames(c)
    case _ => []
  }

  /** The path the default handlers report at: the innermost element's name
      when some element layer was unwrapped, the caller's path otherwise. */
  function LandingPath(actualPath: ActualPath, v: Value): ActualPath
  {
    var names := ElementNames(v);
    if names == [] then actualPath else CreateActualPath(names[|names| - 1])
  }

  /** Re-entry makes one call per wrapper layer plus the caller's own, never
      changes the expected value, and ends at the unwrapped value, at the path
      named by the innermost element (or the caller's path when there is
      none). */
  lemma {:induction false} TraceShape(actualPath: ActualPath, actual: Value, expected: Value)
    ensures var calls := Trace(actualPath, actual, expected);
            && |calls| == Depth(actual) + 1
            && (forall k :: 0 <= k < |calls| ==> calls[k].expected == expected)
            && calls[|calls| - 1].actual == Innermost(actual)
            && calls[|calls| - 1].path == LandingPath(actualPath, actual)
    decreases actual
  {
    match actual
    case Live(c) =>
      TraceShape(actualPath, c, expected);
    case Element(n, c) =>
      TraceShape(CreateActualPath(n), c, expected);
      var names := ElementNames(c);
      assert ElementNames(actual) == [n] + names;
      assert names != [] ==> ElementNames(actual)[|ElementNames(actual)| - 1] == names[|names| - 1];
    case _ =>
  }

  /** The last call goes to the default handlers: neither extension handler
      accepts it. */
  lemma {:induction false} TraceEndsAtDefaults(actualPath: ActualPath, actual: Value, expected: Value)
    ensures var calls := Trace(actualPath, actual, expected);
            var last := calls[|calls| - 1];
            !Live.Handle(last.actual, last.expected) && !Element.Handle(last.actual, last.expected)
    decreases actual
  {
    match actual
    case Live(c) =>
      TraceEndsAtDefaults(actualPath, c, expected);
    case Element(n, c) =>
      TraceEndsAtDefaults(CreateActualPath(n), c, expected);
    case _ =>
  }

  /** Unwrapping live values alone never moves the reported path. */
  lemma {:induction false} LiveKeepsPath(actualPath: ActualPath, actual: Value, expected: Value)
    requires ElementNames(actual) == []
    ensures forall k :: 0 <= k < |Trace(actualPath, actual, expected)| ==>
              Trace(actualPath, actual, expected)[k].path == actualPath
    decreases actual
  {
    match actual
    case Live(c) =>
      LiveKeepsPath(actualPath, c, expected);
    case Element(n, c) =>
      assert false;
    case _ =>
  }
}
