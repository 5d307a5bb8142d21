/** ElementValueEqualHandler: compares a page element's value by comparing
    what the element yields now, at a path named after the element. */
module ElementValueEqualHandler {
  import opened Data
  import opened EqualComparison

  /** handle(actual, expected): accepts element values, whatever is expected. */
  predicate Handle(actual: Value, expected: Value)
  {
    actual.Element?
  }

  /** The one call compare(...) makes back into the comparator: the incoming
      path is dropped for one built from the element's name. */
  function Redispatch(actualPath: ActualPath, actual: Value, expected: Value): (call: CompareCall)
    requires Handle(actual, expected)
    ensures call.path == CreateActualPath(actual.name)
    ensures call.expected == expected
    ensures call.actual == actual.current && call.actual < actual
  {
    CompareCall(CreateActualPath(actual.name), actual.current, expected)
  }

  method Compare(comparator: EqualComparator, actualPath: ActualPath, actual: Value, expected: Value)
    requires Handle(actual, expected)
    modifies comparator
    ensures comparator.calls == old(comparator.calls) + [Redispatch(actualPath, actual, expected)]
  {
    var actualElementValue := actual;
    var actualValue := actualElementValue.current;
    comparator.Compare(CreateActualPath(actualElementValue.name), actualValue, expected);
  }

  /** The handler's answer does not depend on the expected value, and the
      re-dispatched path does not depend on the incoming one. */
  lemma HandleIgnoresExpected(actual: Value, expected1: Value, expected2: Value, path1: ActualPath, path2: ActualPath)
    ensures Handle(actual, expected1) == Handle(actual, expected2)
    ensures Handle(actual, expected1) <==> exists n, v :: actual == Element(n, v)
    ensures Handle(actual, expected1) ==>
              Redispatch(path1, actual, expected1).path == Redispatch(path2, actual, expected2).path
  {
    if actual.Element? {
      assert actual == Element(actual.name, actual.current);
    }
  }
}
