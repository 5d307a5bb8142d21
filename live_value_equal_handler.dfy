/** LiveValueEqualHandler: compares a live value by comparing what it yields
    now, at the same path. */
module LiveValueEqualHandler {
  import opened Data
  import opened EqualComparison

  /** handle(actual, expected): accepts live values, whatever is expected. */
  predicate Handle(actual: Value, expected: Value)
  {
    actual.Live?
  }

  /** The one call compare(...) makes back into the comparator. */
  function Redispatch(actualPath: ActualPath, actual: Value, expected: Value): (call: CompareCall)
    requires Handle(actual, expected)
    ensures call.path == actualPath
    ensures call.expected == expected
    ensures call.actual == actual.current && call.actual < actual
  {
    CompareCall(actualPath, actual.current, expected)
  }

  method Compare(comparator: EqualComparator, actualPath: ActualPath, actual: Value, expected: Value)
    requires Handle(actual, expected)
    modifies comparator
    ensures comparator.calls == old(comparator.calls) + [Redispatch(actualPath, actual, expected)]
  {
    var actualLiveValue := actual;
    comparator.Compare(actualPath, actualLiveValue.current, expected);
  }

  /** The handler's answer does not depend on the expected value. */
  lemma HandleIgnoresExpected(actual: Value, expected1: Value, expected2: Value)
    ensures Handle(actual, expected1) == Handle(actual, expected2)
    ensures Handle(actual, expected1) <==> exists v :: actual == Live(v)
  {
    if actual.Live? {
      assert actual == Live(actual.current);
    }
  }
}
