/** The equality comparator as seen by its extension handlers: a recorder of
    the `compare(actualPath, actual, expected)` calls made to it. Its own
    handler dispatch is given as a specification in ComparatorChain. */
module EqualComparison {
  import opened Data

  /** An ActualPath: the segments naming a location inside the actual value. */
  datatype ActualPath = ActualPath(segments: seq<string>)

  /** Ddjt.createActualPath(name): a root path holding one segment. */
  function CreateActualPath(name: string): ActualPath
  {
    ActualPath([name])
  }

  /** One call to EqualComparator.compare. */
  datatype CompareCall = CompareCall(path: ActualPath, actual: Value, expected: Value)

  class EqualComparator {
    var calls: seq<CompareCall>

    constructor()
      ensures calls == []
    {
      calls := [];
    }

    method Compare(actualPath: ActualPath, actual: Value, expected: Value)
      modifies this
      ensures calls == old(calls) + [CompareCall(actualPath, actual, expected)]
    {
      calls := calls + [CompareCall(actualPath, actual, expected)];
    }
  }
}
