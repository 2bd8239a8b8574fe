/** `Collection.subscript(safe:)`: a lookup that answers nil instead of trapping out of range. */
module CollectionExtensions {
  import opened Wrappers

  /**
    A Swift collection with integer positions. Its `indices` are the half-open range
    `startIndex ..< startIndex + |elements|`: 0-based for an `Array`, the parent's positions
    for an `ArraySlice` or a slice of `Data`.
  */
  datatype IndexedCollection<T> = IndexedCollection(startIndex: int, elements: seq<T>) {

    function EndIndex(): int {
      startIndex + |elements|
    }

    /** `indices.contains(index)`. */
    predicate IndicesContain(index: int) {
      startIndex <= index < EndIndex()
    }

    /** `self[index]`, which traps outside `indices`. */
    function At(index: int): T
      requires IndicesContain(index)
    {
      elements[index - startIndex]
    }
  }

  function ArrayOf<T>(s: seq<T>): IndexedCollection<T> {
    IndexedCollection(0, s)
  }

  /** `c[safe: index]`. */
  function SafeSubscript<T>(c: IndexedCollection<T>, index: int): (r: Option<T>)
    ensures r.Some? <==> c.IndicesContain(index)
    ensures r.Some? ==> r.value == c.At(index)
  {
    if c.IndicesContain(index) then Some(c.At(index)) else None
  }

  /** On an array, the safe subscript agrees with indexing in range and is nil outside it. */
  lemma SafeSubscriptOnArray<T>(s: seq<T>, index: int)
    ensures 0 <= index < |s| ==> SafeSubscript(ArrayOf(s), index) == Some(s[index])
    ensures (index < 0 || |s| <= index) ==> SafeSubscript(ArrayOf(s), index) == None
  {
  }

  /** An empty collection answers nil at every index. */
  lemma SafeSubscriptOnEmpty<T>(c: IndexedCollection<T>, index: int)
    requires |c.elements| == 0
    ensures SafeSubscript(c, index) == None
  {
  }

  /** Whatever the safe subscript returns is an element of the collection, found where it stands. */
  lemma SafeSubscriptFindsElement<T>(c: IndexedCollection<T>, index: int)
    requires SafeSubscript(c, index).Some?
    ensures SafeSubscript(c, index).value in c.elements
    ensures c.elements[index - c.startIndex] == SafeSubscript(c, index).value
  {
  }

  /** Every element can be reached: reading all indices in order gives back the elements. */
  lemma SafeSubscriptCoversElements<T>(c: IndexedCollection<T>)
    ensures seq(|c.elements|, k requires 0 <= k < |c.elements| =>
                  SafeSubscript(c, c.startIndex + k).value) == c.elements
  {
    var read := seq(|c.elements|, k requires 0 <= k < |c.elements| =>
                      SafeSubscript(c, c.startIndex + k).value);
    forall k | 0 <= k < |read|
      ensures read[k] == c.elements[k]
    {
      assert c.IndicesContain(c.startIndex + k);
      assert read[k] == SafeSubscript(c, c.startIndex + k).value == c.At(c.startIndex + k);
    }
  }
}
