/** Go's `map[string]string`: a reference value. Two variables holding the same map
    see each other's writes, and a nil map reads as empty. */
module GoMaps {

  class StringMap {
    var entries: map<string, string>

    /** `make(map[string]string)` */
    constructor ()
      ensures entries == map[]
    {
      entries := map[];
    }
  }

  /** What reading a possibly nil map sees. */
  function Entries(m: StringMap?): map<string, string>
    reads m
  {
    if m == null then map[] else m.entries
  }

  /** `kmeta.UnionMaps(left, right)`: a new map holding every key of both; a key of
      `right` takes its value from `right`. */
  function UnionMaps(left: map<string, string>, right: map<string, string>): (union: map<string, string>)
    ensures union.Keys == left.Keys + right.Keys
    ensures forall key :: key in right ==> union[key] == right[key]
    ensures forall key :: key in left && key !in right ==> union[key] == left[key]
  {
    left + right
  }
}
