/** Lists of lists. */
module Sequences {

  /** The lists one after the other. */
  function Concat<T>(parts: seq<seq<T>>): seq<T> {
    if parts == [] then [] else Concat(parts[..|parts| - 1]) + parts[|parts| - 1]
  }

  lemma ConcatNext<T>(parts: seq<seq<T>>, part: seq<T>)
    ensures Concat(parts + [part]) == Concat(parts) + part
  {
    assert (parts + [part])[..|parts|] == parts;
  }

  /** More at the end of the last list is more at the end of the whole. */
  lemma ConcatGrow<T>(parts: seq<seq<T>>, more: seq<T>)
    requires |parts| > 0
    ensures Concat(parts[|parts| - 1 := parts[|parts| - 1] + more]) == Concat(parts) + more
  {
    var n := |parts| - 1;
    assert parts[n := parts[n] + more][..n] == parts[..n];
  }
}
