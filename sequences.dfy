/**
 * Array helpers the pages rely on: order-preserving sublists (what
 * `filter` returns) and the first element that satisfies a test (what
 * `find` returns).
 */
module Sequences {
  import opened Wrappers

  /** `r` is `s` with some elements left out, the rest in their order. */
  predicate IsSublist<T(==)>(r: seq<T>, s: seq<T>) {
    if r == [] then true
    else if s == [] then false
    else (r[0] == s[0] && IsSublist(r[1..], s[1..])) || IsSublist(r, s[1..])
  }

  /** A sublist of a tail is a sublist of the whole. */
  lemma SublistOfTail<T>(r: seq<T>, s: seq<T>)
    requires s != [] && IsSublist(r, s[1..])
    ensures IsSublist(r, s)
  {
  }

  /** `s.find(p)`, as a position: the first element that passes the test,
      or none when no element does. */
  function FirstWhere<T>(s: seq<T>, p: T -> bool): (r: Option<nat>)
    ensures r.Some? ==> r.value < |s| && p(s[r.value])
    ensures r.Some? ==> forall j :: 0 <= j < r.value ==> !p(s[j])
    ensures r.None? ==> forall j :: 0 <= j < |s| ==> !p(s[j])
  {
    if s == [] then None
    else if p(s[0]) then Some(0)
    else match FirstWhere(s[1..], p)
      case None => None
      case Some(k) => Some(k + 1)
  }
}
