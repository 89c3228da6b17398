/** Ruby's `Enumerable#detect`: the first element, in order, that satisfies a block. */
module Search {
  import opened Wrappers

  /** The index of the first element of `s` satisfying `p`, or nil when there is none. */
  function FirstIndex<T>(s: seq<T>, p: T -> bool): (r: Option<nat>)
    ensures r.None? <==> forall i :: 0 <= i < |s| ==> !p(s[i])
    ensures r.Some? ==> r.value < |s| && p(s[r.value])
    ensures r.Some? ==> forall j :: 0 <= j < r.value ==> !p(s[j])
  {
    if s == [] then None
    else if p(s[0]) then Some(0)
    else match FirstIndex(s[1..], p)
      case None => None
      case Some(i) => Some(i + 1)
  }

  /** Once an element satisfies `p`, what follows it is never consulted. */
  lemma {:induction false} FirstIndexIgnoresSuffix<T>(s: seq<T>, t: seq<T>, p: T -> bool)
    requires FirstIndex(s, p).Some?
    ensures FirstIndex(s + t, p) == FirstIndex(s, p)
  {
    var i := FirstIndex(s, p).value;
    assert (s + t)[i] == s[i];
    forall j | 0 <= j < i ensures !p((s + t)[j]) {
      assert (s + t)[j] == s[j];
    }
  }
}
