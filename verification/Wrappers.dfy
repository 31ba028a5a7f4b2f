module Wrappers {
  datatype Option<+T> = None | Some(value: T)

  /** Every element converted, in order, or nothing. */
  function All<A, B>(f: A -> Option<B>, s: seq<A>): (r: Option<seq<B>>)
    ensures r.Some? <==> forall i | 0 <= i < |s| :: f(s[i]).Some?
    ensures r.Some? ==> |r.value| == |s| && forall i | 0 <= i < |s| :: f(s[i]) == Some(r.value[i])
  {
    if s == [] then Some([])
    else
      var front, last := All(f, s[..|s| - 1]), f(s[|s| - 1]);
      if front.Some? && last.Some? then Some(front.value + [last.value]) else None
  }
}
