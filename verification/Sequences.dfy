/** Sequences seen from their end. */
module Sequences {

  function Init<T>(xs: seq<T>): seq<T>
    requires xs != []
  {
    xs[..|xs| - 1]
  }

  function Last<T>(xs: seq<T>): T
    requires xs != []
  {
    xs[|xs| - 1]
  }

  lemma InitLast<T>(xs: seq<T>, x: T)
    ensures Init(xs + [x]) == xs && Last(xs + [x]) == x
  {
  }
}
