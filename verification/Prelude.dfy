/** Small shared vocabulary: optional values and facts about sequences read as sets. */
module Prelude {

  datatype Option<+T> = None | Some(value: T)

  function Elems<T>(xs: seq<T>): set<T> {
    set x | x in xs
  }

  function Max(x: real, y: real): (r: real)
    ensures r >= x && r >= y && (r == x || r == y)
  {
    if x < y then y else x
  }

  function Min(x: real, y: real): (r: real)
    ensures r <= x && r <= y && (r == x || r == y)
  {
    if x < y then x else y
  }

  /** The elements of a prefix extended by one. */
  lemma ElemsSnoc<T>(xs: seq<T>, x: T)
    ensures Elems(xs + [x]) == Elems(xs) + {x}
  {
    forall y ensures y in Elems(xs + [x]) <==> y in Elems(xs) + {x} {
      assert y in xs + [x] <==> y in xs || y == x;
    }
  }
}
