/** Boolean-mask indexing as numpy does it: `xs[keep]` keeps the elements at the
    positions where `keep` is true, in their original order. */
module Masks {

  /** Number of positions a mask keeps. */
  function CountTrue(keep: seq<bool>): nat
  {
    if keep == [] then 0 else (if keep[0] then 1 else 0) + CountTrue(keep[1..])
  }

  /** `xs[keep]`: the elements of `xs` whose mask entry is true, order preserved. */
  function Select<T>(xs: seq<T>, keep: seq<bool>): (r: seq<T>)
    requires |keep| == |xs|
    ensures |r| == CountTrue(keep)
    ensures forall x :: x in r ==> x in xs
  {
    if xs == [] then []
    else (if keep[0] then [xs[0]] else []) + Select(xs[1..], keep[1..])
  }
}
