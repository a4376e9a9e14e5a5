/** Closed intervals built from two unordered values (bounds.rs). */
module Intervals {

  /** The extent of some quantity: a y-extent, a z-extent, a lifetime, a wavelength band. */
  datatype Bounds = Bounds(lower: real, upper: real)

  /** `Bounds::new`: the lesser value becomes `lower`, the greater `upper`. */
  function New(val1: real, val2: real): (b: Bounds)
    ensures b.lower <= b.upper
    ensures multiset{b.lower, b.upper} == multiset{val1, val2}
    ensures val1 <= val2 ==> b.lower == val1
    ensures val2 < val1 ==> b.lower == val2
  {
    if val1 <= val2 then Bounds(val1, val2) else Bounds(val2, val1)
  }

  /** The argument order does not matter. */
  lemma NewSymmetric(a: real, b: real)
    ensures New(a, b) == New(b, a)
  {
  }

  /** An interval that is already ordered comes back unchanged. */
  lemma NewIdempotent(a: real, b: real)
    ensures var r := New(a, b); New(r.lower, r.upper) == r
  {
  }

  /** `New` keeps exactly the ordered intervals fixed. */
  lemma NewFixesOrdered(r: Bounds)
    ensures New(r.lower, r.upper) == r <==> r.lower <= r.upper
  {
  }

  /** The in-order and out-of-order test cases of bounds.rs. */
  lemma NewExamples()
    ensures New(0.0, 1.0) == Bounds(0.0, 1.0)
    ensures New(1.0, 0.0) == Bounds(0.0, 1.0)
  {
  }
}
