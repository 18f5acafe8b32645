/**
 * The one piece of JavaScript semantics both renderers lean on when they
 * read configuration: the idiom `Number(v) || fallback`.
 *
 * `Number(v)` yields either a number or NaN; a form value is represented by
 * the number it converts to, `None` standing for NaN. NaN and 0 are the two
 * falsy numbers, so `||` falls back to its right operand exactly for them.
 */
module Js {

  /**
   * A value that may be JavaScript's `undefined` (what `d3.min` and `d3.max`
   * give for nothing) or NaN (what `Number` gives for a non-number): both are
   * written `None`.
   */
  datatype Option<T> = None | Some(value: T)

  /** True when `Number(v)` is a truthy number: defined (not NaN) and non-zero. */
  predicate Truthy(v: Option<real>)
  {
    v.Some? && v.value != 0.0
  }

  /** `Number(v) || fallback` for a fallback that may itself be undefined. */
  function NumberOr(v: Option<real>, fallback: Option<real>): (r: Option<real>)
    ensures Truthy(v) ==> r == v
    ensures !Truthy(v) ==> r == fallback
  {
    if Truthy(v) then v else fallback
  }

  /** An override of 0 is not honoured: it is indistinguishable from a missing one. */
  lemma ZeroOverrideFallsBack(fallback: Option<real>)
    ensures NumberOr(Some(0.0), fallback) == fallback
    ensures NumberOr(None, fallback) == fallback
  {
  }
}
