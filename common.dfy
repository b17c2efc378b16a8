/**
 Values shared by the list animator and the gesture recogniser: an optional
 value (a JavaScript property that may be absent) and the few JavaScript
 number values the animator compares (a number, `undefined` or `NaN`).
 */
module Common {

  datatype Option<T> = None | Some(value: T)

  /** A JavaScript number-valued property: a pixel count, `undefined` or `NaN`. */
  datatype Num = Undefined | NaN | Val(v: int)

  /** JavaScript's `===` on these values: `NaN` equals nothing, `undefined` equals only itself. */
  predicate StrictEquals(a: Num, b: Num)
  {
    (a.Val? && b.Val? && a.v == b.v) || (a.Undefined? && b.Undefined?)
  }

  /** JavaScript's `+`: anything added to `undefined` or `NaN` is `NaN`. */
  function Plus(a: Num, b: Num): (r: Num)
    ensures r.Val? <==> a.Val? && b.Val?
    ensures r.Val? ==> r.v == a.v + b.v
    ensures !r.Val? ==> r == NaN
  {
    if a.Val? && b.Val? then Val(a.v + b.v) else NaN
  }

  /** `NaN` is not strictly equal to any value, itself included. */
  lemma NaNEqualsNothing(x: Num)
    ensures !StrictEquals(x, NaN) && !StrictEquals(NaN, x)
  {
  }
}
