/** Small value types shared by the browser controller and the backend models. */
module Basics {

  /** A value that may be absent (`null`/`undefined` in JavaScript, `None` in Python). */
  datatype Option<+T> = None | Some(value: T)

  /** A JavaScript number as far as this model needs one: an integer or `NaN`.
      Fractions and the infinities are not modelled. */
  datatype Num = Finite(n: int) | NaN

  /** JavaScript `a <= b` on numbers: every comparison with `NaN` is false. */
  predicate NumAtMost(a: Num, b: Num)
  {
    a.Finite? && b.Finite? && a.n <= b.n
  }
}
