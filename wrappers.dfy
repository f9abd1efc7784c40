/** The optional value the app expresses with `null`, `undefined` and `??`. */
module Wrappers {

  datatype Option<T> = None | Some(value: T)

  function Max(a: int, b: int): (r: int)
    ensures r >= a && r >= b && (r == a || r == b)
  {
    if a >= b then a else b
  }

  function Min(a: int, b: int): (r: int)
    ensures r <= a && r <= b && (r == a || r == b)
  {
    if a <= b then a else b
  }
}
