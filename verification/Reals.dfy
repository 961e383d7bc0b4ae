/** Arithmetic on real numbers shared by the models. */
module Reals {

  function Max(x: real, y: real): real
  {
    if x >= y then x else y
  }
}
