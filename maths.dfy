/**
 * The `Math` members the geometry uses (hex/maths.ts). Their values cannot be computed
 * exactly, so they are a parameter of the model; a proof that needs `sqrt(3)` to behave
 * like the square root of 3 says so with `ExactSqrt3`.
 */
module Maths {

  datatype Maths = Maths(sqrt: real -> real, pi: real, cos: real -> real, sin: real -> real)

  /** `sqrt(3)` is the positive number whose square is 3. */
  ghost predicate ExactSqrt3(m: Maths) {
    m.sqrt(3.0) > 0.0 && m.sqrt(3.0) * m.sqrt(3.0) == 3.0
  }

  /** `π2 = π * 2`. */
  function Tau(m: Maths): real {
    m.pi * 2.0
  }
}
