/** Conversions between reals and integers, and the smaller and larger of two reals. */
module Numbers {
  /** Conversion of a floating-point value to an integer type: towards zero. */
  function Trunc(r: real): int {
    if r >= 0.0 then r.Floor else -(-r).Floor
  }

  /** roundf: to the nearest integer, halves away from zero. */
  function Round(r: real): int {
    if r >= 0.0 then (r + 0.5).Floor else -((-r + 0.5).Floor)
  }

  function MinR(a: real, b: real): real {
    if b < a then b else a
  }

  function MaxR(a: real, b: real): real {
    if a < b then b else a
  }
}
