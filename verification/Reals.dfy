/** The smaller and larger of two real numbers, and the absolute value. */
module Reals {
  function Min(a: real, b: real): real { if b < a then b else a }

  function Max(a: real, b: real): real { if a < b then b else a }

  function Abs(x: real): real { if x < 0.0 then -x else x }
}
