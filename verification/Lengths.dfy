/** Distances on the canvas are real numbers; rounding is not modelled. */
module Lengths {

  function Max(a: real, b: real): real { if a < b then b else a }

  function Distance(a: real, b: real): real { if a < b then b - a else a - b }
}
