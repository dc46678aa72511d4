/** What several modules need. */
module Shared {

  datatype Option<T> = None | Some(value: T)

  function Max(a: nat, b: nat): nat { if a < b then b else a }

  function Min(a: nat, b: nat): nat { if a < b then a else b }

  /** Every sample divided by the same number. */
  function Divided(x: seq<real>, divisor: real): (r: seq<real>)
    requires divisor != 0.0
    ensures |r| == |x|
  {
    seq(|x|, i requires 0 <= i < |x| => x[i] / divisor)
  }
}
