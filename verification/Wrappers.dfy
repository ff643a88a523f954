// A value that may be absent.
module Wrappers {
  datatype Option<T> = None | Some(value: T)

  // Two to the power n.
  function TwoTo(n: nat): (r: nat) ensures r > 0 { if n == 0 then 1 else 2 * TwoTo(n - 1) }
}
