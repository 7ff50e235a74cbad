/** Money amounts: exact reals, the settlement tolerance and rounding to cents. */
module Amounts {

  /** A balance within this distance of zero counts as settled (one cent). */
  const Tol: real := 0.01

  function Abs(x: real): (r: real)
    ensures r >= 0.0 && (r == x || r == -x)
  {
    if x < 0.0 then -x else x
  }

  function Min(a: real, b: real): (r: real)
    ensures r <= a && r <= b && (r == a || r == b)
  {
    if b < a then b else a
  }

  /** round(x, 2): the nearest whole number of cents, halves rounded up. */
  function Round2(x: real): (r: real)
    ensures x - 0.005 < r <= x + 0.005
  {
    (x * 100.0 + 0.5).Floor as real / 100.0
  }

  lemma DivideBack(a: real, n: real)
    requires n != 0.0
    ensures n * (a / n) == a
  {
  }
}

/** The two Python exceptions the core raises, and results that may carry one. */
module Outcomes {

  datatype Error =
    | ValueError(message: string)
    | KeyError(key: string)

  datatype Result<T> = Ok(value: T) | Err(error: Error)

  datatype Option<T> = None | Some(value: T)
}
