/** The `alternative` argument shared by `pivot` and `gibbs_test`, and the
    two-sided fold of a one-sided p-value. */
module Alternatives {
  import opened Wrappers

  datatype Alternative = Greater | Less | TwoSided

  /** The strings accepted by `alternative`; anything else raises ValueError. */
  function ParseAlternative(s: string): (a: Option<Alternative>)
    ensures a == Some(Greater) <==> s == "greater"
    ensures a == Some(Less) <==> s == "less"
    ensures a == Some(TwoSided) <==> s == "twosided"
  {
    if s == "greater" then Some(Greater)
    else if s == "less" then Some(Less)
    else if s == "twosided" then Some(TwoSided)
    else None
  }

  /** `2 * min(p, 1 - p)`. */
  function TwoSidedFold(p: real): (q: real)
    ensures 0.0 <= p <= 1.0 ==> 0.0 <= q <= 1.0
    ensures q <= 2.0 * p && q <= 2.0 * (1.0 - p)
  {
    2.0 * (if p <= 1.0 - p then p else 1.0 - p)
  }
}
