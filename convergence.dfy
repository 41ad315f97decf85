/** The ELBO-based convergence test of the training loop (assess_convergence). */
module Convergence {
  import opened Wrappers

  /** The relative-change threshold, in percent, of each convergence mode; None for any other mode. */
  function Threshold(mode: string): Option<real>
  {
    if mode == "fast" then Some(0.00001)
    else if mode == "medium" then Some(0.000001)
    else if mode == "slow" then Some(0.0000001)
    else None
  }

  function Abs(x: real): real
  {
    if x < 0.0 then -x else x
  }

  /**
   * 100·|delta/first| < threshold. With a zero baseline the quotient is inf or
   * nan in floating point, and neither compares below the threshold.
   */
  predicate SmallChange(delta: real, first: real, threshold: real)
  {
    first != 0.0 && 100.0 * Abs(delta / first) < threshold
  }

  /** The pair assess_convergence returns: the new token and the converged flag. */
  datatype Assessment = Assessment(token: int, converged: bool)

  /**
   * assess_convergence: the token grows by one on a small relative change and
   * is reset to 1 otherwise; convergence is declared when it reaches 5. None
   * stands for the exit() on an unrecognised mode.
   */
  function AssessConvergence(mode: string, delta: real, first: real, token: int): (r: Option<Assessment>)
    ensures r.None? <==> mode != "fast" && mode != "medium" && mode != "slow"
    ensures r.Some? ==> (r.value.converged <==> r.value.token == 5)
    ensures r.Some? && SmallChange(delta, first, Threshold(mode).value) ==> r.value.token == token + 1
    ensures r.Some? && !SmallChange(delta, first, Threshold(mode).value) ==> r.value == Assessment(1, false)
  {
    match Threshold(mode)
    case None => None
    case Some(t) =>
      if SmallChange(delta, first, t) then Some(Assessment(token + 1, token + 1 == 5))
      else Some(Assessment(1, false))
  }

  /** The token after assessing each of `deltas` in turn, starting from `token`. */
  function TokenAfterChecks(mode: string, first: real, deltas: seq<real>, token: int): int
    requires Threshold(mode).Some?
  {
    if |deltas| == 0 then token
    else AssessConvergence(mode, deltas[|deltas| - 1], first,
                           TokenAfterChecks(mode, first, deltas[..|deltas| - 1], token)).value.token
  }

  /** How many of the most recent deltas were small changes, in a row. */
  function TrailingSmall(mode: string, first: real, deltas: seq<real>): nat
    requires Threshold(mode).Some?
  {
    if |deltas| == 0 || !SmallChange(deltas[|deltas| - 1], first, Threshold(mode).value) then 0
    else 1 + TrailingSmall(mode, first, deltas[..|deltas| - 1])
  }

  /**
   * From the initial token 1, the token is one more than the number of
   * consecutive small changes that end the series: any large change resets it.
   */
  lemma {:induction false} TokenCountsTrailingSmall(mode: string, first: real, deltas: seq<real>)
    requires Threshold(mode).Some?
    ensures TokenAfterChecks(mode, first, deltas, 1) == 1 + TrailingSmall(mode, first, deltas)
  {
    if |deltas| > 0 {
      TokenCountsTrailingSmall(mode, first, deltas[..|deltas| - 1]);
    }
  }

  /**
   * Assessing the last of `deltas` declares convergence exactly when the four
   * most recent changes were all small (the token went 1, 2, 3, 4, 5).
   */
  lemma ConvergedAfterFourSmallChanges(mode: string, first: real, deltas: seq<real>)
    requires Threshold(mode).Some? && |deltas| > 0
    ensures var before := TokenAfterChecks(mode, first, deltas[..|deltas| - 1], 1);
      (AssessConvergence(mode, deltas[|deltas| - 1], first, before).value.converged
       <==> TrailingSmall(mode, first, deltas) == 4)
  {
    TokenCountsTrailingSmall(mode, first, deltas);
    assert TokenAfterChecks(mode, first, deltas, 1)
      == AssessConvergence(mode, deltas[|deltas| - 1], first,
                           TokenAfterChecks(mode, first, deltas[..|deltas| - 1], 1)).value.token;
  }
}
