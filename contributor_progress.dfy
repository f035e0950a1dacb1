/**
 * `ContributorsAPI.getProgressPercentage`: the width of a contribution
 * bar, `contributions / maxContributions * 100` clamped at 100. The
 * division is exact here; JavaScript's rounding is not modelled, but its
 * non-finite results for a zero maximum are.
 */
module ContributorProgress {

  /** The JavaScript numbers the function can return. */
  datatype Percentage = Finite(value: real) | NotANumber | NegativeInfinity

  /** `getProgressPercentage(contributions, maxContributions)`. */
  function ProgressPercentage(contributions: int, maxContributions: int): (p: Percentage)
    ensures maxContributions > 0 && contributions >= 0 ==> p.Finite? && 0.0 <= p.value <= 100.0
    ensures maxContributions > 0 && contributions >= maxContributions ==> p == Finite(100.0)
    ensures p.Finite? ==> p.value <= 100.0
    ensures maxContributions == 0 ==> (p == Finite(100.0) <==> contributions > 0)
  {
    if maxContributions == 0 then
      // x / 0 is Infinity, NaN or -Infinity by the sign of x; Math.min keeps the last two.
      if contributions > 0 then Finite(100.0)
      else if contributions == 0 then NotANumber
      else NegativeInfinity
    else
      var ratio := Ratio(contributions, maxContributions);
      Finite(if ratio < 100.0 then ratio else 100.0)
  }

  /** `contributions / maxContributions * 100` for a non-zero maximum. */
  function Ratio(contributions: int, maxContributions: int): (r: real)
    requires maxContributions != 0
    ensures maxContributions > 0 && contributions >= 0 ==> r >= 0.0
    ensures maxContributions > 0 && contributions >= maxContributions ==> r >= 100.0
  {
    RatioBounds(contributions, maxContributions);
    (contributions as real) / (maxContributions as real) * 100.0
  }

  lemma RatioBounds(x: int, m: int)
    requires m != 0
    ensures m > 0 && x >= 0 ==> (x as real) / (m as real) >= 0.0
    ensures m > 0 && x >= m ==> (x as real) / (m as real) >= 1.0
  {
    if m > 0 {
      var q := (x as real) / (m as real);
      assert q * (m as real) == x as real;
    }
  }

  /** For a positive maximum, more contributions never give a narrower bar. */
  lemma ProgressMonotone(x: int, y: int, m: int)
    requires m > 0 && x <= y
    ensures ProgressPercentage(x, m).Finite? && ProgressPercentage(y, m).Finite?
    ensures ProgressPercentage(x, m).value <= ProgressPercentage(y, m).value
  {
    var qx, qy := (x as real) / (m as real), (y as real) / (m as real);
    RatioBounds(y - x, m);
    assert qy - qx == ((y - x) as real) / (m as real);
  }
}
