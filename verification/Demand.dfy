/** Normalized demand and its round-up scaling to an 8-bit PWM value (demand.rs). */
module Demand {

  type Percent = x: real | 0.0 <= x <= 100.0 witness 0.0
  type Pwm = x: int | 0 <= x <= 255 witness 0

  const MAXIMUM_PWM: Pwm := 255

  function Ceiling(x: real): (r: int)
    ensures r as real - 1.0 < x <= r as real
  {
    -((-x).Floor)
  }

  /** PWM for a demand: the least 8-bit step that is not below the exact scaled value. */
  function ToPwm(demand: Percent): (r: Pwm)
    ensures Covers(r, demand)
    ensures r > 0 ==> !Covers(r - 1, demand)
  {
    Ceiling(demand * 255.0 / 100.0)
  }

  /** The step `p` is not below the exact scaled demand. */
  predicate Covers(p: int, demand: real) {
    demand * 255.0 / 100.0 <= p as real
  }

  function Higher(left: Percent, right: Percent): (r: Percent)
    ensures left <= r && right <= r && (r == left || r == right)
  {
    if left >= right then left else right
  }

  lemma ToPwmMonotone(low: Percent, high: Percent)
    requires low <= high
    ensures ToPwm(low) <= ToPwm(high)
  {
  }

  /** Losing less than one PWM step of demand costs at most one PWM step. */
  lemma ToPwmNearlyMonotone(low: Percent, high: Percent, slack: real)
    requires high <= low + slack
    requires slack * 255.0 <= 100.0
    ensures ToPwm(high) <= ToPwm(low) + 1
  {
  }

  lemma FullDemandIsMaximum()
    ensures ToPwm(100.0) == MAXIMUM_PWM
  {
  }
}
