/** Temperature hysteresis and hold-then-ramp demand smoothing (policy.rs). */
module Policy {
  import opened Wrappers
  import opened Demand

  type Seconds = x: real | 0.0 <= x witness 0.0
  type Hysteresis = x: real | 0.0 <= x witness 0.0

  function Max(x: real, y: real): real { if x >= y then x else y }
  function Min(x: real, y: real): real { if x <= y then x else y }

  /** Duration subtraction, which saturates at zero. */
  function SaturatingSub(x: real, y: real): (r: Seconds) { if x >= y then x - y else 0.0 }

  // ---------------------------------------------------------------- hysteresis

  function EffectiveAfter(current: real, sample: real, hysteresis: Hysteresis): (r: real) {
    if sample >= current then sample else Max(sample, Min(current, sample + hysteresis))
  }

  /** The new value is the point of [sample, sample + hysteresis] closest to the previous one. */
  lemma EffectiveIsNearest(current: real, sample: real, hysteresis: Hysteresis, other: real)
    requires sample <= other <= sample + hysteresis
    ensures var r := EffectiveAfter(current, sample, hysteresis);
            && sample <= r <= sample + hysteresis
            && Max(r - current, current - r) <= Max(other - current, current - other)
  {
  }

  class EffectiveTemperature {
    var current: real

    constructor (initial: real)
      ensures current == initial
    {
      current := initial;
    }

    method Update(sample: real, hysteresis: Hysteresis) returns (r: real)
      modifies this
      ensures current == EffectiveAfter(old(current), sample, hysteresis)
      ensures r == current && sample <= r <= sample + hysteresis
    {
      if sample >= current {
        current := sample;
      } else {
        current := Max(sample, Min(current, sample + hysteresis));
      }
      r := current;
    }
  }

  // ---------------------------------------------------------------- downshift smoothing

  datatype DownshiftValues = DownshiftValues(hold: Seconds, rate: real)

  type Downshift = p: DownshiftValues | p.rate > 0.0 witness DownshiftValues(0.0, 1.0)

  datatype MonotonicTimeError = WentBackwards

  datatype Smoother = Smoother(
    commanded: Percent,
    lastTarget: Percent,
    policy: Downshift,
    pendingSince: Option<Seconds>,
    lastUpdate: Seconds)

  function NewSmoother(initial: Percent, policy: Downshift, now: Seconds): Smoother {
    Smoother(initial, initial, policy, None, now)
  }

  /** How long the ramp has been running at `now`, for a downshift pending since `since`. */
  function RampTime(policy: Downshift, since: Seconds, now: Seconds): (r: Seconds) {
    SaturatingSub(SaturatingSub(now, since), policy.hold)
  }

  /** One accepted update: `now` is not before the previous one. */
  function Advance(s: Smoother, target: Percent, now: Seconds): (r: Smoother)
    requires s.lastUpdate <= now
  {
    if target >= s.commanded then
      s.(commanded := target, lastTarget := target, pendingSince := None, lastUpdate := now)
    else if target > s.lastTarget then
      s.(lastTarget := target, pendingSince := Some(now), lastUpdate := now)
    else
      var since := if s.pendingSince.Some? then s.pendingSince.value else now;
      var ramp := SaturatingSub(RampTime(s.policy, since, now), RampTime(s.policy, since, s.lastUpdate));
      if ramp == 0.0 then
        s.(lastTarget := target, pendingSince := Some(since), lastUpdate := now)
      else
        var next := Ramped(s, target, ramp);
        s.(commanded := next, lastTarget := target, lastUpdate := now,
           pendingSince := if next == target then None else Some(since))
  }

  function Ramped(s: Smoother, target: Percent, ramp: Seconds): (r: Percent)
    requires target < s.commanded
    ensures r == Max(s.commanded - s.policy.rate * ramp, target)
  {
    assert s.policy.rate * ramp >= 0.0;
    Max(s.commanded - s.policy.rate * ramp, target)
  }

  class DemandSmoother {
    var commanded: Percent
    var lastTarget: Percent
    const policy: Downshift
    var pendingSince: Option<Seconds>
    var lastUpdate: Seconds

    function State(): Smoother
      reads this
    {
      Smoother(commanded, lastTarget, policy, pendingSince, lastUpdate)
    }

    constructor (initial: Percent, policy: Downshift, now: Seconds)
      ensures State() == NewSmoother(initial, policy, now)
    {
      this.commanded := initial;
      this.lastTarget := initial;
      this.policy := policy;
      this.pendingSince := None;
      this.lastUpdate := now;
    }

    /** A copy of a stored smoother, as the control cycle works on. */
    constructor Copy(s: Smoother)
      ensures State() == s
    {
      this.commanded := s.commanded;
      this.lastTarget := s.lastTarget;
      this.policy := s.policy;
      this.pendingSince := s.pendingSince;
      this.lastUpdate := s.lastUpdate;
    }

    method Update(target: Percent, now: Seconds) returns (r: Result<Percent, MonotonicTimeError>)
      modifies this
      ensures r.Err? <==> now < old(lastUpdate)
      ensures r.Err? ==> State() == old(State())
      ensures r.Ok? ==> State() == Advance(old(State()), target, now) && r.value == commanded
    {
      if now < lastUpdate {
        return Err(WentBackwards);
      }
      var targetRose := target > lastTarget;
      if target >= commanded {
        commanded := target;
        lastTarget := target;
        pendingSince := None;
        lastUpdate := now;
        return Ok(commanded);
      }
      if targetRose {
        lastTarget := target;
        pendingSince := Some(now);
        lastUpdate := now;
        return Ok(commanded);
      }
      if pendingSince.None? {
        pendingSince := Some(now);
      }
      var since := pendingSince.value;
      var heldBefore := SaturatingSub(lastUpdate, since);
      var heldNow := SaturatingSub(now, since);
      var ramp := SaturatingSub(SaturatingSub(heldNow, policy.hold), SaturatingSub(heldBefore, policy.hold));
      if ramp != 0.0 {
        commanded := Ramped(State(), target, ramp);
        if commanded == target {
          pendingSince := None;
        }
      }
      lastTarget := target;
      lastUpdate := now;
      return Ok(commanded);
    }
  }

  /** Demand rises at once, falls only towards the target, and never goes below it. */
  lemma NeverBelowTarget(s: Smoother, target: Percent, now: Seconds)
    requires s.lastUpdate <= now
    ensures Advance(s, target, now).commanded >= target
    ensures target >= s.commanded ==> Advance(s, target, now).commanded == target
    ensures target < s.commanded ==> Advance(s, target, now).commanded <= s.commanded
  {
  }

  // ---------------------------------------------------------------- whole runs

  datatype Update = Update(target: Percent, now: Seconds)

  /** The state after one update, accepted or rejected. */
  function After(s: Smoother, u: Update): Smoother {
    if u.now < s.lastUpdate then s else Advance(s, u.target, u.now)
  }

  function Run(s: Smoother, us: seq<Update>): Smoother {
    if us == [] then s else After(Run(s, us[..|us| - 1]), us[|us| - 1])
  }

  lemma RunPrefix(s: Smoother, us: seq<Update>, k: nat)
    requires k < |us|
    ensures Run(s, us[..k + 1]) == After(Run(s, us[..k]), us[k])
  {
    assert us[..k + 1][..k] == us[..k];
  }

  /** A downshift is pending exactly while the command is above the last target. */
  ghost predicate Consistent(s: Smoother) {
    && (s.pendingSince.None? ==> s.commanded == s.lastTarget)
    && (s.pendingSince.Some? ==> s.pendingSince.value <= s.lastUpdate && s.lastTarget < s.commanded)
  }

  lemma {:induction false} RunKeepsConsistent(s: Smoother, us: seq<Update>)
    requires Consistent(s)
    ensures Consistent(Run(s, us)) && Run(s, us).policy == s.policy && s.lastUpdate <= Run(s, us).lastUpdate
  {
    if us != [] {
      RunKeepsConsistent(s, us[..|us| - 1]);
    }
  }

  /** The command on the ramp of a downshift pending since `since` at level `start`. */
  function OnRamp(policy: Downshift, start: real, since: Seconds, now: Seconds): real {
    start - Fallen(policy, since, now)
  }

  /** Nothing until the hold is over, then the rate for every second since. */
  function Fallen(policy: Downshift, since: Seconds, now: Seconds): real {
    policy.rate * Max(0.0, now - since - policy.hold)
  }

  lemma Distribute(rate: real, x: real, y: real)
    ensures rate * (x - y) == rate * x - rate * y
  {
  }

  /** While the same downshift stays pending, one step moves along the ramp. */
  lemma StepOnRamp(s: Smoother, target: Percent, now: Seconds, start: real)
    requires Consistent(s) && s.pendingSince.Some? && s.lastUpdate <= now
    requires s.commanded == OnRamp(s.policy, start, s.pendingSince.value, s.lastUpdate)
    requires target <= s.lastTarget
    ensures var level := Max(OnRamp(s.policy, start, s.pendingSince.value, now), target);
            && level <= s.commanded
            && Advance(s, target, now)
               == Smoother(level, target, s.policy, if level == target then None else s.pendingSince, now)
  {
    var since := s.pendingSince.value;
    var before, after := RampTime(s.policy, since, s.lastUpdate), RampTime(s.policy, since, now);
    Distribute(s.policy.rate, after, before);
    assert s.policy.rate * (after - before) >= 0.0;
  }

  /** Some point of the run is where the pending downshift began, and from there on the run is on its ramp. */
  lemma {:induction false} PendingOnRamp(s: Smoother, us: seq<Update>) returns (m: nat)
    requires Consistent(s) && s.pendingSince.None?
    requires Run(s, us).pendingSince.Some?
    ensures m <= |us| && Run(s, us[..m]).lastUpdate == Run(s, us).pendingSince.value
    ensures forall i :: m <= i <= |us| ==>
              var at := Run(s, us[..i]);
              && at.pendingSince == Run(s, us).pendingSince
              && at.commanded == OnRamp(s.policy, Run(s, us[..m]).commanded, at.pendingSince.value, at.lastUpdate)
  {
    hide Advance, Fallen;
    var n := |us|;
    assert us[..n] == us;
    if n == 0 {
      assert false;
    } else {
      var before := Run(s, us[..n - 1]);
      RunKeepsConsistent(s, us[..n - 1]);
      RunPrefix(s, us, n - 1);
      if before.pendingSince == Run(s, us).pendingSince && us[n - 1].target <= before.lastTarget {
        m := PendingOnRamp(s, us[..n - 1]);
        PrefixesAgree(us);
        if us[n - 1].now >= before.lastUpdate {
          StepOnRamp(before, us[n - 1].target, us[n - 1].now, Run(s, us[..m]).commanded);
        }
      } else if us[n - 1].now < before.lastUpdate {
        m := PendingOnRamp(s, us[..n - 1]);
        PrefixesAgree(us);
      } else {
        m := n;
        FreshHold(before, us[n - 1].target, us[n - 1].now);
      }
    }
  }

  /**
   * Closed form: whenever a run ends with a downshift pending since `p`, there is a point of the run
   * at time `p` from which every later command is that point's command less
   * rate * max(0, time - p - hold).
   */
  lemma PendingClosedForm(s: Smoother, us: seq<Update>) returns (m: nat)
    requires Consistent(s) && s.pendingSince.None?
    requires Run(s, us).pendingSince.Some?
    ensures m <= |us| && Run(s, us[..m]).lastUpdate == Run(s, us).pendingSince.value
    ensures forall i :: m <= i <= |us| ==>
              var at := Run(s, us[..i]);
              && at.pendingSince == Run(s, us).pendingSince
              && at.commanded
                 == Run(s, us[..m]).commanded - s.policy.rate * Max(0.0, at.lastUpdate - at.pendingSince.value - s.policy.hold)
  {
    hide Run, Max;
    m := PendingOnRamp(s, us);
  }

  /** The hold is kept: in any run an update lowers the command only later than `hold` after the downshift became pending. */
  lemma HoldDelaysDownshift(s: Smoother, us: seq<Update>, i: nat)
    requires Consistent(s) && i < |us|
    requires Run(s, us[..i + 1]).commanded < Run(s, us[..i]).commanded
    ensures var before := Run(s, us[..i]);
            before.pendingSince.Some? && us[i].now > before.pendingSince.value + s.policy.hold
  {
    RunKeepsConsistent(s, us[..i]);
    RunPrefix(s, us, i);
  }

  /** A downshift that was not already pending starts its hold now, at the current command. */
  lemma FreshHold(s: Smoother, target: Percent, now: Seconds)
    requires Consistent(s) && s.lastUpdate <= now
    requires Advance(s, target, now).pendingSince.Some?
    requires s.pendingSince != Advance(s, target, now).pendingSince || target > s.lastTarget
    ensures var r := Advance(s, target, now);
            r.lastUpdate == now && r.pendingSince.value == now && r.commanded == OnRamp(s.policy, r.commanded, now, now)
  {
  }

  lemma PrefixesAgree(us: seq<Update>)
    requires us != []
    ensures forall i :: 0 <= i <= |us| - 1 ==> us[..|us| - 1][..i] == us[..i]
  {
  }

  /** From `earlier` to `later` the command fell no faster than the configured rate. */
  ghost predicate FellWithinRate(earlier: Smoother, later: Smoother) {
    later.commanded >= earlier.commanded - earlier.policy.rate * (later.lastUpdate - earlier.lastUpdate)
  }

  lemma RateBoundTransitive(a: Smoother, b: Smoother, c: Smoother)
    requires a.policy == b.policy && FellWithinRate(a, b) && FellWithinRate(b, c)
    ensures FellWithinRate(a, c)
  {
  }

  /** The command falls no faster than the configured rate between any two points of a run. */
  lemma {:induction false} RateBound(s: Smoother, us: seq<Update>, i: nat)
    requires Consistent(s) && i <= |us|
    ensures FellWithinRate(Run(s, us[..i]), Run(s, us))
    decreases |us|
  {
    var n := |us|;
    assert us[..n] == us;
    if i < n {
      PrefixesAgree(us);
      RateBound(s, us[..n - 1], i);
      RunPrefix(s, us, n - 1);
      RunKeepsConsistent(s, us[..n - 1]);
      RunKeepsConsistent(s, us[..i]);
      StepRateBound(Run(s, us[..n - 1]), us[n - 1]);
      hide After, Run, FellWithinRate;
      RateBoundTransitive(Run(s, us[..i]), Run(s, us[..n - 1]), Run(s, us));
    }
  }

  lemma StepRateBound(s: Smoother, u: Update)
    requires Consistent(s)
    ensures FellWithinRate(s, After(s, u))
  {
    var ramp := StepFall(s, u);
    hide After;
    ScaledOrder(s.policy.rate, ramp, After(s, u).lastUpdate - s.lastUpdate);
  }

  /** One update lowers the command by at most the rate times a part of the time that passed. */
  lemma StepFall(s: Smoother, u: Update) returns (ramp: real)
    requires Consistent(s)
    ensures 0.0 <= ramp <= After(s, u).lastUpdate - s.lastUpdate
    ensures After(s, u).commanded >= s.commanded - s.policy.rate * ramp
  {
    hide Ramped;
    if s.lastUpdate <= u.now && u.target < s.commanded && u.target <= s.lastTarget {
      var since := if s.pendingSince.Some? then s.pendingSince.value else u.now;
      ramp := SaturatingSub(RampTime(s.policy, since, u.now), RampTime(s.policy, since, s.lastUpdate));
    } else {
      ramp := 0.0;
    }
  }

  lemma ScaledOrder(rate: real, low: real, high: real)
    requires rate > 0.0 && low <= high
    ensures rate * low <= rate * high
  {
  }

  /** The update starts no new hold: it raises the command, or continues a pending downshift. */
  ghost predicate Continues(s: Smoother, target: Percent) {
    target >= s.commanded || (s.pendingSince.Some? && target <= s.lastTarget)
  }

  /**
   * An extra update with the same target, placed earlier, leaves the resulting state unchanged
   * exactly when the target starts no new hold (or the two updates are simultaneous).
   */
  lemma ExtraUpdateInvisible(s: Smoother, target: Percent, earlier: Seconds, now: Seconds)
    requires Consistent(s) && s.lastUpdate <= earlier <= now
    ensures Advance(Advance(s, target, earlier), target, now) == Advance(s, target, now)
            <==> Continues(s, target) || earlier == now
  {
    if target < s.commanded && Continues(s, target) {
      ExtraUpdateOnRamp(s, target, earlier, now);
    }
  }

  /** It can show: a repeat five seconds earlier starts the hold five seconds earlier. */
  lemma ExtraUpdateCanShow()
    ensures var s := NewSmoother(100.0, DownshiftValues(0.0, 1.0), 0.0);
            && Advance(s, 50.0, 10.0).commanded == 100.0
            && Advance(Advance(s, 50.0, 5.0), 50.0, 10.0).commanded == 95.0
  {
  }

  lemma ExtraUpdateOnRamp(s: Smoother, target: Percent, earlier: Seconds, now: Seconds)
    requires Consistent(s) && s.lastUpdate <= earlier <= now
    requires s.pendingSince.Some? && target <= s.lastTarget
    ensures Advance(Advance(s, target, earlier), target, now) == Advance(s, target, now)
  {
    var since := s.pendingSince.value;
    var start := s.commanded + Fallen(s.policy, since, s.lastUpdate);
    RampFalls(s.policy, start, since, earlier, now);
    var middle := Advance(s, target, earlier);
    if target == middle.commanded {
      StepOnRamp(s, target, earlier, start);
      StepOnRamp(s, target, now, start);
    } else {
      hide Advance, Fallen;
      StepOnRamp(s, target, earlier, start);
      StepOnRamp(s, target, now, start);
      StepOnRamp(middle, target, now, start);
    }
  }

  lemma RampFalls(policy: Downshift, start: real, since: Seconds, earlier: Seconds, now: Seconds)
    requires earlier <= now
    ensures OnRamp(policy, start, since, now) <= OnRamp(policy, start, since, earlier)
  {
  }

  ghost predicate SteadyTarget(us: seq<Update>, target: Percent, from: Seconds) {
    && (forall i :: 0 <= i < |us| ==> us[i].target == target && from <= us[i].now)
    && (forall i :: 0 <= i < |us| - 1 ==> us[i].now <= us[i + 1].now)
  }

  /** However many updates repeat a target that starts no new hold, only the last one matters. */
  lemma {:induction false} SteadyRunCollapses(s: Smoother, target: Percent, us: seq<Update>)
    requires Consistent(s) && Continues(s, target) && us != []
    requires SteadyTarget(us, target, s.lastUpdate)
    ensures Run(s, us) == Advance(s, target, us[|us| - 1].now)
  {
    var n := |us|;
    var last := us[n - 1];
    if n == 1 {
      assert us[..0] == [];
    } else {
      assert us[..n - 1][n - 2] == us[n - 2];
      SteadyRunCollapses(s, target, us[..n - 1]);
      ExtraUpdateInvisible(s, target, us[n - 2].now, last.now);
    }
  }

  /**
   * A constant target is reached: with a downshift pending since `p` at level `start`, every update
   * at or after p + hold + (start - target) / rate leaves the command at the target.
   */
  lemma ConstantTargetReached(s: Smoother, start: real, target: Percent, us: seq<Update>, i: nat)
    requires Consistent(s) && s.pendingSince.Some? && target <= s.lastTarget
    requires s.commanded == start - s.policy.rate * Max(0.0, s.lastUpdate - s.pendingSince.value - s.policy.hold)
    requires SteadyTarget(us, target, s.lastUpdate) && i < |us|
    requires us[i].now >= s.pendingSince.value + s.policy.hold + (start - target) / s.policy.rate
    ensures Run(s, us[..i + 1]).commanded == target
  {
    SteadyRunCollapses(s, target, us[..i + 1]);
    StepOnRamp(s, target, us[i].now, start);
    RampBottomsOut(s.policy, start, target, s.pendingSince.value, s.lastUpdate, us[i].now);
  }

  lemma RampBottomsOut(policy: Downshift, start: real, target: real, since: Seconds, before: Seconds, now: Seconds)
    requires OnRamp(policy, start, since, before) >= target
    requires now >= since + policy.hold + (start - target) / policy.rate
    ensures OnRamp(policy, start, since, now) <= target
  {
  }
}
