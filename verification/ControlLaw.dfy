/**
 * The stateful control law of one cycle (`next_outputs` in control_cycle.rs) and what it guarantees
 * over every run of samples.
 */
module ControlLaw {
  import opened Wrappers
  import opened Demand
  import opened Curve
  import opened Policy
  import opened Config
  import opened Output

  datatype Sample = Sample(cpu: real, gpu: real, power: ExternalPower, startedAt: Seconds, completedAt: Seconds)

  datatype History = History(cpu: real, gpu: real, smoother: Smoother)

  /** Hysteresis, then the curves, then the smoother; a first sample starts a fresh history. */
  function NextHistory(config: ValidatedConfig, history: Option<History>, sample: Sample): (r: Result<History, MonotonicTimeError>)
  {
    match history
    case None =>
      var target := TargetDemand(config, sample.cpu, sample.gpu, sample.power);
      Ok(History(sample.cpu, sample.gpu, NewSmoother(target, config.downshift, sample.completedAt)))
    case Some(h) =>
      var cpu := EffectiveAfter(h.cpu, sample.cpu, config.hysteresis);
      var gpu := EffectiveAfter(h.gpu, sample.gpu, config.hysteresis);
      var target := TargetDemand(config, cpu, gpu, sample.power);
      if sample.completedAt < h.smoother.lastUpdate then Err(WentBackwards)
      else Ok(History(cpu, gpu, Advance(h.smoother, target, sample.completedAt)))
  }

  function OutputsOf(config: ValidatedConfig, history: History): FanOutputs {
    OutputsForDemand(config, history.smoother.commanded)
  }

  method ComputeNextOutputs(config: ValidatedConfig, history: Option<History>, sample: Sample)
    returns (r: Result<(History, FanOutputs), MonotonicTimeError>)
    ensures r.Ok? <==> NextHistory(config, history, sample).Ok?
    ensures r.Ok? ==> r.value.0 == NextHistory(config, history, sample).value
    ensures r.Ok? ==> r.value.1 == OutputsOf(config, r.value.0)
    ensures r.Ok? ==> AtLeast(r.value.1, FloorOutputs(config))
  {
    var next: History;
    if history.Some? {
      var h := history.value;
      var cpu := new EffectiveTemperature(h.cpu);
      var gpu := new EffectiveTemperature(h.gpu);
      var smoother := new DemandSmoother.Copy(h.smoother);
      var cpuTemperature := cpu.Update(sample.cpu, config.hysteresis);
      var gpuTemperature := gpu.Update(sample.gpu, config.hysteresis);
      var target := TargetDemand(config, cpuTemperature, gpuTemperature, sample.power);
      var updated := smoother.Update(target, sample.completedAt);
      if updated.Err? {
        return Err(updated.error);
      }
      next := History(cpu.current, gpu.current, smoother.State());
    } else {
      var cpu := new EffectiveTemperature(sample.cpu);
      var gpu := new EffectiveTemperature(sample.gpu);
      var target := TargetDemand(config, cpu.current, gpu.current, sample.power);
      var smoother := new DemandSmoother(target, config.downshift, sample.completedAt);
      next := History(cpu.current, gpu.current, smoother.State());
    }
    OutputsMonotone(config, next.smoother.commanded, next.smoother.commanded);
    r := Ok((next, OutputsForDemand(config, next.smoother.commanded)));
  }

  // ---------------------------------------------------------------- one cycle

  ghost predicate NonDecreasingConfig(config: ValidatedConfig) {
    && NonDecreasing(config.ac.cpuCurve) && NonDecreasing(config.ac.gpuCurve)
    && NonDecreasing(config.battery.cpuCurve) && NonDecreasing(config.battery.gpuCurve)
  }

  function Memoryless(config: ValidatedConfig, sample: Sample): FanOutputs {
    CalculateOutputs(config, sample.cpu, sample.gpu, sample.power)
  }

  lemma TargetMonotone(config: ValidatedConfig, cpu: real, gpu: real, hotterCpu: real, hotterGpu: real, power: ExternalPower)
    requires NonDecreasingConfig(config) && cpu <= hotterCpu && gpu <= hotterGpu
    ensures TargetDemand(config, cpu, gpu, power) <= TargetDemand(config, hotterCpu, hotterGpu, power)
  {
    hide Evaluate;
    var profile := SelectedProfile(config, power);
    EvaluateMonotone(profile.cpuCurve, cpu, hotterCpu);
    EvaluateMonotone(profile.gpuCurve, gpu, hotterGpu);
  }

  /**
   * Hysteresis, smoothing and round-up never give less than the memoryless outputs for the same raw
   * sample, never less than the floors, and the first cycle gives exactly the memoryless outputs.
   */
  lemma CycleCoversMemoryless(config: ValidatedConfig, history: Option<History>, sample: Sample)
    requires NonDecreasingConfig(config)
    requires NextHistory(config, history, sample).Ok?
    ensures var outputs := OutputsOf(config, NextHistory(config, history, sample).value);
            && AtLeast(outputs, Memoryless(config, sample))
            && AtLeast(outputs, FloorOutputs(config))
            && (history.None? ==> outputs == Memoryless(config, sample))
  {
    hide TargetDemand, OutputsForDemand, FloorOutputs;
    var next := NextHistory(config, history, sample).value;
    var raw := TargetDemand(config, sample.cpu, sample.gpu, sample.power);
    if history.Some? {
      var h := history.value;
      var cpu := EffectiveAfter(h.cpu, sample.cpu, config.hysteresis);
      var gpu := EffectiveAfter(h.gpu, sample.gpu, config.hysteresis);
      var target := TargetDemand(config, cpu, gpu, sample.power);
      TargetMonotone(config, sample.cpu, sample.gpu, cpu, gpu, sample.power);
      NeverBelowTarget(h.smoother, target, sample.completedAt);
    }
    OutputsMonotone(config, raw, next.smoother.commanded);
    OutputsMonotone(config, next.smoother.commanded, next.smoother.commanded);
  }

  /** One cycle does not look at the profile of the other power state. */
  lemma CycleIgnoresOtherProfile(config: ValidatedConfig, other: Profile, history: Option<History>, sample: Sample)
    ensures sample.power == Disconnected ==> NextHistory(config.(ac := other), history, sample) == NextHistory(config, history, sample)
    ensures sample.power != Disconnected ==> NextHistory(config.(battery := other), history, sample) == NextHistory(config, history, sample)
    ensures sample.power == Unknown ==> NextHistory(config, history, sample) == NextHistory(config, history, sample.(power := Connected))
  {
    hide TargetDemand, Advance;
    OtherProfileIgnored(config, other, sample.cpu, sample.gpu, sample.power);
    if history.Some? {
      var cpu := EffectiveAfter(history.value.cpu, sample.cpu, config.hysteresis);
      var gpu := EffectiveAfter(history.value.gpu, sample.gpu, config.hysteresis);
      OtherProfileIgnored(config, other, cpu, gpu, sample.power);
    }
  }

  // ---------------------------------------------------------------- whole runs

  /** The outputs of successive cycles; a cycle that fails ends the run. */
  function RunOutputs(config: ValidatedConfig, history: Option<History>, samples: seq<Sample>): (r: seq<FanOutputs>)
    ensures |r| <= |samples|
    decreases |samples|
  {
    if samples == [] then []
    else
      var next := NextHistory(config, history, samples[0]);
      if next.Err? then []
      else [OutputsOf(config, next.value)] + RunOutputs(config, Some(next.value), samples[1..])
  }

  /** In every cycle of every run the outputs cover the memoryless outputs and the floors. */
  lemma {:induction false} RunCoversMemoryless(config: ValidatedConfig, history: Option<History>, samples: seq<Sample>, i: nat)
    requires NonDecreasingConfig(config)
    requires i < |RunOutputs(config, history, samples)|
    ensures AtLeast(RunOutputs(config, history, samples)[i], Memoryless(config, samples[i]))
    ensures AtLeast(RunOutputs(config, history, samples)[i], FloorOutputs(config))
    decreases i
  {
    hide Memoryless, AtLeast, OutputsOf, FloorOutputs;
    if i == 0 {
      CycleCoversMemoryless(config, history, samples[0]);
    } else {
      var next := NextHistory(config, history, samples[0]).value;
      RunCoversMemoryless(config, Some(next), samples[1..], i - 1);
    }
  }

  /** A run all on battery is the same whatever the AC profile, and a run never on battery whatever the battery profile. */
  lemma {:induction false} RunIgnoresOtherProfile(config: ValidatedConfig, other: Profile, history: Option<History>, samples: seq<Sample>, onBattery: bool)
    requires forall i :: 0 <= i < |samples| ==> (samples[i].power == Disconnected) == onBattery
    ensures RunOutputs(if onBattery then config.(ac := other) else config.(battery := other), history, samples) == RunOutputs(config, history, samples)
    decreases |samples|
  {
    if samples != [] {
      hide NextHistory, ToPwm;
      CycleIgnoresOtherProfile(config, other, history, samples[0]);
      var next := NextHistory(config, history, samples[0]);
      if next.Ok? {
        RunIgnoresOtherProfile(config, other, Some(next.value), samples[1..], onBattery);
      }
    }
  }

  // ---------------------------------------------------------------- how the outputs move

  /** A smoother that belongs to this configuration. */
  ghost predicate Fits(config: ValidatedConfig, h: History) {
    Consistent(h.smoother) && h.smoother.policy == config.downshift
  }

  lemma CycleKeepsFit(config: ValidatedConfig, history: Option<History>, sample: Sample)
    requires (history.Some? ==> Fits(config, history.value)) && NextHistory(config, history, sample).Ok?
    ensures Fits(config, NextHistory(config, history, sample).value)
    ensures NextHistory(config, history, sample).value.smoother.lastUpdate == sample.completedAt
    ensures history.Some? ==> history.value.smoother.lastUpdate <= sample.completedAt
  {
    hide TargetDemand;
  }

  /** Both temperatures are within the hysteresis below those of `h`, on the same power. */
  predicate WithinBand(config: ValidatedConfig, h: History, power: ExternalPower, sample: Sample) {
    && sample.power == power
    && h.cpu - config.hysteresis <= sample.cpu <= h.cpu
    && h.gpu - config.hysteresis <= sample.gpu <= h.gpu
  }

  /**
   * No chatter: once the command has reached its target, temperatures that fall by no more than the
   * hysteresis, in whatever pattern, change no output in any cycle.
   */
  lemma {:induction false} SteadyRunKeepsOutputs(config: ValidatedConfig, h: History, power: ExternalPower, samples: seq<Sample>, i: nat)
    requires h.smoother.commanded == TargetDemand(config, h.cpu, h.gpu, power)
    requires forall k :: 0 <= k < |samples| ==> WithinBand(config, h, power, samples[k])
    requires i < |RunOutputs(config, Some(h), samples)|
    ensures RunOutputs(config, Some(h), samples)[i] == OutputsForDemand(config, TargetDemand(config, h.cpu, h.gpu, power))
    decreases i
  {
    hide TargetDemand, OutputsForDemand;
    assert WithinBand(config, h, power, samples[0]);
    if i > 0 {
      SteadyRunKeepsOutputs(config, NextHistory(config, Some(h), samples[0]).value, power, samples[1..], i - 1);
    }
  }

  /** Time does not go back in a run. */
  lemma {:induction false} RunMovesForward(config: ValidatedConfig, h: History, samples: seq<Sample>, j: nat)
    requires j < |RunOutputs(config, Some(h), samples)|
    ensures h.smoother.lastUpdate <= samples[j].completedAt
    decreases j
  {
    hide TargetDemand, OutputsOf;
    if j > 0 {
      RunMovesForward(config, NextHistory(config, Some(h), samples[0]).value, samples[1..], j - 1);
    }
  }

  /** What the configured rate allows between two times. */
  function Fall(config: ValidatedConfig, from: real, to: real): real {
    config.downshift.rate * (to - from)
  }

  lemma FallAdds(config: ValidatedConfig, a: real, b: real, c: real)
    ensures Fall(config, a, b) + Fall(config, b, c) == Fall(config, a, c)
    ensures a <= b ==> Fall(config, a, b) >= 0.0
  {
  }

  lemma CycleFallsWithinRate(config: ValidatedConfig, h: History, sample: Sample)
    requires Fits(config, h) && NextHistory(config, Some(h), sample).Ok?
    ensures NextHistory(config, Some(h), sample).value.smoother.commanded
            >= h.smoother.commanded - Fall(config, h.smoother.lastUpdate, sample.completedAt)
  {
    hide TargetDemand, Advance;
    var next := NextHistory(config, Some(h), sample).value;
    CycleKeepsFit(config, Some(h), sample);
    StepRateBound(h.smoother, Update(TargetDemand(config, next.cpu, next.gpu, sample.power), sample.completedAt));
  }

  /** The demand behind the outputs of cycle `j` is below the demand of `h` by at most rate times elapsed time. */
  lemma {:induction false} RunFallsWithinRate(config: ValidatedConfig, h: History, samples: seq<Sample>, j: nat) returns (demand: Percent)
    requires Fits(config, h) && j < |RunOutputs(config, Some(h), samples)|
    ensures RunOutputs(config, Some(h), samples)[j] == OutputsForDemand(config, demand)
    ensures demand >= h.smoother.commanded - Fall(config, h.smoother.lastUpdate, samples[j].completedAt)
    decreases j
  {
    var next := NextHistory(config, Some(h), samples[0]).value;
    CycleKeepsFit(config, Some(h), samples[0]);
    CycleFallsWithinRate(config, h, samples[0]);
    hide NextHistory, OutputsForDemand, Fall, Fits;
    if j == 0 {
      demand := next.smoother.commanded;
    } else {
      demand := RunFallsWithinRate(config, next, samples[1..], j - 1);
      FallAdds(config, h.smoother.lastUpdate, samples[0].completedAt, samples[j].completedAt);
    }
  }

  /** From `p` to `q` a fan lost at most one step more than `fall` percent of demand. */
  predicate LostAtMost(p: Pwm, q: Pwm, fall: real) {
    (p - 1 - q) as real <= fall * 255.0 / 100.0
  }

  lemma DemandLoss(config: ValidatedConfig, from: Percent, to: Percent, fall: real)
    requires fall >= 0.0 && to >= from - fall
    ensures LostAtMost(OutputsForDemand(config, from).cpu, OutputsForDemand(config, to).cpu, fall)
    ensures LostAtMost(OutputsForDemand(config, from).gpu, OutputsForDemand(config, to).gpu, fall)
  {
    ScaledLoss(Higher(from, config.cpuFloor), Higher(to, config.cpuFloor), fall);
    ScaledLoss(Higher(from, config.gpuFloor), Higher(to, config.gpuFloor), fall);
  }

  lemma ScaledLoss(from: Percent, to: Percent, fall: real)
    requires to >= from - fall
    ensures LostAtMost(ToPwm(from), ToPwm(to), fall)
  {
    hide ToPwm;
    var p, q := ToPwm(from), ToPwm(to);
    if p == 0 {
      assert q >= 0 && to - from >= -fall && from >= 0.0;
      assert from * 255.0 / 100.0 <= 0.0;
    }
    assert to * 255.0 / 100.0 >= (from - fall) * 255.0 / 100.0;
  }

  /** Slew limit: between any two cycles of any run each fan falls no faster than the configured rate, but for one step of rounding. */
  lemma {:induction false} RunSlewLimit(config: ValidatedConfig, history: Option<History>, samples: seq<Sample>, i: nat, j: nat)
    requires history.Some? ==> Fits(config, history.value)
    requires i <= j < |RunOutputs(config, history, samples)|
    ensures var outputs := RunOutputs(config, history, samples);
            var fall := Fall(config, samples[i].completedAt, samples[j].completedAt);
            LostAtMost(outputs[i].cpu, outputs[j].cpu, fall) && LostAtMost(outputs[i].gpu, outputs[j].gpu, fall)
    decreases i
  {
    CycleKeepsFit(config, history, samples[0]);
    hide NextHistory, OutputsForDemand, LostAtMost, Fall, Fits;
    var next := NextHistory(config, history, samples[0]).value;
    if i > 0 {
      RunSlewLimit(config, Some(next), samples[1..], i - 1, j - 1);
    } else {
      var demand := next.smoother.commanded;
      FallAdds(config, samples[0].completedAt, samples[j].completedAt, samples[j].completedAt);
      if j > 0 {
        RunMovesForward(config, next, samples[1..], j - 1);
        demand := RunFallsWithinRate(config, next, samples[1..], j - 1);
      }
      DemandLoss(config, next.smoother.commanded, demand, Fall(config, samples[0].completedAt, samples[j].completedAt));
    }
  }

  /** Nothing is pending from before `t`. */
  ghost predicate PendingNotBefore(s: Smoother, t: real) {
    s.pendingSince.Some? ==> s.pendingSince.value >= t
  }

  lemma HeldStep(s: Smoother, target: Percent, now: Seconds, t: real)
    requires Consistent(s) && s.lastUpdate <= now && t <= s.lastUpdate && PendingNotBefore(s, t) && now <= t + s.policy.hold
    ensures Advance(s, target, now).commanded >= s.commanded && PendingNotBefore(Advance(s, target, now), t)
  {
  }

  /** While the hold is not over since `t`, the demand of `h` is kept. */
  lemma {:induction false} RunHolds(config: ValidatedConfig, h: History, samples: seq<Sample>, j: nat, t: real) returns (demand: Percent)
    requires Fits(config, h) && PendingNotBefore(h.smoother, t) && t <= h.smoother.lastUpdate
    requires j < |RunOutputs(config, Some(h), samples)| && samples[j].completedAt <= t + config.downshift.hold
    ensures RunOutputs(config, Some(h), samples)[j] == OutputsForDemand(config, demand) && demand >= h.smoother.commanded
    decreases j
  {
    var next := NextHistory(config, Some(h), samples[0]).value;
    CycleKeepsFit(config, Some(h), samples[0]);
    if j > 0 {
      RunMovesForward(config, next, samples[1..], j - 1);
    }
    var target := TargetDemand(config, next.cpu, next.gpu, samples[0].power);
    HeldStep(h.smoother, target, samples[0].completedAt, t);
    hide NextHistory, OutputsForDemand, TargetDemand;
    if j == 0 {
      demand := next.smoother.commanded;
    } else {
      demand := RunHolds(config, next, samples[1..], j - 1, t);
    }
  }

  /** A cycle that raised an output left nothing pending. */
  lemma RaiseClearsPending(config: ValidatedConfig, h: History, sample: Sample)
    requires NextHistory(config, Some(h), sample).Ok?
    requires !AtLeast(OutputsOf(config, h), OutputsOf(config, NextHistory(config, Some(h), sample).value))
    ensures NextHistory(config, Some(h), sample).value.smoother.pendingSince.None?
  {
    hide TargetDemand, OutputsForDemand;
    var next := NextHistory(config, Some(h), sample).value;
    if next.smoother.commanded <= h.smoother.commanded {
      OutputsMonotone(config, next.smoother.commanded, h.smoother.commanded);
    }
  }

  /** In every run an output that was raised is kept, on both fans, for the configured hold. */
  lemma {:induction false} RunKeepsRaisedOutputs(config: ValidatedConfig, history: Option<History>, samples: seq<Sample>, i: nat, j: nat)
    requires history.Some? ==> Fits(config, history.value)
    requires 0 < i <= j < |RunOutputs(config, history, samples)|
    requires !AtLeast(RunOutputs(config, history, samples)[i - 1], RunOutputs(config, history, samples)[i])
    requires samples[j].completedAt <= samples[i].completedAt + config.downshift.hold
    ensures AtLeast(RunOutputs(config, history, samples)[j], RunOutputs(config, history, samples)[i])
    decreases i
  {
    CycleKeepsFit(config, history, samples[0]);
    hide NextHistory, OutputsForDemand, AtLeast, Fits;
    var next := NextHistory(config, history, samples[0]).value;
    if i > 1 {
      RunKeepsRaisedOutputs(config, Some(next), samples[1..], i - 1, j - 1);
    } else {
      KeepsRaise(config, next, samples[1..], j - 1);
    }
  }

  lemma KeepsRaise(config: ValidatedConfig, h: History, samples: seq<Sample>, j: nat)
    requires Fits(config, h) && j < |RunOutputs(config, Some(h), samples)|
    requires !AtLeast(OutputsOf(config, h), RunOutputs(config, Some(h), samples)[0])
    requires samples[j].completedAt <= samples[0].completedAt + config.downshift.hold
    ensures AtLeast(RunOutputs(config, Some(h), samples)[j], RunOutputs(config, Some(h), samples)[0])
  {
    CycleKeepsFit(config, Some(h), samples[0]);
    RaiseClearsPending(config, h, samples[0]);
    hide NextHistory, OutputsForDemand, Fits;
    var next := NextHistory(config, Some(h), samples[0]).value;
    if j > 0 {
      var demand := RunHolds(config, next, samples[1..], j - 1, samples[0].completedAt);
      OutputsMonotone(config, next.smoother.commanded, demand);
    }
  }

  lemma MemorylessDominates(candidate: ValidatedConfig, protected: ValidatedConfig, sample: Sample)
    requires ConfigDominates(candidate, protected, 0.0)
    ensures AtLeast(Memoryless(candidate, sample), Memoryless(protected, sample))
  {
    hide Evaluate;
    var low := TargetDemand(protected, sample.cpu, sample.gpu, sample.power);
    var high := TargetDemand(candidate, sample.cpu, sample.gpu, sample.power);
    ToPwmMonotone(Higher(low, protected.cpuFloor), Higher(high, candidate.cpuFloor));
    ToPwmMonotone(Higher(low, protected.gpuFloor), Higher(high, candidate.gpuFloor));
  }

  ghost predicate AtMostOneStepBelow(outputs: FanOutputs, bound: FanOutputs) {
    outputs.cpu + 1 >= bound.cpu && outputs.gpu + 1 >= bound.gpu
  }

  lemma MemorylessNearlyDominates(candidate: ValidatedConfig, protected: ValidatedConfig, sample: Sample)
    requires ConfigDominates(candidate, protected, COMPARISON_EPSILON)
    ensures AtMostOneStepBelow(Memoryless(candidate, sample), Memoryless(protected, sample))
  {
    hide Evaluate;
    var low := TargetDemand(protected, sample.cpu, sample.gpu, sample.power);
    var high := TargetDemand(candidate, sample.cpu, sample.gpu, sample.power);
    ToPwmNearlyMonotone(Higher(high, candidate.cpuFloor), Higher(low, protected.cpuFloor), COMPARISON_EPSILON);
    ToPwmNearlyMonotone(Higher(high, candidate.gpuFloor), Higher(low, protected.gpuFloor), COMPARISON_EPSILON);
  }

  /**
   * End to end: an admitted candidate with non-decreasing curves and integer knots gives, in every
   * cycle of every run, at least the PWM the protected configuration computes for that raw sample.
   */
  lemma AdmittedRunDominates(candidate: ValidatedConfig, protected: ValidatedConfig, samples: seq<Sample>, i: nat)
    requires ValidateAgainstEnvelope(candidate, protected).Ok?
    requires NonDecreasingConfig(candidate) && IntegerConfig(candidate) && IntegerConfig(protected)
    requires i < |RunOutputs(candidate, None, samples)|
    ensures AtLeast(RunOutputs(candidate, None, samples)[i], Memoryless(protected, samples[i]))
  {
    hide ValidateAgainstEnvelope, ConfigDominates, Memoryless;
    AdmissionIsExact(candidate, protected);
    RunCoversMemoryless(candidate, None, samples, i);
    MemorylessDominates(candidate, protected, samples[i]);
  }

  /** Without the integer-knot assumption the epsilon can cost at most one PWM step. */
  lemma AdmittedRunNearlyDominates(candidate: ValidatedConfig, protected: ValidatedConfig, samples: seq<Sample>, i: nat)
    requires ValidateAgainstEnvelope(candidate, protected).Ok?
    requires NonDecreasingConfig(candidate)
    requires i < |RunOutputs(candidate, None, samples)|
    ensures AtMostOneStepBelow(RunOutputs(candidate, None, samples)[i], Memoryless(protected, samples[i]))
  {
    hide ValidateAgainstEnvelope, ConfigDominates, Memoryless;
    AdmissionDecidesDominance(candidate, protected);
    RunCoversMemoryless(candidate, None, samples, i);
    MemorylessNearlyDominates(candidate, protected, samples[i]);
  }

  function FlatConfig(demand: Percent): ValidatedConfig {
    var curve := [CurvePoint(50.0, demand)];
    var profile := Profile(curve, curve);
    ValidatedConfig(3.0, DownshiftValues(10.0, 0.5), 1.0, 1.0, profile, profile)
  }

  /** The step can really be lost: 20 % is admitted against 20.0000000005 %, and gives 51 against 52. */
  lemma OneStepCanBeLost(sample: Sample)
    ensures var candidate, protected := FlatConfig(20.0), FlatConfig(20.0000000005);
            && ValidateAgainstEnvelope(candidate, protected).Ok?
            && Memoryless(candidate, sample) == FanOutputs(51, 51)
            && Memoryless(protected, sample) == FanOutputs(52, 52)
  {
  }

  /**
   * For configurations that pass file validation nothing more need be assumed: admission alone
   * gives dominance over the protected configuration in every cycle of every run.
   */
  lemma ValidatedRunDominates(candidateFile: ConfigV1, protectedFile: ConfigV1, samples: seq<Sample>, i: nat)
    requires ValidateConfig(candidateFile).Ok? && ValidateConfig(protectedFile).Ok?
    requires ValidateAgainstEnvelope(ValidateConfig(candidateFile).value, ValidateConfig(protectedFile).value).Ok?
    requires i < |RunOutputs(ValidateConfig(candidateFile).value, None, samples)|
    ensures AtLeast(RunOutputs(ValidateConfig(candidateFile).value, None, samples)[i],
                    Memoryless(ValidateConfig(protectedFile).value, samples[i]))
  {
    hide ValidateConfig, ValidateAgainstEnvelope, RunOutputs, Memoryless, AtLeast;
    AdmittedRunDominates(ValidateConfig(candidateFile).value, ValidateConfig(protectedFile).value, samples, i);
  }

  /** In every cycle with the CPU at 90 degrees or more, or the GPU at 82, both fans are commanded to 255. */
  lemma HotMeansMaximum(file: ConfigV1, samples: seq<Sample>, i: nat)
    requires ValidateConfig(file).Ok?
    requires i < |RunOutputs(ValidateConfig(file).value, None, samples)|
    requires samples[i].cpu >= 90.0 || samples[i].gpu >= 82.0
    ensures RunOutputs(ValidateConfig(file).value, None, samples)[i] == MAXIMUM_OUTPUTS
  {
    hide ValidateConfig, RunOutputs, Evaluate;
    var config := ValidateConfig(file).value;
    var profile := SelectedProfile(config, samples[i].power);
    RunCoversMemoryless(config, None, samples, i);
    if samples[i].cpu >= 90.0 {
      FullDemandWhenHot(CpuComponent, profile.cpuCurve, samples[i].cpu);
    } else {
      FullDemandWhenHot(GpuComponent, profile.gpuCurve, samples[i].gpu);
    }
    FullDemandIsMaximum();
  }
}
