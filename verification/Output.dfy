/** Memoryless fan outputs: profile selection, shared demand, per-fan floors (output.rs). */
module Output {
  import opened Demand
  import opened Curve
  import opened Config

  datatype ExternalPower = Connected | Disconnected | Unknown

  datatype FanOutputs = FanOutputs(cpu: Pwm, gpu: Pwm)

  const MAXIMUM_OUTPUTS := FanOutputs(MAXIMUM_PWM, MAXIMUM_PWM)

  function SelectedProfile(config: ValidatedConfig, power: ExternalPower): (r: Profile) {
    match power
    case Disconnected => config.battery
    case Connected | Unknown => config.ac
  }

  function TargetDemand(config: ValidatedConfig, cpu: real, gpu: real, power: ExternalPower): (r: Percent) {
    var profile := SelectedProfile(config, power);
    Higher(Evaluate(profile.cpuCurve, cpu), Evaluate(profile.gpuCurve, gpu))
  }

  function OutputsForDemand(config: ValidatedConfig, demand: Percent): (r: FanOutputs) {
    FanOutputs(ToPwm(Higher(demand, config.cpuFloor)), ToPwm(Higher(demand, config.gpuFloor)))
  }

  function CalculateOutputs(config: ValidatedConfig, cpu: real, gpu: real, power: ExternalPower): (r: FanOutputs) {
    OutputsForDemand(config, TargetDemand(config, cpu, gpu, power))
  }

  ghost predicate AtLeast(outputs: FanOutputs, bound: FanOutputs) {
    outputs.cpu >= bound.cpu && outputs.gpu >= bound.gpu
  }

  /** The PWM of each fan's configured floor. */
  function FloorOutputs(config: ValidatedConfig): (r: FanOutputs) {
    FanOutputs(ToPwm(config.cpuFloor), ToPwm(config.gpuFloor))
  }

  lemma OutputsMonotone(config: ValidatedConfig, low: Percent, high: Percent)
    requires low <= high
    ensures AtLeast(OutputsForDemand(config, high), OutputsForDemand(config, low))
    ensures AtLeast(OutputsForDemand(config, low), FloorOutputs(config))
  {
  }

  // ---------------------------------------------------------------- what the outputs are

  /** The least PWM step that covers a fan's floor and the demand of both components. */
  ghost predicate LeastCovering(p: Pwm, floor: real, cpuDemand: real, gpuDemand: real) {
    && Covers(p, floor) && Covers(p, cpuDemand) && Covers(p, gpuDemand)
    && (p > 0 ==> !(Covers(p - 1, floor) && Covers(p - 1, cpuDemand) && Covers(p - 1, gpuDemand)))
  }

  /**
   * Battery curves on battery power, AC curves on AC and on unknown power; each fan gets the least step
   * covering its own floor, the CPU curve at the CPU temperature and the GPU curve at the GPU temperature.
   */
  lemma OutputsAreLeastCovering(config: ValidatedConfig, cpu: real, gpu: real)
    ensures var onBattery := CalculateOutputs(config, cpu, gpu, Disconnected);
            && LeastCovering(onBattery.cpu, config.cpuFloor, Evaluate(config.battery.cpuCurve, cpu), Evaluate(config.battery.gpuCurve, gpu))
            && LeastCovering(onBattery.gpu, config.gpuFloor, Evaluate(config.battery.cpuCurve, cpu), Evaluate(config.battery.gpuCurve, gpu))
    ensures var onAc := CalculateOutputs(config, cpu, gpu, Connected);
            && LeastCovering(onAc.cpu, config.cpuFloor, Evaluate(config.ac.cpuCurve, cpu), Evaluate(config.ac.gpuCurve, gpu))
            && LeastCovering(onAc.gpu, config.gpuFloor, Evaluate(config.ac.cpuCurve, cpu), Evaluate(config.ac.gpuCurve, gpu))
    ensures CalculateOutputs(config, cpu, gpu, Unknown) == CalculateOutputs(config, cpu, gpu, Connected)
  {
    hide Evaluate;
    var battery, ac := config.battery, config.ac;
    HighestCovered(config.cpuFloor, Evaluate(battery.cpuCurve, cpu), Evaluate(battery.gpuCurve, gpu));
    HighestCovered(config.gpuFloor, Evaluate(battery.cpuCurve, cpu), Evaluate(battery.gpuCurve, gpu));
    HighestCovered(config.cpuFloor, Evaluate(ac.cpuCurve, cpu), Evaluate(ac.gpuCurve, gpu));
    HighestCovered(config.gpuFloor, Evaluate(ac.cpuCurve, cpu), Evaluate(ac.gpuCurve, gpu));
  }

  /** The shared demand is exactly the higher of the two curves of the profile in force. */
  lemma TargetIsHigherCurve(config: ValidatedConfig, cpu: real, gpu: real, power: ExternalPower)
    ensures var profile := if power == Disconnected then config.battery else config.ac;
            var c, g := Evaluate(profile.cpuCurve, cpu), Evaluate(profile.gpuCurve, gpu);
            TargetDemand(config, cpu, gpu, power) == if c >= g then c else g
  {
    hide Evaluate;
  }

  lemma HighestCovered(floor: Percent, cpuDemand: Percent, gpuDemand: Percent)
    ensures LeastCovering(ToPwm(Higher(Higher(cpuDemand, gpuDemand), floor)), floor, cpuDemand, gpuDemand)
  {
    var highest: real := Higher(Higher(cpuDemand, gpuDemand), floor);
    assert floor * 255.0 / 100.0 <= highest * 255.0 / 100.0;
    assert cpuDemand * 255.0 / 100.0 <= highest * 255.0 / 100.0;
    assert gpuDemand * 255.0 / 100.0 <= highest * 255.0 / 100.0;
  }

  /** The other power state's profile has no influence on the demand. */
  lemma OtherProfileIgnored(config: ValidatedConfig, other: Profile, cpu: real, gpu: real, power: ExternalPower)
    ensures power == Disconnected ==> TargetDemand(config.(ac := other), cpu, gpu, power) == TargetDemand(config, cpu, gpu, power)
    ensures power != Disconnected ==> TargetDemand(config.(battery := other), cpu, gpu, power) == TargetDemand(config, cpu, gpu, power)
    ensures TargetDemand(config, cpu, gpu, Unknown) == TargetDemand(config, cpu, gpu, Connected)
  {
    hide Evaluate;
  }
}
