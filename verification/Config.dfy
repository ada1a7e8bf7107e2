/** Validated configuration (validation.rs) and admission against the protected envelope (envelope.rs). */
module Config {
  import opened Wrappers
  import opened Demand
  import opened Curve
  import opened Policy

  datatype Fan = Cpu | Gpu
  datatype Component = CpuComponent | GpuComponent
  datatype ProfileName = Ac | Battery

  datatype Profile = Profile(cpuCurve: Knots, gpuCurve: Knots)

  datatype ValidatedConfig = ValidatedConfig(
    hysteresis: Hysteresis,
    downshift: Downshift,
    cpuFloor: Percent,
    gpuFloor: Percent,
    ac: Profile,
    battery: Profile)

  // ---------------------------------------------------------------- the file format

  datatype PointConfig = PointConfig(temperature: int, demand: int)

  datatype ProfileConfig = ProfileConfig(cpuCurve: seq<PointConfig>, gpuCurve: seq<PointConfig>)

  datatype ConfigV1 = ConfigV1(
    schemaVersion: int,
    hysteresisCelsius: int,
    holdSeconds: int,
    maxDownRate: real,
    cpuMinimum: int,
    gpuMinimum: int,
    ac: ProfileConfig,
    battery: ProfileConfig)

  datatype ConfigError =
    | UnsupportedSchemaVersion
    | HysteresisOutOfRange
    | LowerDemandHoldOutOfRange
    | MaxDownRampOutOfRange
    | FanMinimumOutOfRange(fan: Fan)
    | CurveTooShort
    | TemperatureOutOfRange(index: nat)
    | DemandOutOfRange(index: nat)
    | TemperaturesNotStrictlyIncreasing(index: nat)
    | DemandDecreases(index: nat)
    | DoesNotReachFullDemand

  const CPU_MAX_TEMPERATURE := 90
  const GPU_MAX_TEMPERATURE := 82

  function MaximumTemperature(component: Component): int {
    if component.CpuComponent? then CPU_MAX_TEMPERATURE else GPU_MAX_TEMPERATURE
  }

  /** What is wrong with point `i`, in the order the checks are made. */
  function PointFault(points: seq<PointConfig>, i: nat, maximum: int): (r: Option<ConfigError>)
    requires i < |points|
  {
    var point := points[i];
    if !(0 <= point.temperature <= maximum) then Some(TemperatureOutOfRange(i))
    else if !(0 <= point.demand <= 100) then Some(DemandOutOfRange(i))
    else if i > 0 && point.temperature <= points[i - 1].temperature then Some(TemperaturesNotStrictlyIncreasing(i))
    else if i > 0 && point.demand < points[i - 1].demand then Some(DemandDecreases(i))
    else None
  }

  /** From point `i` on: in range, strictly hotter and not less demanding than the point before. */
  ghost predicate FaultFree(points: seq<PointConfig>, i: nat, maximum: int) {
    forall j :: i <= j < |points| ==>
                  && 0 <= points[j].temperature <= maximum
                  && 0 <= points[j].demand <= 100
                  && (j > 0 ==> points[j - 1].temperature < points[j].temperature)
                  && (j > 0 ==> points[j - 1].demand <= points[j].demand)
  }

  function FirstFault(points: seq<PointConfig>, i: nat, maximum: int): (r: Option<ConfigError>)
    requires i <= |points|
    ensures r.None? <==> FaultFree(points, i, maximum)
    ensures r.Some? ==> exists k :: i <= k < |points| && PointFault(points, k, maximum) == r && forall j :: i <= j < k ==> PointFault(points, j, maximum).None?
    decreases |points| - i
  {
    if i == |points| then None
    else if PointFault(points, i, maximum).Some? then PointFault(points, i, maximum)
    else FirstFault(points, i + 1, maximum)
  }

  function RuntimePoints(points: seq<PointConfig>): (r: seq<CurvePoint>)
    requires forall i :: 0 <= i < |points| ==> 0 <= points[i].demand <= 100
    ensures |r| == |points|
    ensures forall i :: 0 <= i < |r| ==> r[i] == CurvePoint(points[i].temperature as real, points[i].demand as real)
  {
    seq(|points|, i requires 0 <= i < |points| => CurvePoint(points[i].temperature as real, points[i].demand as real))
  }

  /** What a curve in the file must be: CPU curves end by 90 degrees, GPU curves by 82, at full demand. */
  ghost predicate AcceptableCurve(component: Component, points: seq<PointConfig>) {
    && |points| >= 2
    && FaultFree(points, 0, if component.CpuComponent? then 90 else 82)
    && exists i :: 0 <= i < |points| && points[i].demand == 100
  }

  /** The curve has the file's own points. */
  ghost predicate HasPoints(curve: Knots, points: seq<PointConfig>) {
    && |curve| == |points|
    && forall i :: 0 <= i < |curve| ==> curve[i].temperature == points[i].temperature as real && curve[i].demand == points[i].demand as real
  }

  function ValidateCurve(component: Component, points: seq<PointConfig>): (r: Result<Knots, ConfigError>)
    ensures r.Ok? <==> AcceptableCurve(component, points)
    ensures r.Ok? ==> WellFormed(component, r.value) && HasPoints(r.value, points)
  {
    var maximum := MaximumTemperature(component);
    if |points| < 2 then Err(CurveTooShort)
    else
      var fault := FirstFault(points, 0, maximum);
      if fault.Some? then Err(fault.value)
      else if !exists i :: 0 <= i < |points| && points[i].temperature <= maximum && points[i].demand == 100
      then Err(DoesNotReachFullDemand)
      else
        WellFormedCurve(component, points);
        var runtime := RuntimePoints(points);
        Ok(runtime)
  }

  /** What validation guarantees of a curve. */
  ghost predicate WellFormed(component: Component, curve: Knots) {
    && NonDecreasing(curve)
    && IntegerKnots(curve)
    && (forall i :: 0 <= i < |curve| ==> 0.0 <= curve[i].temperature <= MaximumTemperature(component) as real)
    && curve[|curve| - 1].demand == 100.0
  }

  lemma WellFormedCurve(component: Component, points: seq<PointConfig>)
    requires FaultFree(points, 0, MaximumTemperature(component))
    requires exists i :: 0 <= i < |points| && points[i].demand == 100
    ensures Ordered(RuntimePoints(points)) && WellFormed(component, RuntimePoints(points))
  {
    RuntimeOrdered(points, MaximumTemperature(component));
    RuntimeIntegers(points, MaximumTemperature(component));
    var runtime := RuntimePoints(points);
    var full :| 0 <= full < |points| && points[full].demand == 100;
    hide FaultFree, IntegerKnots;
    NonDecreasingEverywhere(runtime, full, |runtime| - 1);
    assert runtime[full].demand == 100.0;
  }

  lemma RuntimeOrdered(points: seq<PointConfig>, maximum: int)
    requires FaultFree(points, 0, maximum) && points != []
    ensures Ordered(RuntimePoints(points)) && NonDecreasing(RuntimePoints(points))
    ensures forall i :: 0 <= i < |points| ==> 0.0 <= RuntimePoints(points)[i].temperature <= maximum as real
  {
  }

  lemma RuntimeIntegers(points: seq<PointConfig>, maximum: int)
    requires FaultFree(points, 0, maximum) && points != [] && maximum < 1000
    requires Ordered(RuntimePoints(points))
    ensures IntegerKnots(RuntimePoints(points))
  {
  }

  function ValidateMinimum(fan: Fan, value: int): (r: Result<Percent, ConfigError>) {
    if 1 <= value <= 99 then Ok(value as real) else Err(FanMinimumOutOfRange(fan))
  }

  ghost predicate AcceptableProfile(profile: ProfileConfig) {
    AcceptableCurve(CpuComponent, profile.cpuCurve) && AcceptableCurve(GpuComponent, profile.gpuCurve)
  }

  /** What a configuration file must say to be accepted. */
  ghost predicate AcceptableConfig(config: ConfigV1) {
    && config.schemaVersion == 1
    && 3 <= config.hysteresisCelsius <= 10
    && 10 <= config.holdSeconds <= 300
    && 0.1 <= config.maxDownRate <= 1.0
    && 1 <= config.cpuMinimum <= 99
    && 1 <= config.gpuMinimum <= 99
    && AcceptableProfile(config.ac)
    && AcceptableProfile(config.battery)
  }

  /** Every value of the accepted configuration is the file's own. */
  ghost predicate Carries(valid: ValidatedConfig, config: ConfigV1) {
    && valid.hysteresis == config.hysteresisCelsius as real
    && valid.downshift.hold == config.holdSeconds as real
    && valid.downshift.rate == config.maxDownRate
    && valid.cpuFloor == config.cpuMinimum as real
    && valid.gpuFloor == config.gpuMinimum as real
    && HasPoints(valid.ac.cpuCurve, config.ac.cpuCurve)
    && HasPoints(valid.ac.gpuCurve, config.ac.gpuCurve)
    && HasPoints(valid.battery.cpuCurve, config.battery.cpuCurve)
    && HasPoints(valid.battery.gpuCurve, config.battery.gpuCurve)
  }

  function ValidateConfig(config: ConfigV1): (r: Result<ValidatedConfig, ConfigError>)
    ensures r.Ok? <==> AcceptableConfig(config)
    ensures r.Ok? ==> FullyValidated(r.value) && Carries(r.value, config)
  {
    hide AcceptableCurve, WellFormed, HasPoints, ValidateCurve;
    if config.schemaVersion != 1 then Err(UnsupportedSchemaVersion)
    else if !(3 <= config.hysteresisCelsius <= 10) then Err(HysteresisOutOfRange)
    else if !(10 <= config.holdSeconds <= 300) then Err(LowerDemandHoldOutOfRange)
    else if !(0.1 <= config.maxDownRate <= 1.0) then Err(MaxDownRampOutOfRange)
    else
      var cpuFloor := ValidateMinimum(Cpu, config.cpuMinimum);
      var gpuFloor := ValidateMinimum(Gpu, config.gpuMinimum);
      var acCpu := ValidateCurve(CpuComponent, config.ac.cpuCurve);
      var acGpu := ValidateCurve(GpuComponent, config.ac.gpuCurve);
      var batteryCpu := ValidateCurve(CpuComponent, config.battery.cpuCurve);
      var batteryGpu := ValidateCurve(GpuComponent, config.battery.gpuCurve);
      if cpuFloor.Err? then Err(cpuFloor.error)
      else if gpuFloor.Err? then Err(gpuFloor.error)
      else if acCpu.Err? then Err(acCpu.error)
      else if acGpu.Err? then Err(acGpu.error)
      else if batteryCpu.Err? then Err(batteryCpu.error)
      else if batteryGpu.Err? then Err(batteryGpu.error)
      else
        Ok(ValidatedConfig(
             config.hysteresisCelsius as real,
             DownshiftValues(config.holdSeconds as real, config.maxDownRate),
             cpuFloor.value,
             gpuFloor.value,
             Profile(acCpu.value, acGpu.value),
             Profile(batteryCpu.value, batteryGpu.value)))
  }

  ghost predicate WellFormedProfile(profile: Profile) {
    WellFormed(CpuComponent, profile.cpuCurve) && WellFormed(GpuComponent, profile.gpuCurve)
  }

  ghost predicate FullyValidated(config: ValidatedConfig) {
    && WellFormedProfile(config.ac)
    && WellFormedProfile(config.battery)
    && 1.0 <= config.cpuFloor <= 99.0
    && 1.0 <= config.gpuFloor <= 99.0
  }

  /** From its component's critical temperature upwards, a validated curve demands 100 percent. */
  lemma FullDemandWhenHot(component: Component, curve: Knots, t: real)
    requires WellFormed(component, curve)
    requires t >= MaximumTemperature(component) as real
    ensures Evaluate(curve, t) == 100.0
  {
    EvaluateBeyondLast(curve, t);
  }

  // ---------------------------------------------------------------- envelope admission

  datatype EnvelopeError =
    | FanFloorBelowProtected(fan: Fan)
    | CurveBelowProtected(profile: ProfileName, component: Component, temperature: real)

  function ValidateProfile(name: ProfileName, candidate: Profile, protected: Profile): (r: Result<(), EnvelopeError>)
  {
    var cpu := FirstBelow(candidate.cpuCurve, protected.cpuCurve);
    var gpu := FirstBelow(candidate.gpuCurve, protected.gpuCurve);
    if cpu.Some? then Err(CurveBelowProtected(name, CpuComponent, cpu.value))
    else if gpu.Some? then Err(CurveBelowProtected(name, GpuComponent, gpu.value))
    else Ok(())
  }

  function ValidateAgainstEnvelope(candidate: ValidatedConfig, protected: ValidatedConfig): (r: Result<(), EnvelopeError>)
  {
    if candidate.cpuFloor < protected.cpuFloor then Err(FanFloorBelowProtected(Cpu))
    else if candidate.gpuFloor < protected.gpuFloor then Err(FanFloorBelowProtected(Gpu))
    else
      var ac := ValidateProfile(Ac, candidate.ac, protected.ac);
      if ac.Err? then ac else ValidateProfile(Battery, candidate.battery, protected.battery)
  }

  ghost predicate DominatesWithin(candidate: Knots, protected: Knots, slack: real) {
    forall t: real :: Evaluate(candidate, t) + slack >= Evaluate(protected, t)
  }

  ghost predicate ProfileDominates(candidate: Profile, protected: Profile, slack: real) {
    DominatesWithin(candidate.cpuCurve, protected.cpuCurve, slack) && DominatesWithin(candidate.gpuCurve, protected.gpuCurve, slack)
  }

  ghost predicate ConfigDominates(candidate: ValidatedConfig, protected: ValidatedConfig, slack: real) {
    && candidate.cpuFloor >= protected.cpuFloor
    && candidate.gpuFloor >= protected.gpuFloor
    && ProfileDominates(candidate.ac, protected.ac, slack)
    && ProfileDominates(candidate.battery, protected.battery, slack)
  }

  /** Admission looks only at knots and floors, yet decides dominance of all four curves at every temperature. */
  lemma AdmissionDecidesDominance(candidate: ValidatedConfig, protected: ValidatedConfig)
    ensures ValidateAgainstEnvelope(candidate, protected).Ok?
            <==> ConfigDominates(candidate, protected, COMPARISON_EPSILON)
  {
    hide Evaluate, FirstBelow;
    KnotChecksDecideDominance(candidate.ac.cpuCurve, protected.ac.cpuCurve);
    KnotChecksDecideDominance(candidate.ac.gpuCurve, protected.ac.gpuCurve);
    KnotChecksDecideDominance(candidate.battery.cpuCurve, protected.battery.cpuCurve);
    KnotChecksDecideDominance(candidate.battery.gpuCurve, protected.battery.gpuCurve);
  }

  function CurveOf(config: ValidatedConfig, profile: ProfileName, component: Component): Knots {
    var p := if profile.Ac? then config.ac else config.battery;
    if component.CpuComponent? then p.cpuCurve else p.gpuCurve
  }

  /** A refusal names what is wrong: a floor that is lower, or a curve and a temperature at which it is lower by more than the epsilon. */
  lemma RefusalIsTrue(candidate: ValidatedConfig, protected: ValidatedConfig)
    requires ValidateAgainstEnvelope(candidate, protected).Err?
    ensures match ValidateAgainstEnvelope(candidate, protected).error
            case FanFloorBelowProtected(Cpu) => candidate.cpuFloor < protected.cpuFloor
            case FanFloorBelowProtected(Gpu) => candidate.gpuFloor < protected.gpuFloor
            case CurveBelowProtected(profile, component, t) =>
              Evaluate(CurveOf(candidate, profile, component), t) + 0.000000001 < Evaluate(CurveOf(protected, profile, component), t)
  {
    hide Evaluate;
  }

  ghost predicate IntegerProfile(profile: Profile) {
    IntegerKnots(profile.cpuCurve) && IntegerKnots(profile.gpuCurve)
  }

  ghost predicate IntegerConfig(config: ValidatedConfig) {
    IntegerProfile(config.ac) && IntegerProfile(config.battery)
  }

  lemma DominatesExactly(candidate: Knots, protected: Knots)
    requires IntegerKnots(candidate) && IntegerKnots(protected)
    requires FirstBelow(candidate, protected).None?
    ensures DominatesWithin(candidate, protected, 0.0)
  {
    forall t: real
      ensures Evaluate(candidate, t) + 0.0 >= Evaluate(protected, t)
    {
      IntegerKnotsDominateExactly(candidate, protected, t);
    }
  }

  /** With integer knots, admission means dominance with no slack at all. */
  lemma AdmissionIsExact(candidate: ValidatedConfig, protected: ValidatedConfig)
    requires IntegerConfig(candidate) && IntegerConfig(protected)
    requires ValidateAgainstEnvelope(candidate, protected).Ok?
    ensures ConfigDominates(candidate, protected, 0.0)
  {
    hide FirstBelow, DominatesWithin;
    DominatesExactly(candidate.ac.cpuCurve, protected.ac.cpuCurve);
    DominatesExactly(candidate.ac.gpuCurve, protected.ac.gpuCurve);
    DominatesExactly(candidate.battery.cpuCurve, protected.battery.cpuCurve);
    DominatesExactly(candidate.battery.gpuCurve, protected.battery.gpuCurve);
  }
}
