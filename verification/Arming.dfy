/** The only Auto-to-Custom handover (arming.rs). */
module Arming {
  import opened Wrappers
  import opened Demand
  import opened Config
  import opened Output
  import opened Platform
  import opened Restoration
  import opened Ownership
  import opened Controller

  const NORMAL_SAMPLE_CADENCE: Nanos := 2 * SECOND
  const TACHOMETER_RESPONSE_WINDOW: Nanos := 10 * SECOND
  const TACHOMETER_POLL_INTERVAL: Nanos := 250 * MILLISECOND
  const MINIMUM_PLAUSIBLE_RPM := 100
  const MAXIMUM_PLAUSIBLE_RPM := 20_000

  datatype ArmedFanControl = ArmedFanControl(receipt: Receipt, config: ValidatedConfig, cpuRpm: nat, gpuRpm: nat)

  datatype Rpms = Rpms(cpu: nat, gpu: nat)

  datatype ArmingFailure =
    | Policy
    | ForeignOwnershipSample
    | ObsoleteSampleEpoch
    | SampleFromFuture
    | StaleSample
    | DeviceIdentity
    | DeviceChanged
    | ShutdownRequested
    | PlatformFault(fan: Fan)
    | UnexpectedReadback(fan: Fan)
    | InvalidTachometer(fan: Fan)
    | TachometerTimeout(cpuRpm: Option<nat>, gpuRpm: Option<nat>)

  datatype ArmingError =
    | Rejected(reason: ArmingFailure)
    | Recovered(reason: ArmingFailure, restoration: RestorationError, containment: Containment)
    | RestorationFailed(reason: ArmingFailure, restoration: RestorationError, containment: Containment)

  /** Arming was refused before it touched the device. */
  predicate Refused(failure: ArmingFailure) {
    failure.SampleFromFuture? || failure.StaleSample? || failure.DeviceIdentity? || failure.DeviceChanged?
  }

  predicate Plausible(rpm: nat) {
    MINIMUM_PLAUSIBLE_RPM <= rpm <= MAXIMUM_PLAUSIBLE_RPM
  }

  // ---------------------------------------------------------------- causes of failure

  /** The access that a failure blames, where `mode` at 255 was expected. */
  predicate Cause(e: ArmingFailure, c: Call, id: Identity, mode: Mode) {
    match e
    case ShutdownRequested => c == ShutdownPoll(true)
    case DeviceIdentity => c.DeviceLookup? && c.id == id && c.foundAnswer.Err?
    case DeviceChanged => c == DeviceLookup(id, Ok(false))
    case PlatformFault(fan) => Concerns(c, id, fan) && Denied(c)
    case UnexpectedReadback(fan) =>
      || (c.ModeRead? && Concerns(c, id, fan) && c.modeAnswer.Ok? && c.modeAnswer.value != mode)
      || (c.PwmRead? && Concerns(c, id, fan) && c.pwmAnswer.Ok? && c.pwmAnswer.value != MAXIMUM_PWM)
    case InvalidTachometer(fan) =>
      && c.TachometerRead? && Concerns(c, id, fan)
      && (c.rpmAnswer == Err(Malformed) || (c.rpmAnswer.Ok? && c.rpmAnswer.value != 0 && !Plausible(c.rpmAnswer.value)))
    case _ => false
  }

  /** The last access since `before` is to blame. */
  ghost predicate Blames(e: ArmingFailure, before: seq<Call>, after: seq<Call>, id: Identity, mode: Mode) {
    |before| < |after| && Cause(e, after[|after| - 1], id, mode) && !IsTimed(e)
  }

  /** Whatever mode was expected. */
  ghost predicate BlamesAnyway(e: ArmingFailure, before: seq<Call>, after: seq<Call>, id: Identity) {
    Blames(e, before, after, id, Auto) && Blames(e, before, after, id, Custom)
  }

  /** Failures that blame the clock. */
  predicate IsTimed(e: ArmingFailure) {
    e.SampleFromFuture? || e.StaleSample? || e.TachometerTimeout?
  }

  // ---------------------------------------------------------------- the accesses of a successful handover

  /** Mode and duty of both fans are read back, and no shutdown is requested. */
  function ConfirmCalls(id: Identity, outputs: FanOutputs): seq<Call> {
    [ModeRead(id, Cpu, Ok(Custom)), PwmRead(id, Cpu, Ok(outputs.cpu)),
     ModeRead(id, Gpu, Ok(Custom)), PwmRead(id, Gpu, Ok(outputs.gpu)), ShutdownPoll(false)]
  }

  function StageCalls(id: Identity): seq<Call> {
    [ModeRead(id, Cpu, Ok(Auto)), ModeRead(id, Gpu, Ok(Auto)), ShutdownPoll(false),
     PwmWrite(id, Cpu, MAXIMUM_PWM, true), ShutdownPoll(false), PwmWrite(id, Gpu, MAXIMUM_PWM, true), ShutdownPoll(false),
     PwmRead(id, Cpu, Ok(MAXIMUM_PWM)), PwmRead(id, Gpu, Ok(MAXIMUM_PWM)), ShutdownPoll(false)]
  }

  lemma ElsewhereTwice(a: Devices, b: Devices, c: Devices, id: Identity)
    requires Elsewhere(a, b, id) && Elsewhere(b, c, id)
    ensures Elsewhere(a, c, id)
  {
  }

  /** Each staging write is followed by a poll. */
  function StagingCalls(id: Identity, fan: Fan): seq<Call> {
    [PwmWrite(id, fan, MAXIMUM_PWM, true), ShutdownPoll(false)]
  }

  function EnterCalls(id: Identity): seq<Call> {
    [ModeWrite(id, Cpu, Custom, true), ShutdownPoll(false), ModeWrite(id, Gpu, Custom, true), ShutdownPoll(false)]
  }

  /** The last round shows both fans turning, and no shutdown is requested. */
  ghost predicate EndsWithSpeeds(calls: seq<Call>, id: Identity, rpms: Rpms) {
    |calls| >= 3 && calls[|calls| - 3..] == [TachometerRead(id, Cpu, Ok(rpms.cpu)), TachometerRead(id, Gpu, Ok(rpms.gpu)), ShutdownPoll(false)]
  }

  /** After `before`: three confirmations of Custom at 255, with both fans seen turning in between, the second time at `rpms`. */
  ghost predicate Responded(before: seq<Call>, after: seq<Call>, id: Identity, rpms: Rpms) {
    exists first: seq<Call>, seen: Rpms, second: seq<Call> {:trigger EndsWithSpeeds(first, id, seen), EndsWithSpeeds(second, id, rpms)} ::
      && EndsWithSpeeds(first, id, seen) && EndsWithSpeeds(second, id, rpms)
      && after == before + ConfirmCalls(id, MAXIMUM_OUTPUTS) + first + ConfirmCalls(id, MAXIMUM_OUTPUTS) + second + ConfirmCalls(id, MAXIMUM_OUTPUTS)
  }

  lemma FailedWriteBlamed(before: seq<Call>, after: seq<Call>, id: Identity, fan: Fan)
    requires |before| < |after|
    ensures var last := after[|after| - 1];
            (last.ModeWrite? || last.PwmWrite?) && last.id == id && last.fan == fan && !last.ok ==>
              BlamesAnyway(PlatformFault(fan), before, after, id)
  {
  }

  // ---------------------------------------------------------------- single steps

  method EnsureRunning(m: Machine, ghost id: Identity) returns (r: Result<(), ArmingFailure>)
    modifies m`log
    ensures m.OnlyTimePassed() && m.now == old(m.now)
    ensures r.Ok? ==> m.log == old(m.log) + [ShutdownPoll(false)]
    ensures r.Err? ==> r.error == ShutdownRequested && BlamesAnyway(r.error, old(m.log), m.log, id)
  {
    var requested := m.ShutdownRequested();
    r := if requested then Err(ShutdownRequested) else Ok(());
  }

  method ConfirmMode(m: Machine, id: Identity, fan: Fan, mode: Mode) returns (r: Result<(), ArmingFailure>)
    modifies m`now, m`log
    ensures m.OnlyTimePassed()
    ensures r.Ok? ==> id in m.devices && m.devices[id].Of(fan).mode == mode && m.log == old(m.log) + [ModeRead(id, fan, Ok(mode))]
    ensures r.Err? ==> !Refused(r.error) && Blames(r.error, old(m.log), m.log, id, mode)
  {
    var actual := m.ReadMode(id, fan);
    r := if actual.Err? then Err(PlatformFault(fan))
         else if actual.value != mode then Err(UnexpectedReadback(fan))
         else Ok(());
  }

  method ConfirmMaximum(m: Machine, id: Identity, fan: Fan) returns (r: Result<(), ArmingFailure>)
    modifies m`now, m`log
    ensures m.OnlyTimePassed()
    ensures r.Ok? ==> id in m.devices && m.devices[id].Of(fan).pwm == MAXIMUM_PWM && m.log == old(m.log) + [PwmRead(id, fan, Ok(MAXIMUM_PWM))]
    ensures r.Err? ==> !Refused(r.error) && BlamesAnyway(r.error, old(m.log), m.log, id)
  {
    var actual := m.ReadPwm(id, fan);
    r := if actual.Err? then Err(PlatformFault(fan))
         else if actual.value != MAXIMUM_PWM then Err(UnexpectedReadback(fan))
         else Ok(());
  }

  method ConfirmDevice(m: Machine, id: Identity) returns (r: Result<(), ArmingFailure>)
    modifies m`now, m`log
    ensures m.OnlyTimePassed()
    ensures r.Ok? ==> id in m.devices && m.log == old(m.log) + [DeviceLookup(id, Ok(true))]
    ensures r.Err? ==> (r.error.DeviceIdentity? || r.error.DeviceChanged?) && BlamesAnyway(r.error, old(m.log), m.log, id)
  {
    var current := m.DeviceIsCurrent(id);
    r := if current.Err? then Err(DeviceIdentity)
         else if !current.value then Err(DeviceChanged)
         else Ok(());
  }

  method ConfirmCustomAtMaximum(m: Machine, id: Identity) returns (r: Result<(), ArmingFailure>)
    modifies m`now, m`log
    ensures m.OnlyTimePassed()
    ensures r.Ok? ==> BothCustomAt(m.devices, id, MAXIMUM_OUTPUTS) && m.log == old(m.log) + ConfirmCalls(id, MAXIMUM_OUTPUTS)[..4]
    ensures r.Err? ==> !Refused(r.error) && Blames(r.error, old(m.log), m.log, id, Custom)
  {
    hide Cause;
    r := ConfirmMode(m, id, Cpu, Custom);
    if r.Err? { return; }
    r := ConfirmMaximum(m, id, Cpu);
    if r.Err? { return; }
    r := ConfirmMode(m, id, Gpu, Custom);
    if r.Err? { return; }
    r := ConfirmMaximum(m, id, Gpu);
  }

  /** Zero is "not yet turning"; anything else must be plausible. */
  method ReadRpm(m: Machine, id: Identity, fan: Fan) returns (r: Result<Option<nat>, ArmingFailure>)
    modifies m`now, m`log
    ensures m.OnlyTimePassed()
    ensures r.Ok? && r.value.Some? ==> Plausible(r.value.value) && m.log == old(m.log) + [TachometerRead(id, fan, Ok(r.value.value))]
    ensures r.Ok? && r.value.None? ==> m.log == old(m.log) + [TachometerRead(id, fan, Ok(0))]
    ensures r.Err? ==> !Refused(r.error) && BlamesAnyway(r.error, old(m.log), m.log, id)
  {
    var raw := m.ReadTachometer(id, fan);
    if raw == Err(Unavailable) {
      return Err(PlatformFault(fan));
    }
    assert raw.Err? ==> raw.error.Malformed?;
    if raw.Err? || (raw.value != 0 && !Plausible(raw.value)) {
      return Err(InvalidTachometer(fan));
    }
    return Ok(if raw.value == 0 then None else Some(raw.value));
  }

  /** One round of readings. */
  method ReadRound(m: Machine, id: Identity) returns (r: Result<(Option<nat>, Option<nat>), ArmingFailure>)
    modifies m`now, m`log
    ensures m.OnlyTimePassed()
    ensures r.Ok? && r.value.0.Some? && r.value.1.Some? ==>
              && Plausible(r.value.0.value) && Plausible(r.value.1.value)
              && m.log == old(m.log) + [TachometerRead(id, Cpu, Ok(r.value.0.value)), TachometerRead(id, Gpu, Ok(r.value.1.value)), ShutdownPoll(false)]
    ensures r.Err? ==> !Refused(r.error) && BlamesAnyway(r.error, old(m.log), m.log, id)
  {
    hide Cause;
    var cpu := ReadRpm(m, id, Cpu);
    if cpu.Err? { return Err(cpu.error); }
    var gpu := ReadRpm(m, id, Gpu);
    if gpu.Err? { return Err(gpu.error); }
    var running := EnsureRunning(m, id);
    if running.Err? { return Err(running.error); }
    r := Ok((cpu.value, gpu.value));
  }

  /**
   * Polls both tachometers until both turn, and reports speeds read in one round; ends, because every round
   * that does not return waits. It gives up before the deadline only for a cause.
   */
  method AwaitTachometers(m: Machine, id: Identity, deadline: Nanos) returns (r: Result<Rpms, ArmingFailure>)
    modifies m`now, m`log
    ensures m.OnlyTimePassed()
    ensures r.Ok? ==> Plausible(r.value.cpu) && Plausible(r.value.gpu) && EndsWithSpeeds(m.log[|old(m.log)|..], id, r.value)
    ensures r.Err? ==> !Refused(r.error)
    ensures r.Err? ==> if r.error.TachometerTimeout? then m.now >= deadline else BlamesAnyway(r.error, old(m.log), m.log, id)
  {
    hide Cause, Plausible;
    var lastCpu, lastGpu := None, None;
    while true
      invariant m.OnlyTimePassed()
      decreases deadline - m.now
    {
      var running := EnsureRunning(m, id);
      if running.Err? { return Err(running.error); }
      var now := m.MonotonicNow();
      if now >= deadline {
        return Err(TachometerTimeout(lastCpu, lastGpu));
      }
      ghost var before := m.log;
      var round := ReadRound(m, id);
      if round.Err? { return Err(round.error); }
      if round.value.0.Some? && round.value.1.Some? {
        assert m.log[|before|..] == m.log[|m.log| - 3..];
        return Ok(Rpms(round.value.0.value, round.value.1.value));
      }
      lastCpu, lastGpu := round.value.0, round.value.1;
      now := m.MonotonicNow();
      if now >= deadline {
        return Err(TachometerTimeout(lastCpu, lastGpu));
      }
      var wait := if TACHOMETER_POLL_INTERVAL <= deadline - now then TACHOMETER_POLL_INTERVAL else deadline - now;
      m.Delay(wait);
    }
  }

  /** All accesses of a successful arming up to the first confirmation. */
  function ArmingCalls(id: Identity): seq<Call> {
    [ShutdownPoll(false), ShutdownPoll(false), DeviceLookup(id, Ok(true))] + (StageCalls(id) + EnterCalls(id))
  }

  // ---------------------------------------------------------------- the handover

  /** Both fans in Auto with 255 staged and read back: nothing can enter Custom below maximum. */
  ghost predicate Staged(s: Devices, id: Identity) {
    id in s && s[id] == DeviceState(FanState(Auto, MAXIMUM_PWM), FanState(Auto, MAXIMUM_PWM))
  }

  /** Maximum is staged on both fans, CPU first. */
  function StageWrites(id: Identity): seq<Call> {
    [PwmWrite(id, Cpu, MAXIMUM_PWM, true), PwmWrite(id, Gpu, MAXIMUM_PWM, true)]
  }

  /** Then both enter Custom, CPU first. */
  function EnterWrites(id: Identity): seq<Call> {
    [ModeWrite(id, Cpu, Custom, true), ModeWrite(id, Gpu, Custom, true)]
  }

  function HandoverWrites(id: Identity): seq<Call> {
    StageWrites(id) + EnterWrites(id)
  }

  method ConfirmAuto(m: Machine, id: Identity) returns (r: Result<(), ArmingFailure>)
    modifies m`now, m`log
    ensures m.OnlyTimePassed()
    ensures r.Ok? ==> BothAuto(m.devices, id) && m.log == old(m.log) + StageCalls(id)[..3]
    ensures r.Err? ==> !Refused(r.error) && Blames(r.error, old(m.log), m.log, id, Auto)
  {
    r := ConfirmMode(m, id, Cpu, Auto);
    if r.Err? { return; }
    r := ConfirmMode(m, id, Gpu, Auto);
    if r.Err? { return; }
    r := EnsureRunning(m, id);
  }

  method ConfirmStaged(m: Machine, id: Identity) returns (r: Result<(), ArmingFailure>)
    modifies m`now, m`log
    ensures m.OnlyTimePassed()
    ensures r.Ok? ==> id in m.devices && m.devices[id].cpu.pwm == MAXIMUM_PWM && m.devices[id].gpu.pwm == MAXIMUM_PWM
    ensures r.Ok? ==> m.log == old(m.log) + StageCalls(id)[7..]
    ensures r.Err? ==> !Refused(r.error) && Blames(r.error, old(m.log), m.log, id, Auto)
  {
    r := ConfirmMaximum(m, id, Cpu);
    if r.Err? { return; }
    r := ConfirmMaximum(m, id, Gpu);
    if r.Err? { return; }
    r := EnsureRunning(m, id);
  }

  /** The two guarded writes, each made only while both fans are still in Auto. */
  method StageBoth(m: Machine, id: Identity, ghost w: Watch) returns (r: Result<(), ArmingFailure>, ghost made: seq<Call>)
    requires m.Watched(w) && BothAuto(m.devices, id)
    modifies m
    ensures m.Watched(w) && old(m.trace) <= m.trace && old(m.log) <= m.log && old(m.now) <= m.now
    ensures m.commands == old(m.commands) + made && Partly(made, StageWrites(id)) && (r.Ok? ==> made == StageWrites(id))
    ensures Elsewhere(old(m.devices), m.devices, id) && BothAuto(m.devices, id)
    ensures r.Ok? ==> m.log == old(m.log) + StagingCalls(id, Cpu) + StagingCalls(id, Gpu)
    ensures r.Err? ==> !Refused(r.error) && Blames(r.error, old(m.log), m.log, id, Auto)
  {
    hide Cause, StagingCalls, Elsewhere;
    ghost var cpu, gpu;
    ghost var first := m.devices;
    made := [];
    r, cpu := StageOne(m, id, Cpu, w);
    made := [PwmWrite(id, Cpu, MAXIMUM_PWM, cpu)];
    if r.Err? { return; }
    ghost var second := m.devices;
    r, gpu := StageOne(m, id, Gpu, w);
    ElsewhereTwice(first, second, m.devices, id);
    made := made + [PwmWrite(id, Gpu, MAXIMUM_PWM, gpu)];
    assert m.commands == old(m.commands) + made;
  }

  /** One guarded write, after which a shutdown request is noticed. */
  method StageOne(m: Machine, id: Identity, fan: Fan, ghost w: Watch) returns (r: Result<(), ArmingFailure>, ghost written: bool)
    requires m.Watched(w) && BothAuto(m.devices, id)
    modifies m
    ensures m.Watched(w) && old(m.trace) <= m.trace && old(m.log) <= m.log && old(m.now) <= m.now
    ensures m.commands == old(m.commands) + [PwmWrite(id, fan, MAXIMUM_PWM, written)]
    ensures r.Ok? ==> written && m.log == old(m.log) + StagingCalls(id, fan)
    ensures Elsewhere(old(m.devices), m.devices, id) && BothAuto(m.devices, id)
    ensures r.Err? ==> !Refused(r.error) && BlamesAnyway(r.error, old(m.log), m.log, id)
  {
    hide Cause;
    var ok := m.WritePwm(id, fan, MAXIMUM_PWM, Require(Auto, Auto), w);
    written := ok;
    FailedWriteBlamed(old(m.log), m.log, id, fan);
    if !ok { return Err(PlatformFault(fan)), written; }
    r := EnsureRunning(m, id);
  }

  method Stage(m: Machine, id: Identity, ghost w: Watch) returns (r: Result<(), ArmingFailure>, ghost made: seq<Call>)
    requires m.Watched(w)
    modifies m
    ensures m.Watched(w) && old(m.trace) <= m.trace && old(m.log) <= m.log && old(m.now) <= m.now
    ensures m.commands == old(m.commands) + made && Partly(made, StageWrites(id)) && (r.Ok? ==> made == StageWrites(id))
    ensures Elsewhere(old(m.devices), m.devices, id)
    ensures r.Ok? ==> Staged(m.devices, id) && m.log == old(m.log) + StageCalls(id)
    ensures r.Err? ==> !Refused(r.error) && Blames(r.error, old(m.log), m.log, id, Auto)
  {
    hide StageWrites, Cause, StageCalls, StagingCalls;
    made := [];
    r := ConfirmAuto(m, id);
    if r.Err? { return; }
    r, made := StageBoth(m, id, w);
    if r.Err? { return; }
    r := ConfirmStaged(m, id);
    StageCallsInParts(id);
  }

  lemma StageCallsInParts(id: Identity)
    ensures |StageCalls(id)| == 10
    ensures StageCalls(id) == StageCalls(id)[..3] + StagingCalls(id, Cpu) + StagingCalls(id, Gpu) + StageCalls(id)[7..]
  {
  }

  /** CPU first, then GPU, each guarded by the modes expected at that point. */
  method EnterCustom(m: Machine, id: Identity, ghost w: Watch) returns (r: Result<(), ArmingFailure>, ghost made: seq<Call>)
    requires m.Watched(w) && Staged(m.devices, id)
    modifies m
    ensures m.Watched(w) && old(m.trace) <= m.trace && old(m.log) <= m.log && old(m.now) <= m.now
    ensures m.commands == old(m.commands) + made && Partly(made, EnterWrites(id)) && (r.Ok? ==> made == EnterWrites(id))
    ensures Elsewhere(old(m.devices), m.devices, id)
    ensures r.Ok? ==> BothCustomAt(m.devices, id, MAXIMUM_OUTPUTS) && m.log == old(m.log) + EnterCalls(id)
    ensures r.Err? ==> !Refused(r.error) && BlamesAnyway(r.error, old(m.log), m.log, id)
  {
    hide Cause, Elsewhere;
    ghost var cpu, gpu;
    ghost var first := m.devices;
    made := [];
    r, cpu := EnterOne(m, id, Cpu, w);
    made := [ModeWrite(id, Cpu, Custom, cpu)];
    if r.Err? { return; }
    ghost var second := m.devices;
    r, gpu := EnterOne(m, id, Gpu, w);
    ElsewhereTwice(first, second, m.devices, id);
    made := made + [ModeWrite(id, Gpu, Custom, gpu)];
    assert m.commands == old(m.commands) + made;
  }

  /** Where the handover is when the fan is about to enter Custom: the CPU fan goes first. */
  ghost predicate ReadyToEnter(s: Devices, id: Identity, fan: Fan) {
    id in s && s[id] == DeviceState(FanState(if fan.Cpu? then Auto else Custom, MAXIMUM_PWM), FanState(Auto, MAXIMUM_PWM))
  }

  method EnterOne(m: Machine, id: Identity, fan: Fan, ghost w: Watch) returns (r: Result<(), ArmingFailure>, ghost written: bool)
    requires m.Watched(w) && ReadyToEnter(m.devices, id, fan)
    modifies m
    ensures m.Watched(w) && old(m.trace) <= m.trace && old(m.log) <= m.log && old(m.now) <= m.now
    ensures m.commands == old(m.commands) + [ModeWrite(id, fan, Custom, written)]
    ensures r.Ok? ==> written && m.log == old(m.log) + [ModeWrite(id, fan, Custom, true), ShutdownPoll(false)]
    ensures Elsewhere(old(m.devices), m.devices, id)
    ensures r.Ok? ==> if fan.Cpu? then ReadyToEnter(m.devices, id, Gpu) else BothCustomAt(m.devices, id, MAXIMUM_OUTPUTS)
    ensures r.Err? ==> !Refused(r.error) && BlamesAnyway(r.error, old(m.log), m.log, id)
  {
    hide Cause;
    var ok := m.WriteMode(id, fan, Custom, Require(if fan.Cpu? then Auto else Custom, Auto), w);
    written := ok;
    FailedWriteBlamed(old(m.log), m.log, id, fan);
    if !ok { return Err(PlatformFault(fan)), written; }
    r := EnsureRunning(m, id);
  }

  method ConfirmHandedOver(m: Machine, id: Identity) returns (r: Result<(), ArmingFailure>)
    modifies m`now, m`log
    ensures m.OnlyTimePassed()
    ensures r.Ok? ==> BothCustomAt(m.devices, id, MAXIMUM_OUTPUTS) && m.log == old(m.log) + ConfirmCalls(id, MAXIMUM_OUTPUTS)
    ensures r.Err? ==> !Refused(r.error) && Blames(r.error, old(m.log), m.log, id, Custom)
  {
    hide Cause, BothCustomAt;
    r := ConfirmCustomAtMaximum(m, id);
    if r.Err? { return; }
    r := EnsureRunning(m, id);
  }

  /** Both fans must turn at maximum, checked before and after the final confirmation within one window. */
  method AwaitResponse(m: Machine, id: Identity) returns (r: Result<Rpms, ArmingFailure>)
    modifies m`now, m`log
    ensures m.OnlyTimePassed()
    ensures r.Ok? ==> BothCustomAt(m.devices, id, MAXIMUM_OUTPUTS) && Plausible(r.value.cpu) && Plausible(r.value.gpu)
    ensures r.Ok? ==> Responded(old(m.log), m.log, id, r.value)
    ensures r.Err? ==> !Refused(r.error)
    ensures r.Err? ==> if r.error.TachometerTimeout? then m.now >= old(m.now) + TACHOMETER_RESPONSE_WINDOW
                       else Blames(r.error, old(m.log), m.log, id, Custom)
  {
    hide Cause, EndsWithSpeeds, Plausible, BothCustomAt, Refused, ConfirmCalls;
    var confirmed := ConfirmHandedOver(m, id);
    if confirmed.Err? { return Err(confirmed.error); }
    var now := m.MonotonicNow();
    var deadline := now + TACHOMETER_RESPONSE_WINDOW;
    ghost var a := m.log;
    r := AwaitTachometers(m, id, deadline);
    if r.Err? { return; }
    ghost var first, seen := m.log[|a|..], r.value;
    confirmed := ConfirmHandedOver(m, id);
    if confirmed.Err? { return Err(confirmed.error); }
    ghost var b := m.log;
    r := AwaitTachometers(m, id, deadline);
    if r.Err? { return; }
    ghost var second := m.log[|b|..];
    assert m.log == b + second;
    confirmed := ConfirmHandedOver(m, id);
    if confirmed.Err? { return Err(confirmed.error); }
    assert b == a + first + ConfirmCalls(id, MAXIMUM_OUTPUTS);
    assert EndsWithSpeeds(first, id, seen) && EndsWithSpeeds(second, id, r.value);
  }

  /**
   * Whatever fails and wherever, no observer ever sees a fan enter Custom below its bound, even with
   * the bound at maximum; the writes are those of the handover, in order, up to the first that failed;
   * success leaves both fans in Custom at 255 and was begun on a sample at most two seconds old.
   */
  method Arm(m: Machine, id: Identity, completedAt: Nanos, ghost w: Watch) returns (r: Result<Rpms, ArmingFailure>, ghost made: seq<Call>)
    requires m.Watched(w)
    modifies m
    ensures m.Watched(w) && old(m.trace) <= m.trace && old(m.log) <= m.log && old(m.now) <= m.now
    ensures m.commands == old(m.commands) + made && Partly(made, HandoverWrites(id)) && (r.Ok? ==> made == HandoverWrites(id))
    ensures Elsewhere(old(m.devices), m.devices, id)
    ensures r.Ok? ==> BothCustomAt(m.devices, id, MAXIMUM_OUTPUTS) && Plausible(r.value.cpu) && Plausible(r.value.gpu)
    ensures r.Ok? ==> Responded(old(m.log) + [ShutdownPoll(false), DeviceLookup(id, Ok(true))] + (StageCalls(id) + EnterCalls(id)), m.log, id, r.value)
    ensures made != [] ==> exists startedAt :: old(m.now) <= startedAt <= m.now && FreshAt(completedAt, startedAt)
    ensures r == Err(SampleFromFuture) ==> old(m.now) < completedAt
    ensures r == Err(StaleSample) ==> m.now > completedAt + NORMAL_SAMPLE_CADENCE
    ensures r.Err? && Refused(r.error) ==> m.devices == old(m.devices) && made == []
    ensures r.Err? && !IsTimed(r.error) ==> Blames(r.error, old(m.log), m.log, id, if made == HandoverWrites(id) then Custom else Auto)
    ensures r.Err? && r.error.TachometerTimeout? ==> made == HandoverWrites(id) && m.now >= old(m.now) + TACHOMETER_RESPONSE_WINDOW
  {
    hide HandoverWrites, Responded, StageCalls, EnterCalls, BothCustomAt, Plausible, Partly;
    EmptyPlan(HandoverWrites(id));
    made := [];
    var step := EnsureRunning(m, id);
    if step.Err? { return Err(step.error), made; }
    var startedAt := m.MonotonicNow();
    if startedAt < completedAt { return Err(SampleFromFuture), made; }
    if startedAt - completedAt > NORMAL_SAMPLE_CADENCE { return Err(StaleSample), made; }
    assert FreshAt(completedAt, startedAt);
    step := ConfirmDevice(m, id);
    if step.Err? { return Err(step.error), made; }
    assert m.log == old(m.log) + [ShutdownPoll(false), DeviceLookup(id, Ok(true))];
    r, made := Handover(m, id, w);
  }

  lemma EmptyPlan(plan: seq<Call>)
    ensures Partly([], plan)
  {
  }

  /** The sample was complete and at most two seconds old. */
  predicate FreshAt(completedAt: Nanos, startedAt: Nanos) {
    completedAt <= startedAt <= completedAt + NORMAL_SAMPLE_CADENCE
  }

  method Handover(m: Machine, id: Identity, ghost w: Watch) returns (r: Result<Rpms, ArmingFailure>, ghost made: seq<Call>)
    requires m.Watched(w)
    modifies m
    ensures m.Watched(w) && old(m.trace) <= m.trace && old(m.log) <= m.log && old(m.now) <= m.now
    ensures m.commands == old(m.commands) + made && Partly(made, HandoverWrites(id)) && (r.Ok? ==> made == HandoverWrites(id))
    ensures Elsewhere(old(m.devices), m.devices, id)
    ensures r.Ok? ==> BothCustomAt(m.devices, id, MAXIMUM_OUTPUTS) && Plausible(r.value.cpu) && Plausible(r.value.gpu)
    ensures r.Ok? ==> Responded(old(m.log) + (StageCalls(id) + EnterCalls(id)), m.log, id, r.value)
    ensures r.Err? ==> !Refused(r.error)
    ensures r.Err? ==> if r.error.TachometerTimeout? then made == HandoverWrites(id) && m.now >= old(m.now) + TACHOMETER_RESPONSE_WINDOW
                       else Blames(r.error, old(m.log), m.log, id, if made == HandoverWrites(id) then Custom else Auto)
  {
    hide BothCustomAt, Plausible, Staged, Cause, Responded, StageCalls, EnterCalls;
    ghost var begun := m.commands;
    ghost var staged, entered;
    var step;
    step, staged := Stage(m, id, w);
    made := staged;
    if step.Err? { return Err(step.error), made; }
    step, entered := EnterCustom(m, id, w);
    made := staged + entered;
    Reassociate(begun, staged, entered);
    if step.Err? { return Err(step.error), made; }
    assert m.log == old(m.log) + (StageCalls(id) + EnterCalls(id));
    r := AwaitResponse(m, id);
  }

  /** The clock, or some access at or after position `from`, explains the failure. */
  ghost predicate Explained(e: ArmingFailure, log: seq<Call>, from: nat, id: Identity) {
    IsTimed(e) || exists k :: from <= k < |log| && (Cause(e, log[k], id, Auto) || Cause(e, log[k], id, Custom))
  }

  /** Every refusal has its reason: the verdict, the sample, the clock or an access that went wrong. */
  ghost predicate Deserved(e: ArmingFailure, c: Core, admitted: bool, sample: ReadySample, log: seq<Call>, from: nat, id: Identity) {
    match e
    case Policy => !admitted
    case ForeignOwnershipSample => admitted && sample.ownershipId != c.id
    case ObsoleteSampleEpoch => admitted && sample.ownershipId == c.id && sample.epoch != c.epoch
    case _ => admitted && Explained(e, log, from, id)
  }

  lemma BlameIsDeserved(e: ArmingFailure, c: Core, sample: ReadySample, before: seq<Call>, after: seq<Call>, longer: seq<Call>, id: Identity)
    requires IsTimed(e) || Blames(e, before, after, id, Auto) || Blames(e, before, after, id, Custom)
    requires after <= longer
    ensures Deserved(e, c, true, sample, longer, |before|, id)
  {
    if !IsTimed(e) {
      assert longer[|after| - 1] == after[|after| - 1];
    }
  }

  /** Takes the device out of Auto's charge, arms, and records the receipt on success. */
  method BeginAndArm(own: ControllerOwnership, device: Identity, sample: ReadySample, ghost w: Watch)
    returns (r: Result<(Receipt, Rpms), ArmingFailure>)
    requires own.Valid() && own.lockHeld && own.machine.Watched(w) && sample in own.issued && Usable(own.View().core, sample)
    modifies own, own.machine
    ensures own.machine.Watched(w) && old(own.machine.trace) <= own.machine.trace && old(own.machine.log) <= own.machine.log
    ensures own.Valid() && own.handed == old(own.handed) + {device}
    ensures r.Ok? ==> own.machine.commands == old(own.machine.commands) + HandoverWrites(device)
    ensures var begun := old(own.View()).(core := BeginCustom(old(own.View().core), device), outstanding := old(own.outstanding) + {device});
            own.View() == (if r.Ok? then begun.(receipts := begun.receipts + {r.value.0}) else begun)
    ensures r.Ok? ==> r.value.0 == Receipt(own.ownershipId, own.epoch, device)
    ensures r.Ok? ==> BothCustomAt(own.machine.devices, device, MAXIMUM_OUTPUTS) && Plausible(r.value.1.cpu) && Plausible(r.value.1.gpu)
    ensures r.Ok? ==> Responded(old(own.machine.log) + [ShutdownPoll(false), DeviceLookup(device, Ok(true))] + (StageCalls(device) + EnterCalls(device)),
                                own.machine.log, device, r.value.1)
    ensures r.Err? ==> IsTimed(r.error) || Blames(r.error, old(own.machine.log), own.machine.log, device, Auto)
                       || Blames(r.error, old(own.machine.log), own.machine.log, device, Custom)
  {
    hide Invariant, BothCustomAt, Plausible, HandoverWrites, Partly, Blames, Responded, StageCalls, EnterCalls;
    own.BeginCustomTransition(device, sample);
    var armed, made := Arm(own.machine, device, sample.completedAt, w);
    if armed.Err? {
      return Err(armed.error);
    }
    var receipt := own.RecordReceipt(device);
    r := Ok((receipt, armed.value));
  }

  /**
   * Arming under ownership. `admitted` is the policy authority's verdict on the candidate. A failure
   * anywhere restores or contains in the same call.
   */
  method ArmBothFans(own: ControllerOwnership, device: Identity, config: ValidatedConfig, admitted: bool, sample: ReadySample, ghost w: Watch)
    returns (r: Result<ArmedFanControl, ArmingError>, ghost op: Operation)
    requires own.Valid() && own.lockHeld && own.machine.Watched(w)
    requires sample.ownershipId == own.ownershipId ==> sample in own.issued
    modifies own, own.machine
    ensures own.machine.Watched(w) && old(own.machine.trace) <= own.machine.trace
    ensures own.Valid() && own.View() == Step(old(own.View()), op)
    ensures op.Arm? && op.device == device && op.sample == sample && Unforged(old(own.View()), op)
    ensures op.armed == r.Ok? && (op.admitted ==> admitted) && (r.Ok? ==> Begins(old(own.View().core), op))
    ensures !admitted ==> r.Err? && r.error.reason == Policy
    ensures own.issued == old(own.issued) && own.handed in {old(own.handed), old(own.handed) + {device}}
    ensures r.Ok? ==> Responded(old(own.machine.log) + ArmingCalls(device), own.machine.log, device, Rpms(r.value.cpuRpm, r.value.gpuRpm))
    ensures r.Ok? ==> Handed(own, device, config, r.value) && own.machine.commands == old(own.machine.commands) + HandoverWrites(device)
    ensures r.Err? ==> CommandsAuto(own.machine.log, |old(own.machine.log)|, device)
    ensures r.Err? ==> Deserved(r.error.reason, old(own.View().core), admitted, sample, own.machine.log, |old(own.machine.log)|, device)
    ensures r.Err? && !r.error.RestorationFailed? ==> BothAuto(own.machine.devices, device) && own.restorationConfirmed
    ensures r.Err? && !old(Usable(own.View().core, sample)) ==> OnlySafed(old(own.machine.devices), own.machine.devices, device)
  {
    hide Invariant, OnlySafed, BothAuto, Plausible, BothCustomAt, HandoverWrites, SafingCalls, CommandsAuto, Cause, Explained, Responded, StageCalls, EnterCalls, AllAuto;
    var failure: ArmingFailure;
    var running := EnsureRunning(own.machine, device);
    var begins := admitted && running.Ok? && sample.ownershipId == own.ownershipId && sample.epoch == own.epoch;
    if begins {
      ghost var polled := own.machine.log;
      var armed := BeginAndArm(own, device, sample, w);
      if armed.Ok? {
        assert polled + [ShutdownPoll(false), DeviceLookup(device, Ok(true))] + (StageCalls(device) + EnterCalls(device))
               == old(own.machine.log) + ArmingCalls(device);
        op := Operation.Arm(device, sample, true, true, false, false);
        return Ok(ArmedFanControl(armed.value.0, config, armed.value.1.cpu, armed.value.1.gpu)), op;
      }
      failure := armed.error;
    } else {
      failure := if !admitted then Policy
                 else if running.Err? then running.error
                 else if sample.ownershipId != own.ownershipId then ForeignOwnershipSample
                 else ObsoleteSampleEpoch;
    }
    ghost var restored, contained;
    ghost var begun, tried := old(own.machine.log), own.machine.log;
    var error;
    error, restored, contained := SafeAfterFailure(own, device, failure, w);
    CommandsAutoSince(own.machine.log, |begun|, |tried|, device);
    if begins || (admitted && running.Err?) {
      BlameIsDeserved(failure, old(own.View().core), sample, begun, tried, own.machine.log, device);
    }
    op := Operation.Arm(device, sample, admitted && running.Ok?, false, restored, contained);
    r := Err(error);
  }

  /** A failure restores, or failing that contains, and reports which. */
  method SafeAfterFailure(own: ControllerOwnership, device: Identity, failure: ArmingFailure, ghost w: Watch)
    returns (r: ArmingError, ghost restored: bool, ghost contained: bool)
    requires own.Valid() && own.lockHeld && own.machine.Watched(w)
    modifies own, own.machine
    ensures own.machine.Watched(w) && old(own.machine.trace) <= own.machine.trace && old(own.machine.log) <= own.machine.log
    ensures own.Valid() && own.View() == Step(old(own.View()), RestoreOrContain(device, restored, contained)) && own.handed == old(own.handed)
    ensures CommandsAuto(own.machine.log, |old(own.machine.log)|, device)
    ensures r.reason == failure && (!r.RestorationFailed? <==> own.restorationConfirmed)
    ensures !r.RestorationFailed? ==> BothAuto(own.machine.devices, device)
    ensures OnlySafed(old(own.machine.devices), own.machine.devices, device)
  {
    hide Invariant, OnlySafed, BothAuto, SafingCalls, CommandsAuto, Step, AllAuto, StatusHolds;
    var outcome;
    ghost var tries;
    ghost var begun := own.machine.log;
    outcome, restored, contained, tries := own.RestoreOrContainFirmwareAuto(device, w);
    SafingCommandsAuto(begun, begun, device, outcome, tries);
    r := match outcome
         case Restored => Rejected(failure)
         case Contained(restoration, containment) => Recovered(failure, restoration, containment)
         case Critical(restoration, containment) => RestorationFailed(failure, restoration, containment);
  }

  lemma CommandsAutoSince(log: seq<Call>, from: nat, later: nat, device: Identity)
    requires CommandsAuto(log, later, device) && from <= later
    ensures CommandsAuto(log, from, device)
  {
  }

  /** Auto was commanded on both fans at or after position `from`. */
  ghost predicate CommandsAuto(log: seq<Call>, from: nat, device: Identity) {
    exists k :: from <= k && k + 1 < |log|
             && log[k].ModeWrite? && log[k] == ModeWrite(device, Cpu, Auto, log[k].ok)
             && log[k + 1].ModeWrite? && log[k + 1] == ModeWrite(device, Gpu, Auto, log[k + 1].ok)
  }

  lemma SafingCommandsAuto(begun: seq<Call>, heard: seq<Call>, device: Identity, outcome: SafingOutcome, tries: seq<Try>)
    requires begun <= heard && tries != []
    ensures CommandsAuto(heard + SafingCalls(device, outcome, tries), |begun|, device)
  {
    var log := heard + SafingCalls(device, outcome, tries);
    var first := TryCalls(device, tries[0]);
    FirstTry(device, tries);
    var k := |heard|;
    assert log[k] == first[0] && log[k + 1] == first[1];
  }

  lemma {:induction false} FirstTry(device: Identity, tries: seq<Try>)
    requires tries != []
    ensures TryCalls(device, tries[0]) <= AllTryCalls(device, tries)
  {
    hide TryCalls;
    if |tries| == 1 {
      assert AllTryCalls(device, tries[..0]) == [];
    } else {
      FirstTry(device, tries[..|tries| - 1]);
    }
  }

  /** What a receipt stands for at the moment it is issued. */
  ghost predicate Handed(own: ControllerOwnership, device: Identity, config: ValidatedConfig, armed: ArmedFanControl)
    reads own, own.machine
  {
    && armed.config == config && armed.receipt.device == device
    && armed.receipt in own.receipts && Current(own.View().core, armed.receipt)
    && BothCustomAt(own.machine.devices, device, MAXIMUM_OUTPUTS)
    && Plausible(armed.cpuRpm) && Plausible(armed.gpuRpm)
  }
}
