/** One serialized normal-control cycle (control_cycle.rs) and the agreement it keeps with the machine. */
module ControlCycle {
  import opened Wrappers
  import opened Demand
  import opened Policy
  import opened Config
  import opened Output
  import opened ControlLaw
  import opened Platform
  import opened Ownership
  import opened Controller
  import opened Arming

  datatype CycleError =
    | Invalidated
    | StaleArmingReceipt
    | CycleShutdownRequested
    | SampleError
    | PolicyClock(error: MonotonicTimeError)
    | DeviceCheck
    | DeviceReplaced
    | FaultOn(fan: Fan)
    | Mismatch(fan: Fan)
    | TachometerRejected(fan: Fan)

  /** The access that an error blames, where Custom at `expected` was to be read. */
  predicate CycleCause(e: CycleError, c: Call, id: Identity, expected: FanOutputs) {
    match e
    case CycleShutdownRequested => c == ShutdownPoll(true)
    case DeviceCheck => c.DeviceLookup? && c.id == id && c.foundAnswer.Err?
    case DeviceReplaced => c == DeviceLookup(id, Ok(false))
    case FaultOn(fan) => Concerns(c, id, fan) && Denied(c)
    case Mismatch(fan) =>
      || (c.ModeRead? && Concerns(c, id, fan) && c.modeAnswer.Ok? && c.modeAnswer.value != Custom)
      || (c.PwmRead? && Concerns(c, id, fan) && c.pwmAnswer.Ok? && c.pwmAnswer.value != OutputOf(expected, fan))
    case TachometerRejected(fan) => c.TachometerRead? && Concerns(c, id, fan) && c.rpmAnswer.Ok?
    case _ => false
  }

  /** The last access since `before` is to blame. */
  ghost predicate CycleBlames(e: CycleError, before: seq<Call>, after: seq<Call>, id: Identity, expected: FanOutputs) {
    |before| < |after| && CycleCause(e, after[|after| - 1], id, expected) && !e.SampleError? && !e.PolicyClock?
  }

  // ---------------------------------------------------------------- the accesses of a successful cycle

  function LookupCalls(id: Identity): seq<Call> {
    [DeviceLookup(id, Ok(true)), ShutdownPoll(false)]
  }

  function SpeedCalls(id: Identity, rpms: Rpms): seq<Call> {
    [TachometerRead(id, Cpu, Ok(rpms.cpu)), TachometerRead(id, Gpu, Ok(rpms.gpu)), ShutdownPoll(false)]
  }

  /** The log grows: the remembered state is confirmed twice, around the tachometers, and the device three times. */
  function BeforeWriting(log: seq<Call>, id: Identity, last: FanOutputs, rpms: Rpms): seq<Call> {
    log + LookupCalls(id) + ConfirmCalls(id, last) + LookupCalls(id) + SpeedCalls(id, rpms) + ConfirmCalls(id, last) + LookupCalls(id)
  }

  /** A changed duty is written between two polls, in Custom, and read back. */
  function WriteCalls(id: Identity, fan: Fan, previous: Pwm, next: Pwm): seq<Call> {
    if previous == next then []
    else [ShutdownPoll(false), ModeRead(id, fan, Ok(Custom)), ShutdownPoll(false), PwmWrite(id, fan, next, true), ShutdownPoll(false), PwmRead(id, fan, Ok(next))]
  }

  function Writing(log: seq<Call>, id: Identity, last: FanOutputs, next: FanOutputs): seq<Call> {
    log + WriteCalls(id, Cpu, last.cpu, next.cpu) + WriteCalls(id, Gpu, last.gpu, next.gpu)
  }

  function AfterWriting(log: seq<Call>, id: Identity, next: FanOutputs): seq<Call> {
    log + [ShutdownPoll(false)] + ConfirmCalls(id, next) + LookupCalls(id)
  }

  /** These, in this order, are all accesses. */
  ghost predicate CycledThrough(before: seq<Call>, after: seq<Call>, id: Identity, last: FanOutputs, next: FanOutputs) {
    exists rpms: Rpms ::
      after == AfterWriting(Writing(BeforeWriting(before + [ShutdownPoll(false)] + [ShutdownPoll(false)], id, last, rpms), id, last, next), id, next)
  }

  // ---------------------------------------------------------------- reading and writing

  method EnsureCycleRunning(m: Machine, ghost id: Identity, ghost expected: FanOutputs) returns (r: Result<(), CycleError>)
    modifies m`log
    ensures m.OnlyTimePassed() && m.now == old(m.now)
    ensures r.Ok? ==> m.log == old(m.log) + [ShutdownPoll(false)]
    ensures r.Err? ==> r.error == CycleShutdownRequested && m.log == old(m.log) + [ShutdownPoll(true)]
    ensures r.Err? ==> CycleBlames(r.error, old(m.log), m.log, id, expected)
  {
    var requested := m.ShutdownRequested();
    r := if requested then Err(CycleShutdownRequested) else Ok(());
  }

  method VerifyDevice(m: Machine, id: Identity, ghost expected: FanOutputs) returns (r: Result<(), CycleError>)
    modifies m`now, m`log
    ensures m.OnlyTimePassed()
    ensures r.Ok? ==> m.log == old(m.log) + LookupCalls(id)
    ensures r.Err? ==> CycleBlames(r.error, old(m.log), m.log, id, expected)
  {
    var current := m.DeviceIsCurrent(id);
    if current.Err? { return Err(DeviceCheck); }
    if !current.value { return Err(DeviceReplaced); }
    r := EnsureCycleRunning(m, id, expected);
  }

  method ConfirmFanMode(m: Machine, id: Identity, fan: Fan, ghost expected: FanOutputs, ghost other: FanOutputs) returns (r: Result<(), CycleError>)
    modifies m`now, m`log
    ensures m.OnlyTimePassed()
    ensures r.Ok? ==> id in m.devices && m.devices[id].Of(fan).mode == Custom && m.log == old(m.log) + [ModeRead(id, fan, Ok(Custom))]
    ensures r.Err? ==> CycleBlames(r.error, old(m.log), m.log, id, expected) && CycleBlames(r.error, old(m.log), m.log, id, other)
  {
    var mode := m.ReadMode(id, fan);
    r := if mode.Err? then Err(FaultOn(fan)) else if mode.value != Custom then Err(Mismatch(fan)) else Ok(());
  }

  method ConfirmFanDuty(m: Machine, id: Identity, fan: Fan, outputs: FanOutputs) returns (r: Result<(), CycleError>)
    modifies m`now, m`log
    ensures m.OnlyTimePassed()
    ensures r.Ok? ==> id in m.devices && m.devices[id].Of(fan).pwm == OutputOf(outputs, fan)
    ensures r.Ok? ==> m.log == old(m.log) + [PwmRead(id, fan, Ok(OutputOf(outputs, fan)))]
    ensures r.Err? ==> CycleBlames(r.error, old(m.log), m.log, id, outputs)
  {
    var actual := m.ReadPwm(id, fan);
    r := if actual.Err? then Err(FaultOn(fan)) else if actual.value != OutputOf(outputs, fan) then Err(Mismatch(fan)) else Ok(());
  }

  /** Reads mode and duty of both fans; success is knowledge of the whole device. */
  method ConfirmState(m: Machine, id: Identity, outputs: FanOutputs) returns (r: Result<(), CycleError>)
    modifies m`now, m`log
    ensures m.OnlyTimePassed()
    ensures r.Ok? ==> BothCustomAt(m.devices, id, outputs) && m.log == old(m.log) + ConfirmCalls(id, outputs)
    ensures r.Err? ==> CycleBlames(r.error, old(m.log), m.log, id, outputs)
  {
    hide CycleCause;
    r := ConfirmFanMode(m, id, Cpu, outputs, outputs);
    if r.Err? { return; }
    r := ConfirmFanDuty(m, id, Cpu, outputs);
    if r.Err? { return; }
    r := ConfirmFanMode(m, id, Gpu, outputs, outputs);
    if r.Err? { return; }
    r := ConfirmFanDuty(m, id, Gpu, outputs);
    if r.Err? { return; }
    r := EnsureCycleRunning(m, id, outputs);
  }

  /** Both tachometers are read; whether a reading is in its qualified band is the validator's answer. */
  method ValidateTachometers(m: Machine, id: Identity, ghost expected: FanOutputs) returns (r: Result<(), CycleError>, ghost rpms: Rpms)
    modifies m`now, m`log
    ensures m.OnlyTimePassed()
    ensures r.Ok? ==> m.log == old(m.log) + SpeedCalls(id, rpms)
    ensures r.Err? ==> CycleBlames(r.error, old(m.log), m.log, id, expected)
  {
    rpms := Rpms(0, 0);
    var cpu := m.ReadTachometer(id, Cpu);
    if cpu.Err? { return Err(FaultOn(Cpu)), rpms; }
    if * { return Err(TachometerRejected(Cpu)), rpms; }
    var gpu := m.ReadTachometer(id, Gpu);
    if gpu.Err? { return Err(FaultOn(Gpu)), rpms; }
    if * { return Err(TachometerRejected(Gpu)), rpms; }
    rpms := Rpms(cpu.value, gpu.value);
    r := EnsureCycleRunning(m, id, expected);
  }

  /** Only the duty of `fan` may have changed, and only to `next`; no mode changed anywhere. */
  ghost predicate OnlyDuty(before: Devices, after: Devices, id: Identity, fan: Fan, next: Pwm) {
    after == before || (id in before && after == Put(before, id, fan, before[id].Of(fan).(pwm := next)))
  }

  /** One write per fan whose output changed, CPU first. */
  function FanWrites(id: Identity, fan: Fan, previous: Pwm, next: Pwm): seq<Call> {
    if previous == next then [] else [PwmWrite(id, fan, next, true)]
  }

  function DutyWrites(id: Identity, previous: FanOutputs, next: FanOutputs): seq<Call> {
    FanWrites(id, Cpu, previous.cpu, next.cpu) + FanWrites(id, Gpu, previous.gpu, next.gpu)
  }

  /** What must hold right before a write, whichever duty is expected. */
  method ConfirmReadyToWrite(m: Machine, id: Identity, fan: Fan, ghost expected: FanOutputs, ghost other: FanOutputs) returns (r: Result<(), CycleError>)
    modifies m`now, m`log
    ensures m.OnlyTimePassed()
    ensures r.Ok? ==> m.log == old(m.log) + [ShutdownPoll(false), ModeRead(id, fan, Ok(Custom)), ShutdownPoll(false)]
    ensures r.Err? ==> CycleBlames(r.error, old(m.log), m.log, id, expected) && CycleBlames(r.error, old(m.log), m.log, id, other)
  {
    r := EnsureCycleRunning(m, id, expected);
    if r.Err? { return; }
    r := ConfirmFanMode(m, id, fan, expected, other);
    if r.Err? { return; }
    r := EnsureCycleRunning(m, id, expected);
  }

  lemma FailedWriteBlamed(before: seq<Call>, after: seq<Call>, id: Identity, fan: Fan, pwm: Pwm, expected: FanOutputs)
    requires |before| < |after| && after[|after| - 1] == PwmWrite(id, fan, pwm, false)
    ensures CycleBlames(FaultOn(fan), before, after, id, expected)
  {
  }

  method WriteChangedFan(m: Machine, id: Identity, fan: Fan, from: FanOutputs, to: FanOutputs, ghost w: Watch)
    returns (r: Result<(), CycleError>, ghost made: seq<Call>)
    requires m.Watched(w) && OutputOf(to, fan) >= OutputOf(w.floor, fan)
    modifies m
    ensures m.Watched(w) && old(m.trace) <= m.trace && old(m.log) <= m.log && old(m.now) <= m.now
    ensures m.commands == old(m.commands) + made && Partly(made, FanWrites(id, fan, OutputOf(from, fan), OutputOf(to, fan)))
    ensures r.Ok? ==> made == FanWrites(id, fan, OutputOf(from, fan), OutputOf(to, fan))
    ensures r.Ok? ==> m.log == old(m.log) + WriteCalls(id, fan, OutputOf(from, fan), OutputOf(to, fan))
    ensures OnlyDuty(old(m.devices), m.devices, id, fan, OutputOf(to, fan))
    ensures OutputOf(from, fan) == OutputOf(to, fan) ==> r.Ok? && m.trace == old(m.trace) && m.devices == old(m.devices)
    ensures r.Ok? && OutputOf(from, fan) != OutputOf(to, fan) ==> id in m.devices && m.devices[id].Of(fan).pwm == OutputOf(to, fan)
    ensures r.Err? ==> CycleBlames(r.error, old(m.log), m.log, id, to) && (made == [] ==> CycleBlames(r.error, old(m.log), m.log, id, from))
  {
    hide CycleCause;
    made := [];
    var next := OutputOf(to, fan);
    if OutputOf(from, fan) == next {
      return Ok(()), made;
    }
    r := ConfirmReadyToWrite(m, id, fan, from, to);
    if r.Err? { return; }
    var ok := m.WritePwm(id, fan, next, Require(Custom, Custom), w);
    made := [PwmWrite(id, fan, next, ok)];
    if !ok {
      FailedWriteBlamed(old(m.log), m.log, id, fan, next, to);
      return Err(FaultOn(fan)), made;
    }
    r := EnsureCycleRunning(m, id, to);
    if r.Err? { return; }
    r := ConfirmFanDuty(m, id, fan, to);
  }

  // ---------------------------------------------------------------- the state of normal control

  class HealthyControl {
    const ownershipId: nat
    const customEpoch: nat
    const config: ValidatedConfig
    const device: Identity
    var history: Option<History>
    var lastOutputs: FanOutputs
    var invalidated: bool
    /** The samples of the cycles completed so far. */
    ghost var completed: seq<ControlLaw.Sample>

    predicate IsCurrentFor(own: ControllerOwnership)
      reads this, own
    {
      !invalidated && own.ownershipId == ownershipId && own.epoch == customEpoch && !own.restorationConfirmed
    }

    /** Outputs and history are what the control law makes of the completed samples. */
    ghost predicate FollowsLaw()
      reads this
    {
      && HistoryAfter(config, None, completed) == Ok(history)
      && lastOutputs == (if history.None? then MAXIMUM_OUTPUTS else OutputsOf(config, history.value))
    }

    /** While current, the machine is exactly as this object remembers it. */
    ghost predicate Agrees(own: ControllerOwnership)
      reads this, own, own.machine
    {
      && FollowsLaw()
      && (IsCurrentFor(own) ==> BothCustomAt(own.machine.devices, device, lastOutputs))
    }

    constructor FromArmed(armed: ArmedFanControl)
      ensures ownershipId == armed.receipt.ownershipId && customEpoch == armed.receipt.epoch
      ensures config == armed.config && device == armed.receipt.device
      ensures !invalidated && completed == [] && FollowsLaw() && lastOutputs == MAXIMUM_OUTPUTS
    {
      ownershipId := armed.receipt.ownershipId;
      customEpoch := armed.receipt.epoch;
      config := armed.config;
      device := armed.receipt.device;
      history := None;
      lastOutputs := MAXIMUM_OUTPUTS;
      invalidated := false;
      completed := [];
    }

    /** Everything a cycle does before it may write: the remembered state is confirmed twice around the tachometers. */
    method ConfirmBeforeWriting(m: Machine) returns (r: Result<(), CycleError>, ghost rpms: Rpms)
      modifies m`now, m`log
      ensures m.OnlyTimePassed()
      ensures r.Ok? ==> BothCustomAt(m.devices, device, lastOutputs) && m.log == BeforeWriting(old(m.log), device, lastOutputs, rpms)
      ensures r.Err? ==> CycleBlames(r.error, old(m.log), m.log, device, lastOutputs)
    {
      hide CycleCause, BothCustomAt, LookupCalls, SpeedCalls, ConfirmCalls;
      rpms := Rpms(0, 0);
      r := VerifyDevice(m, device, lastOutputs);
      if r.Err? { return; }
      r := ConfirmState(m, device, lastOutputs);
      if r.Err? { return; }
      r := VerifyDevice(m, device, lastOutputs);
      if r.Err? { return; }
      r, rpms := ValidateTachometers(m, device, lastOutputs);
      if r.Err? { return; }
      r := ConfirmState(m, device, lastOutputs);
      if r.Err? { return; }
      r := VerifyDevice(m, device, lastOutputs);
    }

    /** The new state is confirmed once more. */
    method ConfirmAfterWriting(m: Machine, outputs: FanOutputs) returns (r: Result<(), CycleError>)
      modifies m`now, m`log
      ensures m.OnlyTimePassed()
      ensures r.Ok? ==> BothCustomAt(m.devices, device, outputs) && m.log == AfterWriting(old(m.log), device, outputs)
      ensures r.Err? ==> CycleBlames(r.error, old(m.log), m.log, device, outputs)
    {
      hide CycleCause, BothCustomAt, LookupCalls, ConfirmCalls;
      r := EnsureCycleRunning(m, device, outputs);
      if r.Err? { return; }
      r := ConfirmState(m, device, outputs);
      if r.Err? { return; }
      r := VerifyDevice(m, device, outputs);
    }

    method WriteChangedOutputs(m: Machine, next: FanOutputs, ghost w: Watch) returns (r: Result<(), CycleError>, ghost made: seq<Call>)
      requires m.Watched(w) && AtLeast(next, w.floor)
      modifies m
      ensures m.Watched(w) && old(m.trace) <= m.trace && old(m.log) <= m.log && old(m.now) <= m.now
      ensures m.commands == old(m.commands) + made && Partly(made, DutyWrites(device, lastOutputs, next))
      ensures r.Err? ==> CycleBlames(r.error, old(m.log), m.log, device, if made == [] then lastOutputs else next)
      ensures r.Ok? ==> made == DutyWrites(device, lastOutputs, next) && (made == [] ==> next == lastOutputs)
      ensures r.Ok? ==> m.log == Writing(old(m.log), device, lastOutputs, next)
      ensures ModesKept(old(m.devices), m.devices)
      ensures next == lastOutputs ==> m.devices == old(m.devices) && m.trace == old(m.trace)
      ensures r.Ok? && BothCustomAt(old(m.devices), device, lastOutputs) ==> BothCustomAt(m.devices, device, next)
    {
      hide CycleCause, Partly, OnlyDuty, ModesKept, WriteCalls;
      ghost var cpuMade, gpuMade;
      ghost var begun, first := m.commands, m.devices;
      ghost var cpuPlan, gpuPlan := FanWrites(device, Cpu, lastOutputs.cpu, next.cpu), FanWrites(device, Gpu, lastOutputs.gpu, next.gpu);
      r, cpuMade := WriteChangedFan(m, device, Cpu, lastOutputs, next, w);
      made := cpuMade;
      PartlyJoined(cpuMade, cpuPlan, [], gpuPlan);
      ghost var second := m.devices;
      DutyKeepsModes(first, first, second, device, Cpu, next.cpu);
      if r.Err? { return; }
      r, gpuMade := WriteChangedFan(m, device, Gpu, lastOutputs, next, w);
      made := cpuMade + gpuMade;
      PartlyJoined(cpuMade, cpuPlan, gpuMade, gpuPlan);
      DutyKeepsModes(first, second, m.devices, device, Gpu, next.gpu);
      Reassociate(begun, cpuMade, gpuMade);
    }

    method TryRunCycle(m: Machine, sampled: Option<ControlLaw.Sample>, ghost w: Watch) returns (r: Result<FanOutputs, CycleError>)
      requires m.Watched(w) && FollowsLaw() && AtLeast(FloorOutputs(config), w.floor)
      modifies this`history, this`lastOutputs, this`completed, m
      ensures m.Watched(w) && old(m.trace) <= m.trace && ModesKept(old(m.devices), m.devices) && FollowsLaw()
      ensures r.Ok? ==> sampled.Some? && completed == old(completed) + [sampled.value]
      ensures r.Ok? ==> r.value == lastOutputs && BothCustomAt(m.devices, device, lastOutputs)
      ensures r.Ok? ==> m.commands == old(m.commands) + DutyWrites(device, old(lastOutputs), lastOutputs)
      ensures r.Ok? ==> CycledThrough(old(m.log), m.log, device, old(lastOutputs), lastOutputs)
      ensures r.Err? ==> history == old(history) && lastOutputs == old(lastOutputs) && completed == old(completed)
      ensures r.Err? ==> CycleDeserved(r.error, config, history, sampled, device, lastOutputs, m.commands != old(m.commands), old(m.log), m.log)
    {
      hide HistoryAfter, NextHistory, OutputsOf, FloorOutputs, DutyWrites, Partly, CycleCause, BothCustomAt, ModesKept;
      hide LookupCalls, ConfirmCalls, BeforeWriting, Writing, AfterWriting;
      KeepsModes(m.devices);
      var step := EnsureCycleRunning(m, device, lastOutputs);
      if step.Err? { return Err(step.error); }
      if sampled.None? { return Err(SampleError); }
      step := EnsureCycleRunning(m, device, lastOutputs);
      if step.Err? { return Err(step.error); }
      var computed := ComputeNextOutputs(config, history, sampled.value);
      if computed.Err? { return Err(PolicyClock(computed.error)); }
      var outputs := computed.value.1;
      ghost var rpms;
      step, rpms := ConfirmBeforeWriting(m);
      if step.Err? { return Err(step.error); }
      ghost var made;
      step, made := WriteChangedOutputs(m, outputs, w);
      assert m.commands == old(m.commands) <==> made == [];
      if step.Err? { return Err(step.error); }
      step := ConfirmAfterWriting(m, outputs);
      if step.Err? { return Err(step.error); }
      HistoryAfterOneMore(config, None, completed, sampled.value);
      history := Some(computed.value.0);
      lastOutputs := outputs;
      completed := completed + [sampled.value];
      r := Ok(outputs);
    }

    /**
     * A cycle either re-establishes agreement for the new outputs or invalidates control for good;
     * invalidated or stale control writes nothing.
     */
    method RunCycle(own: ControllerOwnership, sampled: Option<ControlLaw.Sample>, ghost w: Watch) returns (r: Result<FanOutputs, CycleError>)
      requires own.Valid() && own.machine.Watched(w) && Agrees(own) && AtLeast(FloorOutputs(config), w.floor)
      modifies this, own.machine
      ensures own.Valid() && own.machine.Watched(w) && old(own.machine.trace) <= own.machine.trace
      ensures Agrees(own)
      ensures r.Ok? <==> !invalidated
      ensures r.Ok? ==> sampled.Some? && completed == old(completed) + [sampled.value] && r.value == lastOutputs
      ensures r.Ok? ==> old(IsCurrentFor(own)) && IsCurrentFor(own)
      ensures r.Ok? ==> own.machine.commands == old(own.machine.commands) + DutyWrites(device, old(lastOutputs), lastOutputs)
      ensures r.Ok? ==> CycledThrough(old(own.machine.log), own.machine.log, device, old(lastOutputs), lastOutputs)
      ensures r.Err? ==> completed == old(completed) && lastOutputs == old(lastOutputs)
      ensures !old(IsCurrentFor(own)) ==> r.Err? && own.machine.trace == old(own.machine.trace) && own.machine.devices == old(own.machine.devices)
      ensures !old(IsCurrentFor(own)) ==> own.machine.commands == old(own.machine.commands)
      ensures r.Err? && old(IsCurrentFor(own)) ==>
                CycleDeserved(r.error, config, old(history), sampled, device, old(lastOutputs),
                              own.machine.commands != old(own.machine.commands), old(own.machine.log), own.machine.log)
    {
      hide Invariant, AtLeast, FloorOutputs, DutyWrites, CycledThrough;
      if invalidated {
        return Err(Invalidated);
      }
      if !IsCurrentFor(own) {
        invalidated := true;
        return Err(StaleArmingReceipt);
      }
      ghost var before := own.machine.devices;
      r := TryRunCycle(own.machine, sampled, w);
      KeptModesStayAuto(before, own.machine.devices, own.handed - own.outstanding);
      if r.Err? {
        invalidated := true;
      }
    }
  }

  /** Every failed cycle has its reason: no sample, time going back, or the last access, judged against what was last written. */
  ghost predicate CycleDeserved(e: CycleError, config: ValidatedConfig, history: Option<History>, sampled: Option<ControlLaw.Sample>,
                                id: Identity, last: FanOutputs, wrote: bool, before: seq<Call>, after: seq<Call>) {
    match e
    case SampleError => sampled.None?
    case PolicyClock(_) => sampled.Some? && NextHistory(config, history, sampled.value).Err?
    case _ =>
      if !wrote then CycleBlames(e, before, after, id, last)
      else
        && sampled.Some? && NextHistory(config, history, sampled.value).Ok?
        && CycleBlames(e, before, after, id, OutputsOf(config, NextHistory(config, history, sampled.value).value))
  }

  /** No fan changed mode. */
  ghost predicate ModesKept(before: Devices, after: Devices) {
    && after.Keys == before.Keys
    && forall id, fan: Fan :: id in before ==> after[id].Of(fan).mode == before[id].Of(fan).mode
  }

  lemma KeepsModes(s: Devices)
    ensures ModesKept(s, s)
  {
  }

  lemma DutyKeepsModes(first: Devices, before: Devices, after: Devices, id: Identity, fan: Fan, next: Pwm)
    requires (first == before || ModesKept(first, before)) && OnlyDuty(before, after, id, fan, next)
    ensures ModesKept(first, after)
    ensures forall other: Fan :: other != fan && id in before ==> id in after && after[id].Of(other) == before[id].Of(other)
    ensures id in before ==> id in after && after[id].Of(fan).mode == before[id].Of(fan).mode
  {
  }

  lemma KeptModesStayAuto(before: Devices, after: Devices, ids: set<Identity>)
    requires ModesKept(before, after) && AllAuto(before, ids)
    ensures AllAuto(after, ids)
  {
    forall id | id in ids ensures BothAuto(after, id) {
      assert before[id].Of(Cpu).mode == Auto && before[id].Of(Gpu).mode == Auto;
      assert after[id].Of(Cpu).mode == Auto && after[id].Of(Gpu).mode == Auto;
    }
  }

  // ---------------------------------------------------------------- the law over completed cycles

  /** The history after running the law over `samples`; an error if any cycle fails. */
  function HistoryAfter(config: ValidatedConfig, history: Option<History>, samples: seq<ControlLaw.Sample>): (r: Result<Option<History>, MonotonicTimeError>)
    ensures r.Ok? && samples != [] ==> r.value.Some?
    decreases |samples|
  {
    if samples == [] then Ok(history)
    else
      var next := NextHistory(config, history, samples[0]);
      if next.Err? then Err(next.error) else HistoryAfter(config, Some(next.value), samples[1..])
  }

  lemma {:induction false} HistoryAfterOneMore(config: ValidatedConfig, history: Option<History>, samples: seq<ControlLaw.Sample>, sample: ControlLaw.Sample)
    requires HistoryAfter(config, history, samples).Ok?
    ensures var last := NextHistory(config, HistoryAfter(config, history, samples).value, sample);
            HistoryAfter(config, history, samples + [sample]) == (if last.Ok? then Ok(Some(last.value)) else Err(last.error))
    decreases |samples|
  {
    hide NextHistory;
    if samples == [] {
      assert [sample][1..] == [];
    } else {
      assert (samples + [sample])[1..] == samples[1..] + [sample];
      HistoryAfterOneMore(config, Some(NextHistory(config, history, samples[0]).value), samples[1..], sample);
    }
  }

  /** The outputs in force after a run of completed cycles are the last ones the law's run produces. */
  lemma {:induction false} LastOutputsOfRun(config: ValidatedConfig, history: Option<History>, samples: seq<ControlLaw.Sample>)
    requires HistoryAfter(config, history, samples).Ok? && samples != []
    ensures |RunOutputs(config, history, samples)| == |samples|
    ensures RunOutputs(config, history, samples)[|samples| - 1] == OutputsOf(config, HistoryAfter(config, history, samples).value.value)
    decreases |samples|
  {
    hide NextHistory, OutputsOf;
    var next := NextHistory(config, history, samples[0]).value;
    if samples[1..] == [] {
      assert samples == [samples[0]];
    } else {
      LastOutputsOfRun(config, Some(next), samples[1..]);
    }
  }

  /**
   * The whole chain, from the file to the fans: while control is current, and a cycle has completed,
   * both fans physically run in Custom at no less than the protected configuration asks for the
   * newest raw sample.
   */
  lemma FansDominateProtected(control: HealthyControl, own: ControllerOwnership, candidateFile: ConfigV1, protectedFile: ConfigV1)
    requires control.Agrees(own) && control.IsCurrentFor(own) && control.completed != []
    requires ValidateConfig(candidateFile) == Ok(control.config) && ValidateConfig(protectedFile).Ok?
    requires ValidateAgainstEnvelope(control.config, ValidateConfig(protectedFile).value).Ok?
    ensures var newest := control.completed[|control.completed| - 1];
            var wanted := Memoryless(ValidateConfig(protectedFile).value, newest);
            && BothCustomAt(own.machine.devices, control.device, control.lastOutputs)
            && AtLeast(control.lastOutputs, wanted)
  {
    hide ValidateConfig, ValidateAgainstEnvelope, Memoryless, AtLeast, RunOutputs, HistoryAfter, OutputsOf;
    LastOutputsOfRun(control.config, None, control.completed);
    ValidatedRunDominates(candidateFile, protectedFile, control.completed, |control.completed| - 1);
  }
}
