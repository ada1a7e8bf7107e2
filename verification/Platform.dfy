/**
 * The machine the controller drives: per device two fans, each with a mode and a PWM value.
 *
 * The environment is adversarial. Any read may fail, but one that succeeds is truthful. Any write may
 * fail, with or without taking effect; one that succeeds took effect while its guards held. Time may
 * pass at every call. Nobody else writes. Deadlines of single file operations need no model of their
 * own: an operation that overruns is one of those that fail.
 *
 * `trace` keeps every state the machine has been in, so that a property of intermediate states can be
 * stated of whole runs.
 */
module Platform {
  import opened Wrappers
  import opened Demand
  import opened Config
  import opened Output

  type Identity = nat
  type Nanos = nat

  const SECOND: Nanos := 1_000_000_000
  const MILLISECOND: Nanos := 1_000_000

  /** `enable` reads 2 in Firmware Auto and 1 in Custom. */
  datatype Mode = Auto | Custom | Other

  datatype FanState = FanState(mode: Mode, pwm: Pwm)

  datatype DeviceState = DeviceState(cpu: FanState, gpu: FanState) {
    function Of(fan: Fan): FanState {
      if fan.Cpu? then cpu else gpu
    }

    function With(fan: Fan, state: FanState): (r: DeviceState)
      ensures r.Of(fan) == state
      ensures forall other: Fan :: other != fan ==> r.Of(other) == Of(other)
    {
      if fan.Cpu? then this.(cpu := state) else this.(gpu := state)
    }
  }

  type Devices = map<Identity, DeviceState>

  function OutputOf(outputs: FanOutputs, fan: Fan): Pwm {
    if fan.Cpu? then outputs.cpu else outputs.gpu
  }

  ghost predicate BothAuto(s: Devices, id: Identity) {
    id in s && s[id].cpu.mode == Auto && s[id].gpu.mode == Auto
  }

  ghost predicate BothCustomAt(s: Devices, id: Identity, outputs: FanOutputs) {
    id in s && s[id] == DeviceState(FanState(Custom, outputs.cpu), FanState(Custom, outputs.gpu))
  }

  /** Nothing but device `id` changed. */
  ghost predicate Elsewhere(before: Devices, after: Devices, id: Identity) {
    && after.Keys == before.Keys
    && forall other :: other in before && other != id ==> after[other] == before[other]
  }

  // ---------------------------------------------------------------- hazards

  /** A fan in Custom below its bound is a hazard: the firmware no longer raises it. */
  ghost predicate Harmless(state: FanState, bound: Pwm) {
    state.mode == Custom ==> state.pwm >= bound
  }

  /** Every fan is harmless, or still exactly as it was found. */
  ghost predicate NoNewHazard(found: Devices, s: Devices, floor: FanOutputs) {
    && s.Keys == found.Keys
    && forall id, fan: Fan :: id in s ==> Harmless(s[id].Of(fan), OutputOf(floor, fan)) || s[id].Of(fan) == found[id].Of(fan)
  }

  /** An observer who starts watching in state `found`, after `from` recorded states. */
  datatype Watch = Watch(found: Devices, from: nat, floor: FanOutputs)

  ghost predicate SeenBy(w: Watch, trace: seq<Devices>) {
    w.from <= |trace| && forall i :: w.from <= i < |trace| ==> NoNewHazard(w.found, trace[i], w.floor)
  }

  /** If the state found was safe then every state the observer sees is. */
  lemma SafeFromSafeStart(w: Watch, trace: seq<Devices>, i: nat, id: Identity, fan: Fan)
    requires SeenBy(w, trace) && w.from <= i < |trace|
    requires id in w.found && Harmless(w.found[id].Of(fan), OutputOf(w.floor, fan))
    ensures id in trace[i] && Harmless(trace[i][id].Of(fan), OutputOf(w.floor, fan))
  {
  }

  // ---------------------------------------------------------------- the machine

  /** Enable values that a write demands of the CPU and GPU fan before it may take effect. */
  datatype Guard = Unguarded | Require(cpu: Mode, gpu: Mode)

  predicate Admits(guard: Guard, device: DeviceState) {
    guard.Require? ==> device.cpu.mode == guard.cpu && device.gpu.mode == guard.gpu
  }

  function Put(s: Devices, id: Identity, fan: Fan, state: FanState): Devices
    requires id in s
  {
    s[id := s[id].With(fan, state)]
  }

  /** What a write may leave behind. */
  ghost predicate Written(before: Devices, after: Devices, id: Identity, fan: Fan, state: FanState, guard: Guard, ok: bool) {
    || (!ok && after == before)
    || (id in before && Admits(guard, before[id]) && after == Put(before, id, fan, state))
  }

  /** One access to the machine, with the answer. */
  datatype Call =
    | ModeRead(id: Identity, fan: Fan, modeAnswer: Result<Mode, Fault>)
    | PwmRead(id: Identity, fan: Fan, pwmAnswer: Result<Pwm, Fault>)
    | ModeWrite(id: Identity, fan: Fan, mode: Mode, ok: bool)
    | PwmWrite(id: Identity, fan: Fan, pwm: Pwm, ok: bool)
    | TachometerRead(id: Identity, fan: Fan, rpmAnswer: Result<nat, Fault>)
    | DeviceLookup(id: Identity, foundAnswer: Result<bool, Fault>)
    | ShutdownPoll(requested: bool)
    | Unlock(ok: bool)

  /** The access was refused: a read without an answer or a write that reports failure. */
  predicate Denied(c: Call) {
    match c
    case ModeRead(_, _, answer) => answer.Err?
    case PwmRead(_, _, answer) => answer.Err?
    case TachometerRead(_, _, answer) => answer.Err?
    case ModeWrite(_, _, _, ok) => !ok
    case PwmWrite(_, _, _, ok) => !ok
    case DeviceLookup(_, answer) => answer.Err?
    case ShutdownPoll(_) => false
    case Unlock(ok) => !ok
  }

  /** The access is one to this fan. */
  predicate Concerns(c: Call, id: Identity, fan: Fan) {
    (c.ModeRead? || c.PwmRead? || c.TachometerRead? || c.ModeWrite? || c.PwmWrite?) && c.id == id && c.fan == fan
  }

  function Failed(c: Call): Call {
    match c
    case ModeWrite(id, fan, mode, _) => ModeWrite(id, fan, mode, false)
    case PwmWrite(id, fan, pwm, _) => PwmWrite(id, fan, pwm, false)
    case _ => c
  }

  /** The writes of `plan` were made in order, up to some point, and at most the last of them failed. */
  ghost predicate Partly(made: seq<Call>, plan: seq<Call>) {
    && |made| <= |plan|
    && forall i :: 0 <= i < |made| ==> made[i] == plan[i] || (i == |made| - 1 && made[i] == Failed(plan[i]))
  }

  /** A plan begun, or one done and the next begun, is the joint plan begun. */
  lemma PartlyJoined(a: seq<Call>, first: seq<Call>, b: seq<Call>, second: seq<Call>)
    ensures Partly(a, first) ==> Partly(a, first + second)
    ensures a == first && Partly(b, second) ==> Partly(a + b, first + second)
  {
  }

  lemma Reassociate(a: seq<Call>, b: seq<Call>, c: seq<Call>)
    ensures a + b + c == a + (b + c)
  {
  }

  class Machine {
    var devices: Devices
    var now: Nanos
    ghost var trace: seq<Devices>
    /** Every access so far; `commands` keeps the writes alone. */
    ghost var log: seq<Call>
    ghost var commands: seq<Call>

    /** `w` has watched since before this moment and has seen no new hazard. */
    ghost predicate Watched(w: Watch)
      reads this
    {
      && SeenBy(w, trace)
      && NoNewHazard(w.found, devices, w.floor)
    }

    /** Only time passed: nothing was written. */
    twostate predicate OnlyTimePassed()
      reads this
    {
      devices == old(devices) && trace == old(trace) && commands == old(commands) && old(log) <= log && old(now) <= now
    }

    method TimePasses()
      modifies this`now
      ensures OnlyTimePassed()
    {
      var passed: int := *;
      if passed > 0 { now := now + passed; }
    }

    method MonotonicNow() returns (r: Nanos)
      modifies this`now
      ensures OnlyTimePassed() && r == now
    {
      TimePasses();
      r := now;
    }

    method Delay(duration: Nanos)
      modifies this`now
      ensures OnlyTimePassed() && now >= old(now) + duration
    {
      now := now + duration;
      TimePasses();
    }

    /** Whether something outside has asked the controller to stop. */
    method ShutdownRequested() returns (r: bool)
      modifies this`log
      ensures OnlyTimePassed() && log == old(log) + [ShutdownPoll(r)]
    {
      r := *;
      log := log + [ShutdownPoll(r)];
    }

    /** Gives up the ownership lock; the operating system may refuse. */
    method ReleaseOwnershipLock() returns (ok: bool)
      modifies this`log
      ensures OnlyTimePassed() && log == old(log) + [Unlock(ok)]
    {
      ok := *;
      log := log + [Unlock(ok)];
    }

    /** Whether discovery finds exactly this device again with all its endpoints. */
    method DeviceIsCurrent(id: Identity) returns (r: Result<bool, Fault>)
      modifies this`now, this`log
      ensures OnlyTimePassed() && log == old(log) + [DeviceLookup(id, r)]
      ensures r == Ok(true) ==> id in devices
    {
      TimePasses();
      r := Err(Unavailable);
      if * {
        var found: bool := *;
        r := Ok(found && id in devices);
      }
      log := log + [DeviceLookup(id, r)];
    }

    method ReadMode(id: Identity, fan: Fan) returns (r: Result<Mode, Fault>)
      modifies this`now, this`log
      ensures OnlyTimePassed()
      ensures log == old(log) + [ModeRead(id, fan, r)]
      ensures r.Ok? ==> id in devices && r.value == devices[id].Of(fan).mode
    {
      TimePasses();
      r := Err(Unavailable);
      if id in devices {
        if * {
          r := Ok(devices[id].Of(fan).mode);
        }
      }
      log := log + [ModeRead(id, fan, r)];
    }

    method ReadPwm(id: Identity, fan: Fan) returns (r: Result<Pwm, Fault>)
      modifies this`now, this`log
      ensures OnlyTimePassed()
      ensures log == old(log) + [PwmRead(id, fan, r)]
      ensures r.Ok? ==> id in devices && r.value == devices[id].Of(fan).pwm
    {
      TimePasses();
      r := Err(Unavailable);
      if id in devices {
        if * {
          r := Ok(devices[id].Of(fan).pwm);
        }
      }
      log := log + [PwmRead(id, fan, r)];
    }

    /** A tachometer shows any number; a malformed value reads as a fault. */
    method ReadTachometer(id: Identity, fan: Fan) returns (r: Result<nat, Fault>)
      modifies this`now, this`log
      ensures OnlyTimePassed() && log == old(log) + [TachometerRead(id, fan, r)]
    {
      TimePasses();
      r := Err(Unavailable);
      if * {
        var rpm: int := *;
        r := if rpm < 0 then Err(Malformed) else Ok(rpm);
      }
      log := log + [TachometerRead(id, fan, r)];
    }

    method WriteMode(id: Identity, fan: Fan, mode: Mode, guard: Guard, ghost w: Watch) returns (ok: bool)
      requires Watched(w)
      requires mode == Custom && id in devices ==> devices[id].Of(fan).pwm >= OutputOf(w.floor, fan)
      modifies this
      ensures Watched(w) && trace == old(trace) + [devices] && old(now) <= now
      ensures log == old(log) + [ModeWrite(id, fan, mode, ok)] && commands == old(commands) + [ModeWrite(id, fan, mode, ok)]
      ensures id in old(devices) ==> Written(old(devices), devices, id, fan, FanState(mode, old(devices)[id].Of(fan).pwm), guard, ok)
      ensures id !in old(devices) ==> !ok && devices == old(devices)
    {
      if id in devices {
        ok := Write(id, fan, FanState(mode, devices[id].Of(fan).pwm), guard, w);
      } else {
        ok := Miss(w);
      }
      log, commands := log + [ModeWrite(id, fan, mode, ok)], commands + [ModeWrite(id, fan, mode, ok)];
    }

    method WritePwm(id: Identity, fan: Fan, pwm: Pwm, guard: Guard, ghost w: Watch) returns (ok: bool)
      requires Watched(w)
      requires pwm >= OutputOf(w.floor, fan)
      modifies this
      ensures Watched(w) && trace == old(trace) + [devices] && old(now) <= now
      ensures log == old(log) + [PwmWrite(id, fan, pwm, ok)] && commands == old(commands) + [PwmWrite(id, fan, pwm, ok)]
      ensures id in old(devices) ==> Written(old(devices), devices, id, fan, FanState(old(devices)[id].Of(fan).mode, pwm), guard, ok)
      ensures id !in old(devices) ==> !ok && devices == old(devices)
    {
      if id in devices {
        ok := Write(id, fan, FanState(devices[id].Of(fan).mode, pwm), guard, w);
      } else {
        ok := Miss(w);
      }
      log, commands := log + [PwmWrite(id, fan, pwm, ok)], commands + [PwmWrite(id, fan, pwm, ok)];
    }

    method Write(id: Identity, fan: Fan, state: FanState, guard: Guard, ghost w: Watch) returns (ok: bool)
      requires Watched(w) && id in devices
      requires Harmless(state, OutputOf(w.floor, fan))
      modifies this`devices, this`now, this`trace
      ensures Watched(w) && trace == old(trace) + [devices] && old(now) <= now
      ensures Written(old(devices), devices, id, fan, state, guard, ok)
    {
      TimePasses();
      ok := false;
      if Admits(guard, devices[id]) {
        if * {
          devices := Put(devices, id, fan, state);
          ok := *;
        }
      }
      trace := trace + [devices];
    }

    method Miss(ghost w: Watch) returns (ok: bool)
      requires Watched(w)
      modifies this`devices, this`now, this`trace
      ensures Watched(w) && devices == old(devices) && trace == old(trace) + [devices] && old(now) <= now && !ok
    {
      TimePasses();
      trace := trace + [devices];
      ok := false;
    }
  }

  datatype Fault = Unavailable | Malformed
}
