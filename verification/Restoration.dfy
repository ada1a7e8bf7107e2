/** Handing both fans back to the firmware, or holding them at maximum when that fails (restoration.rs). */
module Restoration {
  import opened Wrappers
  import opened Demand
  import opened Config
  import opened Output
  import opened Platform

  const MAX_ATTEMPTS := 3
  const RESTORATION_WINDOW: Nanos := 2 * SECOND
  const RECOVERY_INTERVAL: Nanos := 2 * SECOND
  const RECOVERY_RESTORATION_WINDOW: Nanos := SECOND

  datatype AutoReadback = Confirmed | NotAuto(mode: Mode) | Unreadable(fault: Fault)

  datatype FanRestoration = FanRestoration(written: bool, readback: AutoReadback)

  datatype RestorationError =
    | DifferentController(admitted: Identity, restored: Identity)
    | Unconfirmed(attempts: nat, cpu: FanRestoration, gpu: FanRestoration)
    | DeadlineExceeded(attempts: nat, cpu: FanRestoration, gpu: FanRestoration)

  datatype PwmReadback = MaximumRead | UnexpectedPwm(pwm: Pwm) | UnreadablePwm(fault: Fault)

  datatype EmergencyStatus =
    | FirmwareAuto
    | MaximumConfirmed
    | ModeUnexpected(mode: Mode)
    | ModeUnreadable(fault: Fault)
    | MaximumUnconfirmed(written: bool, readback: PwmReadback)

  datatype Containment = Containment(cpu: EmergencyStatus, gpu: EmergencyStatus) {
    predicate RestorationConfirmed() {
      cpu == FirmwareAuto && gpu == FirmwareAuto
    }
  }

  // ---------------------------------------------------------------- effects

  /** Fans of `id` kept their PWM and either kept their mode or went to Auto; nothing else changed. */
  ghost predicate OnlyRestored(before: Devices, after: Devices, id: Identity) {
    && Elsewhere(before, after, id)
    && (id in before ==> forall fan: Fan ::
          && after[id].Of(fan).pwm == before[id].Of(fan).pwm
          && after[id].Of(fan).mode in {before[id].Of(fan).mode, Auto})
  }

  /** Fans of `id` kept their mode, and only a fan in Custom may have been raised to 255. */
  ghost predicate OnlyContained(before: Devices, after: Devices, id: Identity) {
    && Elsewhere(before, after, id)
    && (id in before ==> forall fan: Fan ::
          || after[id].Of(fan) == before[id].Of(fan)
          || (before[id].Of(fan).mode == Custom && after[id].Of(fan) == FanState(Custom, MAXIMUM_PWM)))
  }

  /** Any mixture of the two. */
  ghost predicate OnlySafed(before: Devices, after: Devices, id: Identity) {
    && Elsewhere(before, after, id)
    && (id in before ==> forall fan: Fan ::
          && after[id].Of(fan).mode in {before[id].Of(fan).mode, Auto}
          && after[id].Of(fan).pwm in {before[id].Of(fan).pwm, MAXIMUM_PWM})
  }

  lemma RestoredAndContained(a: Devices, b: Devices, c: Devices, id: Identity)
    requires OnlyRestored(a, b, id)
    ensures OnlySafed(a, b, id) && (OnlyContained(b, c, id) ==> OnlySafed(a, c, id))
  {
  }

  lemma RestoredTwice(a: Devices, b: Devices, c: Devices, id: Identity)
    ensures OnlyRestored(a, a, id)
    ensures OnlyRestored(a, b, id) && OnlyRestored(b, c, id) ==> OnlyRestored(a, c, id)
  {
  }

  lemma SafedTwice(a: Devices, b: Devices, c: Devices, id: Identity)
    ensures OnlySafed(a, a, id)
    ensures OnlySafed(a, b, id) && OnlySafed(b, c, id) ==> OnlySafed(a, c, id)
  {
  }

  /** A device both of whose fans are in Auto stays so through restoration and containment. */
  lemma SafingKeepsAuto(before: Devices, after: Devices, id: Identity, other: Identity)
    requires OnlySafed(before, after, id) && BothAuto(before, other)
    ensures BothAuto(after, other)
  {
    if other == id {
      assert before[id].Of(Cpu).mode == Auto && before[id].Of(Gpu).mode == Auto;
      assert after[id].Of(Cpu).mode == Auto && after[id].Of(Gpu).mode == Auto;
    }
  }

  // ---------------------------------------------------------------- restoration

  /** What both fans answered to one attempt. */
  datatype Try = Try(cpu: FanRestoration, gpu: FanRestoration) {
    predicate Confirmed() {
      cpu.readback == AutoReadback.Confirmed && gpu.readback == AutoReadback.Confirmed
    }
  }

  function ModeAnswerOf(readback: AutoReadback): Result<Mode, Fault> {
    match readback
    case Confirmed => Ok(Auto)
    case NotAuto(mode) => Ok(mode)
    case Unreadable(fault) => Err(fault)
  }

  /** An attempt commands Auto on both fans, whatever happens to the first, then reads both back. */
  function TryCalls(id: Identity, t: Try): seq<Call> {
    [ModeWrite(id, Cpu, Auto, t.cpu.written), ModeWrite(id, Gpu, Auto, t.gpu.written),
     ModeRead(id, Cpu, ModeAnswerOf(t.cpu.readback)), ModeRead(id, Gpu, ModeAnswerOf(t.gpu.readback))]
  }

  function AllTryCalls(id: Identity, tries: seq<Try>): seq<Call> {
    if tries == [] then [] else AllTryCalls(id, tries[..|tries| - 1]) + TryCalls(id, tries[|tries| - 1])
  }

  lemma OneMoreTry(id: Identity, begun: seq<Call>, heard: seq<Call>, tries: seq<Try>, t: Try)
    requires heard == begun + AllTryCalls(id, tries)
    ensures heard + TryCalls(id, t) == begun + AllTryCalls(id, tries + [t])
  {
    hide TryCalls;
    assert (tries + [t])[..|tries|] == tries;
    assert heard + TryCalls(id, t) == begun + (AllTryCalls(id, tries) + TryCalls(id, t));
  }

  method ReadStatus(m: Machine, id: Identity, fan: Fan, written: bool) returns (r: FanRestoration)
    modifies m`now, m`log
    ensures m.OnlyTimePassed() && m.log == old(m.log) + [ModeRead(id, fan, ModeAnswerOf(r.readback))]
    ensures r.written == written && (r.readback.NotAuto? ==> r.readback.mode != Auto)
    ensures !r.readback.Unreadable? ==> id in m.devices && Ok(m.devices[id].Of(fan).mode) == ModeAnswerOf(r.readback)
  {
    var mode := m.ReadMode(id, fan);
    r := FanRestoration(written,
                        if mode.Err? then Unreadable(mode.error)
                        else if mode.value == Auto then AutoReadback.Confirmed
                        else NotAuto(mode.value));
  }

  method Attempt(m: Machine, id: Identity, ghost w: Watch) returns (t: Try)
    requires m.Watched(w)
    modifies m
    ensures m.Watched(w) && old(m.trace) <= m.trace && old(m.now) <= m.now
    ensures m.log == old(m.log) + TryCalls(id, t)
    ensures OnlyRestored(old(m.devices), m.devices, id)
    ensures t.Confirmed() ==> BothAuto(m.devices, id)
    ensures t.cpu.written && t.gpu.written ==> BothAuto(m.devices, id)
    ensures Answered(t) ==> t.Confirmed()
  {
    var cpuWritten := m.WriteMode(id, Cpu, Auto, Unguarded, w);
    var gpuWritten := m.WriteMode(id, Gpu, Auto, Unguarded, w);
    var cpu := ReadStatus(m, id, Cpu, cpuWritten);
    var gpu := ReadStatus(m, id, Gpu, gpuWritten);
    t := Try(cpu, gpu);
  }

  /** Both writes and both reads of the attempt succeeded. */
  predicate Answered(t: Try) {
    t.cpu.written && t.gpu.written && !t.cpu.readback.Unreadable? && !t.gpu.readback.Unreadable?
  }

  /** How the outcome of a restoration follows from its attempts; one in which nothing failed always confirms. */
  ghost predicate Concluded(r: Result<(), RestorationError>, tries: seq<Try>) {
    && 1 <= |tries| <= MAX_ATTEMPTS
    && (forall i :: 0 <= i < |tries| ==> Answered(tries[i]) ==> tries[i].Confirmed())
    && (forall i :: 0 <= i < |tries| - 1 ==> !tries[i].Confirmed())
    && (r.Ok? ==> tries[|tries| - 1].Confirmed())
    && (r.Err? ==> !r.error.DifferentController? && r.error.attempts == |tries| && Try(r.error.cpu, r.error.gpu) == tries[|tries| - 1])
    && (r.Err? && r.error.Unconfirmed? ==> |tries| == MAX_ATTEMPTS && !tries[|tries| - 1].Confirmed())
  }

  method RestoreBefore(m: Machine, id: Identity, startedAt: Nanos, deadline: Nanos, ghost w: Watch)
    returns (r: Result<(), RestorationError>, ghost tries: seq<Try>)
    requires m.Watched(w)
    modifies m
    ensures m.Watched(w) && old(m.trace) <= m.trace && old(m.now) <= m.now
    ensures m.log == old(m.log) + AllTryCalls(id, tries) && Concluded(r, tries)
    ensures OnlyRestored(old(m.devices), m.devices, id)
    ensures r.Ok? ==> BothAuto(m.devices, id) && m.now <= deadline
    ensures r.Err? && r.error.DeadlineExceeded? ==> m.now >= deadline
  {
    var last: Option<Try> := None;
    var attempts := 0;
    var now := startedAt;
    tries := [];
    ghost var begun := m.log;
    assert m.log == begun + AllTryCalls(id, tries);
    RestoredTwice(m.devices, m.devices, m.devices, id);
    hide TryCalls, AllTryCalls, OnlyRestored, BothAuto, Answered;
    for attempt := 1 to MAX_ATTEMPTS + 1
      invariant m.Watched(w) && old(m.trace) <= m.trace && old(m.now) <= m.now
      invariant OnlyRestored(old(m.devices), m.devices, id)
      invariant m.log == begun + AllTryCalls(id, tries)
      invariant attempts == attempt - 1 == |tries| && (attempt > 1 ==> last == Some(tries[|tries| - 1]))
      invariant forall i :: 0 <= i < |tries| ==> !tries[i].Confirmed()
      invariant forall i :: 0 <= i < |tries| ==> Answered(tries[i]) ==> tries[i].Confirmed()
      invariant 1 < attempt <= MAX_ATTEMPTS ==> now < deadline
    {
      if attempt > 1 && now >= deadline {
        break;
      }
      attempts := attempt;
      ghost var heard, before := m.log, m.devices;
      var t := Attempt(m, id, w);
      RestoredTwice(old(m.devices), before, m.devices, id);
      OneMoreTry(id, begun, heard, tries, t);
      tries := tries + [t];
      now := m.MonotonicNow();
      if now > deadline {
        return Err(DeadlineExceeded(attempts, t.cpu, t.gpu)), tries;
      }
      if t.Confirmed() {
        return Ok(()), tries;
      }
      if now == deadline && attempt < MAX_ATTEMPTS {
        return Err(DeadlineExceeded(attempts, t.cpu, t.gpu)), tries;
      }
      last := Some(t);
    }
    r := Err(Unconfirmed(attempts, last.value.cpu, last.value.gpu));
  }

  method RestoreFirmwareAuto(m: Machine, id: Identity, ghost w: Watch) returns (r: Result<(), RestorationError>, ghost tries: seq<Try>)
    requires m.Watched(w)
    modifies m
    ensures m.Watched(w) && old(m.trace) <= m.trace && old(m.now) <= m.now
    ensures m.log == old(m.log) + AllTryCalls(id, tries) && Concluded(r, tries)
    ensures OnlyRestored(old(m.devices), m.devices, id)
    ensures r.Ok? ==> BothAuto(m.devices, id)
    ensures r.Err? && r.error.DeadlineExceeded? ==> m.now >= old(m.now) + RESTORATION_WINDOW
  {
    hide AllTryCalls, Concluded, OnlyRestored;
    var startedAt := m.MonotonicNow();
    r, tries := RestoreBefore(m, id, startedAt, startedAt + RESTORATION_WINDOW, w);
  }

  // ---------------------------------------------------------------- containment

  /** What a containment status says about the fan it was reported for. */
  ghost predicate StatusHolds(status: EmergencyStatus, s: Devices, id: Identity, fan: Fan) {
    match status
    case FirmwareAuto => id in s && s[id].Of(fan).mode == Auto
    case MaximumConfirmed => id in s && s[id].Of(fan) == FanState(Custom, MAXIMUM_PWM)
    case ModeUnexpected(mode) => id in s && s[id].Of(fan).mode == mode == Other
    case MaximumUnconfirmed(_, _) => id in s && s[id].Of(fan).mode == Custom
    case ModeUnreadable(_) => true
  }

  function PwmAnswerOf(readback: PwmReadback): Result<Pwm, Fault> {
    match readback
    case MaximumRead => Ok(MAXIMUM_PWM)
    case UnexpectedPwm(pwm) => Ok(pwm)
    case UnreadablePwm(fault) => Err(fault)
  }

  /** The accesses behind a status: the mode is always read, and a fan found in Custom is always commanded to 255 and read back. */
  function ContainCalls(id: Identity, fan: Fan, status: EmergencyStatus): seq<Call> {
    match status
    case FirmwareAuto => [ModeRead(id, fan, Ok(Auto))]
    case ModeUnexpected(mode) => [ModeRead(id, fan, Ok(mode))]
    case ModeUnreadable(fault) => [ModeRead(id, fan, Err(fault))]
    case MaximumConfirmed =>
      [ModeRead(id, fan, Ok(Custom)), PwmWrite(id, fan, MAXIMUM_PWM, true), PwmRead(id, fan, Ok(MAXIMUM_PWM))]
    case MaximumUnconfirmed(written, readback) =>
      [ModeRead(id, fan, Ok(Custom)), PwmWrite(id, fan, MAXIMUM_PWM, written), PwmRead(id, fan, PwmAnswerOf(readback))]
  }

  function ContainBothCalls(id: Identity, c: Containment): seq<Call> {
    ContainCalls(id, Cpu, c.cpu) + ContainCalls(id, Gpu, c.gpu)
  }

  method ContainFan(m: Machine, id: Identity, fan: Fan, ghost w: Watch) returns (r: EmergencyStatus)
    requires m.Watched(w)
    modifies m
    ensures m.Watched(w) && old(m.trace) <= m.trace && old(m.now) <= m.now
    ensures m.log == old(m.log) + ContainCalls(id, fan, r)
    ensures r.MaximumUnconfirmed? ==> !(r.written && r.readback == MaximumRead)
    ensures OnlyContained(old(m.devices), m.devices, id)
    ensures StatusHolds(r, m.devices, id, fan)
    ensures forall other: Fan :: other != fan && id in m.devices ==> m.devices[id].Of(other) == old(m.devices)[id].Of(other)
  {
    var mode := m.ReadMode(id, fan);
    if mode.Err? {
      return ModeUnreadable(mode.error);
    }
    if mode.value == Auto {
      return FirmwareAuto;
    }
    if mode.value != Custom {
      return ModeUnexpected(mode.value);
    }
    var written := m.WritePwm(id, fan, MAXIMUM_PWM, Unguarded, w);
    var pwm := m.ReadPwm(id, fan);
    var readback := if pwm.Err? then UnreadablePwm(pwm.error)
                    else if pwm.value == MAXIMUM_PWM then MaximumRead
                    else UnexpectedPwm(pwm.value);
    if written && readback == MaximumRead {
      return MaximumConfirmed;
    }
    return MaximumUnconfirmed(written, readback);
  }

  /** Both fans are contained independently: a failure on one never skips the other. */
  method ContainCustomFans(m: Machine, id: Identity, ghost w: Watch) returns (r: Containment)
    requires m.Watched(w)
    modifies m
    ensures m.Watched(w) && old(m.trace) <= m.trace && old(m.now) <= m.now
    ensures m.log == old(m.log) + ContainBothCalls(id, r)
    ensures OnlyContained(old(m.devices), m.devices, id)
    ensures StatusHolds(r.cpu, m.devices, id, Cpu) && StatusHolds(r.gpu, m.devices, id, Gpu)
    ensures r.RestorationConfirmed() ==> BothAuto(m.devices, id)
  {
    hide ContainCalls;
    var cpu := ContainFan(m, id, Cpu, w);
    var gpu := ContainFan(m, id, Gpu, w);
    r := Containment(cpu, gpu);
  }

  // ---------------------------------------------------------------- recovery

  /** One cycle of recovery: attempts, and containment unless they succeeded. */
  datatype RecoveryCycle = RecoveryCycle(tries: seq<Try>, containment: Option<Containment>)

  function CycleCalls(id: Identity, c: RecoveryCycle): seq<Call> {
    AllTryCalls(id, c.tries) + (if c.containment.None? then [] else ContainBothCalls(id, c.containment.value))
  }

  function RecoveryCalls(id: Identity, cycles: seq<RecoveryCycle>): seq<Call> {
    if cycles == [] then [] else RecoveryCalls(id, cycles[..|cycles| - 1]) + CycleCalls(id, cycles[|cycles| - 1])
  }

  lemma OneMoreCycle(id: Identity, begun: seq<Call>, heard: seq<Call>, cycles: seq<RecoveryCycle>, c: RecoveryCycle)
    requires heard == begun + RecoveryCalls(id, cycles)
    ensures heard + CycleCalls(id, c) == begun + RecoveryCalls(id, cycles + [c])
  {
    hide CycleCalls;
    assert (cycles + [c])[..|cycles|] == cycles;
    assert heard + CycleCalls(id, c) == begun + (RecoveryCalls(id, cycles) + CycleCalls(id, c));
  }

  /** A cycle that did not end recovery tried to restore and contained what it could not. */
  ghost predicate Unfinished(c: RecoveryCycle) {
    1 <= |c.tries| <= MAX_ATTEMPTS && c.containment.Some? && !c.containment.value.RestorationConfirmed()
  }

  ghost predicate AllUnfinished(made: seq<RecoveryCycle>) {
    forall i :: 0 <= i < |made| ==> Unfinished(made[i])
  }

  method RecoverOnce(m: Machine, id: Identity, ghost w: Watch) returns (done: bool, ghost c: RecoveryCycle)
    requires m.Watched(w)
    modifies m
    ensures m.Watched(w) && old(m.trace) <= m.trace && old(m.now) <= m.now
    ensures m.log == old(m.log) + CycleCalls(id, c)
    ensures OnlySafed(old(m.devices), m.devices, id)
    ensures done ==> BothAuto(m.devices, id) && !Unfinished(c)
    ensures !done ==> Unfinished(c) && m.now >= old(m.now) + RECOVERY_INTERVAL
  {
    hide AllTryCalls, ContainBothCalls, BothAuto, OnlySafed, OnlyRestored, OnlyContained;
    ghost var begun, first := m.log, m.devices;
    var cycleStarted := m.MonotonicNow();
    var nextAttempt := cycleStarted + RECOVERY_INTERVAL;
    var restored, tries := RestoreBefore(m, id, cycleStarted, cycleStarted + RECOVERY_RESTORATION_WINDOW, w);
    ghost var second := m.devices;
    c := RecoveryCycle(tries, None);
    if restored.Ok? {
      RestoredAndContained(first, second, second, id);
      return true, c;
    }
    var contained := ContainCustomFans(m, id, w);
    RestoredAndContained(first, second, m.devices, id);
    c := RecoveryCycle(tries, Some(contained));
    Reassociate(begun, AllTryCalls(id, tries), ContainBothCalls(id, contained));
    if contained.RestorationConfirmed() {
      return true, c;
    }
    var now := m.MonotonicNow();
    if now < nextAttempt {
      m.Delay(nextAttempt - now);
    }
    done := false;
  }

  function RecoveryTime(cycles: nat): nat {
    cycles * RECOVERY_INTERVAL
  }

  /**
   * The recovery loop, observed for at most `cycles` cycles: it is over only when both fans are in
   * Auto, and until then every cycle has tried to restore and contained what it could not.
   */
  method Recover(m: Machine, id: Identity, cycles: nat, ghost w: Watch) returns (done: bool, ghost made: seq<RecoveryCycle>)
    requires m.Watched(w)
    modifies m
    ensures m.Watched(w) && old(m.trace) <= m.trace && old(m.now) <= m.now
    ensures m.log == old(m.log) + RecoveryCalls(id, made) && |made| <= cycles
    ensures OnlySafed(old(m.devices), m.devices, id)
    ensures done ==> BothAuto(m.devices, id)
    ensures !done ==> m.now >= old(m.now) + RecoveryTime(cycles)
    ensures !done ==> |made| == cycles && AllUnfinished(made)
  {
    ghost var start, begun := m.now, m.log;
    made := [];
    assert m.log == begun + RecoveryCalls(id, made);
    SafedTwice(m.devices, m.devices, m.devices, id);
    hide CycleCalls, RecoveryCalls, Unfinished, OnlySafed, BothAuto;
    for cycle := 0 to cycles
      invariant m.Watched(w) && old(m.trace) <= m.trace && old(m.now) <= m.now
      invariant m.log == begun + RecoveryCalls(id, made)
      invariant OnlySafed(old(m.devices), m.devices, id)
      invariant m.now >= start + cycle * RECOVERY_INTERVAL
      invariant |made| == cycle && AllUnfinished(made)
    {
      ghost var before, heard := m.devices, m.log;
      ghost var c;
      assert (cycle + 1) * RECOVERY_INTERVAL == cycle * RECOVERY_INTERVAL + RECOVERY_INTERVAL;
      done, c := RecoverOnce(m, id, w);
      OneMoreCycle(id, begun, heard, made, c);
      made := made + [c];
      SafedTwice(old(m.devices), before, m.devices, id);
      if done {
        return;
      }
    }
    done := false;
  }
}
