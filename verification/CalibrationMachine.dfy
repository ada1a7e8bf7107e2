/** `ConservativeFanCalibration` (calibration.rs), updated in place and proved against the session functions. */
module CalibrationMachine {
  import opened Wrappers
  import opened Config
  import opened Calibration
  import opened CalibrationSession

  class ConservativeFanCalibration {
    var fan: Fan
    var phase: Phase
    var stable: seq<nat>
    var floor: Option<nat>
    var slowest: nat
    var anchors: seq<Anchor>
    var evidence: Option<Evidence>
    var events: seq<Event>
    var lastObserved: Option<nat>
    var resumePhase: Option<Phase>

    ghost function Values(): SessionValues
      reads this
    {
      SessionValues(fan, phase, stable, floor, slowest, anchors, evidence, events, lastObserved, resumePhase)
    }

    ghost predicate Valid()
      reads this
    {
      Coherent(Values())
    }

    constructor (fan: Fan)
      ensures Valid() && Values() == Start(fan)
    {
      this.fan := fan;
      this.phase := SweepPhase(0);
      this.stable := [];
      this.floor := None;
      this.slowest := 0;
      this.anchors := [];
      this.evidence := None;
      this.events := [];
      this.lastObserved := None;
      this.resumePhase := None;
    }

    method TakeCheckpoint() returns (c: Checkpoint)
      ensures c == CheckpointOf(Values())
    {
      c := Checkpoint(1, fan, phase.Failed?, events);
    }

    method FailWith(e: CalibrationError) returns (error: Option<CalibrationError>)
      modifies `phase, `evidence, `resumePhase
      ensures Valid() && Values() == Fail(old(Values()), e).session && error == Some(e)
    {
      phase := Failed;
      evidence := None;
      resumePhase := None;
      error := Some(e);
    }

    method NextStepNow() returns (step: Step)
      requires Valid()
      ensures step == NextStep(Values())
    {
      if resumePhase.Some? {
        return RevalidateBothAtMaximum(MAXIMUM_PWM);
      }
      match phase {
        case SweepPhase(index) => step := Sweep(SWEEP[index], DutyToPwm(SWEEP[index]));
        case ToMaximum(attempt) => step := TransitionToMaximum(attempt, MAXIMUM_PWM);
        case ToFloor(attempt) => step := TransitionToFloor(attempt, floor.value, DutyToPwm(floor.value));
        case HoldPhase => step := HoldFloor(floor.value, DutyToPwm(floor.value), REQUIRED_HOLD);
        case AnchorPhase(index) =>
          var duty := AnchorDuties(floor.value)[index];
          step := CaptureAnchor(duty, DutyToPwm(duty));
        case Complete => step := CompleteStep;
        case Failed => step := FailedStep;
      }
    }

    method ValidateSamples(step: Step, samples: seq<Readback>) returns (error: Option<CalibrationError>)
      requires Valid()
      modifies `phase, `evidence, `resumePhase
      ensures error == SampleFault(step, samples)
      ensures Valid() && Values() == if error.None? then old(Values()) else Fail(old(Values()), error.value).session
    {
      for i := 0 to |samples|
        invariant OtherFanHeld(samples[..i])
        invariant Values() == old(Values())
      {
        if samples[i].otherEnable != CUSTOM_CONTROL || samples[i].otherPwm != MAXIMUM_PWM {
          error := FailWith(OtherFanNotAtMaximum);
          return;
        }
        assert samples[..i + 1] == samples[..i] + [samples[i]];
      }
      assert samples[..|samples|] == samples;
      if samples == [] {
        error := FailWith(SelectedFanReadbackMismatch);
        return;
      }
      for i := 0 to |samples|
        invariant SelectedFanMatches(step, samples[..i])
        invariant Values() == old(Values())
      {
        if samples[i].selectedEnable != CUSTOM_CONTROL || Some(samples[i].selectedPwm) != StepPwm(step) {
          error := FailWith(SelectedFanReadbackMismatch);
          return;
        }
        assert samples[..i + 1] == samples[..i] + [samples[i]];
      }
      error := None;
    }

    method ValidateChronology(samples: seq<Readback>) returns (error: Option<CalibrationError>)
      requires Valid()
      modifies `phase, `evidence, `resumePhase
      ensures error == if ChronologyBroken(old(Values()), samples) then Some(UnexpectedStep) else None
      ensures Valid() && Values() == if error.None? then old(Values()) else Fail(old(Values()), error.value).session
    {
      if resumePhase.None? && lastObserved.Some? {
        var last := lastObserved.value;
        if samples == [] || samples[0].time <= last || samples[0].time - last > MAXIMUM_GAP {
          error := FailWith(UnexpectedStep);
          return;
        }
      }
      error := None;
    }

    method ValidateReadbacks(step: Step, observation: LevelObservation) returns (error: Option<CalibrationError>)
      requires Valid()
      modifies `phase, `evidence, `resumePhase
      ensures error == ReadbackFault(old(Values()), step, observation)
      ensures Valid() && Values() == if error.None? then old(Values()) else Fail(old(Values()), error.value).session
    {
      var samples := observation.samples;
      if samples == [] || samples[0].time != observation.commandedAt || !Continuous(samples) {
        error := FailWith(UnexpectedStep);
        return;
      }
      error := ValidateChronology(samples);
      if error.None? {
        error := ValidateSamples(step, samples);
      }
    }

    method NoteResponse(responseMillis: nat)
      modifies `slowest
      ensures Values() == ObserveResponse(old(Values()), responseMillis)
    {
      if slowest < responseMillis {
        slowest := responseMillis;
      }
    }

    method SweepTo(settled: Option<Settled>) returns (error: Option<CalibrationError>)
      requires Valid() && phase.SweepPhase? && resumePhase.None?
      modifies this
      ensures Valid()
      ensures var outcome := RecordSweep(old(Values()), settled); Values() == outcome.session && error == outcome.error
    {
      var index := phase.index;
      if settled.Some? {
        NoteResponse(settled.value.responseMillis);
        stable := stable + [SWEEP[index]];
        assert SWEEP[..index] + [SWEEP[index]] == SWEEP[..index + 1];
        if index + 1 < 5 {
          phase := SweepPhase(index + 1);
          return None;
        }
      }
      if stable == [] {
        error := FailWith(ConservativeMarginUnavailable);
        return;
      }
      var candidate := stable[|stable| - 1] + MARGIN;
      if candidate > MAXIMUM_DUTY {
        error := FailWith(ConservativeMarginUnavailable);
        return;
      }
      floor := Some(candidate);
      phase := ToMaximum(1);
      error := None;
    }

    method CaptureAnchorAt(response: Settled) returns (error: Option<CalibrationError>)
      requires Valid() && phase.AnchorPhase? && resumePhase.None?
      modifies this
      ensures Valid()
      ensures var outcome := RecordAnchor(old(Values()), response); Values() == outcome.session && error == outcome.error
    {
      var index := phase.index;
      NoteResponse(response.responseMillis);
      if anchors != [] && response.medianRpm < anchors[|anchors| - 1].medianRpm {
        error := FailWith(DecreasingAnchorRpm);
        return;
      }
      var duties := AnchorDuties(floor.value);
      anchors := anchors + [Anchor(duties[index], response.medianRpm)];
      if index + 1 == |duties| {
        evidence := Some(Evidence(fan, floor.value, Some(slowest), None, ResponseDeadline(slowest), anchors));
        phase := Complete;
      } else {
        phase := AnchorPhase(index + 1);
      }
      error := None;
    }

    method Apply(step: Step, settled: Option<Settled>) returns (error: Option<CalibrationError>)
      requires Valid() && step == NextStep(Values())
      requires !step.CompleteStep? && !step.FailedStep? && !step.HoldFloor?
      modifies this
      ensures Valid()
      ensures var outcome := ApplyLevel(old(Values()), settled); Values() == outcome.session && error == outcome.error
    {
      if resumePhase.None? && phase.SweepPhase? {
        error := SweepTo(settled);
        return;
      }
      if settled.None? {
        error := FailWith(UnstableRequiredLevel);
        return;
      }
      if resumePhase.Some? {
        phase := resumePhase.value;
        resumePhase := None;
        NoteResponse(settled.value.responseMillis);
        return None;
      }
      if phase.AnchorPhase? {
        error := CaptureAnchorAt(settled.value);
        return;
      }
      NoteResponse(settled.value.responseMillis);
      if phase.ToMaximum? {
        phase := ToFloor(phase.attempt);
      } else if phase.attempt == TRANSITIONS {
        phase := HoldPhase;
      } else {
        phase := ToMaximum(phase.attempt + 1);
      }
      error := None;
    }

    method Log(event: Event, samples: seq<Readback>)
      requires Valid() && resumePhase.None?
      modifies `lastObserved, `events, `evidence
      ensures Valid() && Values() == Logged(old(Values()), event, samples)
    {
      lastObserved := LastTime(samples);
      events := events + [event];
      if phase.Complete? {
        evidence := Some(evidence.value.(checkpoint := Some(Checkpoint(1, fan, phase.Failed?, events))));
      }
    }

    method Level(observation: LevelObservation) returns (error: Option<CalibrationError>)
      requires Valid()
      modifies this
      ensures Valid()
      ensures var outcome := RecordLevel(old(Values()), observation); Values() == outcome.session && error == outcome.error
    {
      if phase.Failed? {
        return Some(StageAlreadyFailed);
      }
      var step := NextStepNow();
      if step.CompleteStep? || step.FailedStep? || step.HoldFloor? {
        error := FailWith(UnexpectedStep);
        return;
      }
      error := ValidateReadbacks(step, observation);
      if error.Some? {
        return;
      }
      var settled := Judge(phase.SweepPhase?, observation);
      if settled.Err? {
        error := FailWith(settled.error);
        return;
      }
      error := Apply(step, settled.value);
      if error.None? {
        Log(LevelEvent(step, observation), observation.samples);
      }
    }

    method ValidateHold(samples: seq<Readback>) returns (error: Option<CalibrationError>)
      requires Valid()
      modifies `phase, `evidence, `resumePhase
      ensures error == SteadinessFault(samples)
      ensures Valid() && Values() == if error.None? then old(Values()) else Fail(old(Values()), error.value).session
    {
      var span := SampleDuration(samples);
      var duration := if span.Some? then span.value else 0;
      if duration < REQUIRED_HOLD || |samples| < MinimumHoldSamples() || !Continuous(samples) {
        error := FailWith(IncompleteHold);
        return;
      }
      var median := HoldMedian(samples);
      if median.Err? {
        error := FailWith(median.error);
      } else if median.value.None? {
        error := FailWith(IncompleteHold);
      } else {
        error := None;
      }
    }

    method Hold(observation: HoldObservation) returns (error: Option<CalibrationError>)
      requires Valid()
      modifies this
      ensures Valid()
      ensures var outcome := RecordHold(old(Values()), observation); Values() == outcome.session && error == outcome.error
    {
      hide SteadinessFault, SampleFault, ChronologyBroken, DutyToPwm;
      if phase.Failed? {
        return Some(StageAlreadyFailed);
      }
      if resumePhase.Some? || !phase.HoldPhase? {
        error := FailWith(UnexpectedStep);
        return;
      }
      var step := NextStepNow();
      if observation.stall || observation.collapse {
        error := FailWith(IncompleteHold);
        return;
      }
      error := ValidateChronology(observation.samples);
      if error.Some? { return; }
      error := ValidateSamples(step, observation.samples);
      if error.Some? { return; }
      error := ValidateHold(observation.samples);
      if error.Some? { return; }
      phase := AnchorPhase(0);
      Log(HoldEvent(step, observation), observation.samples);
    }

    /** Replays one logged event; false is the invalid-checkpoint error. */
    method ReplayLogged(event: Event) returns (accepted: bool)
      requires Valid() && !phase.Failed?
      modifies this
      ensures accepted <==> ReplayEvent(old(Values()), event).Some?
      ensures accepted ==> Valid() && Values() == ReplayEvent(old(Values()), event).value
    {
      hide RecordLevel, RecordHold;
      if phase.Complete? {
        return false;
      }
      if IsRevalidation(event) && resumePhase.None? {
        resumePhase := Some(phase);
      }
      var step := NextStepNow();
      if step != event.step {
        return false;
      }
      var error;
      if event.LevelEvent? {
        error := Level(event.level);
      } else {
        error := Hold(event.hold);
      }
      accepted := error.None?;
    }

    /** Rebuilds a session by replaying a checkpoint's log; `null` is the invalid-checkpoint error. */
    static method ResumeFrom(fan: Fan, checkpoint: Checkpoint) returns (session: ConservativeFanCalibration?)
      ensures session != null <==> Resume(fan, checkpoint).Ok?
      ensures session != null ==> fresh(session) && session.Valid() && session.Values() == Resume(fan, checkpoint).value
    {
      if checkpoint.schemaVersion != 1 || checkpoint.failed || checkpoint.fan != fan {
        return null;
      }
      var machine := new ConservativeFanCalibration(fan);
      var log := checkpoint.events;
      assert log[..0] == [];
      hide ReplayEvent;
      for i := 0 to |log|
        invariant fresh(machine) && machine.Valid()
        invariant Replay(fan, log[..i]) == Some(machine.Values())
      {
        ReplayStep(fan, log, i);
        var accepted := machine.ReplayLogged(log[i]);
        if !accepted {
          ReplayStuck(fan, log, i + 1);
          return null;
        }
      }
      assert log[..|log|] == log;
      if !machine.phase.Complete? {
        machine.resumePhase := Some(machine.phase);
      }
      session := machine;
    }
  }

  lemma ReplayStep(fan: Fan, log: seq<Event>, i: nat)
    requires i < |log| && Replay(fan, log[..i]).Some?
    ensures Replay(fan, log[..i + 1]) == ReplayEvent(Replay(fan, log[..i]).value, log[i])
  {
    hide Replay, ReplayEvent;
    assert log[..i + 1] == log[..i] + [log[i]];
    ReplayAppend(fan, log[..i], log[i]);
  }

  /** Once an event is rejected, the whole log is. */
  lemma {:induction false} ReplayStuck(fan: Fan, log: seq<Event>, i: nat)
    requires i <= |log| && Replay(fan, log[..i]).None?
    ensures Replay(fan, log).None?
    decreases |log| - i
  {
    hide Replay, ReplayEvent;
    if i < |log| {
      assert log[..i + 1] == log[..i] + [log[i]];
      ReplayAppend(fan, log[..i], log[i]);
      ReplayStuck(fan, log, i + 1);
    } else {
      assert log[..i] == log;
    }
  }
}
