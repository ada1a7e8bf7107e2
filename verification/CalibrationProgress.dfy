/** When an observation is accepted, and that every session which has not failed can still be completed. */
module CalibrationProgress {
  import opened Wrappers
  import opened Config
  import opened Calibration
  import opened CalibrationSession
  import opened CalibrationReplay
  import opened CalibrationProtocol
  import opened CalibrationEvidence
  import opened CalibrationLog

  // ---------------------------------------------------------------- what is accepted

  /** Supervision goes on: at most two seconds since the last sample, unless the session was just resumed. */
  ghost predicate Timely(s: Session, samples: seq<Readback>) {
    s.resumePhase.None? && s.lastObserved.Some? ==> samples != [] && 1 <= samples[0].time - s.lastObserved.value <= 2_000
  }

  /** Both fans were held where the step wants them, without a gap. */
  ghost predicate Held(s: Session, samples: seq<Readback>, pwm: nat) {
    HeldAt(samples, pwm) && Continuous(samples) && OtherFanHeld(samples) && Timely(s, samples)
  }

  lemma ReadbacksAccepted(s: Session, step: Step, level: LevelObservation)
    requires StepPwm(step).Some?
    ensures ReadbackFault(s, step, level).None?
            <==> Held(s, level.samples, StepPwm(step).value) && level.samples[0].time == level.commandedAt
  {
  }

  /** A sweep level need not settle, but it must be seen to settle or not. */
  ghost predicate Conclusive(level: LevelObservation) {
    var samples := level.samples;
    && !AllSilent(samples) && !AnyImplausible(samples)
    && if level.stall || level.collapse then !AnySilent(samples)
       else
         && 1_000 <= samples[|samples| - 1].time - level.commandedAt <= 10_000
         && var tail := SpeedSamples(level);
         && !AnySilent(tail) && |tail| >= 3 && tail[|tail| - 1].time - tail[0].time >= 1_000
         && forall i :: 0 <= i < |tail| - 1 ==> tail[i + 1].time - tail[i].time >= 250
  }

  lemma JudgedConclusive(level: LevelObservation)
    ensures Judge(true, level).Ok? <==> Conclusive(level)
  {
    hide StableMedian, FirstRpmIndex, RpmValues, AnyImplausible;
    if !AllSilent(level.samples) {
      GapsLongEnough(SpeedSamples(level));
    }
  }

  lemma JudgedSettled(sweeping: bool, step: Step, level: LevelObservation)
    ensures Judge(sweeping, level).Ok? && Judge(sweeping, level).value.Some? <==> SettledEvent(LevelEvent(step, level))
  {
    SettledMeans(level);
    if SettledLevel(level).Ok? {
      SettlesIsPlausible(level);
    }
    hide SettledLevel, SettledProperly;
  }

  lemma SettlesIsPlausible(level: LevelObservation)
    requires SettledLevel(level).Ok?
    ensures !AnyImplausible(level.samples) && !AllSilent(level.samples)
  {
    hide StableMedian, FirstRpmIndex, RpmValues;
  }

  /** Which verdicts the transition itself still turns down. */
  lemma AppliedExactly(s: Session, settled: Option<Settled>)
    requires !NextStep(s).CompleteStep? && !NextStep(s).FailedStep? && !NextStep(s).HoldFloor?
    ensures ApplyLevel(s, settled).error.None? <==>
              && (settled.Some? || (NextStep(s).Sweep? && s.phase.index >= 2))
              && (NextStep(s).CaptureAnchor? && s.anchors != [] ==> settled.value.medianRpm >= s.anchors[|s.anchors| - 1].medianRpm)
  {
  }

  /** What a level observation must show. */
  ghost predicate AcceptableLevel(s: Session, level: LevelObservation) {
    var step := NextStep(s);
    && StepPwm(step).Some? && !step.HoldFloor?
    && Held(s, level.samples, StepPwm(step).value) && level.samples[0].time == level.commandedAt
    && (SettledEvent(LevelEvent(step, level)) || (step.Sweep? && s.phase.index >= 2 && Conclusive(level)))
    && (step.CaptureAnchor? && s.anchors != [] ==> MedianSpeed(level) >= s.anchors[|s.anchors| - 1].medianRpm)
  }

  /** The three stages a level passes. */
  lemma RecordedExactly(s: Session, level: LevelObservation)
    requires StepPwm(NextStep(s)).Some? && !NextStep(s).HoldFloor?
    ensures RecordLevel(s, level).error.None? <==>
              && ReadbackFault(s, NextStep(s), level).None?
              && Judge(s.phase.SweepPhase?, level).Ok?
              && ApplyLevel(s, Judge(s.phase.SweepPhase?, level).value).error.None?
  {
    hide Judge, ReadbackFault, ApplyLevel, Logged;
  }

  /** The last two of them. */
  lemma JudgedAndApplied(s: Session, level: LevelObservation)
    requires StepPwm(NextStep(s)).Some? && !NextStep(s).HoldFloor?
    ensures Judge(s.phase.SweepPhase?, level).Ok? && ApplyLevel(s, Judge(s.phase.SweepPhase?, level).value).error.None? <==>
              && (SettledEvent(LevelEvent(NextStep(s), level)) || (NextStep(s).Sweep? && s.phase.index >= 2 && Conclusive(level)))
              && (NextStep(s).CaptureAnchor? && s.anchors != [] ==> MedianSpeed(level) >= s.anchors[|s.anchors| - 1].medianRpm)
  {
    var step, judged := NextStep(s), Judge(s.phase.SweepPhase?, level);
    JudgedConclusive(level);
    JudgedSettled(s.phase.SweepPhase?, step, level);
    hide Judge, ApplyLevel, SettledProperly, Conclusive, MedianSpeed;
    if judged.Ok? {
      JudgedEvent(s.phase.SweepPhase?, step, level);
      AppliedExactly(s, judged.value);
    }
  }

  /** A level is accepted exactly when it shows that. */
  lemma LevelAcceptedExactly(s: Session, level: LevelObservation)
    ensures RecordLevel(s, level).error.None? <==> AcceptableLevel(s, level)
  {
    var step := NextStep(s);
    if StepPwm(step).Some? && !step.HoldFloor? {
      hide RecordLevel, NextStep, Held, Conclusive, SettledProperly, MedianSpeed;
      ReadbacksAccepted(s, step, level);
      RecordedExactly(s, level);
      JudgedAndApplied(s, level);
    } else {
      hide ReadbackFault, Judge, LogLevel;
    }
  }

  /** A hold is accepted exactly when it is due, follows on, and is genuine. */
  lemma HoldAcceptedExactly(s: Session, hold: HoldObservation)
    ensures RecordHold(s, hold).error.None?
            <==> GenuineHold(HoldEvent(NextStep(s), hold)) && OtherFanHeld(hold.samples) && Timely(s, hold.samples)
  {
    hide Logged, SteadinessFault, SteadySpeed;
    HoldSteadyExactly(hold.samples);
  }

  lemma HoldSteadyExactly(samples: seq<Readback>)
    ensures SteadinessFault(samples).None?
            <==> samples != [] && samples[|samples| - 1].time - samples[0].time >= 900_000 && Continuous(samples) && SteadySpeed(samples)
  {
    if Continuous(samples) {
      DurationBoundedByCount(samples);
      SteadyIsVocal(samples);
      if !AnySilent(samples) {
        SteadyIsStable(samples);
      }
    }
  }

  // ---------------------------------------------------------------- how far it is to the end

  /** Observations still needed if every sweep level settles. */
  function Remaining(phase: Phase): nat
    requires (phase.SweepPhase? ==> phase.index <= 5) && (phase.ToMaximum? || phase.ToFloor? ==> phase.attempt <= 5)
    requires phase.AnchorPhase? ==> phase.index <= 4
  {
    match phase
    case SweepPhase(index) => 20 - index
    case ToMaximum(attempt) => 17 - 2 * attempt
    case ToFloor(attempt) => 16 - 2 * attempt
    case HoldPhase => 5
    case AnchorPhase(index) => 4 - index
    case Complete => 0
    case Failed => 0
  }

  /** Every accepted level is one step closer to the end; a revalidation only clears the way. */
  lemma LevelAdvancesPhase(s: Session, settled: Option<Settled>)
    requires !NextStep(s).CompleteStep? && !NextStep(s).FailedStep? && !NextStep(s).HoldFloor?
    requires ApplyLevel(s, settled).error.None?
    ensures var r := ApplyLevel(s, settled).session;
            if s.resumePhase.Some? then r.phase == s.phase && r.resumePhase.None?
            else Remaining(r.phase) < Remaining(s.phase) && (settled.Some? ==> Remaining(r.phase) == Remaining(s.phase) - 1)
  {
  }

  /** What is left to do, counting a pending revalidation. */
  function Distance(s: Session): nat {
    2 * Remaining(s.phase) + (if s.resumePhase.Some? then 1 else 0)
  }

  lemma AcceptedAdvances(s: Session, action: Action)
    requires !action.Reload?
    requires if action.ObserveLevel? then RecordLevel(s, action.level).error.None? else RecordHold(s, action.hold).error.None?
    ensures Distance(Act(s, action)) < Distance(s) && !Act(s, action).phase.Failed?
  {
    if action.ObserveLevel? {
      LevelAccepted(s, action.level);
      hide RecordLevel, ApplyLevel, Judge, ReadbackFault;
      var settled := Judge(s.phase.SweepPhase?, action.level).value;
      LevelAdvancesPhase(s, settled);
      LoggedKeepsPosition(ApplyLevel(s, settled).session, LevelEvent(NextStep(s), action.level), action.level.samples);
    } else {
      hide HoldFault;
    }
  }

  // ---------------------------------------------------------------- a way to the end

  /** A steady sample with both fans where they should be. */
  function Steady(time: nat, pwm: nat, rpm: nat): Readback {
    Readback(time, CUSTOM_CONTROL, pwm, CUSTOM_CONTROL, MAXIMUM_PWM, Some(rpm))
  }

  /** `count` steady samples `gap` apart. */
  function SteadySamples(start: nat, gap: nat, count: nat, pwm: nat, rpm: nat): (r: seq<Readback>)
    ensures |r| == count && forall i :: 0 <= i < count ==> r[i] == Steady(start + gap * i, pwm, rpm)
  {
    seq(count, i requires 0 <= i < count => Steady(start + gap * i, pwm, rpm))
  }

  lemma SamplesAreHeldSteady(start: nat, gap: nat, count: nat, pwm: nat, rpm: nat)
    requires 1 <= gap <= 2_000 && count >= 3 && 100 <= rpm <= 20_000
    ensures var samples := SteadySamples(start, gap, count, pwm, rpm);
            HeldAt(samples, pwm) && Continuous(samples) && OtherFanHeld(samples) && SteadySpeed(samples)
  {
    var samples := SteadySamples(start, gap, count, pwm, rpm);
    forall i | 0 <= i < |samples| - 1 ensures 1 <= samples[i + 1].time - samples[i].time <= 2_000 {
      assert gap * (i + 1) == gap * i + gap;
    }
  }

  function GoodLevel(start: nat, pwm: nat, rpm: nat): LevelObservation {
    LevelObservation(start, SteadySamples(start, 500, 3, pwm, rpm), false, false)
  }

  function GoodHold(start: nat, pwm: nat, rpm: nat): HoldObservation {
    HoldObservation(SteadySamples(start, 2_000, 451, pwm, rpm), false, false)
  }

  lemma GoodLevelSettles(step: Step, start: nat, pwm: nat, rpm: nat)
    requires 100 <= rpm <= 20_000
    ensures SettledEvent(LevelEvent(step, GoodLevel(start, pwm, rpm))) && MedianSpeed(GoodLevel(start, pwm, rpm)) == rpm
  {
    var level := GoodLevel(start, pwm, rpm);
    var samples := level.samples;
    SamplesAreHeldSteady(start, 500, 3, pwm, rpm);
    hide SteadySpeed, Median, Tolerance;
    assert samples[0].rpm.Some?;
    assert FirstRpmIndex(samples) == 0;
    assert SpeedSamples(level) == samples;
    assert SettledProperly(level);
  }

  /** The speed to show next: no slower than the last anchor. */
  function NextSpeed(s: Session): nat {
    if s.anchors == [] then 2_000 else s.anchors[|s.anchors| - 1].medianRpm
  }

  function NextStart(s: Session): nat {
    if s.lastObserved.Some? then s.lastObserved.value + 1 else 0
  }

  /** An observation that moves the session on. */
  function GoodAction(s: Session): Action
    requires !s.phase.Failed? && !s.phase.Complete?
  {
    var step := NextStep(s);
    if step.HoldFloor? then ObserveHold(GoodHold(NextStart(s), step.pwm, NextSpeed(s)))
    else ObserveLevel(GoodLevel(NextStart(s), step.pwm, NextSpeed(s)))
  }

  lemma GoodSamplesHeld(s: Session, gap: nat, count: nat, pwm: nat, rpm: nat)
    requires 1 <= gap <= 2_000 && count >= 3 && 100 <= rpm <= 20_000
    ensures Held(s, SteadySamples(NextStart(s), gap, count, pwm, rpm), pwm)
  {
    hide SteadySpeed, Continuous, OtherFanHeld, HeldAt;
    SamplesAreHeldSteady(NextStart(s), gap, count, pwm, rpm);
  }

  lemma GoodHoldAccepted(s: Session, rpm: nat)
    requires NextStep(s).HoldFloor? && 100 <= rpm <= 20_000
    ensures RecordHold(s, GoodHold(NextStart(s), NextStep(s).pwm, rpm)).error.None?
  {
    hide RecordHold, SteadySpeed;
    SamplesAreHeldSteady(NextStart(s), 2_000, 451, NextStep(s).pwm, rpm);
    HoldAcceptedExactly(s, GoodHold(NextStart(s), NextStep(s).pwm, rpm));
  }

  lemma GoodLevelAccepted(s: Session, rpm: nat)
    requires StepPwm(NextStep(s)).Some? && !NextStep(s).HoldFloor? && 100 <= rpm <= 20_000
    requires s.anchors != [] ==> rpm >= s.anchors[|s.anchors| - 1].medianRpm
    ensures RecordLevel(s, GoodLevel(NextStart(s), NextStep(s).pwm, rpm)).error.None?
  {
    hide RecordLevel, Held, SettledEvent, MedianSpeed, NextStep, Conclusive;
    var step, start := NextStep(s), NextStart(s);
    GoodSamplesHeld(s, 500, 3, step.pwm, rpm);
    GoodLevelSettles(step, start, step.pwm, rpm);
    LevelAcceptedExactly(s, GoodLevel(start, step.pwm, rpm));
  }

  lemma GoodActionAdvances(s: Session)
    requires !s.phase.Failed? && !s.phase.Complete? && AnchorsMeasured(s)
    ensures !Act(s, GoodAction(s)).phase.Failed? && Distance(Act(s, GoodAction(s))) < Distance(s)
  {
    hide RecordLevel, RecordHold, Act, Distance, GoodHold, GoodLevel;
    if NextStep(s).HoldFloor? {
      GoodHoldAccepted(s, NextSpeed(s));
    } else {
      GoodLevelAccepted(s, NextSpeed(s));
    }
    AcceptedAdvances(s, GoodAction(s));
  }

  /** No dead ends: every reachable session that has not failed can be completed. */
  lemma {:induction false} NeverStuck(fan: Fan, actions: seq<Action>) returns (more: seq<Action>)
    requires !Perform(fan, actions).phase.Failed?
    ensures Perform(fan, actions + more).phase.Complete?
    decreases Distance(Perform(fan, actions))
  {
    hide Perform, GoodAction, Act, Distance;
    var s := Perform(fan, actions);
    if s.phase.Complete? {
      more := [];
      assert actions + [] == actions;
    } else {
      ReachableIsMeasured(fan, actions);
      GoodActionAdvances(s);
      PerformAppend(fan, actions, GoodAction(s));
      var rest := NeverStuck(fan, actions + [GoodAction(s)]);
      more := [GoodAction(s)] + rest;
      assert actions + [GoodAction(s)] + rest == actions + more;
    }
  }

  /** Twenty accepted observations, revalidations aside, always complete a session; fewer may. */
  lemma StepsLeft(fan: Fan, actions: seq<Action>)
    requires !Perform(fan, actions).phase.Failed?
    ensures var s := Perform(fan, actions);
            && |Commands(s.events)| + Remaining(s.phase) <= 20
            && (Remaining(s.phase) == 0 <==> s.phase.Complete?)
  {
    ReachableIsOnProtocol(fan, actions);
    hide Perform, Commands, SettledDuties;
    ExpectedCount(Perform(fan, actions));
  }

  lemma ExpectedCount(s: Session)
    requires !s.phase.Failed?
    ensures |Expected(s)| + Remaining(s.phase) <= 20
  {
  }
}
