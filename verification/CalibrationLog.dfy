/** What each entry of a reachable calibration log proves about the fan, and that results are computed from the log. */
module CalibrationLog {
  import opened Wrappers
  import opened Config
  import opened Calibration
  import opened CalibrationSession
  import opened CalibrationReplay
  import opened CalibrationProtocol
  import opened CalibrationEvidence

  // ---------------------------------------------------------------- genuine entries

  /** The selected fan was in Custom at `pwm` in every sample. */
  ghost predicate HeldAt(samples: seq<Readback>, pwm: nat) {
    samples != [] && forall i :: 0 <= i < |samples| ==> samples[i].selectedEnable == 1 && samples[i].selectedPwm == pwm
  }

  /** Fifteen minutes at the floor without a gap, at a plausible and steady speed. */
  ghost predicate GenuineHold(event: Event) {
    && event.HoldEvent? && event.step.HoldFloor?
    && !event.hold.stall && !event.hold.collapse
    && var samples := event.hold.samples;
    && HeldAt(samples, DutyToPwm(event.step.duty))
    && samples[|samples| - 1].time - samples[0].time >= 900_000
    && Continuous(samples) && SteadySpeed(samples)
  }

  /** Observed from the command on at the commanded duty; anything but a sweep level must also have settled. */
  ghost predicate GenuineLevel(event: Event) {
    && event.LevelEvent? && !event.step.HoldFloor? && StepPwm(event.step).Some?
    && HeldAt(event.level.samples, StepPwm(event.step).value)
    && event.level.samples[0].time == event.level.commandedAt
    && (!event.step.Sweep? ==> !event.level.stall && !event.level.collapse && SettledProperly(event.level))
  }

  ghost predicate Genuine(event: Event) {
    if event.HoldEvent? then GenuineHold(event) else GenuineLevel(event)
  }

  ghost predicate AllGenuine(events: seq<Event>) {
    forall i :: 0 <= i < |events| ==> Genuine(events[i])
  }

  lemma SamplesAreHeld(step: Step, samples: seq<Readback>)
    requires SampleFault(step, samples).None? && StepPwm(step).Some?
    ensures HeldAt(samples, StepPwm(step).value)
  {
  }

  lemma AcceptedLevelIsGenuine(s: Session, level: LevelObservation)
    requires RecordLevel(s, level).error.None?
    ensures GenuineLevel(LevelEvent(NextStep(s), level))
  {
    LevelAccepted(s, level);
    hide RecordLevel, Logged, SettledLevel, SettledProperly, RecordSweep, RecordAnchor, SampleFault, HeldAt;
    SamplesAreHeld(NextStep(s), level.samples);
    SettledMeans(level);
  }

  lemma SteadyHold(samples: seq<Readback>)
    requires SteadinessFault(samples).None?
    ensures samples != [] && samples[|samples| - 1].time - samples[0].time >= 900_000
    ensures Continuous(samples) && SteadySpeed(samples)
  {
    SteadyIsStable(samples);
  }

  lemma AcceptedHoldIsGenuine(s: Session, hold: HoldObservation)
    requires RecordHold(s, hold).error.None?
    ensures GenuineHold(HoldEvent(NextStep(s), hold))
  {
    hide SteadinessFault, SteadySpeed, SampleFault, HeldAt, Logged;
    SamplesAreHeld(NextStep(s), hold.samples);
    SteadyHold(hold.samples);
  }

  lemma ActKeepsGenuine(s: Session, action: Action)
    requires Replayable(s) && AllGenuine(s.events)
    ensures AllGenuine(Act(s, action).events)
  {
    hide RecordLevel, RecordHold, Genuine, Replayable;
    match action
    case ObserveLevel(level) =>
      if RecordLevel(s, level).error.None? {
        AcceptedLevelIsGenuine(s, level);
        GenuineOf(LevelEvent(NextStep(s), level));
      }
    case ObserveHold(hold) =>
      if RecordHold(s, hold).error.None? {
        AcceptedHoldIsGenuine(s, hold);
        GenuineOf(HoldEvent(NextStep(s), hold));
      }
    case Reload => ReloadOnlyReopens(s);
  }

  lemma GenuineOf(event: Event)
    requires GenuineLevel(event) || GenuineHold(event)
    ensures Genuine(event)
  {
  }

  /** Every entry of every reachable log, failed sessions included, is genuine. */
  lemma {:induction false} ReachableLogIsGenuine(fan: Fan, actions: seq<Action>)
    ensures AllGenuine(Perform(fan, actions).events)
  {
    if actions != [] {
      ReachableLogIsGenuine(fan, actions[..|actions| - 1]);
      ReachableIsReplayable(fan, actions[..|actions| - 1]);
      hide Act, AllGenuine, Replayable;
      ActKeepsGenuine(Perform(fan, actions[..|actions| - 1]), actions[|actions| - 1]);
    }
  }

  /** In every reachable log, a recorded hold lasted fifteen minutes at the floor at a plausible, steady speed. */
  lemma HoldsAreGenuine(fan: Fan, actions: seq<Action>, i: nat)
    requires i < |Perform(fan, actions).events| && Perform(fan, actions).events[i].HoldEvent?
    ensures var event := Perform(fan, actions).events[i];
            var samples := event.hold.samples;
            && event.step.HoldFloor? && samples != []
            && samples[|samples| - 1].time - samples[0].time >= 900_000
            && (forall k :: 0 <= k < |samples| ==>
                  samples[k].selectedEnable == 1 && samples[k].selectedPwm == DutyToPwm(event.step.duty))
            && SteadySpeed(samples)
  {
    ReachableLogIsGenuine(fan, actions);
    hide Perform, SteadySpeed;
    assert Genuine(Perform(fan, actions).events[i]);
  }

  // ---------------------------------------------------------------- one hold

  ghost predicate NoHold(events: seq<Event>) {
    forall i :: 0 <= i < |events| ==> events[i].LevelEvent?
  }

  /** Exactly one hold, at `floor`. */
  ghost predicate OneHoldAt(events: seq<Event>, floor: nat, k: nat) {
    && k < |events| && events[k].HoldEvent? && events[k].step == HoldStep(floor)
    && forall i :: 0 <= i < |events| && i != k ==> events[i].LevelEvent?
  }

  /** No hold before the hold phase is over, one ever after. */
  ghost predicate HoldRecorded(s: Session) {
    !s.phase.Failed? ==>
      if s.phase.AnchorPhase? || s.phase.Complete? then s.floor.Some? && exists k :: OneHoldAt(s.events, s.floor.value, k)
      else NoHold(s.events)
  }

  /** A level neither enters nor leaves the part of the protocol behind the hold, and keeps a fixed floor. */
  lemma LevelKeepsSide(s: Session, settled: Option<Settled>)
    requires !NextStep(s).CompleteStep? && !NextStep(s).FailedStep? && !NextStep(s).HoldFloor?
    requires ApplyLevel(s, settled).error.None?
    ensures var r := ApplyLevel(s, settled).session;
            && ((r.phase.AnchorPhase? || r.phase.Complete?) <==> s.phase.AnchorPhase?)
            && (s.phase.AnchorPhase? ==> r.floor == s.floor)
  {
  }

  lemma LevelKeepsHold(s: Session, level: LevelObservation)
    requires HoldRecorded(s)
    ensures HoldRecorded(RecordLevel(s, level).session)
  {
    var r := RecordLevel(s, level);
    if r.error.None? {
      LevelAccepted(s, level);
      hide RecordLevel, ApplyLevel, Judge, ReadbackFault;
      var settled := Judge(s.phase.SweepPhase?, level).value;
      LevelKeepsSide(s, settled);
      var applied := ApplyLevel(s, settled).session;
      LoggedKeepsPosition(applied, LevelEvent(NextStep(s), level), level.samples);
      hide Logged, OneHoldAt, NoHold;
      if s.phase.AnchorPhase? {
        var k :| OneHoldAt(s.events, s.floor.value, k);
        LevelAppended(s.events, LevelEvent(NextStep(s), level), s.floor.value, k);
      } else {
        LevelAppended(s.events, LevelEvent(NextStep(s), level), 0, 0);
      }
    }
  }

  lemma LevelAppended(events: seq<Event>, event: Event, floor: nat, k: nat)
    requires event.LevelEvent?
    ensures NoHold(events) ==> NoHold(events + [event])
    ensures OneHoldAt(events, floor, k) ==> OneHoldAt(events + [event], floor, k)
  {
  }

  lemma HoldKeepsHold(s: Session, hold: HoldObservation)
    requires HoldRecorded(s)
    ensures HoldRecorded(RecordHold(s, hold).session)
  {
    var r := RecordHold(s, hold);
    if r.error.None? {
      hide HoldFault;
      assert OneHoldAt(r.session.events, s.floor.value, |s.events|);
    }
  }

  lemma {:induction false} ReachableRecordsHold(fan: Fan, actions: seq<Action>)
    ensures HoldRecorded(Perform(fan, actions))
  {
    if actions != [] {
      var before := Perform(fan, actions[..|actions| - 1]);
      ReachableRecordsHold(fan, actions[..|actions| - 1]);
      ReachableIsReplayable(fan, actions[..|actions| - 1]);
      hide Replayable, RecordLevel, RecordHold;
      match actions[|actions| - 1]
      case ObserveLevel(level) => LevelKeepsHold(before, level);
      case ObserveHold(hold) => HoldKeepsHold(before, hold);
      case Reload => ReloadOnlyReopens(before);
    }
  }

  /** A completed calibration rests on exactly one hold, at its floor, of fifteen minutes and more. */
  lemma CompletedHeldOnce(fan: Fan, actions: seq<Action>) returns (k: nat)
    requires Perform(fan, actions).phase.Complete?
    ensures var s := Perform(fan, actions);
            && s.floor.Some? && OneHoldAt(s.events, s.floor.value, k) && GenuineHold(s.events[k])
  {
    ReachableRecordsHold(fan, actions);
    ReachableLogIsGenuine(fan, actions);
    hide Perform, GenuineHold;
    var s := Perform(fan, actions);
    k :| OneHoldAt(s.events, s.floor.value, k);
    assert Genuine(s.events[k]);
  }

  // ---------------------------------------------------------------- results computed from the log

  /** A level that settled without any reported instability. */
  ghost predicate SettledEvent(event: Event) {
    event.LevelEvent? && !event.level.stall && !event.level.collapse && SettledProperly(event.level)
  }

  /** From the command to the last sample. */
  function ResponseTime(event: Event): int {
    if event.HoldEvent? || event.level.samples == [] then 0
    else event.level.samples[|event.level.samples| - 1].time - event.level.commandedAt
  }

  /** The longest response of the settled levels; zero if there are none. */
  ghost predicate IsSlowest(events: seq<Event>, slowest: nat) {
    && (forall i :: 0 <= i < |events| && SettledEvent(events[i]) ==> ResponseTime(events[i]) <= slowest)
    && (slowest == 0 || exists i :: 0 <= i < |events| && SettledEvent(events[i]) && ResponseTime(events[i]) == slowest)
  }

  /** Duty and median speed of the anchor captures, in order. */
  ghost function AnchorsOf(events: seq<Event>): seq<Anchor> {
    if events == [] then []
    else
      var front, event := AnchorsOf(events[..|events| - 1]), events[|events| - 1];
      if SettledEvent(event) && event.step.CaptureAnchor? then front + [Anchor(event.step.duty, MedianSpeed(event.level))]
      else front
  }

  function MedianSpeed(level: LevelObservation): (r: nat)
    requires SettledProperly(level)
    ensures r == Median(RpmValues(SpeedSamples(level)))
  {
    SettledMeans(level);
    SettledValues(level);
    SettledLevel(level).value.value.medianRpm
  }

  ghost predicate ComputedFromLog(s: Session) {
    !s.phase.Failed? ==> IsSlowest(s.events, s.slowest) && s.anchors == AnchorsOf(s.events)
  }

  /** What a judged level does to the results. */
  lemma LevelUpdatesResults(s: Session, settled: Option<Settled>)
    requires !NextStep(s).CompleteStep? && !NextStep(s).FailedStep? && !NextStep(s).HoldFloor?
    requires ApplyLevel(s, settled).error.None?
    ensures var r := ApplyLevel(s, settled).session;
            && r.slowest == (if settled.Some? && settled.value.responseMillis > s.slowest then settled.value.responseMillis else s.slowest)
            && (NextStep(s).CaptureAnchor? ==> settled.Some? && r.anchors == s.anchors + [Anchor(NextStep(s).duty, settled.value.medianRpm)])
            && (!NextStep(s).CaptureAnchor? ==> r.anchors == s.anchors)
  {
  }

  /** What the judgement says about the event. */
  lemma JudgedEvent(sweeping: bool, step: Step, level: LevelObservation)
    requires Judge(sweeping, level).Ok?
    ensures Judge(sweeping, level).value.Some? <==> SettledEvent(LevelEvent(step, level))
    ensures Judge(sweeping, level).value.Some? ==>
              && level.samples != []
              && Judge(sweeping, level).value.value.responseMillis == ResponseTime(LevelEvent(step, level))
              && Judge(sweeping, level).value.value.medianRpm == MedianSpeed(level)
  {
    hide SettledLevel, SettledProperly;
    SettledMeans(level);
    if Judge(sweeping, level).value.Some? {
      SettledValues(level);
    }
  }

  lemma SlowestAppend(events: seq<Event>, slowest: nat, event: Event)
    requires IsSlowest(events, slowest)
    ensures !SettledEvent(event) ==> IsSlowest(events + [event], slowest)
    ensures SettledEvent(event) ==>
              IsSlowest(events + [event], if ResponseTime(event) > slowest then ResponseTime(event) else slowest)
  {
    hide SettledEvent, ResponseTime;
    var more := events + [event];
    assert forall i :: 0 <= i < |events| ==> more[i] == events[i];
    assert more[|events|] == event;
    if slowest != 0 {
      var i :| 0 <= i < |events| && SettledEvent(events[i]) && ResponseTime(events[i]) == slowest;
      assert more[i] == events[i];
    }
  }

  lemma AnchorsAppend(events: seq<Event>, event: Event)
    ensures AnchorsOf(events + [event])
            == if SettledEvent(event) && event.step.CaptureAnchor? then AnchorsOf(events) + [Anchor(event.step.duty, MedianSpeed(event.level))]
               else AnchorsOf(events)
  {
    hide SettledEvent, MedianSpeed;
    assert (events + [event])[..|events|] == events;
  }

  lemma LevelKeepsComputed(s: Session, level: LevelObservation)
    requires ComputedFromLog(s)
    ensures ComputedFromLog(RecordLevel(s, level).session)
  {
    if RecordLevel(s, level).error.None? {
      LevelAccepted(s, level);
      hide RecordLevel, ApplyLevel, Judge, ReadbackFault, IsSlowest, AnchorsOf, SettledEvent, MedianSpeed, ResponseTime;
      var step, event := NextStep(s), LevelEvent(NextStep(s), level);
      var settled := Judge(s.phase.SweepPhase?, level).value;
      JudgedEvent(s.phase.SweepPhase?, step, level);
      LevelUpdatesResults(s, settled);
      SlowestAppend(s.events, s.slowest, event);
      AnchorsAppend(s.events, event);
    }
  }

  /** A hold changes no result and is no level. */
  lemma HoldLeavesResults(s: Session, hold: HoldObservation)
    requires RecordHold(s, hold).error.None?
    ensures var r, event := RecordHold(s, hold).session, HoldEvent(NextStep(s), hold);
            && r.slowest == s.slowest && r.anchors == s.anchors && r.events == s.events + [event] && !SettledEvent(event)
  {
    hide HoldFault;
  }

  lemma HoldKeepsComputed(s: Session, hold: HoldObservation)
    requires ComputedFromLog(s)
    ensures ComputedFromLog(RecordHold(s, hold).session)
  {
    hide RecordHold, IsSlowest, AnchorsOf, SettledEvent;
    if RecordHold(s, hold).error.None? {
      HoldLeavesResults(s, hold);
      SlowestAppend(s.events, s.slowest, HoldEvent(NextStep(s), hold));
      AnchorsAppend(s.events, HoldEvent(NextStep(s), hold));
    }
  }

  lemma {:induction false} ReachableIsComputed(fan: Fan, actions: seq<Action>)
    ensures ComputedFromLog(Perform(fan, actions))
  {
    if actions != [] {
      var before := Perform(fan, actions[..|actions| - 1]);
      ReachableIsComputed(fan, actions[..|actions| - 1]);
      ReachableIsReplayable(fan, actions[..|actions| - 1]);
      hide Replayable, RecordLevel, RecordHold, IsSlowest, AnchorsOf;
      match actions[|actions| - 1]
      case ObserveLevel(level) => LevelKeepsComputed(before, level);
      case ObserveHold(hold) => HoldKeepsComputed(before, hold);
      case Reload => ReloadOnlyReopens(before);
    }
  }

  /** The evidence a completed session publishes, in terms of its log alone. */
  ghost predicate PublishesLog(s: Session) {
    && s.floor.Some? && IsSlowest(s.events, s.slowest)
    && s.evidence == Some(Evidence(s.fan, s.floor.value, Some(s.slowest), Some(Checkpoint(1, s.fan, false, s.events)),
                                   if s.slowest <= 8_000 then s.slowest + 2_000 else 10_000, AnchorsOf(s.events)))
  }

  /**
   * Published evidence is measured: it carries its own log, and the slowest response, the deadline derived
   * from it and every anchor are those of that log.
   */
  lemma EvidenceIsComputed(fan: Fan, actions: seq<Action>)
    requires Perform(fan, actions).phase.Complete?
    ensures PublishesLog(Perform(fan, actions))
  {
    ReachableIsComputed(fan, actions);
    ReachableIsMeasured(fan, actions);
    hide Perform, IsSlowest, AnchorsOf, AnchorsMeasured;
  }
}
