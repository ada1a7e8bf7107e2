/** The calibration session (`ConservativeFanCalibration` in calibration.rs): its transitions as functions of the session's value. */
module CalibrationSession {
  import opened Wrappers
  import opened Config
  import opened Calibration

  datatype Phase =
    | SweepPhase(index: nat)
    | ToMaximum(attempt: nat)
    | ToFloor(attempt: nat)
    | HoldPhase
    | AnchorPhase(index: nat)
    | Complete
    | Failed

  datatype Event =
    | LevelEvent(step: Step, level: LevelObservation)
    | HoldEvent(step: Step, hold: HoldObservation)

  datatype Checkpoint = Checkpoint(schemaVersion: nat, fan: Fan, failed: bool, events: seq<Event>)

  datatype Anchor = Anchor(duty: nat, medianRpm: nat)

  datatype Evidence = Evidence(
    fan: Fan,
    floor: nat,
    slowestResponse: Option<nat>,
    checkpoint: Option<Checkpoint>,
    responseDeadline: nat,
    anchors: seq<Anchor>)

  datatype SessionValues = SessionValues(
    fan: Fan,
    phase: Phase,
    stable: seq<nat>,
    floor: Option<nat>,
    slowest: nat,
    anchors: seq<Anchor>,
    evidence: Option<Evidence>,
    events: seq<Event>,
    lastObserved: Option<nat>,
    resumePhase: Option<Phase>)

  /** The floor is the lowest stable sweep level plus the margin, which leaves four possibilities. */
  predicate FloorFromSweep(stable: seq<nat>, floor: Option<nat>) {
    && floor.Some?
    && 2 <= |stable| <= 5
    && stable == SWEEP[..|stable|]
    && floor.value == stable[|stable| - 1] + MARGIN
    && AllowedFloor(floor.value)
  }

  /** What `next_step` and the recorders rely on. */
  predicate Coherent(s: SessionValues) {
    && (match s.phase
        case SweepPhase(index) => index < 5 && s.stable == SWEEP[..index] && s.floor.None?
        case ToMaximum(attempt) => FloorFromSweep(s.stable, s.floor) && 1 <= attempt <= TRANSITIONS
        case ToFloor(attempt) => FloorFromSweep(s.stable, s.floor) && 1 <= attempt <= TRANSITIONS
        case HoldPhase => FloorFromSweep(s.stable, s.floor)
        case AnchorPhase(index) => FloorFromSweep(s.stable, s.floor) && index < 4
        case Complete => FloorFromSweep(s.stable, s.floor) && s.evidence.Some?
        case Failed => true)
    && (s.evidence.Some? ==> s.phase.Complete?)
    && (s.resumePhase.Some? ==> s.resumePhase.value == s.phase && !s.phase.Complete? && !s.phase.Failed?)
  }

  type Session = s: SessionValues | Coherent(s)
    witness SessionValues(Cpu, SweepPhase(0), [], None, 0, [], None, [], None, None)

  function Start(fan: Fan): (s: Session) {
    SessionValues(fan, SweepPhase(0), [], None, 0, [], None, [], None, None)
  }

  function CheckpointOf(s: SessionValues): Checkpoint {
    Checkpoint(1, s.fan, s.phase.Failed?, s.events)
  }

  function NextStep(s: Session): (r: Step)
    ensures r.RevalidateBothAtMaximum? <==> s.resumePhase.Some?
  {
    if s.resumePhase.Some? then RevalidateBothAtMaximum(MAXIMUM_PWM)
    else match s.phase
      case SweepPhase(index) => Sweep(SWEEP[index], DutyToPwm(SWEEP[index]))
      case ToMaximum(attempt) => TransitionToMaximum(attempt, MAXIMUM_PWM)
      case ToFloor(attempt) => TransitionToFloor(attempt, s.floor.value, DutyToPwm(s.floor.value))
      case HoldPhase => HoldFloor(s.floor.value, DutyToPwm(s.floor.value), REQUIRED_HOLD)
      case AnchorPhase(index) =>
        var duty := AnchorDuties(s.floor.value)[index];
        CaptureAnchor(duty, DutyToPwm(duty))
      case Complete => CompleteStep
      case Failed => FailedStep
  }

  datatype Outcome = Outcome(session: Session, error: Option<CalibrationError>)

  function Fail(s: SessionValues, error: CalibrationError): (r: Outcome) {
    Outcome(s.(phase := Failed, evidence := None, resumePhase := None), Some(error))
  }

  // ---------------------------------------------------------------- checks on an observation

  predicate ChronologyBroken(s: SessionValues, samples: seq<Readback>) {
    && s.resumePhase.None?
    && s.lastObserved.Some?
    && (samples == [] || samples[0].time <= s.lastObserved.value || samples[0].time - s.lastObserved.value > MAXIMUM_GAP)
  }

  predicate OtherFanHeld(samples: seq<Readback>) {
    forall i :: 0 <= i < |samples| ==> samples[i].otherEnable == CUSTOM_CONTROL && samples[i].otherPwm == MAXIMUM_PWM
  }

  predicate SelectedFanMatches(step: Step, samples: seq<Readback>) {
    forall i :: 0 <= i < |samples| ==>
                  samples[i].selectedEnable == CUSTOM_CONTROL && Some(samples[i].selectedPwm) == StepPwm(step)
  }

  function SampleFault(step: Step, samples: seq<Readback>): Option<CalibrationError> {
    if !OtherFanHeld(samples) then Some(OtherFanNotAtMaximum)
    else if samples == [] || !SelectedFanMatches(step, samples) then Some(SelectedFanReadbackMismatch)
    else None
  }

  function ReadbackFault(s: SessionValues, step: Step, observation: LevelObservation): Option<CalibrationError> {
    var samples := observation.samples;
    if samples == [] || samples[0].time != observation.commandedAt || !Continuous(samples) then Some(UnexpectedStep)
    else if ChronologyBroken(s, samples) then Some(UnexpectedStep)
    else SampleFault(step, samples)
  }

  /** The verdict on a level's speed, given whether instability is tolerated (only while sweeping). */
  function Judge(sweeping: bool, observation: LevelObservation): (r: Result<Option<Settled>, CalibrationError>)
    ensures r.Ok? && r.value.Some? ==> Settles(observation)
    ensures r.Ok? && r.value.None? ==> !Settles(observation)
    ensures r.Ok? && r.value.Some? ==> r.value == SettledLevel(observation).value
  {
    if AnyImplausible(observation.samples) || AllSilent(observation.samples) then Err(InvalidRpm)
    else if observation.stall || observation.collapse then
      if AnySilent(observation.samples) then Err(InvalidRpm)
      else if !sweeping then Err(UnstableRequiredLevel)
      else Ok(None)
    else SettledLevel(observation)
  }

  /** The observation shows a stable speed and no reported instability. */
  predicate Settles(observation: LevelObservation) {
    && !observation.stall && !observation.collapse
    && SettledLevel(observation).Ok? && SettledLevel(observation).value.Some?
  }

  // ---------------------------------------------------------------- transitions

  function ObserveResponse(s: SessionValues, responseMillis: nat): SessionValues {
    s.(slowest := if s.slowest >= responseMillis then s.slowest else responseMillis)
  }

  function RecordSweep(s: Session, settled: Option<Settled>): (r: Outcome)
    requires s.phase.SweepPhase? && s.resumePhase.None?
    ensures r.session.fan == s.fan && (r.error.Some? ==> r.session.phase.Failed? && r.session.events == s.events && r.session.lastObserved == s.lastObserved)
    ensures r.error.None? ==> r.session.events == s.events && r.session.fan == s.fan && !r.session.phase.Failed? && !r.session.phase.Complete?
  {
    var index := s.phase.index;
    var observed := if settled.None? then s
                    else ObserveResponse(s, settled.value.responseMillis).(stable := s.stable + [SWEEP[index]]);
    assert SWEEP[..index] + [SWEEP[index]] == SWEEP[..index + 1];
    if settled.Some? && index + 1 < 5 then Outcome(observed.(phase := SweepPhase(index + 1)), None)
    else if observed.stable == [] then Fail(observed, ConservativeMarginUnavailable)
    else
      var floor := observed.stable[|observed.stable| - 1] + MARGIN;
      if floor > MAXIMUM_DUTY then Fail(observed, ConservativeMarginUnavailable)
      else Outcome(observed.(floor := Some(floor), phase := ToMaximum(1)), None)
  }

  function Completed(s: SessionValues): SessionValues
    requires s.floor.Some?
  {
    s.(phase := Complete,
       evidence := Some(Evidence(s.fan, s.floor.value, Some(s.slowest), None, ResponseDeadline(s.slowest), s.anchors)))
  }

  function RecordAnchor(s: Session, response: Settled): (r: Outcome)
    requires s.phase.AnchorPhase? && s.resumePhase.None?
    ensures r.session.fan == s.fan && (r.error.Some? ==> r.session.phase.Failed? && r.session.events == s.events && r.session.lastObserved == s.lastObserved)
    ensures r.error.None? ==> r.session.events == s.events && r.session.fan == s.fan && !r.session.phase.Failed?
  {
    var index := s.phase.index;
    var observed := ObserveResponse(s, response.responseMillis);
    if s.anchors != [] && response.medianRpm < s.anchors[|s.anchors| - 1].medianRpm then Fail(observed, DecreasingAnchorRpm)
    else
      var duties := AnchorDuties(s.floor.value);
      var captured := observed.(anchors := s.anchors + [Anchor(duties[index], response.medianRpm)]);
      if index + 1 == |duties| then Outcome(Completed(captured), None)
      else Outcome(captured.(phase := AnchorPhase(index + 1)), None)
  }

  /** The phase change for a judged level, before the event is logged. */
  function ApplyLevel(s: Session, settled: Option<Settled>): (r: Outcome)
    requires !NextStep(s).CompleteStep? && !NextStep(s).FailedStep? && !NextStep(s).HoldFloor?
    ensures r.error.None? ==> r.session.events == s.events && r.session.resumePhase.None? && !r.session.phase.Failed?
    ensures r.session.fan == s.fan && (r.error.Some? ==> r.session.phase.Failed? && r.session.events == s.events && r.session.lastObserved == s.lastObserved)
  {
    if s.resumePhase.None? && s.phase.SweepPhase? then RecordSweep(s, settled)
    else if settled.None? then Fail(s, UnstableRequiredLevel)
    else
      var response := settled.value;
      var observed := ObserveResponse(s, response.responseMillis);
      if s.resumePhase.Some? then Outcome(observed.(phase := s.resumePhase.value, resumePhase := None), None)
      else match s.phase
        case ToMaximum(attempt) => Outcome(observed.(phase := ToFloor(attempt)), None)
        case ToFloor(attempt) =>
          Outcome(observed.(phase := if attempt == TRANSITIONS then HoldPhase else ToMaximum(attempt + 1)), None)
        case AnchorPhase(_) => RecordAnchor(s, response)
  }

  function LastTime(samples: seq<Readback>): Option<nat> {
    if samples == [] then None else Some(samples[|samples| - 1].time)
  }

  /** Appends the accepted event; a completed session binds its own log into its evidence. */
  function Logged(s: Session, event: Event, samples: seq<Readback>): (r: Session)
    requires s.resumePhase.None?
  {
    var noted := s.(lastObserved := LastTime(samples), events := s.events + [event]);
    if s.phase.Complete? then
      noted.(evidence := Some(s.evidence.value.(checkpoint := Some(CheckpointOf(noted)))))
    else noted
  }

  /** An accepted observation appends its event; a rejected one fails the session and leaves its log. */
  ghost predicate Recorded(s: Session, event: Event, r: Outcome) {
    && r.session.fan == s.fan
    && if r.error.None? then
         && !s.phase.Failed? && !s.phase.Complete?
         && !r.session.phase.Failed? && r.session.resumePhase.None?
         && r.session.events == s.events + [event]
       else
         r.session.phase.Failed? && r.session.events == s.events && r.session.lastObserved == s.lastObserved
  }

  function LogLevel(s: Session, settled: Option<Settled>, observation: LevelObservation): (r: Outcome)
    requires !NextStep(s).CompleteStep? && !NextStep(s).FailedStep? && !NextStep(s).HoldFloor?
    ensures Recorded(s, LevelEvent(NextStep(s), observation), r)
  {
    var applied := ApplyLevel(s, settled);
    if applied.error.Some? then applied
    else Outcome(Logged(applied.session, LevelEvent(NextStep(s), observation), observation.samples), None)
  }

  function RecordLevel(s: Session, observation: LevelObservation): (r: Outcome)
    ensures Recorded(s, LevelEvent(NextStep(s), observation), r)
  {
    if s.phase.Failed? then Outcome(s, Some(StageAlreadyFailed))
    else
      var step := NextStep(s);
      if step.CompleteStep? || step.FailedStep? || step.HoldFloor? then Fail(s, UnexpectedStep)
      else
        var fault := ReadbackFault(s, step, observation);
        if fault.Some? then Fail(s, fault.value)
        else
          var settled := Judge(s.phase.SweepPhase?, observation);
          if settled.Err? then Fail(s, settled.error) else LogLevel(s, settled.value, observation)
  }

  /** Fifteen minutes, without a gap, at a stable speed. */
  function SteadinessFault(samples: seq<Readback>): (r: Option<CalibrationError>)
    ensures r.None? ==> Continuous(samples)
  {
    var duration := if SampleDuration(samples).Some? then SampleDuration(samples).value else 0;
    if duration < REQUIRED_HOLD || |samples| < MinimumHoldSamples() || !Continuous(samples) then Some(IncompleteHold)
    else
      var median := HoldMedian(samples);
      if median.Err? then Some(median.error)
      else if median.value.None? then Some(IncompleteHold)
      else None
  }

  function HoldFault(s: SessionValues, step: Step, observation: HoldObservation): Option<CalibrationError> {
    var samples := observation.samples;
    if observation.stall || observation.collapse then Some(IncompleteHold)
    else if ChronologyBroken(s, samples) then Some(UnexpectedStep)
    else if SampleFault(step, samples).Some? then SampleFault(step, samples)
    else SteadinessFault(samples)
  }

  function RecordHold(s: Session, observation: HoldObservation): (r: Outcome)
    ensures Recorded(s, HoldEvent(NextStep(s), observation), r)
    ensures r.error.None? ==> s.phase.HoldPhase? && s.resumePhase.None?
  {
    if s.phase.Failed? then Outcome(s, Some(StageAlreadyFailed))
    else if s.resumePhase.Some? || !s.phase.HoldPhase? then Fail(s, UnexpectedStep)
    else
      var step := NextStep(s);
      var fault := HoldFault(s, step, observation);
      if fault.Some? then Fail(s, fault.value)
      else Outcome(Logged(s.(phase := AnchorPhase(0)), HoldEvent(step, observation), observation.samples), None)
  }

  // ---------------------------------------------------------------- replay of a checkpoint

  predicate IsRevalidation(event: Event) {
    event.LevelEvent? && event.step.RevalidateBothAtMaximum?
  }

  /** A revalidation in the log stands for a resume that happened just before it. */
  function Reopened(s: Session, event: Event): (r: Session)
    requires !s.phase.Failed? && !s.phase.Complete?
  {
    if IsRevalidation(event) && s.resumePhase.None? then s.(resumePhase := Some(s.phase)) else s
  }

  function ReplayEvent(s: Session, event: Event): (r: Option<Session>)
    requires !s.phase.Failed?
    ensures r.Some? ==> !r.value.phase.Failed? && r.value.resumePhase.None? && r.value.events == s.events + [event]
    ensures r.Some? ==> r.value.fan == s.fan
  {
    if s.phase.Complete? then None
    else
      var session := Reopened(s, event);
      if NextStep(session) != event.step then None
      else
        var outcome := if event.LevelEvent? then RecordLevel(session, event.level) else RecordHold(session, event.hold);
        if outcome.error.Some? then None else Some(outcome.session)
  }

  function Replay(fan: Fan, events: seq<Event>): (r: Option<Session>)
    ensures r.Some? ==> !r.value.phase.Failed? && r.value.resumePhase.None? && r.value.events == events && r.value.fan == fan
  {
    if events == [] then Some(Start(fan))
    else
      assert events == events[..|events| - 1] + [events[|events| - 1]];
      var before := Replay(fan, events[..|events| - 1]);
      if before.None? then None else ReplayEvent(before.value, events[|events| - 1])
  }

  lemma ReplayAppend(fan: Fan, events: seq<Event>, event: Event)
    ensures Replay(fan, events + [event])
            == if Replay(fan, events).None? then None else ReplayEvent(Replay(fan, events).value, event)
  {
  }

  /** A session that is not complete must revalidate both fans at maximum before going on. */
  function AwaitingRevalidation(s: Session): (r: Session)
    requires !s.phase.Failed?
  {
    if s.phase.Complete? then s else s.(resumePhase := Some(s.phase))
  }

  function Resume(fan: Fan, checkpoint: Checkpoint): (r: Result<Session, CalibrationError>)
    ensures r.Err? ==> r.error == InvalidCheckpoint
  {
    if checkpoint.schemaVersion != 1 || checkpoint.failed || checkpoint.fan != fan then Err(InvalidCheckpoint)
    else
      var session := Replay(fan, checkpoint.events);
      if session.None? then Err(InvalidCheckpoint) else Ok(AwaitingRevalidation(session.value))
  }
}
