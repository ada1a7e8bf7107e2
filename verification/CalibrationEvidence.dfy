/** Evidence of a completed calibration against the checks of record validation (evidence.rs). */
module CalibrationEvidence {
  import opened Wrappers
  import opened Config
  import opened Calibration
  import opened CalibrationSession
  import opened CalibrationReplay
  import opened CalibrationProtocol

  predicate AnchorsOrdered(anchors: seq<Anchor>) {
    forall i :: 0 <= i < |anchors| - 1 ==>
                  anchors[i].duty < anchors[i + 1].duty && anchors[i].medianRpm <= anchors[i + 1].medianRpm
  }

  predicate DutiesMatch(anchors: seq<Anchor>, duties: seq<nat>) {
    |anchors| == |duties| && forall i :: 0 <= i < |anchors| ==> anchors[i].duty == duties[i]
  }

  predicate DeadlineDerived(evidence: Evidence) {
    && evidence.slowestResponse.Some?
    && MINIMUM_RESPONSE <= evidence.slowestResponse.value <= MAXIMUM_RESPONSE
    && evidence.responseDeadline == ResponseDeadline(evidence.slowestResponse.value)
  }

  /** Replaying the embedded log must reproduce this very evidence. */
  predicate CheckpointMatches(evidence: Evidence) {
    && evidence.checkpoint.Some?
    && var replayed := Resume(evidence.fan, evidence.checkpoint.value);
    && replayed.Ok?
    && replayed.value.evidence == Some(evidence)
  }

  /** Every calibration check of record validation, apart from the binding to recorded commands. */
  predicate CalibrationValid(evidence: Evidence) {
    var anchors := evidence.anchors;
    && evidence.floor <= MAXIMUM_DUTY
    && anchors != []
    && AllowedFloor(evidence.floor)
    && DeadlineDerived(evidence)
    && CheckpointMatches(evidence)
    && DutiesMatch(anchors, AnchorDuties(evidence.floor))
    && anchors[0].duty == evidence.floor
    && anchors[|anchors| - 1].duty == MAXIMUM_DUTY
    && (forall i :: 0 <= i < |anchors| ==> anchors[i].duty <= MAXIMUM_DUTY && PlausibleRpm(anchors[i].medianRpm))
    && AnchorsOrdered(anchors)
  }

  // ---------------------------------------------------------------- what a session has measured

  function AnchorCount(phase: Phase): nat {
    if phase.AnchorPhase? then phase.index else if phase.Complete? then 4 else 0
  }

  ghost predicate AnchorsMeasured(s: Session) {
    && |s.anchors| == AnchorCount(s.phase)
    && (s.anchors != [] ==> s.floor.Some? && AllowedFloor(s.floor.value) && |s.anchors| <= 4)
    && (forall i :: 0 <= i < |s.anchors| ==>
                      s.anchors[i].duty == AnchorDuties(s.floor.value)[i] && PlausibleRpm(s.anchors[i].medianRpm))
    && (forall i :: 0 <= i < |s.anchors| - 1 ==> s.anchors[i].medianRpm <= s.anchors[i + 1].medianRpm)
  }

  ghost predicate ResponseMeasured(s: Session) {
    s.slowest <= MAXIMUM_RESPONSE && (s.stable != [] ==> s.slowest >= MINIMUM_RESPONSE)
  }

  function EvidenceOf(s: Session): Evidence
    requires s.floor.Some?
  {
    Evidence(s.fan, s.floor.value, Some(s.slowest), Some(CheckpointOf(s)), ResponseDeadline(s.slowest), s.anchors)
  }

  ghost predicate Measured(s: Session) {
    !s.phase.Failed? ==>
      && AnchorsMeasured(s)
      && ResponseMeasured(s)
      && (s.phase.Complete? ==> s.evidence == Some(EvidenceOf(s)))
  }

  /** The session after a judged level but before logging: evidence still lacks its checkpoint. */
  ghost predicate Prepared(s: Session) {
    && AnchorsMeasured(s)
    && ResponseMeasured(s)
    && (s.phase.Complete? ==> s.evidence == Some(EvidenceOf(s).(checkpoint := None)))
  }

  lemma SweepPrepares(s: Session, settled: Option<Settled>)
    requires s.phase.SweepPhase? && s.resumePhase.None? && Measured(s)
    requires settled.Some? ==> MINIMUM_RESPONSE <= settled.value.responseMillis <= MAXIMUM_RESPONSE
    requires RecordSweep(s, settled).error.None?
    ensures Prepared(RecordSweep(s, settled).session)
  {
  }

  lemma AnchorPrepares(s: Session, settled: Settled)
    requires s.phase.AnchorPhase? && s.resumePhase.None? && Measured(s)
    requires PlausibleRpm(settled.medianRpm) && MINIMUM_RESPONSE <= settled.responseMillis <= MAXIMUM_RESPONSE
    requires RecordAnchor(s, settled).error.None?
    ensures Prepared(RecordAnchor(s, settled).session)
  {
    hide ResponseDeadline, CheckpointOf;
    var r := RecordAnchor(s, settled).session;
    var i := s.phase.index;
    assert r.anchors == s.anchors + [Anchor(AnchorDuties(s.floor.value)[i], settled.medianRpm)];
    assert forall k :: 0 <= k < i ==> r.anchors[k] == s.anchors[k];
  }

  lemma LevelPrepares(s: Session, settled: Option<Settled>)
    requires Measured(s)
    requires !NextStep(s).CompleteStep? && !NextStep(s).FailedStep? && !NextStep(s).HoldFloor?
    requires settled.Some? ==>
               PlausibleRpm(settled.value.medianRpm) && MINIMUM_RESPONSE <= settled.value.responseMillis <= MAXIMUM_RESPONSE
    requires ApplyLevel(s, settled).error.None?
    ensures Prepared(ApplyLevel(s, settled).session)
  {
    hide RecordSweep, RecordAnchor, AnchorDuties;
    if s.resumePhase.None? && s.phase.SweepPhase? {
      SweepPrepares(s, settled);
    } else if s.resumePhase.None? && s.phase.AnchorPhase? {
      AnchorPrepares(s, settled.value);
    }
  }

  lemma LoggingBindsEvidence(s: Session, event: Event, samples: seq<Readback>)
    requires s.resumePhase.None? && Prepared(s)
    ensures Measured(Logged(s, event, samples))
  {
  }

  lemma LevelKeepsMeasured(s: Session, level: LevelObservation)
    requires Measured(s)
    ensures Measured(RecordLevel(s, level).session)
  {
    if RecordLevel(s, level).error.None? {
      LevelAccepted(s, level);
      hide RecordLevel, ApplyLevel, Logged, Measured, ReadbackFault, SettledLevel;
      var settled := Judge(s.phase.SweepPhase?, level).value;
      LevelPrepares(s, settled);
      LoggingBindsEvidence(ApplyLevel(s, settled).session, LevelEvent(NextStep(s), level), level.samples);
    }
  }

  lemma HoldKeepsMeasured(s: Session, hold: HoldObservation)
    requires Measured(s)
    ensures Measured(RecordHold(s, hold).session)
  {
  }

  lemma ReloadKeepsMeasured(s: Session)
    requires Measured(s) && Replayable(s)
    ensures Measured(Act(s, Reload))
  {
    ReloadOnlyReopens(s);
    hide Act, Replayable;
  }

  lemma {:induction false} ReachableIsMeasured(fan: Fan, actions: seq<Action>)
    ensures Measured(Perform(fan, actions))
  {
    if actions != [] {
      var before := Perform(fan, actions[..|actions| - 1]);
      ReachableIsMeasured(fan, actions[..|actions| - 1]);
      ReachableIsReplayable(fan, actions[..|actions| - 1]);
      hide Measured, Replayable, RecordLevel, RecordHold;
      match actions[|actions| - 1]
      case ObserveLevel(level) => LevelKeepsMeasured(before, level);
      case ObserveHold(hold) => HoldKeepsMeasured(before, hold);
      case Reload => ReloadKeepsMeasured(before);
    }
  }

  lemma MeasuredAnchorsAreOrdered(s: Session)
    requires s.phase.Complete? && AnchorsMeasured(s)
    ensures DutiesMatch(s.anchors, AnchorDuties(s.floor.value)) && AnchorsOrdered(s.anchors)
    ensures forall i :: 0 <= i < |s.anchors| ==> s.anchors[i].duty <= MAXIMUM_DUTY
  {
    var duties := AnchorDuties(s.floor.value);
    assert duties[0] < duties[1] < duties[2] < duties[3] == MAXIMUM_DUTY;
  }

  /** The evidence of every completed session passes every calibration check of record validation. */
  lemma ProducerMeetsValidator(fan: Fan, actions: seq<Action>)
    requires Perform(fan, actions).phase.Complete?
    ensures Perform(fan, actions).evidence.Some? && CalibrationValid(Perform(fan, actions).evidence.value)
  {
    ReachableIsMeasured(fan, actions);
    ReachableIsReplayable(fan, actions);
    ResumeRestoresSession(fan, actions);
    hide Perform, Resume, Replayable, CalibrationValid;
    MeasuredIsValid(Perform(fan, actions));
  }

  /**
   * The checks admit exactly the evidence of honest calibrations: evidence is valid if and only if some sequence
   * of actions completes a session of its fan with that very evidence.
   */
  lemma ValidExactlyWhenMeasured(evidence: Evidence)
    ensures CalibrationValid(evidence)
            <==> exists actions :: Perform(evidence.fan, actions).phase.Complete? && Perform(evidence.fan, actions).evidence == Some(evidence)
  {
    hide Perform, Replay, ResponseDeadline;
    if CalibrationValid(evidence) {
      var log := evidence.checkpoint.value.events;
      AcceptedLogIsPerformed(evidence.fan, log);
      var s := Perform(evidence.fan, ActionsForLog(log));
      assert s.phase.Complete? && s.evidence == Some(evidence);
    } else if exists actions :: Perform(evidence.fan, actions).phase.Complete? && Perform(evidence.fan, actions).evidence == Some(evidence) {
      var actions :| Perform(evidence.fan, actions).phase.Complete? && Perform(evidence.fan, actions).evidence == Some(evidence);
      ProducerMeetsValidator(evidence.fan, actions);
    }
  }

  lemma MeasuredIsValid(s: Session)
    requires s.phase.Complete? && Measured(s) && Resume(s.fan, CheckpointOf(s)) == Ok(s)
    ensures CalibrationValid(EvidenceOf(s))
  {
    hide Resume, ResponseDeadline, CheckpointOf;
    MeasuredAnchorsAreOrdered(s);
  }
}
