/** Event sourcing: a calibration log rebuilds exactly the session that wrote it, and nothing else is accepted. */
module CalibrationReplay {
  import opened Wrappers
  import opened Config
  import opened Calibration
  import opened CalibrationSession

  /** What can happen to a session: an observation is offered, or it is checkpointed and resumed. */
  datatype Action =
    | ObserveLevel(level: LevelObservation)
    | ObserveHold(hold: HoldObservation)
    | Reload

  function Act(s: Session, action: Action): (r: Session) {
    match action
    case ObserveLevel(level) => RecordLevel(s, level).session
    case ObserveHold(hold) => RecordHold(s, hold).session
    case Reload =>
      var resumed := Resume(s.fan, CheckpointOf(s));
      if resumed.Ok? then resumed.value else s
  }

  /** The session after any sequence of actions from the start: every reachable session. */
  function Perform(fan: Fan, actions: seq<Action>): (r: Session) {
    if actions == [] then Start(fan)
    else Act(Perform(fan, actions[..|actions| - 1]), actions[|actions| - 1])
  }

  function Settle(s: Session): (r: Session) { s.(resumePhase := None) }

  /** The log determines the session, up to a pending revalidation. */
  ghost predicate Replayable(s: Session) {
    !s.phase.Failed? ==> Replay(s.fan, s.events) == Some(Settle(s))
  }

  lemma AcceptedObservationReplays(s: Session, event: Event)
    requires !s.phase.Failed? && !s.phase.Complete? && NextStep(s) == event.step
    requires event.HoldEvent? ==> s.resumePhase.None?
    ensures Reopened(Settle(s), event) == s
  {
  }

  lemma ActKeepsReplayable(s: Session, action: Action)
    requires Replayable(s)
    ensures Replayable(Act(s, action))
    ensures Act(s, action).fan == s.fan
  {
    hide RecordLevel, RecordHold, Replay;
    match action
    case ObserveLevel(level) =>
      var outcome := RecordLevel(s, level);
      if outcome.error.None? {
        var event := LevelEvent(NextStep(s), level);
        ReplayAppend(s.fan, s.events, event);
        AcceptedObservationReplays(s, event);
      }
    case ObserveHold(hold) =>
      var outcome := RecordHold(s, hold);
      if outcome.error.None? {
        var event := HoldEvent(NextStep(s), hold);
        ReplayAppend(s.fan, s.events, event);
        AcceptedObservationReplays(s, event);
      }
    case Reload =>
  }

  lemma {:induction false} ReachableIsReplayable(fan: Fan, actions: seq<Action>)
    ensures Replayable(Perform(fan, actions)) && Perform(fan, actions).fan == fan
  {
    if actions != [] {
      ReachableIsReplayable(fan, actions[..|actions| - 1]);
      ActKeepsReplayable(Perform(fan, actions[..|actions| - 1]), actions[|actions| - 1]);
    }
  }

  /**
   * Round trip: resuming the checkpoint of any reachable session that has not failed gives back
   * that session in every field but the pending revalidation, which is set unless it is complete.
   */
  lemma ResumeRestoresSession(fan: Fan, actions: seq<Action>)
    requires !Perform(fan, actions).phase.Failed?
    ensures var s := Perform(fan, actions);
            Resume(fan, CheckpointOf(s)) == Ok(if s.phase.Complete? then s else s.(resumePhase := Some(s.phase)))
  {
    ReachableIsReplayable(fan, actions);
    hide Perform, Replay;
  }

  /** Round trip, other way: an accepted checkpoint is exactly the checkpoint of the session it gives. */
  lemma CheckpointOfResumed(fan: Fan, checkpoint: Checkpoint)
    requires Resume(fan, checkpoint).Ok?
    ensures CheckpointOf(Resume(fan, checkpoint).value) == checkpoint
  {
    hide Replay;
  }

  /** A failed session stays as it is whatever is observed or reloaded, and its checkpoint is never accepted. */
  lemma {:induction false} FailureIsFinal(fan: Fan, actions: seq<Action>, k: nat)
    requires k <= |actions| && Perform(fan, actions[..k]).phase.Failed?
    ensures Perform(fan, actions) == Perform(fan, actions[..k])
    ensures forall other: Fan :: Resume(other, CheckpointOf(Perform(fan, actions))).Err?
    decreases |actions| - k
  {
    hide Act, Perform, Replay;
    if k < |actions| {
      assert actions[..k + 1] == actions[..k] + [actions[k]];
      PerformAppend(fan, actions[..k], actions[k]);
      FailedIsInert(Perform(fan, actions[..k]), actions[k]);
      FailureIsFinal(fan, actions, k + 1);
    } else {
      assert actions[..k] == actions;
    }
  }

  lemma FailedIsInert(s: Session, action: Action)
    requires s.phase.Failed?
    ensures Act(s, action) == s
  {
  }

  // ---------------------------------------------------------------- honest logs

  /** The actions that would write one more event. */
  function ActionsFor(event: Event): seq<Action> {
    var observe := if event.LevelEvent? then ObserveLevel(event.level) else ObserveHold(event.hold);
    if IsRevalidation(event) then [Reload, observe] else [observe]
  }

  function ActionsForLog(events: seq<Event>): seq<Action> {
    if events == [] then [] else ActionsForLog(events[..|events| - 1]) + ActionsFor(events[|events| - 1])
  }

  lemma PerformAppend(fan: Fan, actions: seq<Action>, action: Action)
    ensures Perform(fan, actions + [action]) == Act(Perform(fan, actions), action)
  {
  }

  lemma {:induction false} AcceptedLogIsPerformed(fan: Fan, events: seq<Event>)
    requires Replay(fan, events).Some?
    ensures Perform(fan, ActionsForLog(events)) == Replay(fan, events).value
  {
    if events != [] {
      var front, event := events[..|events| - 1], events[|events| - 1];
      AcceptedLogIsPerformed(fan, front);
      EventIsPerformed(fan, ActionsForLog(front), event);
    }
  }

  lemma EventIsPerformed(fan: Fan, actions: seq<Action>, event: Event)
    requires var s := Perform(fan, actions); !s.phase.Failed? && s.resumePhase.None? && ReplayEvent(s, event).Some?
    ensures Perform(fan, actions + ActionsFor(event)) == ReplayEvent(Perform(fan, actions), event).value
  {
    var s := Perform(fan, actions);
    var observe := if event.LevelEvent? then ObserveLevel(event.level) else ObserveHold(event.hold);
    hide RecordLevel, RecordHold, Perform;
    if IsRevalidation(event) {
      ResumeRestoresSession(fan, actions);
      ReachableIsReplayable(fan, actions);
      PerformAppend(fan, actions, Reload);
      PerformAppend(fan, actions + [Reload], observe);
      assert actions + ActionsFor(event) == actions + [Reload] + [observe];
      ReloadIsReopen(s, event);
    } else {
      PerformAppend(fan, actions, observe);
    }
  }

  lemma ReloadIsReopen(s: Session, event: Event)
    requires !s.phase.Failed? && !s.phase.Complete? && s.resumePhase.None? && IsRevalidation(event)
    requires Resume(s.fan, CheckpointOf(s)) == Ok(s.(resumePhase := Some(s.phase)))
    ensures Act(s, Reload) == Reopened(s, event)
  {
  }

  /**
   * Replay accepts exactly the logs of honest sessions: a checkpoint is accepted if and only if some
   * sequence of actions from the start reaches a session that has not failed and writes it.
   */
  lemma AcceptedExactlyWhenHonest(fan: Fan, checkpoint: Checkpoint)
    ensures Resume(fan, checkpoint).Ok?
            <==> exists actions :: !Perform(fan, actions).phase.Failed? && CheckpointOf(Perform(fan, actions)) == checkpoint
  {
    hide Replay, Perform;
    if Resume(fan, checkpoint).Ok? {
      AcceptedLogIsPerformed(fan, checkpoint.events);
      var actions := ActionsForLog(checkpoint.events);
      assert CheckpointOf(Perform(fan, actions)) == checkpoint;
    } else if exists actions :: !Perform(fan, actions).phase.Failed? && CheckpointOf(Perform(fan, actions)) == checkpoint {
      var actions :| !Perform(fan, actions).phase.Failed? && CheckpointOf(Perform(fan, actions)) == checkpoint;
      ResumeRestoresSession(fan, actions);
    }
  }
}
