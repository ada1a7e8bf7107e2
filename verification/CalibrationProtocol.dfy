/** What every reachable calibration log shows: unbroken supervision, the canonical protocol, valid evidence. */
module CalibrationProtocol {
  import opened Wrappers
  import opened Config
  import opened Calibration
  import opened CalibrationSession
  import opened CalibrationReplay

  // ---------------------------------------------------------------- how one action changes a session

  lemma LevelAccepted(s: Session, level: LevelObservation)
    requires RecordLevel(s, level).error.None?
    ensures ReadbackFault(s, NextStep(s), level).None?
    ensures var settled := Judge(s.phase.SweepPhase?, level);
            && settled.Ok?
            && !NextStep(s).CompleteStep? && !NextStep(s).FailedStep? && !NextStep(s).HoldFloor?
            && ApplyLevel(s, settled.value).error.None?
            && RecordLevel(s, level).session
               == Logged(ApplyLevel(s, settled.value).session, LevelEvent(NextStep(s), level), level.samples)
  {
    hide ApplyLevel, Judge, ReadbackFault, Logged;
  }

  lemma ReloadOnlyReopens(s: Session)
    requires Replayable(s)
    ensures Act(s, Reload) == s || Act(s, Reload) == s.(resumePhase := Some(s.phase))
  {
  }

  // ---------------------------------------------------------------- supervision

  function SamplesOf(event: Event): seq<Readback> {
    if event.LevelEvent? then event.level.samples else event.hold.samples
  }

  function AllSamples(events: seq<Event>): seq<Readback> {
    if events == [] then [] else AllSamples(events[..|events| - 1]) + SamplesOf(events[|events| - 1])
  }

  ghost predicate Joins(front: seq<Readback>, back: seq<Readback>) {
    front != [] && back != [] && 1 <= back[0].time - front[|front| - 1].time <= MAXIMUM_GAP
  }

  ghost predicate Supervised(events: seq<Event>) {
    && (forall i :: 0 <= i < |events| ==> Continuous(SamplesOf(events[i])) && OtherFanHeld(SamplesOf(events[i])))
    && (forall i :: 0 < i < |events| && !IsRevalidation(events[i]) ==> Joins(SamplesOf(events[i - 1]), SamplesOf(events[i])))
  }

  ghost predicate Watched(s: Session) {
    && Supervised(s.events)
    && s.lastObserved == (if s.events == [] then None else LastTime(SamplesOf(s.events[|s.events| - 1])))
  }

  lemma ContinuousIsNonEmpty(samples: seq<Readback>)
    requires Continuous(samples)
    ensures samples != []
  {
  }

  lemma SupervisedAppend(s: Session, event: Event)
    requires Watched(s)
    requires Continuous(SamplesOf(event)) && OtherFanHeld(SamplesOf(event))
    requires SamplesOf(event) != []
    requires !IsRevalidation(event) && s.lastObserved.Some?
             ==> 1 <= SamplesOf(event)[0].time - s.lastObserved.value <= MAXIMUM_GAP
    ensures Supervised(s.events + [event])
  {
    hide OtherFanHeld, IsRevalidation, Continuous, SamplesOf;
    var events := s.events + [event];
    forall i | 0 < i < |events| && !IsRevalidation(events[i])
      ensures Joins(SamplesOf(events[i - 1]), SamplesOf(events[i]))
    {
      if i == |s.events| {
        ContinuousIsNonEmpty(SamplesOf(s.events[i - 1]));
        ContinuousIsNonEmpty(SamplesOf(event));
      } else {
        assert events[i] == s.events[i] && events[i - 1] == s.events[i - 1];
      }
    }
  }

  lemma LevelKeepsWatched(s: Session, level: LevelObservation)
    requires Watched(s)
    ensures Watched(RecordLevel(s, level).session)
  {
    if RecordLevel(s, level).error.None? {
      LevelAccepted(s, level);
      hide RecordLevel, ApplyLevel, Judge;
      var event := LevelEvent(NextStep(s), level);
      LevelSamplesFollow(s, level);
      SupervisedAppend(s, event);
    }
  }

  lemma LevelSamplesFollow(s: Session, level: LevelObservation)
    requires ReadbackFault(s, NextStep(s), level).None?
    ensures level.samples != [] && Continuous(level.samples) && OtherFanHeld(level.samples)
    ensures s.resumePhase.None? && s.lastObserved.Some? ==> 1 <= level.samples[0].time - s.lastObserved.value <= MAXIMUM_GAP
  {
  }

  lemma HoldKeepsWatched(s: Session, hold: HoldObservation)
    requires Watched(s)
    ensures Watched(RecordHold(s, hold).session)
  {
    if RecordHold(s, hold).error.None? {
      SupervisedAppend(s, HoldEvent(NextStep(s), hold));
    }
  }

  lemma {:induction false} ReachableIsWatched(fan: Fan, actions: seq<Action>)
    ensures Watched(Perform(fan, actions))
  {
    if actions != [] {
      var before := Perform(fan, actions[..|actions| - 1]);
      ReachableIsWatched(fan, actions[..|actions| - 1]);
      ReachableIsReplayable(fan, actions[..|actions| - 1]);
      hide Watched, Replayable, RecordLevel, RecordHold;
      match actions[|actions| - 1]
      case ObserveLevel(level) => LevelKeepsWatched(before, level);
      case ObserveHold(hold) => HoldKeepsWatched(before, hold);
      case Reload => ReloadKeepsWatched(before);
    }
  }

  lemma ReloadKeepsWatched(s: Session)
    requires Watched(s) && Replayable(s)
    ensures Watched(Act(s, Reload))
  {
    ReloadOnlyReopens(s);
  }

  lemma {:induction false} SpanIsContinuous(events: seq<Event>, i: nat, j: nat)
    requires Supervised(events) && i < j <= |events|
    requires forall k :: i < k < j ==> !IsRevalidation(events[k])
    ensures Continuous(AllSamples(events[i..j])) && OtherFanHeld(AllSamples(events[i..j]))
    ensures SamplesOf(events[j - 1]) != [] && AllSamples(events[i..j]) != [] && Last(AllSamples(events[i..j])) == Last(SamplesOf(events[j - 1]))
    decreases j
  {
    hide Supervised, Continuous, OtherFanHeld, IsRevalidation, Joins, AllSamples, SamplesOf, Last;
    var tail := SamplesOf(events[j - 1]);
    SupervisedAt(events, j - 1);
    if i + 1 == j {
      assert events[i..j] == [events[i]];
      AllSamplesOne(events[i]);
    } else {
      assert events[i..j] == events[i..j - 1] + [events[j - 1]];
      AllSamplesAppend(events[i..j - 1], events[j - 1]);
      SpanIsContinuous(events, i, j - 1);
      JoinSpan(AllSamples(events[i..j - 1]), SamplesOf(events[j - 2]), tail);
    }
  }

  lemma SupervisedAt(events: seq<Event>, k: nat)
    requires Supervised(events) && k < |events|
    ensures Continuous(SamplesOf(events[k])) && OtherFanHeld(SamplesOf(events[k])) && SamplesOf(events[k]) != []
    ensures k > 0 && !IsRevalidation(events[k]) ==> Joins(SamplesOf(events[k - 1]), SamplesOf(events[k]))
  {
  }

  lemma AllSamplesOne(event: Event)
    ensures AllSamples([event]) == SamplesOf(event)
  {
  }

  lemma AllSamplesAppend(events: seq<Event>, event: Event)
    ensures AllSamples(events + [event]) == AllSamples(events) + SamplesOf(event)
  {
  }

  lemma JoinSpan(front: seq<Readback>, before: seq<Readback>, tail: seq<Readback>)
    requires Continuous(front) && OtherFanHeld(front) && Continuous(tail) && OtherFanHeld(tail)
    requires Joins(before, tail) && Last(front) == Last(before)
    ensures Continuous(front + tail) && OtherFanHeld(front + tail)
    ensures Last(front + tail) == Last(tail)
  {
    ContinuousJoin(front, tail);
  }

  function Last(samples: seq<Readback>): Readback
    requires samples != []
  {
    samples[|samples| - 1]
  }

  /**
   * Unbroken supervision: in every reachable log, the samples of all events from one revalidation
   * (or any event) up to the next, taken together, strictly increase in time with gaps of at most
   * two seconds, and every one shows the other fan in Custom mode at 255.
   */
  lemma UnbrokenSupervision(fan: Fan, actions: seq<Action>, i: nat, j: nat)
    requires i < j <= |Perform(fan, actions).events|
    requires forall k :: i < k < j ==> !IsRevalidation(Perform(fan, actions).events[k])
    ensures var samples := AllSamples(Perform(fan, actions).events[i..j]);
            Continuous(samples) && OtherFanHeld(samples)
  {
    ReachableIsWatched(fan, actions);
    hide Perform;
    SpanIsContinuous(Perform(fan, actions).events, i, j);
  }

  // ---------------------------------------------------------------- the canonical protocol

  /** The steps of a log, revalidations removed. */
  function Commands(events: seq<Event>): seq<Step> {
    if events == [] then []
    else
      var front, last := Commands(events[..|events| - 1]), events[|events| - 1];
      if IsRevalidation(last) then front else front + [last.step]
  }

  /** The duties of the sweep levels whose observations settled. */
  function SettledDuties(events: seq<Event>): seq<nat> {
    if events == [] then []
    else
      var front, last := SettledDuties(events[..|events| - 1]), events[|events| - 1];
      if last.LevelEvent? && last.step.Sweep? && Settles(last.level) then front + [last.step.duty] else front
  }

  function SweepSteps(count: nat): (r: seq<Step>)
    requires count <= 5
    ensures |r| == count
  {
    if count == 0 then []
    else SweepSteps(count - 1) + [Sweep(SWEEP[count - 1], DutyToPwm(SWEEP[count - 1]))]
  }

  /** Alternating maximum and floor transitions. */
  function Pairs(count: nat, floor: nat): (r: seq<Step>)
    ensures |r| == 2 * count
  {
    if count == 0 then []
    else Pairs(count - 1, floor)
         + [TransitionToMaximum(count, MAXIMUM_PWM), TransitionToFloor(count, floor, DutyToPwm(floor))]
  }

  function AnchorSteps(count: nat, floor: nat): (r: seq<Step>)
    requires count <= 4 && AllowedFloor(floor)
    ensures |r| == count
  {
    if count == 0 then []
    else
      var duty := AnchorDuties(floor)[count - 1];
      AnchorSteps(count - 1, floor) + [CaptureAnchor(duty, DutyToPwm(duty))]
  }

  /** Sweep levels tried: all five settled, or the first that did not is the last one tried. */
  function SweepCount(settled: nat): nat {
    if settled < 5 then settled + 1 else 5
  }

  function AfterSweep(settled: nat, pairs: nat, floor: nat): seq<Step> {
    SweepSteps(SweepCount(settled)) + Pairs(pairs, floor)
  }

  function HoldStep(floor: nat): Step { HoldFloor(floor, DutyToPwm(floor), REQUIRED_HOLD) }

  /** The steps a session in this phase must have performed. */
  function Expected(s: Session): seq<Step>
    requires !s.phase.Failed?
  {
    match s.phase
    case SweepPhase(index) => SweepSteps(index)
    case ToMaximum(attempt) => AfterSweep(|s.stable|, attempt - 1, s.floor.value)
    case ToFloor(attempt) => AfterSweep(|s.stable|, attempt - 1, s.floor.value) + [TransitionToMaximum(attempt, MAXIMUM_PWM)]
    case HoldPhase => AfterSweep(|s.stable|, TRANSITIONS, s.floor.value)
    case AnchorPhase(index) => CanonicalSteps(|s.stable|, s.floor.value, index)
    case Complete => CanonicalSteps(|s.stable|, s.floor.value, 4)
  }

  /** A sweep prefix, five max/floor pairs, one hold and the anchors. */
  function CanonicalSteps(settled: nat, floor: nat, anchors: nat): seq<Step>
    requires anchors <= 4 && AllowedFloor(floor)
  {
    AfterSweep(settled, TRANSITIONS, floor) + [HoldStep(floor)] + AnchorSteps(anchors, floor)
  }

  ghost predicate OnProtocol(s: Session) {
    !s.phase.Failed? ==> Commands(s.events) == Expected(s) && s.stable == SettledDuties(s.events)
  }

  lemma CommandsAppend(events: seq<Event>, event: Event)
    ensures Commands(events + [event]) == if IsRevalidation(event) then Commands(events) else Commands(events) + [event.step]
    ensures SettledDuties(events + [event])
            == if event.LevelEvent? && event.step.Sweep? && Settles(event.level)
               then SettledDuties(events) + [event.step.duty] else SettledDuties(events)
  {
  }

  lemma SweepAdvances(s: Session, settled: Option<Settled>)
    requires s.phase.SweepPhase? && s.resumePhase.None?
    requires RecordSweep(s, settled).error.None?
    ensures var r := RecordSweep(s, settled).session;
            && Expected(r) == Expected(s) + [NextStep(s)]
            && r.stable == if settled.Some? then s.stable + [SWEEP[s.phase.index]] else s.stable
  {
  }

  /** What the expected steps depend on. */
  ghost predicate SamePosition(s: Session, r: Session) {
    r.phase == s.phase && r.stable == s.stable && r.floor == s.floor
  }

  lemma ExpectedByPosition(s: Session, r: Session)
    requires SamePosition(s, r) && !s.phase.Failed?
    ensures Expected(s) == Expected(r)
  {
    hide SweepSteps, AfterSweep, CanonicalSteps;
  }

  lemma FloorTransitionAdvances(s: Session, settled: Settled)
    requires s.resumePhase.None? && s.phase.ToFloor?
    ensures var r := ApplyLevel(s, Some(settled)).session;
            Expected(r) == Expected(s) + [NextStep(s)] && r.stable == s.stable
  {
    var a, floor := s.phase.attempt, s.floor.value;
    hide DutyToPwm, SweepSteps;
    assert Pairs(a, floor) == Pairs(a - 1, floor) + [TransitionToMaximum(a, MAXIMUM_PWM), NextStep(s)];
    hide Pairs;
    assert Expected(s) + [NextStep(s)] == AfterSweep(|s.stable|, a, floor);
  }

  lemma MaximumTransitionAdvances(s: Session, settled: Settled)
    requires s.resumePhase.None? && s.phase.ToMaximum?
    ensures var r := ApplyLevel(s, Some(settled)).session;
            Expected(r) == Expected(s) + [NextStep(s)] && r.stable == s.stable
  {
    hide AfterSweep;
  }

  lemma AnchorAdvances(s: Session, settled: Settled)
    requires s.resumePhase.None? && s.phase.AnchorPhase?
    requires RecordAnchor(s, settled).error.None?
    ensures var r := RecordAnchor(s, settled).session;
            Expected(r) == Expected(s) + [NextStep(s)] && r.stable == s.stable
  {
    var i, floor := s.phase.index, s.floor.value;
    hide AfterSweep, DutyToPwm, ResponseDeadline;
    assert AnchorSteps(i + 1, floor) == AnchorSteps(i, floor) + [NextStep(s)];
    hide AnchorSteps;
  }

  lemma LevelAdvances(s: Session, settled: Option<Settled>)
    requires !NextStep(s).CompleteStep? && !NextStep(s).FailedStep? && !NextStep(s).HoldFloor?
    requires ApplyLevel(s, settled).error.None?
    ensures var r := ApplyLevel(s, settled).session;
            if s.resumePhase.Some? then SamePosition(s, r)
            else
              && Expected(r) == Expected(s) + [NextStep(s)]
              && r.stable == if s.phase.SweepPhase? && settled.Some? then s.stable + [SWEEP[s.phase.index]] else s.stable
  {
    hide Expected, RecordSweep, RecordAnchor;
    if s.resumePhase.None? {
      match s.phase
      case SweepPhase(_) => SweepAdvances(s, settled);
      case ToMaximum(_) => MaximumTransitionAdvances(s, settled.value);
      case ToFloor(_) => FloorTransitionAdvances(s, settled.value);
      case AnchorPhase(_) => AnchorAdvances(s, settled.value);
    }
  }

  lemma LoggedKeepsPosition(s: Session, event: Event, samples: seq<Readback>)
    requires s.resumePhase.None?
    ensures SamePosition(s, Logged(s, event, samples)) && Logged(s, event, samples).events == s.events + [event]
  {
  }

  lemma LevelKeepsProtocol(s: Session, level: LevelObservation)
    requires OnProtocol(s)
    ensures OnProtocol(RecordLevel(s, level).session)
  {
    if RecordLevel(s, level).error.None? {
      var event := LevelEvent(NextStep(s), level);
      CommandsAppend(s.events, event);
      LevelAccepted(s, level);
      hide RecordLevel, Judge, Settles, ReadbackFault, Logged, ApplyLevel, Commands, SettledDuties, Expected;
      var settled := Judge(s.phase.SweepPhase?, level).value;
      var applied, r := ApplyLevel(s, settled).session, RecordLevel(s, level).session;
      LevelAdvances(s, settled);
      LoggedKeepsPosition(applied, event, level.samples);
      ExpectedByPosition(applied, r);
      if s.resumePhase.Some? { ExpectedByPosition(s, applied); }
    }
  }

  lemma HoldKeepsProtocol(s: Session, hold: HoldObservation)
    requires OnProtocol(s)
    ensures OnProtocol(RecordHold(s, hold).session)
  {
    if RecordHold(s, hold).error.None? {
      CommandsAppend(s.events, HoldEvent(NextStep(s), hold));
      hide HoldFault;
      assert AnchorSteps(0, s.floor.value) == [];
    }
  }

  lemma ReloadKeepsProtocol(s: Session)
    requires OnProtocol(s) && Replayable(s)
    ensures OnProtocol(Act(s, Reload))
  {
    ReloadOnlyReopens(s);
    hide Act, Commands, SettledDuties, Expected, Replayable;
    if !s.phase.Failed? { ExpectedByPosition(s, Act(s, Reload)); }
  }

  lemma {:induction false} ReachableIsOnProtocol(fan: Fan, actions: seq<Action>)
    ensures OnProtocol(Perform(fan, actions))
  {
    if actions != [] {
      var before := Perform(fan, actions[..|actions| - 1]);
      ReachableIsOnProtocol(fan, actions[..|actions| - 1]);
      ReachableIsReplayable(fan, actions[..|actions| - 1]);
      hide OnProtocol, Replayable, RecordLevel, RecordHold;
      match actions[|actions| - 1]
      case ObserveLevel(level) => LevelKeepsProtocol(before, level);
      case ObserveHold(hold) => HoldKeepsProtocol(before, hold);
      case Reload => ReloadKeepsProtocol(before);
    }
  }

  /**
   * Canonical protocol: with revalidations removed, the log of every completed session is a sweep
   * prefix, five alternating max/floor pairs, one hold and four anchors; its floor is the lowest
   * sweep level that settled plus 1000, one of four values.
   */
  lemma CompletedLogIsCanonical(fan: Fan, actions: seq<Action>)
    requires Perform(fan, actions).phase.Complete?
    ensures var s := Perform(fan, actions);
            var settled := SettledDuties(s.events);
            && s.floor.Some? && AllowedFloor(s.floor.value)
            && 2 <= |settled| <= 5 && settled == SWEEP[..|settled|]
            && s.floor.value == settled[|settled| - 1] + MARGIN
            && Commands(s.events) == CanonicalSteps(|settled|, s.floor.value, 4)
            && |Commands(s.events)| == SweepCount(|settled|) + 15
  {
    ReachableIsOnProtocol(fan, actions);
    hide Perform;
  }

  ghost predicate CommandsAtLeast(step: Step, floor: nat) {
    StepDuty(step).Some? && StepDuty(step).value >= floor && StepPwm(step).Some? && StepPwm(step).value >= DutyToPwm(floor)
  }

  /** Once the sweep is over, no step of any reachable session commands less than the floor. */
  lemma NothingBelowFloorAfterSweep(fan: Fan, actions: seq<Action>, i: nat)
    requires var s := Perform(fan, actions);
             !s.phase.Failed? && s.floor.Some? && SweepCount(|s.stable|) <= i < |Commands(s.events)|
    ensures var s := Perform(fan, actions);
            CommandsAtLeast(Commands(s.events)[i], s.floor.value)
  {
    ReachableIsOnProtocol(fan, actions);
    hide Perform, Commands, SettledDuties;
    LaterStepsAtLeast(Perform(fan, actions), i);
  }

  lemma LaterStepsAtLeast(s: Session, i: nat)
    requires !s.phase.Failed? && s.floor.Some? && SweepCount(|s.stable|) <= i < |Expected(s)|
    ensures CommandsAtLeast(Expected(s)[i], s.floor.value)
  {
    hide Expected, LaterSteps, CommandsAtLeast, SweepSteps;
    LaterStepsSplit(s);
    LaterStepsFloor(s);
    assert Expected(s)[i] == LaterSteps(s)[i - SweepCount(|s.stable|)];
  }

  /** The expected steps after the sweep. */
  function LaterSteps(s: Session): seq<Step>
    requires !s.phase.Failed? && s.floor.Some?
  {
    var floor := s.floor.value;
    match s.phase
    case SweepPhase(_) => []
    case ToMaximum(attempt) => Pairs(attempt - 1, floor)
    case ToFloor(attempt) => Pairs(attempt - 1, floor) + [TransitionToMaximum(attempt, MAXIMUM_PWM)]
    case HoldPhase => Pairs(TRANSITIONS, floor)
    case AnchorPhase(index) => Pairs(TRANSITIONS, floor) + [HoldStep(floor)] + AnchorSteps(index, floor)
    case Complete => Pairs(TRANSITIONS, floor) + [HoldStep(floor)] + AnchorSteps(4, floor)
  }

  lemma LaterStepsSplit(s: Session)
    requires !s.phase.Failed? && s.floor.Some?
    ensures Expected(s) == SweepSteps(SweepCount(|s.stable|)) + LaterSteps(s)
  {
    hide SweepSteps, Pairs, AnchorSteps;
  }

  lemma LaterStepsFloor(s: Session)
    requires !s.phase.Failed? && s.floor.Some?
    ensures forall step :: step in LaterSteps(s) ==> CommandsAtLeast(step, s.floor.value)
  {
    var floor := s.floor.value;
    PairsAtLeast(if s.phase.ToMaximum? || s.phase.ToFloor? then s.phase.attempt - 1 else TRANSITIONS, floor);
    AnchorsAtLeast(if s.phase.AnchorPhase? then s.phase.index else 4, floor);
    MaximumAtLeast(if s.phase.ToFloor? then s.phase.attempt else 0, floor);
    HoldAtLeast(floor);
    hide CommandsAtLeast, Pairs, AnchorSteps, DutyToPwm;
  }

  lemma MaximumAtLeast(attempt: nat, floor: nat)
    requires AllowedFloor(floor)
    ensures CommandsAtLeast(TransitionToMaximum(attempt, MAXIMUM_PWM), floor)
  {
  }

  lemma HoldAtLeast(floor: nat)
    ensures CommandsAtLeast(HoldStep(floor), floor)
  {
  }

  lemma {:induction false} PairsAtLeast(count: nat, floor: nat)
    requires AllowedFloor(floor)
    ensures forall step :: step in Pairs(count, floor) ==> CommandsAtLeast(step, floor)
  {
    if count > 0 { PairsAtLeast(count - 1, floor); }
  }

  lemma AnchorDutiesAtLeast(floor: nat)
    requires AllowedFloor(floor)
    ensures forall i :: 0 <= i < 4 ==> AnchorDuties(floor)[i] >= floor && DutyToPwm(AnchorDuties(floor)[i]) >= DutyToPwm(floor)
  {
  }

  lemma {:induction false} AnchorsAtLeast(count: nat, floor: nat)
    requires AllowedFloor(floor) && count <= 4
    ensures forall step :: step in AnchorSteps(count, floor) ==> CommandsAtLeast(step, floor)
  {
    if count > 0 {
      AnchorsAtLeast(count - 1, floor);
      AnchorDutiesAtLeast(floor);
    }
  }
}
