/** Observations, steps and pure judgements of the conservative fan calibration (calibration.rs). */
module Calibration {
  import opened Wrappers
  import opened Config
  import opened Order

  const CUSTOM_CONTROL := 1
  const MAXIMUM_PWM := 255
  const MAXIMUM_DUTY := 10_000
  const SWEEP: seq<nat> := [10_000, 6_000, 5_000, 4_000, 3_000]
  const MARGIN := 1_000
  const RESPONSE_MARGIN := 2_000
  const MAXIMUM_GAP := 2_000
  const MINIMUM_RESPONSE := 1_000
  const MAXIMUM_RESPONSE := 10_000
  const MINIMUM_SETTLED_SPAN := 1_000
  const MINIMUM_SETTLED_GAP := 250
  const MINIMUM_SETTLED_SAMPLES := 3
  const TOLERANCE_PERCENT := 10
  const TRANSITIONS := 5
  const REQUIRED_HOLD := 900_000
  const MINIMUM_PLAUSIBLE_RPM := 100
  const MAXIMUM_PLAUSIBLE_RPM := 20_000

  function ResponseDeadline(slowest: nat): nat {
    if slowest + RESPONSE_MARGIN <= MAXIMUM_RESPONSE then slowest + RESPONSE_MARGIN else MAXIMUM_RESPONSE
  }

  predicate AllowedFloor(floor: nat) {
    floor == 4_000 || floor == 5_000 || floor == 6_000 || floor == 7_000
  }

  function Dedup(s: seq<nat>): seq<nat> {
    if |s| < 2 then s
    else if s[0] == s[1] then Dedup(s[1..])
    else [s[0]] + Dedup(s[1..])
  }

  lemma DedupDistinct(s: seq<nat>)
    ensures (forall i :: 0 <= i < |s| - 1 ==> s[i] != s[i + 1]) ==> Dedup(s) == s
  {
  }

  function AnchorDuties(floor: nat): (r: seq<nat>)
    ensures AllowedFloor(floor) ==> r == [floor, floor + (7_500 - floor) / 2, 7_500, MAXIMUM_DUTY]
  {
    var midpoint := floor + (if floor <= 7_500 then 7_500 - floor else 0) / 2;
    var duties := [floor, midpoint, 7_500, MAXIMUM_DUTY];
    DedupDistinct(duties);
    Dedup(duties)
  }

  function DutyToPwm(duty: nat): nat {
    (duty * 255 + MAXIMUM_DUTY - 1) / MAXIMUM_DUTY
  }

  /** The least PWM step that is not below duty * 255 / 10000, and a byte for every duty. */
  lemma DutyToPwmIsLeast(duty: nat)
    ensures DutyToPwm(duty) * 10_000 >= duty * 255
    ensures DutyToPwm(duty) > 0 ==> (DutyToPwm(duty) - 1) * 10_000 < duty * 255
    ensures duty <= 10_000 ==> DutyToPwm(duty) <= 255
  {
  }

  datatype Step =
    | RevalidateBothAtMaximum(pwm: nat)
    | Sweep(duty: nat, pwm: nat)
    | TransitionToMaximum(attempt: nat, pwm: nat)
    | TransitionToFloor(attempt: nat, duty: nat, pwm: nat)
    | HoldFloor(duty: nat, pwm: nat, requiredMillis: nat)
    | CaptureAnchor(duty: nat, pwm: nat)
    | CompleteStep
    | FailedStep

  function StepDuty(step: Step): Option<nat> {
    match step
    case Sweep(duty, _) => Some(duty)
    case TransitionToFloor(_, duty, _) => Some(duty)
    case HoldFloor(duty, _, _) => Some(duty)
    case CaptureAnchor(duty, _) => Some(duty)
    case RevalidateBothAtMaximum(_) => Some(MAXIMUM_DUTY)
    case TransitionToMaximum(_, _) => Some(MAXIMUM_DUTY)
    case CompleteStep => None
    case FailedStep => None
  }

  function StepPwm(step: Step): Option<nat> {
    if step.CompleteStep? || step.FailedStep? then None else Some(step.pwm)
  }

  datatype Readback = Readback(
    time: nat,
    selectedEnable: nat,
    selectedPwm: nat,
    otherEnable: nat,
    otherPwm: nat,
    rpm: Option<nat>)

  datatype LevelObservation = LevelObservation(commandedAt: nat, samples: seq<Readback>, stall: bool, collapse: bool)

  datatype HoldObservation = HoldObservation(samples: seq<Readback>, stall: bool, collapse: bool)

  datatype CalibrationError =
    | UnexpectedStep
    | SelectedFanReadbackMismatch
    | OtherFanNotAtMaximum
    | InvalidRpm
    | InconclusiveObservation
    | ConservativeMarginUnavailable
    | UnstableRequiredLevel
    | IncompleteHold
    | DecreasingAnchorRpm
    | StageAlreadyFailed
    | InvalidCheckpoint

  // ---------------------------------------------------------------- timing

  /** At least one sample, and each follows the one before by 1 to 2000 ms. */
  predicate Continuous(samples: seq<Readback>) {
    && samples != []
    && forall i :: 0 <= i < |samples| - 1 ==> 1 <= samples[i + 1].time - samples[i].time <= MAXIMUM_GAP
  }

  function SampleDuration(samples: seq<Readback>): (r: Option<nat>) {
    if samples == [] || samples[|samples| - 1].time < samples[0].time then None
    else Some(samples[|samples| - 1].time - samples[0].time)
  }

  /** The gap bound alone limits how much time `n` samples can span. */
  lemma {:induction false} DurationBoundedByCount(samples: seq<Readback>)
    requires Continuous(samples)
    ensures samples[0].time + |samples| - 1 <= samples[|samples| - 1].time
    ensures samples[|samples| - 1].time - samples[0].time <= MAXIMUM_GAP * (|samples| - 1)
  {
    if |samples| > 1 {
      var front := samples[..|samples| - 1];
      assert forall i :: 0 <= i < |front| ==> front[i] == samples[i];
      DurationBoundedByCount(front);
      assert samples[|samples| - 2 + 1] == samples[|samples| - 1];
    }
  }

  /** The 15-minute hold's minimum sample count already follows from its duration and gap bound. */
  lemma HoldSampleCountIsImplied(samples: seq<Readback>)
    requires Continuous(samples)
    requires samples[|samples| - 1].time - samples[0].time >= REQUIRED_HOLD
    ensures |samples| >= MinimumHoldSamples()
  {
    DurationBoundedByCount(samples);
  }

  function MinimumHoldSamples(): nat {
    (REQUIRED_HOLD + MAXIMUM_GAP - 1) / MAXIMUM_GAP + 1
  }

  lemma ContinuousJoin(front: seq<Readback>, back: seq<Readback>)
    requires Continuous(front) && Continuous(back)
    requires 1 <= back[0].time - front[|front| - 1].time <= MAXIMUM_GAP
    ensures Continuous(front + back)
  {
    var whole := front + back;
    forall i | 0 <= i < |whole| - 1
      ensures 1 <= whole[i + 1].time - whole[i].time <= MAXIMUM_GAP
    {
      if i >= |front| {
        var k := i - |front|;
        assert whole[i] == back[k] && whole[i + 1] == back[k + 1];
      }
    }
  }

  // ---------------------------------------------------------------- RPM judgement

  predicate PlausibleRpm(rpm: nat) {
    MINIMUM_PLAUSIBLE_RPM <= rpm <= MAXIMUM_PLAUSIBLE_RPM
  }

  predicate AnyImplausible(samples: seq<Readback>) {
    exists i :: 0 <= i < |samples| && samples[i].rpm.Some? && !PlausibleRpm(samples[i].rpm.value)
  }

  predicate AllSilent(samples: seq<Readback>) {
    forall i :: 0 <= i < |samples| ==> samples[i].rpm.None?
  }

  predicate AnySilent(samples: seq<Readback>) {
    exists i :: 0 <= i < |samples| && samples[i].rpm.None?
  }

  function FirstRpmIndex(samples: seq<Readback>): (r: nat)
    requires !AllSilent(samples)
    ensures r < |samples| && samples[r].rpm.Some?
    ensures AllSilent(samples[..r])
  {
    if samples[0].rpm.Some? then 0
    else
      assert !AllSilent(samples[1..]) by {
        var i :| 0 <= i < |samples| && samples[i].rpm.Some?;
        assert samples[1..][i - 1] == samples[i];
      }
      var rest := FirstRpmIndex(samples[1..]);
      assert forall i :: 1 <= i < rest + 1 ==> samples[i] == samples[1..][..rest][i - 1];
      rest + 1
  }

  function RpmValues(samples: seq<Readback>): (r: seq<int>)
    requires !AnySilent(samples)
    ensures |r| == |samples|
    ensures forall i :: 0 <= i < |r| ==> r[i] == samples[i].rpm.value
  {
    seq(|samples|, i requires 0 <= i < |samples| => samples[i].rpm.value as int)
  }

  function Median(rpms: seq<int>): (r: int)
    requires rpms != []
    ensures r in rpms
  {
    var ordered := Sort(rpms);
    SortKeepsMembers(rpms, ordered[|ordered| / 2]);
    ordered[|ordered| / 2]
  }

  /** More than half of the readings do not exceed the median, and at most half lie below it. */
  lemma MedianIsMiddle(rpms: seq<int>)
    requires rpms != []
    ensures 2 * CountAtMost(rpms, Median(rpms)) > |rpms| && 2 * CountAtMost(rpms, Median(rpms) - 1) <= |rpms|
  {
    hide Sort, CountAtMost;
    var ordered := Sort(rpms);
    var median := ordered[|rpms| / 2];
    SortedCounts(ordered, |rpms| / 2);
    CountSorted(rpms, median);
    CountSorted(rpms, median - 1);
  }

  /** A difference within ten percent of the median, or within 50 RPM. */
  predicate Near(difference: int, median: int) {
    difference <= 50 || 10 * difference <= median
  }

  function Tolerance(median: int): (r: int)
    ensures forall d: int :: Near(d, median) <==> d <= r
  {
    if median * TOLERANCE_PERCENT / 100 > 50 then median * TOLERANCE_PERCENT / 100 else 50
  }

  /** The median, if the readings spread by no more than the larger of 10 % of it and 50 RPM. */
  function StableMedian(rpms: seq<int>): (r: Option<int>)
    ensures r.Some? <==> |rpms| >= MINIMUM_SETTLED_SAMPLES && forall x, y :: x in rpms && y in rpms ==> Near(x - y, Median(rpms))
    ensures r.Some? ==> r.value == Median(rpms)
  {
    if |rpms| < MINIMUM_SETTLED_SAMPLES then None
    else
      var median := Median(rpms);
      if Maximum(rpms) - Minimum(rpms) > Tolerance(median) then None else Some(median)
  }

  datatype Settled = Settled(medianRpm: nat, responseMillis: nat)

  predicate GapsTooShort(samples: seq<Readback>) {
    exists i :: 0 <= i < |samples| - 1 && samples[i + 1].time - samples[i].time < MINIMUM_SETTLED_GAP
  }

  lemma MedianIsPlausible(samples: seq<Readback>, first: nat, median: int)
    requires first <= |samples| && !AnyImplausible(samples) && !AnySilent(samples[first..])
    requires median in RpmValues(samples[first..])
    ensures median >= 0 && PlausibleRpm(median)
  {
  }

  /** The samples from the first reported speed on. */
  function SpeedSamples(observation: LevelObservation): (r: seq<Readback>)
    requires !AllSilent(observation.samples)
    ensures r != []
  {
    observation.samples[FirstRpmIndex(observation.samples)..]
  }

  /** Every reading is there and plausible, and no two differ by more than the tolerance of their median. */
  ghost predicate SteadySpeed(samples: seq<Readback>) {
    && |samples| >= MINIMUM_SETTLED_SAMPLES
    && !AnySilent(samples)
    && (forall i :: 0 <= i < |samples| ==> MINIMUM_PLAUSIBLE_RPM <= samples[i].rpm.value <= MAXIMUM_PLAUSIBLE_RPM)
    && (forall i, j :: 0 <= i < |samples| && 0 <= j < |samples| ==>
          Near(samples[i].rpm.value - samples[j].rpm.value, Median(RpmValues(samples))))
  }

  /**
   * What it takes for a level to settle: the last sample one to ten seconds after the command, and from
   * the first reported speed on a steady one, over at least a second, sampled no closer than 250 ms.
   */
  ghost predicate SettledProperly(observation: LevelObservation) {
    var samples := observation.samples;
    && !AllSilent(samples)
    && MINIMUM_RESPONSE <= samples[|samples| - 1].time - observation.commandedAt <= MAXIMUM_RESPONSE
    && var settled := SpeedSamples(observation);
    && SteadySpeed(settled)
    && settled[|settled| - 1].time - settled[0].time >= MINIMUM_SETTLED_SPAN
    && forall i :: 0 <= i < |settled| - 1 ==> settled[i + 1].time - settled[i].time >= MINIMUM_SETTLED_GAP
  }

  /** Whether a level settled: an error, no stable speed, or a median and a response time. */
  function SettledLevel(observation: LevelObservation): (r: Result<Option<Settled>, CalibrationError>)
    ensures r.Ok? && r.value.Some? ==>
              && PlausibleRpm(r.value.value.medianRpm)
              && MINIMUM_RESPONSE <= r.value.value.responseMillis <= MAXIMUM_RESPONSE
  {
    var samples := observation.samples;
    if AnyImplausible(samples) || AllSilent(samples) then Err(InvalidRpm)
    else if samples[|samples| - 1].time < observation.commandedAt then Err(InconclusiveObservation)
    else
      var response := samples[|samples| - 1].time - observation.commandedAt;
      if !(MINIMUM_RESPONSE <= response <= MAXIMUM_RESPONSE) then Err(InconclusiveObservation)
      else
        var settled := samples[FirstRpmIndex(samples)..];
        if AnySilent(settled) then Err(InvalidRpm)
        else if |settled| < MINIMUM_SETTLED_SAMPLES then Err(InconclusiveObservation)
        else if SampleDuration(settled).None? || SampleDuration(settled).value < MINIMUM_SETTLED_SPAN || GapsTooShort(settled)
        then Err(InconclusiveObservation)
        else
          var median := StableMedian(RpmValues(settled));
          if median.None? then Ok(None)
          else
            MedianIsPlausible(samples, FirstRpmIndex(samples), median.value);
            Ok(Some(Settled(median.value, response)))
  }

  lemma SteadyIsStable(samples: seq<Readback>)
    requires !AnySilent(samples)
    ensures SteadySpeed(samples) <==> !AnyImplausible(samples) && StableMedian(RpmValues(samples)).Some?
  {
    hide Median, Near;
    var rpms := RpmValues(samples);
    if samples != [] {
      var median := Median(rpms);
      if forall x, y :: x in rpms && y in rpms ==> Near(x - y, median) {
        forall i, j | 0 <= i < |samples| && 0 <= j < |samples| ensures Near(samples[i].rpm.value - samples[j].rpm.value, median) {
          assert rpms[i] in rpms && rpms[j] in rpms;
        }
      }
    }
  }

  /** Nothing was reported before the first reported speed, so it is enough to look from there on. */
  lemma SpeedSamplesTellAll(observation: LevelObservation)
    requires !AllSilent(observation.samples)
    ensures AnyImplausible(observation.samples) <==> AnyImplausible(SpeedSamples(observation))
  {
    var samples, first := observation.samples, FirstRpmIndex(observation.samples);
    var tail := SpeedSamples(observation);
    assert forall i :: 0 <= i < first ==> samples[..first][i] == samples[i];
    assert forall i :: first <= i < |samples| ==> samples[i] == tail[i - first];
  }

  lemma GapsLongEnough(samples: seq<Readback>)
    ensures !GapsTooShort(samples) <==> forall i :: 0 <= i < |samples| - 1 ==> samples[i + 1].time - samples[i].time >= MINIMUM_SETTLED_GAP
  {
  }

  /** The verdict is exactly that. */
  lemma SettledMeans(observation: LevelObservation)
    ensures SettledLevel(observation).Ok? && SettledLevel(observation).value.Some? <==> SettledProperly(observation)
  {
    hide Median, Tolerance, StableMedian, SteadySpeed, GapsTooShort, FirstRpmIndex, AnyImplausible;
    if !AllSilent(observation.samples) {
      var settled := SpeedSamples(observation);
      SpeedSamplesTellAll(observation);
      GapsLongEnough(settled);
      SteadyIsVocal(settled);
      if !AnySilent(settled) {
        SteadyIsStable(settled);
        StableHasThree(settled);
      }
    }
  }

  lemma SteadyIsVocal(samples: seq<Readback>)
    ensures SteadySpeed(samples) ==> !AnySilent(samples)
  {
  }

  lemma StableHasThree(samples: seq<Readback>)
    requires !AnySilent(samples)
    ensures StableMedian(RpmValues(samples)).Some? ==> |samples| >= MINIMUM_SETTLED_SAMPLES
  {
  }

  /** It carries the median speed and the time from the command to the last sample. */
  lemma SettledValues(observation: LevelObservation)
    requires SettledLevel(observation).Ok? && SettledLevel(observation).value.Some?
    ensures var samples, settled := observation.samples, SettledLevel(observation).value.value;
            && !AllSilent(samples) && !AnySilent(SpeedSamples(observation))
            && settled.medianRpm == Median(RpmValues(SpeedSamples(observation)))
            && settled.responseMillis == samples[|samples| - 1].time - observation.commandedAt
  {
    hide Median, Tolerance;
  }

  /** The floor hold's judgement: every sample must report, plausibly and steadily. */
  function HoldMedian(samples: seq<Readback>): (r: Result<Option<int>, CalibrationError>) {
    if AnySilent(samples) then Ok(None)
    else if exists i :: 0 <= i < |samples| && !PlausibleRpm(samples[i].rpm.value) then Err(InvalidRpm)
    else Ok(StableMedian(RpmValues(samples)))
  }
}
