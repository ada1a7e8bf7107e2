/**
 * The supervised endurance run (endurance.rs): one hour of samples under a physical observer, and a
 * shutdown ladder that is climbed whatever happened before. The environment answers anything.
 */
module Endurance {
  import opened Wrappers
  import opened Config
  import opened Evidence

  const SAMPLE_COUNT := 1800
  const SAMPLE_CADENCE := 2_000
  const SAMPLE_JITTER := 100
  const SEGMENT_WINDOW := 2_000
  const OPERATION_TIMEOUT := 10_000
  const RESTORATION_TIMEOUT := 5_000
  const OBSERVER_GAP := 5_000
  const RUN_DURATION := 3_600_000
  const MINUTE := 60_000
  const SERVICE := "pt31553-fan-control.service"

  /** Durations of the six segments. */
  const SEGMENTS: seq<nat> := [15 * MINUTE, 10 * MINUTE, 10 * MINUTE, 5 * MINUTE, 10 * MINUTE, 10 * MINUTE]

  // ---------------------------------------------------------------- the schedule

  /** When segment `index` ends, in milliseconds of workload time. */
  function EndOf(index: nat): nat
    requires index < |SEGMENTS|
  {
    if index == 0 then SEGMENTS[0] else EndOf(index - 1) + SEGMENTS[index]
  }

  /** The first segment that has not ended before `elapsed`; the last one takes whatever is left. */
  ghost predicate IsSegmentAt(elapsed: nat, index: nat) {
    && index < |SEGMENTS|
    && (forall i :: 0 <= i < index ==> EndOf(i) < elapsed)
    && (elapsed <= EndOf(index) || index == |SEGMENTS| - 1)
  }

  method SegmentIndexAtElapsed(elapsed: nat) returns (r: nat)
    ensures IsSegmentAt(elapsed, r)
  {
    var end := 0;
    for index := 0 to |SEGMENTS|
      invariant end == if index == 0 then 0 else EndOf(index - 1)
      invariant forall i :: 0 <= i < index ==> EndOf(i) < elapsed
    {
      end := end + SEGMENTS[index];
      if elapsed <= end {
        return index;
      }
    }
    return |SEGMENTS| - 1;
  }

  lemma SegmentEnds()
    ensures EndOf(0) == 900_000 && EndOf(1) == 1_500_000 && EndOf(2) == 2_100_000
    ensures EndOf(3) == 2_400_000 && EndOf(4) == 3_000_000 && EndOf(5) == RUN_DURATION
  {
  }

  /** From one sample to the next at most one segment boundary is crossed. */
  lemma OneBoundaryAtATime(n: nat, now: nat, next: nat)
    requires IsSegmentAt(n * SAMPLE_CADENCE, now) && IsSegmentAt((n + 1) * SAMPLE_CADENCE, next)
    ensures next == now || (next == now + 1 && EndOf(now) == n * SAMPLE_CADENCE)
  {
    SegmentEnds();
  }

  lemma LastSampleIsInLastSegment(index: nat)
    requires IsSegmentAt(SAMPLE_COUNT * SAMPLE_CADENCE, index)
    ensures index == |SEGMENTS| - 1
  {
    SegmentEnds();
  }

  // ---------------------------------------------------------------- the environment

  datatype Process = Workload | Service

  datatype Rung = Stop | Contain | Force

  datatype StopAnswer = StopAnswer(running: bool, identity: string, observedAt: Timestamp)

  /** `trusted`: the endpoints reported are the ones seen throughout the run. */
  datatype RestoreAnswer = RestoreAnswer(autoWritten: bool, enable: Option<nat>, autoOutcome: bool, trusted: bool)

  datatype ContainAnswer = ContainAnswer(maximumOutcome: bool, enable: Option<nat>, pwmWritten: bool, pwm: Option<nat>, trusted: bool)

  /** `matches`: the confirmed state is the one the segment asks for. */
  datatype SegmentAnswer = SegmentAnswer(observedAt: Timestamp, matches: bool)

  /** What the checks of one telemetry capture find. */
  datatype CaptureAnswer = CaptureAnswer(sampledAt: Timestamp, utilizationMatches: bool, valid: bool, withinEnvelope: bool)

  datatype StartAnswer = StartAnswer(capturedAt: Timestamp, acceptable: bool)

  /** Calls that act on the machine. */
  datatype Event =
    | EnterCustom
    | BeginSegment(index: nat)
    | StartWorkload
    | StopAttempt(process: Process, rung: Rung, stopAnswer: Option<StopAnswer>)
    | RestoreFan(fan: Fan, restoreAnswer: RestoreAnswer)
    | ContainFan(fan: Fan, containAnswer: ContainAnswer)

  type Trace = seq<Event>

  class EnduranceEnvironment {
    /** What the two clocks would show at a call if nothing had been waited for; they may go back. */
    const clock: nat -> (int, int)
    /** How long a wait takes, given the moment to wait for and the time waited before. */
    const delays: (nat, nat, nat) -> nat
    const observers: (nat, nat) -> Option<Timestamp>
    const starts: (nat, nat) -> Option<StartAnswer>
    const entries: nat -> bool
    const segments: (nat, nat) -> Option<SegmentAnswer>
    const workloads: (nat, nat) -> Option<Timestamp>
    const waits: nat -> bool
    const captures: nat -> Option<CaptureAnswer>
    const stops: (nat, nat, Process) -> Option<StopAnswer>
    const restorations: nat -> RestoreAnswer
    const containments: nat -> ContainAnswer
    /** Answers of checks made on data that is not modelled. */
    const verdicts: nat -> bool
    /** How far the wall clock is ahead of the monotonic one in a healthy environment. */
    ghost const offset: int
    var calls: nat
    var waited: nat
    ghost var trace: Trace

    /** An environment in which nothing is wrong, to show that there are such. */
    constructor Ideal(command: string)
      ensures Healthy(this, command)
    {
      clock := (k: nat) => (k, k);
      delays := (k: nat, moment: nat, waited: nat) => if moment > k + waited then moment - k - waited else 0;
      observers := (k: nat, waited: nat) => Some(Timestamp(k + waited, k + waited));
      starts := (k: nat, waited: nat) => Some(StartAnswer(Timestamp(k + waited, k + waited), true));
      entries := (k: nat) => true;
      segments := (k: nat, waited: nat) => Some(SegmentAnswer(Timestamp(k + waited, k + waited), true));
      workloads := (k: nat, waited: nat) => Some(Timestamp(k + waited, k + waited));
      waits := (k: nat) => true;
      captures := (k: nat) => Some(CaptureAnswer(Timestamp(k, k), true, true, true));
      stops := (k: nat, waited: nat, process: Process) => Some(StopAnswer(false, if process.Workload? then command else SERVICE, Timestamp(k + waited, k + waited)));
      restorations := (k: nat) => RestoreAnswer(true, Some(2), true, true);
      containments := (k: nat) => ContainAnswer(true, Some(1), true, Some(255), true);
      verdicts := (k: nat) => true;
      offset := 0;
      calls, waited := 0, 0;
    }

    function Reading(k: nat, waited: nat): Timestamp {
      Timestamp(if clock(k).0 + waited >= 0 then clock(k).0 + waited else 0, clock(k).1 + waited)
    }

    /** What the monotonic clock shows next. */
    ghost function Time(): int
      reads this
    {
      Reading(calls, waited).mono
    }

    method Now() returns (r: Timestamp)
      modifies this`calls
      ensures r == Reading(old(calls), waited) && calls == old(calls) + 1
    {
      r := Reading(calls, waited);
      calls := calls + 1;
    }

    method ConfirmObserver() returns (r: Option<Timestamp>)
      modifies this`calls
      ensures r == observers(old(calls), waited) && calls == old(calls) + 1
    {
      r := observers(calls, waited);
      calls := calls + 1;
    }

    method CaptureStartingConditions() returns (r: Option<StartAnswer>)
      modifies this`calls
      ensures r == starts(old(calls), waited) && calls == old(calls) + 1
    {
      r := starts(calls, waited);
      calls := calls + 1;
    }

    method WaitUntil(moment: nat) returns (r: bool)
      modifies this`calls, this`waited
      ensures r == waits(old(calls)) && calls == old(calls) + 1
      ensures waited == old(waited) + delays(old(calls), moment, old(waited))
    {
      r := waits(calls);
      waited := waited + delays(calls, moment, waited);
      calls := calls + 1;
    }

    method CaptureObservation() returns (r: Option<CaptureAnswer>)
      modifies this`calls
      ensures r == captures(old(calls)) && calls == old(calls) + 1
    {
      r := captures(calls);
      calls := calls + 1;
    }

    method Verdict() returns (r: bool)
      modifies this`calls
      ensures r == verdicts(old(calls)) && calls == old(calls) + 1
    {
      r := verdicts(calls);
      calls := calls + 1;
    }

    method EnterCustomControl() returns (r: bool)
      modifies this`calls, this`trace
      ensures trace == old(trace) + [EnterCustom] && r == entries(old(calls)) && calls == old(calls) + 1
    {
      r := entries(calls);
      calls := calls + 1;
      trace := trace + [EnterCustom];
    }

    method BeginEnduranceSegment(index: nat) returns (r: Option<SegmentAnswer>)
      modifies this`calls, this`trace
      ensures trace == old(trace) + [BeginSegment(index)] && r == segments(old(calls), waited) && calls == old(calls) + 1
    {
      r := segments(calls, waited);
      calls := calls + 1;
      trace := trace + [BeginSegment(index)];
    }

    method StartMixedWorkload() returns (r: Option<Timestamp>)
      modifies this`calls, this`trace
      ensures trace == old(trace) + [StartWorkload] && r == workloads(old(calls), waited) && calls == old(calls) + 1
    {
      r := workloads(calls, waited);
      calls := calls + 1;
      trace := trace + [StartWorkload];
    }

    method StopProcess(process: Process, rung: Rung) returns (r: Option<StopAnswer>)
      modifies this`calls, this`trace
      ensures trace == old(trace) + [StopAttempt(process, rung, r)] && r == stops(old(calls), waited, process) && calls == old(calls) + 1
    {
      r := stops(calls, waited, process);
      calls := calls + 1;
      trace := trace + [StopAttempt(process, rung, r)];
    }

    method RestoreOneFan(fan: Fan) returns (r: RestoreAnswer)
      modifies this`calls, this`trace
      ensures trace == old(trace) + [RestoreFan(fan, r)] && r == restorations(old(calls)) && calls == old(calls) + 1
    {
      r := restorations(calls);
      calls := calls + 1;
      trace := trace + [RestoreFan(fan, r)];
    }

    method ContainOneFan(fan: Fan) returns (r: ContainAnswer)
      modifies this`calls, this`trace
      ensures trace == old(trace) + [ContainFan(fan, r)] && r == containments(old(calls)) && calls == old(calls) + 1
    {
      r := containments(calls);
      calls := calls + 1;
      trace := trace + [ContainFan(fan, r)];
    }
  }

  // ---------------------------------------------------------------- an environment in which nothing is wrong

  /** Both clocks run alike, one to five milliseconds from call to call. */
  ghost predicate Ticks(env: EnduranceEnvironment, k: nat) {
    env.clock(k).0 >= 0 && 1 <= env.clock(k + 1).0 - env.clock(k).0 <= 5 && env.clock(k).1 == env.clock(k).0 + env.offset
  }

  /** A time after call `k` and no later than call `k + 2`. */
  ghost predicate Between(env: EnduranceEnvironment, k: nat, waited: nat, t: Timestamp) {
    env.Reading(k, waited).mono < t.mono <= env.Reading(k + 2, waited).mono && t.wall == t.mono + env.offset
  }

  /** A wait that is not too late ends within 20 ms of the moment waited for. */
  ghost predicate WaitsUntil(env: EnduranceEnvironment, k: nat, waited: nat, moment: nat) {
    && env.waits(k + 1)
    && (env.Reading(k, waited).mono <= moment ==>
          moment <= env.Reading(k + 2, waited + env.delays(k + 1, moment, waited)).mono <= moment + 20)
  }

  predicate GoodCapture(answer: Option<CaptureAnswer>) {
    answer.Some? && answer.value.utilizationMatches && answer.value.valid && answer.value.withinEnvelope
  }

  /** The request made after call `k` is answered in time and as it should be. */
  ghost predicate Serves(env: EnduranceEnvironment, k: nat, waited: nat, command: string) {
    && env.observers(k + 1, waited).Some? && Between(env, k, waited, env.observers(k + 1, waited).value)
    && env.starts(k + 1, waited).Some? && env.starts(k + 1, waited).value.acceptable
    && Between(env, k, waited, env.starts(k + 1, waited).value.capturedAt)
    && env.segments(k + 1, waited).Some? && env.segments(k + 1, waited).value.matches
    && Between(env, k, waited, env.segments(k + 1, waited).value.observedAt)
    && env.workloads(k + 1, waited).Some? && Between(env, k, waited, env.workloads(k + 1, waited).value)
    && StopsAt(env, k, waited, Workload, command) && StopsAt(env, k, waited, Service, SERVICE)
    && env.entries(k + 1) && GoodCapture(env.captures(k + 1)) && ShowsAuto(env.restorations(k + 1))
  }

  ghost predicate StopsAt(env: EnduranceEnvironment, k: nat, waited: nat, process: Process, identity: string) {
    Absent(env.stops(k + 1, waited, process), identity) && Between(env, k, waited, env.stops(k + 1, waited, process).value.observedAt)
  }

  ghost predicate Healthy(env: EnduranceEnvironment, command: string) {
    && (forall k: nat :: Ticks(env, k))
    && (forall k: nat, waited: nat, moment: nat :: WaitsUntil(env, k, waited, moment))
    && (forall k: nat, waited: nat :: Serves(env, k, waited, command))
    && (forall k: nat :: env.verdicts(k))
  }

  /** What `n` calls after call `k` the clocks show: one to five milliseconds more for each. */
  ghost predicate Passed(env: EnduranceEnvironment, k: nat, n: nat, waited: nat) {
    && env.Reading(k, waited).mono + n <= env.Reading(k + n, waited).mono <= env.Reading(k, waited).mono + 5 * n
    && env.Reading(k + n, waited).wall == env.Reading(k + n, waited).mono + env.offset
  }

  lemma {:induction false} TimePasses(env: EnduranceEnvironment, k: nat, n: nat, waited: nat, command: string)
    requires Healthy(env, command)
    ensures Passed(env, k, n, waited)
  {
    assert Ticks(env, k) && Ticks(env, k + n);
    if n > 0 {
      assert Ticks(env, k + n - 1);
      TimePasses(env, k, n - 1, waited, command);
    }
  }

  /** A request between two readings, and the reading after that. */
  lemma RequestServed(env: EnduranceEnvironment, k: nat, waited: nat, command: string)
    requires Healthy(env, command)
    ensures Serves(env, k, waited, command)
    ensures var a, b, c, d := env.Reading(k, waited).mono, env.Reading(k + 1, waited).mono, env.Reading(k + 2, waited).mono, env.Reading(k + 3, waited).mono;
            a < b <= a + 5 && b < c <= b + 5 && c < d <= c + 5
    ensures env.Reading(k, waited).wall == env.Reading(k, waited).mono + env.offset
    ensures env.Reading(k + 2, waited).wall == env.Reading(k + 2, waited).mono + env.offset
  {
    TimePasses(env, k, 0, waited, command);
    TimePasses(env, k, 1, waited, command);
    TimePasses(env, k + 1, 1, waited, command);
    TimePasses(env, k + 2, 1, waited, command);
  }

  lemma StopServed(env: EnduranceEnvironment, k: nat, waited: nat, process: Process, command: string)
    requires Healthy(env, command)
    ensures Absent(env.stops(k + 1, waited, process), if process.Workload? then command else SERVICE)
    ensures var a, b, c := env.Reading(k, waited).mono, env.Reading(k + 2, waited).mono, env.Reading(k + 3, waited).mono;
            a < env.stops(k + 1, waited, process).value.observedAt.mono <= b <= a + 10 && b < c <= b + 5
  {
    RequestServed(env, k, waited, command);
  }

  lemma QuietCall(env: EnduranceEnvironment, k: nat, waited: nat, command: string)
    requires Healthy(env, command)
    ensures env.Reading(k, waited).mono < env.Reading(k + 1, waited).mono <= env.Reading(k, waited).mono + 5 && env.verdicts(k)
  {
    TimePasses(env, k, 1, waited, command);
  }

  /** An action between two readings, and the two readings that follow it. */
  lemma ActionServed(env: EnduranceEnvironment, k: nat, waited: nat, command: string)
    requires Healthy(env, command) && k > 0
    ensures env.entries(k)
    ensures var a, b, c, d := env.Reading(k - 1, waited).mono, env.Reading(k, waited).mono, env.Reading(k + 1, waited).mono, env.Reading(k + 2, waited).mono;
            && a < b < c <= b + 5 && c < d <= c + 5
            && env.segments(k, waited).Some? && env.segments(k, waited).value.matches && a < env.segments(k, waited).value.observedAt.mono <= c
            && env.workloads(k, waited).Some? && a < env.workloads(k, waited).value.mono <= c
  {
    RequestServed(env, k - 1, waited, command);
  }

  lemma RestoreServed(env: EnduranceEnvironment, k: nat, waited: nat, command: string)
    requires Healthy(env, command)
    ensures ShowsAuto(env.restorations(k + 1))
    ensures var a, b, c := env.Reading(k, waited).mono, env.Reading(k + 2, waited).mono, env.Reading(k + 3, waited).mono;
            a < b <= a + 10 && b < c
  {
    RequestServed(env, k, waited, command);
  }

  lemma CaptureServed(env: EnduranceEnvironment, k: nat, waited: nat, command: string)
    requires Healthy(env, command) && k > 0
    ensures GoodCapture(env.captures(k))
    ensures var a, b, c := env.Reading(k, waited).mono, env.Reading(k + 1, waited).mono, env.Reading(k + 2, waited).mono;
            a < b <= a + 5 && b < c <= b + 5
  {
    RequestServed(env, k - 1, waited, command);
  }

  /** A wait between two readings. */
  lemma SlotServed(env: EnduranceEnvironment, k: nat, before: nat, moment: nat, command: string)
    requires Healthy(env, command) && env.Reading(k, before).mono <= moment
    ensures env.waits(k + 1)
    ensures var waited := before + env.delays(k + 1, moment, before);
            var a, b := env.Reading(k + 2, waited).mono, env.Reading(k + 3, waited).mono;
            moment <= a <= moment + 20 && a < b <= a + 5
  {
    assert WaitsUntil(env, k, before, moment);
    TimePasses(env, k + 2, 1, before + env.delays(k + 1, moment, before), command);
  }

  // ---------------------------------------------------------------- evidence

  datatype Code =
    | StartingConditions | CustomEntry | SegmentFault | WorkloadStart | SampleCadence | ObserverWithdrawn
    | InvalidTelemetry | EnvelopeAbort | FeedbackLoss | StopFault(process: Process, rung: Rung)
    | Restoration | AutoUnconfirmed | Completion

  datatype FaultNote = FaultNote(at: Timestamp, code: Code)

  datatype Place = FirmwareAuto | CustomControl | InSegment(index: nat) | MaximumContainment | RestorationFailed

  datatype StateChange = StateChange(at: Timestamp, from: Place, to: Place)

  /** Consecutive observer checks move forward on both clocks, by at most five seconds. */
  ghost predicate Spaced(checks: seq<Timestamp>) {
    forall i :: 0 <= i < |checks| - 1 ==> Follows(checks[i + 1], checks[i])
  }

  predicate Follows(t: Timestamp, previous: Timestamp) {
    0 < t.mono - previous.mono <= OBSERVER_GAP && 0 < t.wall - previous.wall <= OBSERVER_GAP
  }

  lemma SpacedExtends(checks: seq<Timestamp>, t: Timestamp)
    requires Spaced(checks) && (checks == [] || Follows(t, checks[|checks| - 1]))
    ensures Spaced(checks + [t])
  {
  }

  // ---------------------------------------------------------------- the shutdown language

  predicate Absent(answer: Option<StopAnswer>, identity: string) {
    answer.Some? && !answer.value.running && answer.value.identity == identity
  }

  predicate ShowsAuto(answer: RestoreAnswer) {
    answer.autoWritten && answer.enable == Some(2) && answer.autoOutcome && answer.trusted
  }

  const RUNGS: seq<Rung> := [Stop, Contain, Force]

  /** One to three attempts on one process, in order, ending with the first that confirmed its absence. */
  ghost predicate Ladder(t: Trace, process: Process, identity: string, stopped: bool) {
    && 1 <= |t| <= 3
    && (forall i :: 0 <= i < |t| ==> t[i].StopAttempt? && t[i].process == process && t[i].rung == RUNGS[i])
    && (stopped ==> Absent(t[|t| - 1].stopAnswer, identity))
    && (!stopped ==> |t| == 3)
  }

  lemma LadderOfRungs(process: Process, identity: string, a: Option<StopAnswer>, b: Option<StopAnswer>, c: Option<StopAnswer>, n: nat, stopped: bool)
    requires 1 <= n <= 3 && (!stopped ==> n == 3)
    requires stopped ==> Absent(if n == 1 then a else if n == 2 then b else c, identity)
    ensures n == 1 ==> Ladder([StopAttempt(process, Stop, a)], process, identity, stopped)
    ensures n == 2 ==> Ladder([StopAttempt(process, Stop, a), StopAttempt(process, Contain, b)], process, identity, stopped)
    ensures n == 3 ==> Ladder([StopAttempt(process, Stop, a), StopAttempt(process, Contain, b), StopAttempt(process, Force, c)], process, identity, stopped)
  {
  }

  ghost predicate IsRestorePair(t: Trace) {
    |t| == 2 && t[0].RestoreFan? && t[0].fan == Cpu && t[1].RestoreFan? && t[1].fan == Gpu
  }

  ghost predicate IsContainPair(t: Trace) {
    |t| == 2 && t[0].ContainFan? && t[0].fan == Cpu && t[1].ContainFan? && t[1].fan == Gpu
  }

  /** The first attempt on the workload confirmed its absence within ten seconds of the scheduled end. */
  ghost predicate StoppedInTime(t: Trace, start: nat) {
    |t| == 1 && t[0].StopAttempt? && t[0].stopAnswer.Some? && t[0].stopAnswer.value.observedAt.mono <= start + RUN_DURATION + OPERATION_TIMEOUT
  }

  /** Both fans back in Auto, confirmed; or, whatever was tried before, containment at maximum on both. */
  ghost predicate Closing(t: Trace, mayRestore: bool) {
    || (mayRestore && IsRestorePair(t) && ShowsAuto(t[0].restoreAnswer) && ShowsAuto(t[1].restoreAnswer))
    || (mayRestore && |t| == 4 && IsRestorePair(t[..2]) && IsContainPair(t[2..]))
    || (!mayRestore && IsContainPair(t))
  }

  /** The whole shutdown: workload ladder, then the service ladder if Custom was attempted, then the closing. */
  datatype ShutdownCalls = ShutdownCalls(
    workload: Trace, workloadStopped: bool, service: Trace, serviceStopped: bool, closing: Trace)

  function Calls(c: ShutdownCalls): Trace {
    c.workload + c.service + c.closing
  }

  ghost predicate WellOrdered(c: ShutdownCalls, identity: string, custom: bool) {
    && Ladder(c.workload, Workload, identity, c.workloadStopped)
    && (if custom then Ladder(c.service, Service, SERVICE, c.serviceStopped) else c.service == [] && c.serviceStopped)
    && Closing(c.closing, c.workloadStopped && c.serviceStopped)
  }

  // ---------------------------------------------------------------- the runner

  /** One accepted capture and when it was complete. */
  datatype Taken = Taken(answer: CaptureAnswer, at: nat)

  /** Every sample is a good capture, complete within 100 ms of its own moment of the two-second schedule. */
  ghost predicate TakenInTime(taken: seq<Taken>, samples: seq<Timestamp>, start: nat) {
    && |taken| == |samples|
    && forall i :: 0 <= i < |taken| ==>
         && taken[i].answer.valid && taken[i].answer.withinEnvelope && taken[i].answer.utilizationMatches
         && samples[i] == taken[i].answer.sampledAt
         && start + (i + 1) * SAMPLE_CADENCE <= taken[i].at <= start + (i + 1) * SAMPLE_CADENCE + SAMPLE_JITTER
  }

  /** Custom, then every segment up to `active` in turn, each entered within two seconds of its boundary. */
  ghost predicate Chained(transitions: seq<StateChange>, start: nat, active: nat) {
    && active < |SEGMENTS| && |transitions| == active + 2
    && transitions[0].from == FirmwareAuto && transitions[0].to == CustomControl
    && transitions[1].from == CustomControl && transitions[1].to == InSegment(0)
    && forall k :: 2 <= k < |transitions| ==>
         && transitions[k].from == InSegment(k - 2) && transitions[k].to == InSegment(k - 1)
         && start + EndOf(k - 2) <= transitions[k].at.mono <= start + EndOf(k - 2) + SEGMENT_WINDOW
  }

  lemma ScheduleBegins(transitions: seq<StateChange>, start: nat)
    requires |transitions| == 2 && transitions[0].from == FirmwareAuto && transitions[0].to == CustomControl
    requires transitions[1].from == CustomControl && transitions[1].to == InSegment(0)
    ensures Chained(transitions, start, 0) && TakenInTime([], [], start) && IsSegmentAt(0, 0)
  {
  }

  lemma ChainGrows(transitions: seq<StateChange>, start: nat, active: nat, change: StateChange)
    requires Chained(transitions, start, active) && active + 1 < |SEGMENTS|
    requires change.from == InSegment(active) && change.to == InSegment(active + 1)
    requires start + EndOf(active) <= change.at.mono <= start + EndOf(active) + SEGMENT_WINDOW
    ensures Chained(transitions + [change], start, active + 1)
  {
  }

  /** The observer answered between two readings within the deadline, after the last check by at most five seconds. */
  predicate Attended(env: EnduranceEnvironment, k: nat, waited: nat, deadline: nat, checks: seq<Timestamp>) {
    && env.observers(k + 1, waited).Some?
    && var t := env.observers(k + 1, waited).value;
    && env.Reading(k, waited).mono <= deadline && env.Reading(k + 2, waited).mono <= deadline
    && NotBefore(t, env.Reading(k, waited)) && NotBefore(env.Reading(k + 2, waited), t)
    && (checks == [] || Follows(t, checks[|checks| - 1]))
  }

  /** The last observer check lies between `since` and `now`. */
  ghost predicate Observed(checks: seq<Timestamp>, since: int, now: int, offset: int) {
    && checks != []
    && var last := checks[|checks| - 1];
    && since < last.mono < now && last.wall == last.mono + offset
  }

  /** Nothing is wrong, and nothing recorded lies in the future. */
  ghost predicate Calm(faults: seq<FaultNote>, notBefore: Timestamp, now: int) {
    faults == [] && notBefore.mono < now
  }

  class EnduranceRun {
    const workloadCommand: string
    const startedAt: Timestamp
    var samples: seq<Timestamp>
    /** What the samples were taken from, and when. */
    ghost var taken: seq<Taken>
    var transitions: seq<StateChange>
    var faults: seq<FaultNote>
    var checks: seq<Timestamp>
    var customAttempted: bool
    var activeSegment: nat
    var workloadStartedAt: Option<Timestamp>
    var notBefore: Timestamp

    constructor (workloadCommand: string, startedAt: Timestamp)
      ensures this.workloadCommand == workloadCommand && this.startedAt == startedAt
      ensures samples == [] && taken == [] && transitions == [] && faults == [] && checks == []
      ensures !customAttempted && activeSegment == 0 && workloadStartedAt.None? && notBefore == startedAt
    {
      this.workloadCommand := workloadCommand;
      this.startedAt := startedAt;
      samples, taken, transitions, faults, checks := [], [], [], [], [];
      customAttempted, activeSegment, workloadStartedAt, notBefore := false, 0, None, startedAt;
    }

    /** The run is at most `slack` behind the sample taken last. */
    ghost predicate OnTime(env: EnduranceEnvironment, slack: nat)
      reads this, env
    {
      && Calm(faults, notBefore, env.Time()) && workloadStartedAt.Some?
      && var due := workloadStartedAt.value.mono + |samples| * SAMPLE_CADENCE;
      && due <= env.Time() <= due + slack && Observed(checks, due - 50, env.Time(), env.offset)
    }

    method PushFault(at: Timestamp, code: Code)
      modifies this`faults
      ensures |faults| == |old(faults)| + 1
    {
      faults := faults + [FaultNote(at, code)];
    }

    /** A check counts only if it is fresh, in its window and within five seconds of the one before. */
    method RecordObserver(env: EnduranceEnvironment, deadline: nat) returns (ok: bool)
      requires Spaced(checks)
      modifies this`checks, env`calls
      ensures Spaced(checks)
      ensures ok <==> Attended(env, old(env.calls), env.waited, deadline, old(checks))
      ensures checks == if ok then old(checks) + [env.observers(old(env.calls) + 1, env.waited).value] else old(checks)
      ensures Healthy(env, workloadCommand) && (old(checks) == [] || Observed(old(checks), old(env.Time()) - 4_000, old(env.Time()), env.offset)) && old(env.Time()) + 10 <= deadline ==>
                && ok && Observed(checks, old(env.Time()), env.Time(), env.offset)
                && env.calls == old(env.calls) + 3 && old(env.Time()) < env.Reading(env.calls - 1, env.waited).mono < env.Time() <= old(env.Time()) + 15
    {
      if Healthy(env, workloadCommand) {
        RequestServed(env, env.calls, env.waited, workloadCommand);
      }
      hide Healthy, EnduranceEnvironment.Reading;
      var requestedAt := env.Now();
      var answer := env.ConfirmObserver();
      if answer.None? {
        return false;
      }
      var observedAt := answer.value;
      var completedAt := env.Now();
      hide Spaced;
      ok := requestedAt.mono <= deadline && completedAt.mono <= deadline
            && NotBefore(observedAt, requestedAt) && NotBefore(completedAt, observedAt)
            && (checks == []
                || (0 < observedAt.mono - checks[|checks| - 1].mono <= OBSERVER_GAP && 0 < observedAt.wall - checks[|checks| - 1].wall <= OBSERVER_GAP));
      if ok {
        SpacedExtends(checks, observedAt);
        checks := checks + [observedAt];
      }
    }

    method ConfirmShutdownObserver(env: EnduranceEnvironment)
      requires Spaced(checks)
      modifies this`checks, this`faults, this`notBefore, env`calls
      ensures Spaced(checks) && |old(faults)| <= |faults|
      ensures |faults| == |old(faults)| ==> |checks| == |old(checks)| + 1
      ensures Healthy(env, workloadCommand) && Calm(old(faults), old(notBefore), old(env.Time())) && Observed(old(checks), old(env.Time()) - 3_000, old(env.Time()), env.offset) ==>
                Calm(faults, notBefore, env.Time()) && Observed(checks, old(env.Time()), env.Time(), env.offset) && old(env.Time()) < env.Time() <= old(env.Time()) + 25
    {
      if Healthy(env, workloadCommand) {
        TimePasses(env, env.calls, 1, env.waited, workloadCommand);
        TimePasses(env, env.calls, 4, env.waited, workloadCommand);
        TimePasses(env, env.calls + 4, 1, env.waited, workloadCommand);
      }
      hide Healthy, Spaced, EnduranceEnvironment.Reading;
      var requestedAt := env.Now();
      var ok := RecordObserver(env, requestedAt.mono + OBSERVER_GAP);
      if !ok {
        PushFault(requestedAt, ObserverWithdrawn);
      }
      var now := env.Now();
      notBefore := Later(now, notBefore);
    }

    method PerformConfirmedStop(env: EnduranceEnvironment, process: Process, rung: Rung, fixedDeadline: Option<nat>)
      returns (stopped: bool, ghost answer: Option<StopAnswer>)
      modifies this`faults, this`notBefore, env`calls, env`trace
      ensures env.trace == old(env.trace) + [StopAttempt(process, rung, answer)]
      ensures stopped ==> Absent(answer, if process.Workload? then workloadCommand else SERVICE)
      ensures |old(faults)| <= |faults| && (|faults| == |old(faults)| ==> stopped)
      ensures stopped ==> answer.Some?
      ensures stopped ==>
                var requested := Later(env.Reading(old(env.calls), env.waited), old(notBefore)).mono;
                && requested <= answer.value.observedAt.mono <= requested + OBSERVER_GAP
                && (fixedDeadline.Some? ==> answer.value.observedAt.mono <= fixedDeadline.value)
      ensures Healthy(env, workloadCommand) && Calm(old(faults), old(notBefore), old(env.Time())) && (fixedDeadline.Some? ==> old(env.Time()) + 10 <= fixedDeadline.value) ==>
                stopped && Calm(faults, notBefore, env.Time()) && env.calls == old(env.calls) + 3 && old(env.Time()) < env.Time() <= old(env.Time()) + 15
    {
      if Healthy(env, workloadCommand) {
        StopServed(env, env.calls, env.waited, process, workloadCommand);
      }
      hide Healthy, Later, EnduranceEnvironment.Reading;
      var code := StopFault(process, rung);
      var requestedAt := RequestStep(env, code);
      var deadline := if fixedDeadline.Some? && fixedDeadline.value <= requestedAt.mono + OBSERVER_GAP
                      then fixedDeadline.value else requestedAt.mono + OBSERVER_GAP;
      if requestedAt.mono > deadline {
        PushFault(requestedAt, code);
      }
      var result := env.StopProcess(process, rung);
      answer := result;
      var completedAt := CompleteStep(env, requestedAt, code);
      if completedAt.mono > deadline {
        PushFault(completedAt, code);
      }
      stopped := result.Some? && !result.value.running && result.value.identity == (if process.Workload? then workloadCommand else SERVICE)
                 && requestedAt.mono <= result.value.observedAt.mono <= completedAt.mono <= deadline;
      if !stopped {
        PushFault(completedAt, code);
      }
    }

    /** The next rung, under the observer if Custom was attempted. */
    method Escalate(env: EnduranceEnvironment, process: Process, rung: Rung) returns (stopped: bool, ghost answer: Option<StopAnswer>)
      requires Spaced(checks)
      modifies this`checks, this`faults, this`notBefore, env`calls, env`trace
      ensures Spaced(checks) && env.trace == old(env.trace) + [StopAttempt(process, rung, answer)]
      ensures stopped ==> Absent(answer, if process.Workload? then workloadCommand else SERVICE)
      ensures |old(faults)| <= |faults|
    {
      hide Spaced, Absent;
      if customAttempted {
        ConfirmShutdownObserver(env);
      }
      stopped, answer := PerformConfirmedStop(env, process, rung, None);
    }

    /** Stop, then contain, then force, each only if the one before did not confirm absence. */
    method ClimbLadder(env: EnduranceEnvironment, process: Process, fixedDeadline: Option<nat>) returns (stopped: bool, ghost t: Trace)
      requires Spaced(checks)
      modifies this`checks, this`faults, this`notBefore, env`calls, env`trace
      ensures Spaced(checks) && env.trace == old(env.trace) + t
      ensures Ladder(t, process, if process.Workload? then workloadCommand else SERVICE, stopped)
      ensures |old(faults)| <= |faults| && (|faults| == |old(faults)| ==> stopped && checks == old(checks))
      ensures |faults| == |old(faults)| ==>
                |t| == 1 && t[0].StopAttempt? && t[0].stopAnswer.Some?
                && (fixedDeadline.Some? ==> t[0].stopAnswer.value.observedAt.mono <= fixedDeadline.value)
      ensures Healthy(env, workloadCommand) && Calm(old(faults), old(notBefore), old(env.Time())) && (fixedDeadline.Some? ==> old(env.Time()) + 10 <= fixedDeadline.value) ==>
                stopped && Calm(faults, notBefore, env.Time()) && old(env.Time()) < env.Time() <= old(env.Time()) + 15
    {
      hide Spaced, Absent, Ladder, Healthy;
      ghost var first, second, third;
      ghost var identity := if process.Workload? then workloadCommand else SERVICE;
      stopped, first := PerformConfirmedStop(env, process, Stop, fixedDeadline);
      t := [StopAttempt(process, Stop, first)];
      if stopped {
        LadderOfRungs(process, identity, first, None, None, 1, true);
        return;
      }
      stopped, second := Escalate(env, process, Contain);
      t := [StopAttempt(process, Stop, first), StopAttempt(process, Contain, second)];
      if stopped {
        LadderOfRungs(process, identity, first, second, None, 2, true);
        return;
      }
      stopped, third := Escalate(env, process, Force);
      t := [StopAttempt(process, Stop, first), StopAttempt(process, Contain, second), StopAttempt(process, Force, third)];
      LadderOfRungs(process, identity, first, second, third, 3, stopped);
    }

    method RestoreOne(env: EnduranceEnvironment, fan: Fan) returns (confirmed: bool, ghost answer: RestoreAnswer)
      modifies this`faults, this`notBefore, env`calls, env`trace
      ensures env.trace == old(env.trace) + [RestoreFan(fan, answer)]
      ensures confirmed <==> ShowsAuto(answer) && notBefore.mono <= Later(env.Reading(old(env.calls), env.waited), old(notBefore)).mono + RESTORATION_TIMEOUT
      ensures |old(faults)| <= |faults| && (|faults| == |old(faults)| ==> confirmed)
      ensures Healthy(env, workloadCommand) && Calm(old(faults), old(notBefore), old(env.Time())) ==> confirmed && Calm(faults, notBefore, env.Time())
    {
      if Healthy(env, workloadCommand) {
        RestoreServed(env, env.calls, env.waited, workloadCommand);
      }
      hide Healthy, Later, EnduranceEnvironment.Reading;
      var requestedAt := RequestStep(env, Restoration);
      var deadline := requestedAt.mono + RESTORATION_TIMEOUT;
      var result := env.RestoreOneFan(fan);
      answer := result;
      var completedAt := CompleteStep(env, requestedAt, Restoration);
      confirmed := result.autoWritten && result.enable == Some(2) && result.autoOutcome && result.trusted && completedAt.mono <= deadline;
      if !confirmed {
        PushFault(completedAt, AutoUnconfirmed);
      }
    }

    /** Containment is never a success of the run: it always leaves a fault. */
    method ContainOne(env: EnduranceEnvironment, fan: Fan) returns (confirmed: bool, ghost answer: ContainAnswer)
      modifies this`faults, this`notBefore, env`calls, env`trace
      ensures env.trace == old(env.trace) + [ContainFan(fan, answer)]
      ensures confirmed <==> answer.enable == Some(1) && answer.pwm == Some(255) && answer.pwmWritten && answer.maximumOutcome && answer.trusted
                             && notBefore.mono <= Later(env.Reading(old(env.calls), env.waited), old(notBefore)).mono + RESTORATION_TIMEOUT
      ensures |faults| > |old(faults)|
    {
      var observedAt := env.Now();
      var requestedAt := Later(observedAt, notBefore);
      var deadline := requestedAt.mono + RESTORATION_TIMEOUT;
      var result := env.ContainOneFan(fan);
      answer := result;
      var observedCompletedAt := env.Now();
      var completedAt := Later(observedCompletedAt, requestedAt);
      confirmed := result.maximumOutcome && result.enable == Some(1) && result.pwmWritten && result.pwm == Some(255)
                   && result.trusted && completedAt.mono <= deadline;
      PushFault(completedAt, AutoUnconfirmed);
      notBefore := completedAt;
    }

    /** Restores both fans if allowed to, and contains both at maximum unless both are seen in Auto. */
    method Close(env: EnduranceEnvironment, mayRestore: bool) returns (auto: bool, contained: bool, ghost t: Trace)
      modifies this`faults, this`notBefore, env`calls, env`trace
      ensures env.trace == old(env.trace) + t && Closing(t, mayRestore)
      ensures auto ==> mayRestore && IsRestorePair(t)
      ensures |old(faults)| <= |faults| && (|faults| == |old(faults)| ==> auto)
      ensures Healthy(env, workloadCommand) && Calm(old(faults), old(notBefore), old(env.Time())) && mayRestore ==> auto && Calm(faults, notBefore, env.Time())
    {
      hide Healthy;
      auto, contained, t := false, false, [];
      if mayRestore {
        var cpu, cpuAnswer := RestoreOne(env, Cpu);
        var gpu, gpuAnswer := RestoreOne(env, Gpu);
        auto := cpu && gpu;
        t := [RestoreFan(Cpu, cpuAnswer), RestoreFan(Gpu, gpuAnswer)];
      }
      if !auto {
        ghost var tried := t;
        var cpu, cpuAnswer := ContainOne(env, Cpu);
        var gpu, gpuAnswer := ContainOne(env, Gpu);
        contained := cpu && gpu;
        ghost var pair := [ContainFan(Cpu, cpuAnswer), ContainFan(Gpu, gpuAnswer)];
        t := tried + pair;
        assert IsContainPair(pair);
        assert mayRestore ==> t[..2] == tried && t[2..] == pair;
        assert !mayRestore ==> t == pair;
      }
    }

    // -------------------------------------------------------------- up to the workload

    method CaptureStart(env: EnduranceEnvironment)
      modifies this`faults, this`notBefore, env`calls
      ensures faults == [] ==>
                && env.starts(old(env.calls), env.waited).Some?
                && var start := env.starts(old(env.calls), env.waited).value;
                && start.acceptable && startedAt.mono <= start.capturedAt.mono <= notBefore.mono <= startedAt.mono + OPERATION_TIMEOUT
      ensures Healthy(env, workloadCommand) && old(faults) == [] && old(notBefore) == startedAt && old(env.calls) > 0
              && startedAt == env.Reading(old(env.calls) - 1, env.waited) ==>
                Calm(faults, notBefore, env.Time()) && env.calls == old(env.calls) + 2
    {
      if Healthy(env, workloadCommand) && env.calls > 0 {
        RequestServed(env, env.calls - 1, env.waited, workloadCommand);
      }
      hide Healthy, EnduranceEnvironment.Reading;
      var deadline := startedAt.mono + OPERATION_TIMEOUT;
      var result := env.CaptureStartingConditions();
      var completedAt := env.Now();
      if completedAt.mono < notBefore.mono || completedAt.mono > deadline {
        PushFault(Later(completedAt, notBefore), StartingConditions);
      }
      if result.None? || !result.value.acceptable || !(startedAt.mono <= result.value.capturedAt.mono <= completedAt.mono) {
        PushFault(completedAt, StartingConditions);
      }
      notBefore := Later(completedAt, notBefore);
    }

    /** The request time of a supervised step; a clock that went back is a fault. */
    method RequestStep(env: EnduranceEnvironment, code: Code) returns (requestedAt: Timestamp)
      modifies this`faults, env`calls
      ensures env.calls == old(env.calls) + 1 && requestedAt == Later(env.Reading(old(env.calls), env.waited), notBefore)
      ensures if env.Reading(old(env.calls), env.waited).mono < notBefore.mono then |faults| == |old(faults)| + 1 else faults == old(faults)
    {
      var observedAt := env.Now();
      if observedAt.mono < notBefore.mono {
        PushFault(notBefore, code);
      }
      requestedAt := Later(observedAt, notBefore);
    }

    /** The completion time of a supervised step. */
    method CompleteStep(env: EnduranceEnvironment, requestedAt: Timestamp, code: Code) returns (completedAt: Timestamp)
      modifies this`faults, this`notBefore, env`calls
      ensures env.calls == old(env.calls) + 1 && completedAt == Later(env.Reading(old(env.calls), env.waited), requestedAt) && notBefore == completedAt
      ensures if env.Reading(old(env.calls), env.waited).mono < requestedAt.mono then |faults| == |old(faults)| + 1 else faults == old(faults)
    {
      var observedAt := env.Now();
      if observedAt.mono < requestedAt.mono {
        PushFault(requestedAt, code);
      }
      completedAt := Later(observedAt, requestedAt);
      notBefore := completedAt;
    }

    /** A request that is made only under the observer. */
    method RequestSupervised(env: EnduranceEnvironment, code: Code) returns (requestedAt: Timestamp, deadline: nat, ok: bool)
      requires faults == [] && Spaced(checks)
      modifies this`faults, this`checks, env`calls
      ensures Spaced(checks) && requestedAt.mono >= notBefore.mono && deadline == requestedAt.mono + OBSERVER_GAP
      ensures if ok then |checks| == |old(checks)| + 1 && faults == [] else checks == old(checks)
      ensures faults == [] || |faults| == 1
      ensures Healthy(env, workloadCommand) && Calm(old(faults), old(notBefore), old(env.Time())) && (old(checks) == [] || Observed(old(checks), old(env.Time()) - 3_000, old(env.Time()), env.offset)) ==>
                && ok && faults == [] && requestedAt.mono == old(env.Time()) && Observed(checks, old(env.Time()), env.Time(), env.offset)
                && env.calls > 0 && old(env.Time()) < env.Reading(env.calls - 1, env.waited).mono && env.Time() <= old(env.Time()) + 20
    {
      if Healthy(env, workloadCommand) {
        TimePasses(env, env.calls, 1, env.waited, workloadCommand);
        TimePasses(env, env.calls, 3, env.waited, workloadCommand);
        TimePasses(env, env.calls + 3, 1, env.waited, workloadCommand);
      }
      hide Spaced, Healthy, Later, EnduranceEnvironment.Reading;
      requestedAt := RequestStep(env, code);
      deadline, ok := requestedAt.mono + OBSERVER_GAP, false;
      if faults == [] {
        ok := RecordObserver(env, deadline);
      }
    }

    method EnterCustomControl(env: EnduranceEnvironment)
      requires faults == [] && !customAttempted && Spaced(checks)
      modifies this, env`calls, env`trace
      ensures Spaced(checks) && samples == old(samples) && taken == old(taken) && activeSegment == old(activeSegment)
      ensures env.trace == old(env.trace) + (if customAttempted then [EnterCustom] else [])
      ensures faults == [] ==>
                && customAttempted && |checks| == |old(checks)| + 1 && |transitions| == |old(transitions)| + 1
                && old(transitions) <= transitions && transitions[|old(transitions)|].from == FirmwareAuto && transitions[|old(transitions)|].to == CustomControl
                && env.calls > 1 && env.entries(env.calls - 2)
      ensures Healthy(env, workloadCommand) && Calm(old(faults), old(notBefore), old(env.Time())) && old(checks) == [] ==>
                Calm(faults, notBefore, env.Time()) && Observed(checks, old(env.Time()), env.Time(), env.offset) && env.Time() <= old(env.Time()) + 30
    {
      hide Spaced, Healthy, Later, EnduranceEnvironment.Reading;
      var requestedAt, deadline, ok := RequestSupervised(env, CustomEntry);
      if faults != [] { return; }
      if Healthy(env, workloadCommand) && env.calls > 0 {
        ActionServed(env, env.calls, env.waited, workloadCommand);
      }
      if ok {
        customAttempted := true;
        ok := env.EnterCustomControl();
      }
      var completedAt := CompleteStep(env, requestedAt, CustomEntry);
      FinishEntry(completedAt, deadline, ok);
    }

    method FinishEntry(completedAt: Timestamp, deadline: nat, ok: bool)
      modifies this`faults, this`transitions
      ensures |old(faults)| <= |faults| && (|faults| == |old(faults)| <==> ok && completedAt.mono <= deadline)
      ensures |faults| == |old(faults)| ==> faults == old(faults)
      ensures transitions == if faults == [] then old(transitions) + [StateChange(completedAt, FirmwareAuto, CustomControl)] else old(transitions)
    {
      if completedAt.mono > deadline {
        PushFault(completedAt, CustomEntry);
      }
      if !ok {
        PushFault(completedAt, CustomEntry);
      } else if faults == [] {
        transitions := transitions + [StateChange(completedAt, FirmwareAuto, CustomControl)];
      }
    }

    method BeginInitialSegment(env: EnduranceEnvironment)
      requires faults == [] && Spaced(checks)
      modifies this`checks, this`transitions, this`faults, this`notBefore, env`calls, env`trace
      ensures Spaced(checks) && Worked(old(env.trace), env.trace)
      ensures faults == [] ==>
                && |checks| == |old(checks)| + 1 && |transitions| == |old(transitions)| + 1
                && old(transitions) <= transitions && transitions[|old(transitions)|].from == CustomControl && transitions[|old(transitions)|].to == InSegment(0)
                && env.calls > 1 && env.segments(env.calls - 2, env.waited).Some? && env.segments(env.calls - 2, env.waited).value.matches
      ensures Healthy(env, workloadCommand) && Calm(old(faults), old(notBefore), old(env.Time())) && Observed(old(checks), old(env.Time()) - 3_000, old(env.Time()), env.offset) ==>
                Calm(faults, notBefore, env.Time()) && Observed(checks, old(env.Time()), env.Time(), env.offset) && env.Time() <= old(env.Time()) + 30
    {
      hide Spaced, Healthy, Later, EnduranceEnvironment.Reading;
      var requestedAt, deadline, ok := RequestSupervised(env, SegmentFault);
      if faults != [] { return; }
      if Healthy(env, workloadCommand) && env.calls > 0 {
        ActionServed(env, env.calls, env.waited, workloadCommand);
      }
      var answer := None;
      if ok {
        answer := env.BeginEnduranceSegment(0);
      }
      var completedAt := CompleteStep(env, requestedAt, SegmentFault);
      if answer.Some? && faults == [] && answer.value.matches
         && requestedAt.mono <= answer.value.observedAt.mono <= completedAt.mono <= deadline {
        transitions := transitions + [StateChange(answer.value.observedAt, CustomControl, InSegment(0))];
      } else {
        PushFault(completedAt, SegmentFault);
      }
    }

    method StartWorkloadStep(env: EnduranceEnvironment)
      requires faults == [] && Spaced(checks)
      modifies this`checks, this`workloadStartedAt, this`faults, this`notBefore, env`calls, env`trace
      ensures Spaced(checks) && Worked(old(env.trace), env.trace)
      ensures faults == [] ==> workloadStartedAt.Some? && |checks| == |old(checks)| + 1
      ensures Healthy(env, workloadCommand) && Calm(old(faults), old(notBefore), old(env.Time())) && Observed(old(checks), old(env.Time()) - 3_000, old(env.Time()), env.offset) ==>
                && Calm(faults, notBefore, env.Time()) && Observed(checks, old(env.Time()), env.Time(), env.offset) && env.Time() <= old(env.Time()) + 30
                && workloadStartedAt.Some? && old(env.Time()) < workloadStartedAt.value.mono < env.Time()
    {
      hide Spaced, Healthy, Later, EnduranceEnvironment.Reading;
      var requestedAt, deadline, ok := RequestSupervised(env, WorkloadStart);
      if faults != [] { return; }
      if Healthy(env, workloadCommand) && env.calls > 0 {
        ActionServed(env, env.calls, env.waited, workloadCommand);
      }
      var answer := None;
      if ok {
        answer := env.StartMixedWorkload();
      }
      var completedAt := CompleteStep(env, requestedAt, WorkloadStart);
      if answer.Some? && faults == [] && requestedAt.mono <= answer.value.mono <= completedAt.mono <= deadline {
        workloadStartedAt := answer;
      } else {
        PushFault(completedAt, WorkloadStart);
      }
    }

    /** Everything up to the running workload, each step only if all before it succeeded. */
    method Prepare(env: EnduranceEnvironment)
      requires samples == [] && taken == [] && transitions == [] && faults == [] && checks == [] && !customAttempted && activeSegment == 0
      modifies this, env`calls, env`trace
      ensures Spaced(checks) && Began(old(env.trace), env.trace, customAttempted)
      ensures faults == [] ==> OnSchedule()
      ensures Healthy(env, workloadCommand) && old(notBefore) == startedAt && old(env.calls) > 0
              && startedAt == env.Reading(old(env.calls) - 1, env.waited) ==>
                OnTime(env, 50)
    {
      assert Spaced(checks);
      hide Spaced, Healthy, Chained, TakenInTime, IsSegmentAt, EnduranceEnvironment.Reading;
      CaptureStart(env);
      if faults == [] {
        EnterCustomControl(env);
        if faults == [] {
          BeginWorking(env);
        }
      }
    }

    /** The first segment, then the workload. */
    method BeginWorking(env: EnduranceEnvironment)
      requires faults == [] && Spaced(checks) && |checks| == 1 && |transitions| == 1 && samples == [] && taken == []
      requires transitions[0].from == FirmwareAuto && transitions[0].to == CustomControl && customAttempted && activeSegment == 0
      modifies this`checks, this`transitions, this`workloadStartedAt, this`faults, this`notBefore, env`calls, env`trace
      ensures Spaced(checks) && Worked(old(env.trace), env.trace)
      ensures faults == [] ==> OnSchedule()
      ensures Healthy(env, workloadCommand) && Calm(old(faults), old(notBefore), old(env.Time()))
              && Observed(old(checks), old(env.Time()) - 3_000, old(env.Time()), env.offset) ==>
                OnTime(env, 50)
    {
      hide Spaced, Healthy, Chained, TakenInTime, IsSegmentAt, EnduranceEnvironment.Reading;
      BeginInitialSegment(env);
      ghost var segmented := env.trace;
      if faults == [] {
        StartWorkloadStep(env);
        WorkedTrans(old(env.trace), segmented, env.trace);
        if faults == [] {
          ScheduleBegins(transitions, workloadStartedAt.value.mono);
        }
      }
    }

    // -------------------------------------------------------------- sampling

    /** Begins a segment under the observer. */
    method BeginObserved(env: EnduranceEnvironment, next: nat, deadline: nat) returns (answer: Option<SegmentAnswer>, completedAt: Timestamp)
      requires Spaced(checks)
      modifies this`checks, env`calls, env`trace
      ensures Spaced(checks) && env.trace == old(env.trace) + (if |checks| > |old(checks)| then [BeginSegment(next)] else [])
      ensures |checks| <= |old(checks)| + 1 && (answer.Some? ==> |checks| == |old(checks)| + 1)
      ensures answer.Some? ==> env.calls > 1 && answer == env.segments(env.calls - 2, env.waited)
      ensures Healthy(env, workloadCommand) && Observed(old(checks), old(env.Time()) - 3_000, old(env.Time()), env.offset) && old(env.Time()) + 10 <= deadline ==>
                && answer.Some? && answer.value.matches && old(env.Time()) < answer.value.observedAt.mono <= completedAt.mono <= old(env.Time()) + 20
                && completedAt.mono < env.Time() <= completedAt.mono + 5 && Observed(checks, old(env.Time()), env.Time(), env.offset)
    {
      hide Spaced, Healthy, Attended, EnduranceEnvironment.Reading;
      var ok := RecordObserver(env, deadline);
      if Healthy(env, workloadCommand) && env.calls > 0 {
        ActionServed(env, env.calls, env.waited, workloadCommand);
      }
      answer := None;
      if ok {
        answer := env.BeginEnduranceSegment(next);
      }
      completedAt := env.Now();
    }

    /** Moves to the next segment inside its window; any failure leaves a fault. */
    method ChangeSegment(env: EnduranceEnvironment, next: nat)
      requires faults == [] && Spaced(checks) && workloadStartedAt.Some? && 0 < next < |SEGMENTS|
      modifies this`checks, this`transitions, this`activeSegment, this`faults, this`notBefore, env`calls, env`trace
      ensures Spaced(checks) && Worked(old(env.trace), env.trace)
      ensures faults == [] ==> activeSegment == next && |checks| == |old(checks)| + 1 && |transitions| == |old(transitions)| + 1
      ensures faults == [] ==> env.calls > 1 && env.segments(env.calls - 2, env.waited).Some? && env.segments(env.calls - 2, env.waited).value.matches
      ensures faults == [] ==>
                var change := transitions[|old(transitions)|];
                && transitions == old(transitions) + [change] && change.from == InSegment(old(activeSegment)) && change.to == InSegment(next)
                && workloadStartedAt.value.mono + EndOf(next - 1) <= change.at.mono <= workloadStartedAt.value.mono + EndOf(next - 1) + SEGMENT_WINDOW
      ensures Healthy(env, workloadCommand) && old(OnTime(env, 50)) && EndOf(next - 1) == |samples| * SAMPLE_CADENCE ==> OnTime(env, 80)
    {
      if Healthy(env, workloadCommand) {
        TimePasses(env, env.calls, 1, env.waited, workloadCommand);
      }
      hide Spaced, Healthy, Later, EndOf, EnduranceEnvironment.Reading;
      var boundary := workloadStartedAt.value.mono + EndOf(next - 1);
      var deadline := boundary + SEGMENT_WINDOW;
      var requestedAt := env.Now();
      if requestedAt.mono < notBefore.mono || requestedAt.mono > deadline {
        PushFault(Later(requestedAt, notBefore), SegmentFault);
        return;
      }
      var answer, completedAt := BeginObserved(env, next, deadline);
      if answer.Some? && answer.value.matches && boundary <= answer.value.observedAt.mono
         && requestedAt.mono <= answer.value.observedAt.mono <= completedAt.mono <= deadline {
        transitions := transitions + [StateChange(answer.value.observedAt, InSegment(activeSegment), InSegment(next))];
        activeSegment := next;
      } else {
        PushFault(completedAt, SegmentFault);
      }
      notBefore := completedAt;
    }

    /** Waits for the slot of the next sample. */
    method AwaitSlot(env: EnduranceEnvironment, expected: nat, deadline: nat) returns (ok: bool, waitCompletedAt: Timestamp)
      requires faults == []
      modifies this`faults, this`notBefore, env`calls, env`waited
      ensures if ok then faults == [] && expected <= waitCompletedAt.mono <= deadline && notBefore == Later(waitCompletedAt, old(notBefore)) else faults != []
      ensures Healthy(env, workloadCommand) && old(env.Time()) <= expected && expected + 20 <= deadline ==>
                ok && waitCompletedAt.mono <= expected + 20 && waitCompletedAt.mono < env.Time() <= waitCompletedAt.mono + 5
    {
      if Healthy(env, workloadCommand) && env.Time() <= expected {
        SlotServed(env, env.calls, env.waited, expected, workloadCommand);
      }
      hide Healthy, EnduranceEnvironment.Reading;
      ok := false;
      waitCompletedAt := env.Now();
      var waited := false;
      if waitCompletedAt.mono <= deadline {
        waited := env.WaitUntil(expected);
      }
      if !waited {
        PushFault(waitCompletedAt, SampleCadence);
        return;
      }
      waitCompletedAt := env.Now();
      if !(expected <= waitCompletedAt.mono <= deadline) {
        PushFault(waitCompletedAt, SampleCadence);
        return;
      }
      notBefore := Later(waitCompletedAt, notBefore);
      ok := true;
    }

    /** Captures and checks one sample in its slot. */
    method CaptureInSlot(env: EnduranceEnvironment, waitCompletedAt: Timestamp, deadline: nat)
      requires faults == []
      modifies this`samples, this`taken, this`faults, this`notBefore, env`calls
      ensures faults == [] ==>
                && |taken| == |old(taken)| + 1 && taken == old(taken) + [taken[|old(taken)|]] && samples == old(samples) + [taken[|old(taken)|].answer.sampledAt]
                && GoodCapture(Some(taken[|old(taken)|].answer)) && env.captures(old(env.calls)) == Some(taken[|old(taken)|].answer)
                && waitCompletedAt.mono <= taken[|old(taken)|].at <= deadline
      ensures Healthy(env, workloadCommand) && old(env.calls) > 0 && waitCompletedAt.mono < old(env.Time()) && old(env.Time()) + 5 <= deadline
              && old(notBefore).mono < old(env.Time()) ==>
                Calm(faults, notBefore, env.Time()) && old(env.Time()) < env.Time() <= old(env.Time()) + 10
    {
      if Healthy(env, workloadCommand) && env.calls > 0 {
        CaptureServed(env, env.calls, env.waited, workloadCommand);
      }
      hide Healthy, Later, EnduranceEnvironment.Reading;
      var answer := env.CaptureObservation();
      var capturedAt := env.Now();
      if answer.None? {
        PushFault(capturedAt, InvalidTelemetry);
        return;
      }
      if !(waitCompletedAt.mono <= capturedAt.mono <= deadline) {
        PushFault(Later(capturedAt, waitCompletedAt), SampleCadence);
        return;
      }
      if !answer.value.utilizationMatches {
        PushFault(capturedAt, SegmentFault);
        return;
      }
      if !answer.value.valid {
        PushFault(capturedAt, InvalidTelemetry);
      }
      samples := samples + [answer.value.sampledAt];
      taken := taken + [Taken(answer.value, capturedAt.mono)];
      notBefore := Later(capturedAt, notBefore);
      if !answer.value.withinEnvelope {
        PushFault(capturedAt, EnvelopeAbort);
      }
    }

    /** Waits for the slot, confirms the observer, captures and checks one sample. */
    method CaptureSample(env: EnduranceEnvironment)
      requires faults == [] && Spaced(checks) && workloadStartedAt.Some?
      modifies this`checks, this`samples, this`taken, this`faults, this`notBefore, env`calls, env`waited
      ensures Spaced(checks)
      ensures faults == [] ==> |samples| == |old(samples)| + 1 && |checks| == |old(checks)| + 1
      ensures faults == [] && TakenInTime(old(taken), old(samples), workloadStartedAt.value.mono) ==>
                TakenInTime(taken, samples, workloadStartedAt.value.mono)
      ensures Healthy(env, workloadCommand) && old(OnTime(env, 80)) ==> OnTime(env, 50)
    {
      hide Spaced, Healthy, Later, EnduranceEnvironment.Reading;
      var expected := workloadStartedAt.value.mono + (|samples| + 1) * SAMPLE_CADENCE;
      var deadline := expected + SAMPLE_JITTER;
      var slot, waitCompletedAt := AwaitSlot(env, expected, deadline);
      if !slot {
        return;
      }
      var ok := RecordObserver(env, deadline);
      if !ok {
        PushFault(waitCompletedAt, ObserverWithdrawn);
        return;
      }
      CaptureInSlot(env, waitCompletedAt, deadline);
    }

    /** As long as there is no fault, the evidence adds up and the segment is the one the schedule asks for. */
    ghost predicate OnSchedule()
      reads this
    {
      && customAttempted && workloadStartedAt.Some? && |samples| <= SAMPLE_COUNT
      && |checks| == |samples| + |transitions| + 1 && |transitions| == activeSegment + 2
      && IsSegmentAt(|samples| * SAMPLE_CADENCE, activeSegment)
      && TakenInTime(taken, samples, workloadStartedAt.value.mono) && Chained(transitions, workloadStartedAt.value.mono, activeSegment)
    }

    lemma SlackGrows(env: EnduranceEnvironment)
      ensures OnTime(env, 50) ==> OnTime(env, 80)
    {
    }

    lemma TimelyIsClean(env: EnduranceEnvironment)
      ensures OnTime(env, 50) || OnTime(env, 80) ==> faults == []
    {
    }

    method TakeSamples(env: EnduranceEnvironment)
      requires Spaced(checks) && (faults == [] ==> OnSchedule())
      modifies this`checks, this`transitions, this`activeSegment, this`samples, this`taken, this`faults, this`notBefore, env
      ensures Spaced(checks) && Worked(old(env.trace), env.trace)
      ensures faults == [] ==> OnSchedule() && |samples| == SAMPLE_COUNT
      ensures Healthy(env, workloadCommand) && old(OnTime(env, 50)) ==> OnTime(env, 50)
    {
      hide Spaced, IsSegmentAt, Healthy, EnduranceEnvironment.Reading, EndOf, EnduranceRun.OnTime, TakenInTime, Chained;
      while faults == [] && |samples| < SAMPLE_COUNT
        invariant Spaced(checks) && Worked(old(env.trace), env.trace) && (faults == [] ==> OnSchedule())
        invariant Healthy(env, workloadCommand) && old(OnTime(env, 50)) ==> OnTime(env, 50)
        decreases faults == [], SAMPLE_COUNT - |samples|
      {
        var expectedSegment := SegmentIndexAtElapsed((|samples| + 1) * SAMPLE_CADENCE);
        OneBoundaryAtATime(|samples|, activeSegment, expectedSegment);
        if expectedSegment != activeSegment {
          assert expectedSegment < |SEGMENTS| by { SegmentInRange((|samples| + 1) * SAMPLE_CADENCE, expectedSegment); }
          ghost var heard, chain := env.trace, transitions;
          ChangeSegment(env, expectedSegment);
          WorkedTrans(old(env.trace), heard, env.trace);
          if faults == [] {
            ChainGrows(chain, workloadStartedAt.value.mono, expectedSegment - 1, transitions[|chain|]);
          }
        }
        if faults == [] {
          SlackGrows(env);
          CaptureSample(env);
        }
        TimelyIsClean(env);
      }
    }

    /** The run up to its shutdown. */
    method Work(env: EnduranceEnvironment) returns (ghost work: Trace)
      requires samples == [] && taken == [] && transitions == [] && faults == [] && checks == [] && !customAttempted && activeSegment == 0
      modifies this, env
      ensures Spaced(checks) && env.trace == old(env.trace) + work
      ensures (forall k :: 0 <= k < |work| ==> IsWork(work[k])) && (customAttempted <==> EnterCustom in work)
      ensures faults == [] ==>
                && customAttempted && |samples| == SAMPLE_COUNT && |transitions| == |SEGMENTS| + 1
                && |checks| == |samples| + |transitions| + 1
                && workloadStartedAt.Some? && TakenInTime(taken, samples, workloadStartedAt.value.mono)
                && Chained(transitions, workloadStartedAt.value.mono, |SEGMENTS| - 1)
                && env.calls > 0 && env.verdicts(env.calls - 1)
      ensures Healthy(env, workloadCommand) && old(notBefore) == startedAt && old(env.calls) > 0
              && startedAt == env.Reading(old(env.calls) - 1, old(env.waited)) ==>
                OnTime(env, 55) && faults == []
    {
      hide Spaced, IsSegmentAt, Began, Worked, EnduranceEnvironment.Reading, Healthy, TakenInTime, Chained;
      ghost var begun := env.trace;
      Prepare(env);
      ghost var prepared := env.trace;
      TakeSamples(env);
      BeganThenWorked(begun, prepared, env.trace, customAttempted);
      work := env.trace[|begun|..];
      if faults == [] {
        LastSampleIsInLastSegment(activeSegment);
        if Healthy(env, workloadCommand) {
          QuietCall(env, env.calls, env.waited, workloadCommand);
        }
        var settled := env.Verdict();
        if !settled {
          PushFault(notBefore, FeedbackLoss);
        }
      }
    }

    method Conclude(env: EnduranceEnvironment, workloadStopped: bool, serviceStopped: bool, auto: bool) returns (accepted: bool)
      modifies this`faults, env`calls
      ensures accepted <==> faults == [] && |samples| == SAMPLE_COUNT && workloadStopped && serviceStopped && auto
      ensures |old(faults)| <= |faults| && (accepted ==> env.verdicts(old(env.calls)))
      ensures Healthy(env, workloadCommand) && Calm(old(faults), old(notBefore), old(env.Time())) ==> faults == []
    {
      if Healthy(env, workloadCommand) {
        QuietCall(env, env.calls, env.waited, workloadCommand);
      }
      hide Healthy, EnduranceEnvironment.Reading;
      if faults == [] {
        var within := env.Verdict();
        if !within {
          PushFault(notBefore, EnvelopeAbort);
        }
      }
      var completedAt := env.Now();
      if completedAt.mono < notBefore.mono {
        PushFault(notBefore, Completion);
      }
      accepted := faults == [] && |samples| == SAMPLE_COUNT && workloadStopped && serviceStopped && auto;
    }

    // -------------------------------------------------------------- shutdown

    /** The stop of a complete run is due at its scheduled end. */
    method CheckStopSchedule() returns (deadline: Option<nat>)
      modifies this`faults
      ensures |old(faults)| <= |faults|
      ensures workloadStartedAt.Some? && notBefore.mono <= workloadStartedAt.value.mono + RUN_DURATION + SAMPLE_JITTER ==>
                faults == old(faults) && (deadline.None? || deadline.value == workloadStartedAt.value.mono + RUN_DURATION + OPERATION_TIMEOUT)
      ensures |samples| == SAMPLE_COUNT && workloadStartedAt.Some? ==>
                && deadline == Some(workloadStartedAt.value.mono + RUN_DURATION + OPERATION_TIMEOUT)
                && (|faults| == |old(faults)| ==> notBefore.mono <= workloadStartedAt.value.mono + RUN_DURATION + SAMPLE_JITTER)
    {
      deadline := None;
      if |samples| == SAMPLE_COUNT && workloadStartedAt.Some? {
        var endpoint := workloadStartedAt.value.mono + RUN_DURATION;
        deadline := Some(endpoint + OPERATION_TIMEOUT);
        if notBefore.mono > endpoint + SAMPLE_JITTER {
          PushFault(notBefore, StopFault(Workload, Stop));
        }
      }
    }

    method StopWorkload(env: EnduranceEnvironment) returns (stopped: bool, ghost t: Trace)
      requires Spaced(checks)
      modifies this`checks, this`faults, this`notBefore, env`calls, env`trace
      ensures Spaced(checks) && env.trace == old(env.trace) + t && Ladder(t, Workload, workloadCommand, stopped)
      ensures |old(faults)| <= |faults|
      ensures |faults| == |old(faults)| ==> stopped && (customAttempted ==> |checks| == |old(checks)| + 2)
      ensures |faults| == |old(faults)| && |samples| == SAMPLE_COUNT && workloadStartedAt.Some? ==> StoppedInTime(t, workloadStartedAt.value.mono)
      ensures Healthy(env, workloadCommand) && old(OnTime(env, 55)) && |samples| == SAMPLE_COUNT && customAttempted ==>
                stopped && Calm(faults, notBefore, env.Time()) && Observed(checks, env.Time() - 3_000, env.Time(), env.offset)
    {
      hide Spaced, Ladder, Healthy, EnduranceEnvironment.Reading;
      if customAttempted {
        ConfirmShutdownObserver(env);
      }
      var deadline := CheckStopSchedule();
      stopped, t := ClimbLadder(env, Workload, deadline);
      if customAttempted && stopped {
        ConfirmShutdownObserver(env);
      }
    }

    method StopService(env: EnduranceEnvironment) returns (stopped: bool, ghost t: Trace)
      requires Spaced(checks) && customAttempted
      modifies this`checks, this`faults, this`notBefore, env`calls, env`trace
      ensures Spaced(checks) && env.trace == old(env.trace) + t && Ladder(t, Service, SERVICE, stopped)
      ensures |old(faults)| <= |faults|
      ensures |faults| == |old(faults)| ==> stopped && |checks| == |old(checks)| + 2
      ensures Healthy(env, workloadCommand) && Calm(old(faults), old(notBefore), old(env.Time())) && Observed(old(checks), old(env.Time()) - 3_000, old(env.Time()), env.offset) ==> stopped && Calm(faults, notBefore, env.Time())
    {
      hide Spaced, Ladder, Healthy, EnduranceEnvironment.Reading;
      ConfirmShutdownObserver(env);
      stopped, t := ClimbLadder(env, Service, None);
      if stopped {
        ConfirmShutdownObserver(env);
      }
    }

    /** The shutdown, climbed in full whatever happened before it. */
    method ShutDown(env: EnduranceEnvironment) returns (auto: bool, workloadStopped: bool, serviceStopped: bool, ghost c: ShutdownCalls)
      requires Spaced(checks)
      modifies this`checks, this`transitions, this`faults, this`notBefore, env`calls, env`trace
      ensures Spaced(checks) && env.trace == old(env.trace) + Calls(c) && WellOrdered(c, workloadCommand, customAttempted)
      ensures workloadStopped == c.workloadStopped && serviceStopped == c.serviceStopped
      ensures auto ==> workloadStopped && serviceStopped && IsRestorePair(c.closing)
      ensures |old(faults)| <= |faults|
      ensures |faults| == |old(faults)| ==> auto
      ensures |faults| == |old(faults)| && customAttempted ==>
                |checks| == |old(checks)| + 4 && |transitions| == |old(transitions)| + 1
      ensures |faults| == |old(faults)| && customAttempted && old(transitions) != [] ==>
                && transitions[..|old(transitions)|] == old(transitions) && transitions[|old(transitions)|].from == old(transitions)[|old(transitions)| - 1].to
                && transitions[|old(transitions)|].to == FirmwareAuto
      ensures |faults| == |old(faults)| && |samples| == SAMPLE_COUNT && workloadStartedAt.Some? ==> StoppedInTime(c.workload, workloadStartedAt.value.mono)
      ensures Healthy(env, workloadCommand) && old(OnTime(env, 55)) && |samples| == SAMPLE_COUNT && customAttempted ==> auto && Calm(faults, notBefore, env.Time())
    {
      hide Spaced, Ladder, Closing, IsRestorePair, StoppedInTime, Healthy, EnduranceEnvironment.Reading, EnduranceRun.OnTime;
      ghost var begun := env.trace;
      ghost var workload;
      workloadStopped, workload := StopWorkload(env);
      serviceStopped := !customAttempted;
      ghost var service: Trace := [];
      if customAttempted {
        serviceStopped, service := StopService(env);
      }
      var contained;
      ghost var closing;
      auto, contained, closing := Close(env, workloadStopped && serviceStopped);
      c := ShutdownCalls(workload, workloadStopped, service, serviceStopped, closing);
      assert env.trace == begun + Calls(c);
      if customAttempted {
        var from := if transitions == [] then CustomControl else transitions[|transitions| - 1].to;
        var to := if auto then FirmwareAuto else if contained then MaximumContainment else RestorationFailed;
        transitions := transitions + [StateChange(notBefore, from, to)];
      }
    }

    /** Work, shutdown and verdict of a new run. */
    method Complete(env: EnduranceEnvironment) returns (accepted: bool, ghost work: Trace, ghost c: ShutdownCalls)
      requires samples == [] && taken == [] && transitions == [] && faults == [] && checks == [] && !customAttempted && activeSegment == 0
      modifies this, env
      ensures env.trace == old(env.trace) + (work + Calls(c)) && WellOrdered(c, workloadCommand, customAttempted)
      ensures (forall k :: 0 <= k < |work| ==> IsWork(work[k])) && (customAttempted <==> EnterCustom in work)
      ensures accepted <==> faults == []
      ensures Healthy(env, workloadCommand) && old(notBefore) == startedAt && old(env.calls) > 0
              && startedAt == env.Reading(old(env.calls) - 1, old(env.waited)) ==>
                accepted
      ensures accepted ==> c.workloadStopped && c.serviceStopped && IsRestorePair(c.closing)
      ensures accepted ==> |samples| == SAMPLE_COUNT && |transitions| == |SEGMENTS| + 2
      ensures accepted ==> |checks| == |samples| + |transitions| + 4 && Spaced(checks)
      ensures accepted ==> Supported(c)
    {
      hide Spaced, Healthy, IsRestorePair, WellOrdered, Calls, IsWork, EnduranceEnvironment.Reading, EnduranceRun.OnTime;
      hide TakenInTime, StoppedInTime, Chained;
      ghost var begun := env.trace;
      work := Work(env);
      var auto, workloadStopped, serviceStopped;
      auto, workloadStopped, serviceStopped, c := ShutDown(env);
      Reassociate(begun, work, Calls(c));
      ChainIsLong(if workloadStartedAt.Some? then workloadStartedAt.value.mono else 0);
      accepted := Conclude(env, workloadStopped, serviceStopped, auto);
    }

    lemma ChainIsLong(start: nat)
      ensures |transitions| > 0 && Chained(transitions[..|transitions| - 1], start, |SEGMENTS| - 1) ==>
                |transitions| == 8 && transitions[6].to == InSegment(5)
    {
    }

    /** What an accepted run rests on: every sample in its slot, every segment at its boundary, a timely stop and Auto at the end. */
    ghost predicate Supported(c: ShutdownCalls)
      reads this
    {
      && workloadStartedAt.Some?
      && var start := workloadStartedAt.value.mono;
      && |samples| == SAMPLE_COUNT && TakenInTime(taken, samples, start)
      && |transitions| == |SEGMENTS| + 2 && Chained(transitions[..|SEGMENTS| + 1], start, |SEGMENTS| - 1)
      && transitions[|SEGMENTS| + 1].from == InSegment(|SEGMENTS| - 1) && transitions[|SEGMENTS| + 1].to == FirmwareAuto
      && StoppedInTime(c.workload, start)
    }
  }

  // ---------------------------------------------------------------- the whole run

  /**
   * Every run: whatever was started, the shutdown follows in full and in order. An accepted run has
   * exactly the samples, transitions and observer checks that the evidence validator counts. A run is
   * accepted exactly when no fault was recorded, which is so whenever nothing is wrong.
   */
  method RunSupervisedEndurance(env: EnduranceEnvironment, workloadCommand: string)
    returns (run: EnduranceRun, accepted: bool, ghost work: Trace, ghost c: ShutdownCalls)
    modifies env
    ensures env.trace == old(env.trace) + (work + Calls(c)) && WellOrdered(c, workloadCommand, run.customAttempted)
    ensures WorkloadStopsFirst(work + Calls(c)) && RestoresOnlyWhenAbsent(work + Calls(c), workloadCommand) && EndsSafely(work + Calls(c))
    ensures (forall k :: 0 <= k < |work| ==> IsWork(work[k])) && (run.customAttempted <==> EnterCustom in work)
    ensures accepted <==> run.faults == []
    ensures Healthy(env, workloadCommand) ==> accepted
    ensures accepted ==> c.workloadStopped && c.serviceStopped && IsRestorePair(c.closing)
    ensures accepted ==> run.faults == [] && |run.samples| == SAMPLE_COUNT && |run.transitions| == |SEGMENTS| + 2
    ensures accepted ==> |run.checks| == |run.samples| + |run.transitions| + 4 && Spaced(run.checks)
    ensures accepted ==> run.Supported(c)
  {
    ghost var begun := env.trace;
    var startedAt := env.Now();
    run := new EnduranceRun(workloadCommand, startedAt);
    hide *;
    accepted, work, c := run.Complete(env);
    ShutdownIsSafe(work, c, workloadCommand, run.customAttempted);
  }

  lemma SegmentInRange(elapsed: nat, index: nat)
    requires IsSegmentAt(elapsed, index)
    ensures index < |SEGMENTS|
  {
  }

  /** What was called in between started or moved things along, and stopped or restored nothing. */
  ghost predicate Worked(before: Trace, after: Trace) {
    before <= after && forall k :: |before| <= k < |after| ==> after[k].BeginSegment? || after[k].StartWorkload?
  }

  /** Since `begun`: Custom first if it was attempted at all, then work. */
  ghost predicate Began(begun: Trace, heard: Trace, custom: bool) {
    Worked(if custom then begun + [EnterCustom] else begun, heard)
  }

  predicate IsWork(e: Event) {
    e.EnterCustom? || e.BeginSegment? || e.StartWorkload?
  }

  lemma BeganThenWorked(begun: Trace, prepared: Trace, heard: Trace, custom: bool)
    requires Began(begun, prepared, custom) && Worked(prepared, heard)
    ensures begun <= heard && heard == begun + heard[|begun|..]
    ensures var work := heard[|begun|..];
            (forall k :: 0 <= k < |work| ==> IsWork(work[k])) && (custom <==> EnterCustom in work)
  {
    var first := if custom then begun + [EnterCustom] else begun;
    WorkedTrans(first, prepared, heard);
    var work := heard[|begun|..];
    assert first[..|begun|] == begun && heard[..|first|] == first;
    assert begun <= heard;
    if custom {
      assert work[0] == heard[|begun|] == first[|begun|] == EnterCustom;
    }
    forall k | 0 <= k < |work| && |begun| + k >= |first| ensures work[k].BeginSegment? || work[k].StartWorkload? {
      assert work[k] == heard[|begun| + k];
    }
  }

  lemma WorkedTrans(a: Trace, b: Trace, c: Trace)
    requires Worked(a, b) && Worked(b, c)
    ensures Worked(a, c)
  {
  }

  // ---------------------------------------------------------------- what the calls of every run obey

  predicate IsStop(e: Event, process: Process) {
    e.StopAttempt? && e.process == process
  }

  predicate ConfirmsAbsent(e: Event, process: Process, identity: string) {
    IsStop(e, process) && Absent(e.stopAnswer, identity)
  }

  /** Stops are tried on the workload before the service. */
  ghost predicate WorkloadStopsFirst(t: Trace) {
    forall j, k :: 0 <= j < |t| && 0 <= k < |t| && IsStop(t[j], Workload) && IsStop(t[k], Service) ==> j < k
  }

  /** Auto is restored only once the workload, and the service if it ever ran, were confirmed absent. */
  ghost predicate RestoresOnlyWhenAbsent(t: Trace, identity: string) {
    forall k :: 0 <= k < |t| && t[k].RestoreFan? ==>
      && (exists j :: 0 <= j < k && ConfirmsAbsent(t[j], Workload, identity))
      && (EnterCustom in t ==> exists j :: 0 <= j < k && ConfirmsAbsent(t[j], Service, SERVICE))
  }

  /** The last two calls are both fans confirmed in Auto, or containment at maximum tried on both. */
  ghost predicate EndsSafely(t: Trace) {
    && |t| >= 2
    && var last := t[|t| - 2..];
       IsContainPair(last) || (IsRestorePair(last) && ShowsAuto(last[0].restoreAnswer) && ShowsAuto(last[1].restoreAnswer))
  }

  /** Where the calls of a run come from. */
  lemma CallsOfRun(work: Trace, c: ShutdownCalls, identity: string, custom: bool, k: nat)
    requires WellOrdered(c, identity, custom) && k < |work + Calls(c)|
    requires forall i :: 0 <= i < |work| ==> IsWork(work[i])
    ensures var e, w := (work + Calls(c))[k], |work|;
            && (IsStop(e, Workload) <==> w <= k < w + |c.workload|)
            && (IsStop(e, Service) <==> w + |c.workload| <= k < w + |c.workload| + |c.service|)
            && (e.RestoreFan? ==> c.workloadStopped && c.serviceStopped && k >= w + |c.workload| + |c.service|)
  {
  }

  /** The confirmed stop that ends a successful ladder. */
  lemma LadderConfirms(before: Trace, t: Trace, after: Trace, process: Process, identity: string)
    requires Ladder(t, process, identity, true)
    ensures ConfirmsAbsent((before + t + after)[|before| + |t| - 1], process, identity)
  {
  }

  lemma ClosingEnds(before: Trace, t: Trace, mayRestore: bool)
    requires Closing(t, mayRestore)
    ensures EndsSafely(before + t)
  {
  }

  /** For every environment, the shutdown ladder keeps its promises. */
  lemma ShutdownIsSafe(work: Trace, c: ShutdownCalls, identity: string, custom: bool)
    requires WellOrdered(c, identity, custom) && (custom <==> EnterCustom in work)
    requires forall k :: 0 <= k < |work| ==> IsWork(work[k])
    ensures var t := work + Calls(c);
            WorkloadStopsFirst(t) && RestoresOnlyWhenAbsent(t, identity) && EndsSafely(t)
  {
    hide Closing, Absent, EndsSafely, Calls;
    var t := work + Calls(c);
    forall k | 0 <= k < |t|
      ensures IsStop(t[k], Workload) ==> k < |work| + |c.workload|
      ensures IsStop(t[k], Service) ==> k >= |work| + |c.workload|
      ensures t[k].RestoreFan? ==> c.workloadStopped && c.serviceStopped && k >= |work| + |c.workload| + |c.service|
    {
      CallsOfRun(work, c, identity, custom, k);
    }
    StopsPrecedeRestores(work, c, identity, custom);
    ClosingEnds(work + c.workload + c.service, c.closing, c.workloadStopped && c.serviceStopped);
    Regroup(work, c);
  }

  lemma Reassociate(a: Trace, b: Trace, c: Trace)
    ensures a + b + c == a + (b + c)
  {
  }

  lemma Regroup(work: Trace, c: ShutdownCalls)
    ensures work + Calls(c) == work + c.workload + c.service + c.closing
    ensures work + Calls(c) == work + c.workload + (c.service + c.closing)
  {
  }

  lemma StopsPrecedeRestores(work: Trace, c: ShutdownCalls, identity: string, custom: bool)
    requires WellOrdered(c, identity, custom) && (custom <==> EnterCustom in work)
    requires forall k :: 0 <= k < |work| ==> IsWork(work[k])
    ensures RestoresOnlyWhenAbsent(work + Calls(c), identity)
  {
    hide Closing, Absent, Calls;
    var t := work + Calls(c);
    Regroup(work, c);
    forall k | 0 <= k < |t| && t[k].RestoreFan?
      ensures exists j :: 0 <= j < k && ConfirmsAbsent(t[j], Workload, identity)
      ensures EnterCustom in t ==> exists j :: 0 <= j < k && ConfirmsAbsent(t[j], Service, SERVICE)
    {
      CallsOfRun(work, c, identity, custom, k);
      LadderConfirms(work, c.workload, c.service + c.closing, Workload, identity);
      assert ConfirmsAbsent(t[|work| + |c.workload| - 1], Workload, identity);
      if EnterCustom in t {
        CustomOnlyInWork(work, c, identity, custom);
        LadderConfirms(work + c.workload, c.service, c.closing, Service, SERVICE);
        assert ConfirmsAbsent(t[|work| + |c.workload| + |c.service| - 1], Service, SERVICE);
      }
    }
  }

  lemma CustomOnlyInWork(work: Trace, c: ShutdownCalls, identity: string, custom: bool)
    requires WellOrdered(c, identity, custom) && EnterCustom in work + Calls(c)
    ensures EnterCustom in work
  {
  }
}
