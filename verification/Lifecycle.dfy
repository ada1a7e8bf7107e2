/**
 * The live lifecycle runner (live_lifecycle.rs): eight cases with a Firmware Auto gate between them and a
 * checkpoint before the reboot. The environment answers anything; what it was asked is kept in a trace.
 */
module Lifecycle {
  import opened Wrappers
  import opened Config
  import opened Evidence
  import opened LifecycleTrace

  // ---------------------------------------------------------------- the environment

  datatype Continuation = Continuation(completed: bool, bootBefore: string, bootAfter: string, postBootAt: Timestamp)

  datatype ArmObservation = ArmObservation(armedAt: Timestamp, controller: string)

  /** Every answer is an arbitrary function of how many calls were made before it. */
  class Environment {
    const clock: nat -> Timestamp
    const bootIds: nat -> Option<string>
    const readings: (nat, Fan) -> Option<Observation>
    /** `Some(b)`: the case was observed, and the observation meets the rules of its case iff `b`. */
    const cases: nat -> Option<bool>
    const cleanups: nat -> Option<Timestamp>
    const attestations: nat -> bool
    const continuations: nat -> Option<Continuation>
    const arms: nat -> Option<ArmObservation>
    const restorations: nat -> Option<Timestamp>
    /** The names of the endpoints, as a healthy environment reports them. */
    ghost const ids: Identities
    var calls: nat
    ghost var trace: Trace

    /** An environment in which nothing is wrong, to show that there are such; wall time begins at `start`. */
    constructor Ideal(bootBefore: string, bootAfter: string, start: int)
      ensures IsIdentifier(bootAfter) ==> HealthyRun(this)
      ensures forall last: Timestamp :: BootIdsValid(bootBefore, bootAfter) && last.wall <= start ==> HealthyReboot(this, bootBefore, Some(ids), last)
    {
      clock := (k: nat) => Timestamp(k, start + k);
      bootIds := (k: nat) => Some(bootAfter);
      readings := (k: nat, fan: Fan) => Some(Observation(Timestamp(k, start + k), true, Some(2), if fan.Cpu? then "cpu" else "gpu"));
      cases := (k: nat) => Some(true);
      cleanups := (k: nat) => Some(Timestamp(k, start + k));
      attestations := (k: nat) => true;
      continuations := (k: nat) => Some(Continuation(true, bootBefore, bootAfter, Timestamp(k, start + k)));
      arms := (k: nat) => Some(ArmObservation(Timestamp(k, start + k), "pwm"));
      restorations := (k: nat) => Some(Timestamp(k, start + k));
      ids := Identities("cpu", "gpu");
      calls := 0;
      new;
      hide IsIdentifier, Blank;
      IdealNames();
    }

    method Now() returns (r: Timestamp)
      modifies this`calls
      ensures r == clock(old(calls)) && calls == old(calls) + 1
    {
      r := clock(calls);
      calls := calls + 1;
    }

    method CurrentBootId() returns (r: Option<string>)
      modifies this`calls
      ensures r == bootIds(old(calls)) && calls == old(calls) + 1
    {
      r := bootIds(calls);
      calls := calls + 1;
    }

    method Attested() returns (r: bool)
      modifies this`calls
      ensures r == attestations(old(calls)) && calls == old(calls) + 1
    {
      r := attestations(calls);
      calls := calls + 1;
    }

    method ConfirmFirmwareAuto(fan: Fan) returns (r: Option<Observation>)
      modifies this
      ensures trace == old(trace) + [Read(fan, r)] && r == readings(old(calls), fan) && calls == old(calls) + 1
    {
      r := readings(calls, fan);
      calls := calls + 1;
      trace := trace + [Read(fan, r)];
    }

    method RunLiveCase(case_: Case) returns (r: Option<bool>)
      modifies this
      ensures trace == old(trace) + [RunCase(case_)] && r == cases(old(calls)) && calls == old(calls) + 1
    {
      r := cases(calls);
      calls := calls + 1;
      trace := trace + [RunCase(case_)];
    }

    method RestoreAfterCase(case_: Case) returns (r: Option<Timestamp>)
      modifies this
      ensures trace == old(trace) + [Cleanup(case_)] && r == cleanups(old(calls)) && calls == old(calls) + 1
    {
      r := cleanups(calls);
      calls := calls + 1;
      trace := trace + [Cleanup(case_)];
    }

    method ResumeAfterReboot() returns (r: Option<Continuation>)
      modifies this
      ensures trace == old(trace) + [ResumeReboot] && r == continuations(old(calls)) && calls == old(calls) + 1
    {
      r := continuations(calls);
      calls := calls + 1;
      trace := trace + [ResumeReboot];
    }

    method ArmAfterReboot() returns (r: Option<ArmObservation>)
      modifies this
      ensures trace == old(trace) + [ArmReboot] && r == arms(old(calls)) && calls == old(calls) + 1
    {
      r := arms(calls);
      calls := calls + 1;
      trace := trace + [ArmReboot];
    }

    method RestoreAfterReboot() returns (r: Option<Timestamp>)
      modifies this
      ensures trace == old(trace) + [RestoreReboot] && r == restorations(old(calls)) && calls == old(calls) + 1
    {
      r := restorations(calls);
      calls := calls + 1;
      trace := trace + [RestoreReboot];
    }
  }

  lemma IdealNames()
    ensures HasNonblank("cpu") && HasNonblank("gpu") && HasNonblank("pwm")
  {
    assert !Blank("cpu"[0]) && !Blank("gpu"[0]) && !Blank("pwm"[0]);
  }

  // ---------------------------------------------------------------- evidence

  datatype Outcome = Confirmed | Unexpected | Unreadable

  datatype Readback = Readback(
    timestamp: Timestamp, source: Timestamp, isFresh: bool, bootId: Option<string>,
    fan: Fan, value: Option<nat>, identity: string, outcome: Outcome)

  datatype Place = FirmwareAuto | InCase(case_: Case) | Blocked

  datatype Transition = Transition(timestamp: Timestamp, bootId: Option<string>, from: Place, to: Place)

  datatype FaultCode =
    | ObservationInvalid | ObservationFailed | AutoUnconfirmed | CaseFailed | InitialRecoveryFailed

  datatype FaultRecord = FaultRecord(timestamp: Timestamp, bootId: Option<string>, code: FaultCode)

  datatype AutoPair = AutoPair(cpu: Observation, gpu: Observation)

  datatype Identities = Identities(cpu: string, gpu: string)

  datatype RebootObservation = RebootObservation(
    continuation: Continuation,
    autoBeforeArm: Option<AutoPair>,
    armed: Option<ArmObservation>,
    restoredAt: Option<Timestamp>,
    autoAfterArm: Option<AutoPair>)

  datatype CaseResult = CaseResult(
    case_: Case, startedAt: Timestamp, completedAt: Timestamp, reboot: Option<RebootObservation>, passed: bool)

  datatype Checkpoint = Checkpoint(
    startedAt: Timestamp,
    lastEventAt: Timestamp,
    readbacks: seq<Readback>,
    transitions: seq<Transition>,
    faults: seq<FaultRecord>,
    cases: seq<CaseResult>,
    identities: Option<Identities>,
    finalAutoConfirmed: bool,
    bootId: string)

  datatype Report = Report(state: Checkpoint, completedAt: Timestamp, accepted: bool)

  datatype Progress = AwaitingReboot(checkpoint: Checkpoint) | Complete(report: Report)

  datatype PlanError = InvalidCheckpoint

  // ---------------------------------------------------------------- pure checks

  function StrictlyAfter(observed: Timestamp, notBefore: Timestamp): (r: Timestamp)
    ensures r.mono > notBefore.mono && r.mono >= observed.mono
  {
    if observed.mono <= notBefore.mono
    then Timestamp(notBefore.mono + 1, if observed.wall >= notBefore.wall then observed.wall else notBefore.wall)
    else observed
  }

  function Normalize(observed: Timestamp, notBefore: Timestamp): (r: Timestamp)
    ensures r.mono >= notBefore.mono
  {
    if observed.mono < notBefore.mono then notBefore else observed
  }

  predicate Blank(c: char) {
    var n := c as int;
    || 0x0 <= n <= 0x20 || 0x7f <= n <= 0xa0 || n == 0x1680 || 0x2000 <= n <= 0x200a
    || n == 0x2028 || n == 0x2029 || n == 0x202f || n == 0x205f || n == 0x3000 || n == 0xfeff
  }

  predicate HasNonblank(identity: string) {
    exists i :: 0 <= i < |identity| && !Blank(identity[i])
  }

  predicate IsIdentifier(value: string) {
    && 0 < |value| <= 128
    && forall i :: 0 <= i < |value| ==>
         'a' <= value[i] <= 'z' || 'A' <= value[i] <= 'Z' || '0' <= value[i] <= '9' || value[i] in "._-"
  }

  predicate BootIdsValid(before: string, after: string) {
    IsIdentifier(before) && IsIdentifier(after) && before != after
  }

  predicate ContinuationValid(c: Continuation, startedAt: Timestamp, completedAt: Timestamp, expectedBefore: string, expectedAfter: string) {
    && c.completed && BootIdsValid(c.bootBefore, c.bootAfter)
    && c.bootBefore == expectedBefore && c.bootAfter == expectedAfter
    && startedAt.wall < c.postBootAt.wall <= completedAt.wall && c.postBootAt.mono <= completedAt.mono
  }

  predicate DistinctIdentities(i: Identities) {
    HasNonblank(i.cpu) && HasNonblank(i.gpu) && i.cpu != i.gpu
  }

  function Rebound(pair: AutoPair, previous: Option<Identities>): (r: Option<Identities>)
    ensures r.Some? ==> DistinctIdentities(r.value)
                        && (previous.Some? ==> r.value.cpu != previous.value.gpu && r.value.gpu != previous.value.cpu)
  {
    var found := Identities(pair.cpu.identity, pair.gpu.identity);
    if DistinctIdentities(found) && (previous.None? || (found.cpu != previous.value.gpu && found.gpu != previous.value.cpu))
    then Some(found) else None
  }

  function UnresolvedTarget(fan: Fan): string {
    if fan.Cpu? then "cpu-enable-target-unresolved" else "gpu-enable-target-unresolved"
  }

  const UNVERIFIED_PRE_REBOOT := "unverified-pre-reboot"
  const UNVERIFIED_POST_REBOOT := "unverified-post-reboot"

  /** What a persisted checkpoint must look like to be resumed. */
  predicate ValidCheckpoint(c: Checkpoint) {
    var n := |c.readbacks|;
    && |c.cases| == |ALL_CASES| - 1
    && (forall i :: 0 <= i < |c.cases| ==> c.cases[i].case_ == ALL_CASES[i] && c.cases[i].passed)
    && c.faults == [] && c.finalAutoConfirmed && IsIdentifier(c.bootId)
    && c.identities.Some? && DistinctIdentities(c.identities.value)
    && n >= 2 && c.readbacks[n - 2].fan == Cpu && c.readbacks[n - 1].fan == Gpu
    && c.readbacks[n - 2].identity == c.identities.value.cpu && c.readbacks[n - 1].identity == c.identities.value.gpu
    && (forall i :: 0 <= i < n ==> c.readbacks[i].bootId == Some(c.bootId))
    && (forall i :: 0 <= i < |c.transitions| ==> c.transitions[i].bootId == Some(c.bootId))
    && c.transitions != [] && c.transitions[|c.transitions| - 1].timestamp == c.lastEventAt
    && c.startedAt.mono <= c.lastEventAt.mono
    && (forall i :: 0 <= i < |c.cases| - 1 ==> c.cases[i].completedAt.mono < c.cases[i + 1].startedAt.mono)
  }

  /** Readbacks and transitions all carry the identity of the boot they were made in. */
  predicate AllBound(readbacks: seq<Readback>, transitions: seq<Transition>) {
    && (forall i :: 0 <= i < |readbacks| ==> readbacks[i].bootId.Some?)
    && (forall i :: 0 <= i < |transitions| ==> transitions[i].bootId.Some?)
  }

  // ---------------------------------------------------------------- an environment in which nothing is wrong

  /** After call `k` and no later than call `k + 2`, on both clocks. */
  ghost predicate Between(env: Environment, k: nat, t: Timestamp) {
    && env.clock(k).mono < t.mono <= env.clock(k + 2).mono
    && env.clock(k).wall < t.wall <= env.clock(k + 2).wall
  }

  /** Both clocks move on with every call. */
  ghost predicate Ticks(env: Environment) {
    forall j, k :: 0 <= j < k ==> env.clock(j).mono < env.clock(k).mono && env.clock(j).wall < env.clock(k).wall
  }

  function IdentityOf(ids: Identities, fan: Fan): string {
    if fan.Cpu? then ids.cpu else ids.gpu
  }

  /** Both fans are in Auto and say so, freshly and under their own names. */
  ghost predicate ReadsAuto(env: Environment, k: nat, fan: Fan) {
    && env.readings(k + 1, fan).Some?
    && var o := env.readings(k + 1, fan).value;
    && o.isFresh && o.enable == Some(2) && o.identity == IdentityOf(env.ids, fan) && Between(env, k, o.observedAt)
  }

  ghost predicate Healthy(env: Environment) {
    && Ticks(env) && DistinctIdentities(env.ids)
    && (forall k: nat, fan: Fan :: ReadsAuto(env, k, fan))
    && (forall k: nat :: env.attestations(k))
  }

  ghost predicate CleansUp(env: Environment, k: nat) {
    env.cleanups(k + 1).Some? && Between(env, k, env.cleanups(k + 1).value)
  }

  /** Every case succeeds and is cleaned up after, within one boot. */
  ghost predicate HealthyRun(env: Environment) {
    && Healthy(env)
    && (forall k: nat :: env.cases(k) == Some(true))
    && (forall k: nat :: CleansUp(env, k))
    && (forall k: nat :: env.bootIds(k) == env.bootIds(0))
    && env.bootIds(0).Some? && IsIdentifier(env.bootIds(0).value)
  }

  /** Where a run in a healthy environment is before call `k`. */
  ghost predicate OnTrack(c: Checkpoint, env: Environment, k: nat) {
    && c.faults == [] && c.finalAutoConfirmed && c.identities == Some(env.ids)
    && c.startedAt.mono <= c.lastEventAt.mono < env.clock(k).mono
    && CasesInLine(c.cases, c.lastEventAt.mono)
    && EndsInGate(c.readbacks, env.ids)
    && BoundTo(c.readbacks, c.transitions, c.bootId)
    && (c.cases != [] ==> c.transitions != [] && c.transitions[|c.transitions| - 1].timestamp == c.lastEventAt)
  }

  /** One case after the other, all passed, all over by `end`. */
  ghost predicate CasesInLine(cases: seq<CaseResult>, end: nat) {
    && (forall i :: 0 <= i < |cases| ==> cases[i].passed && cases[i].completedAt.mono <= end)
    && (forall i :: 0 <= i < |cases| - 1 ==> cases[i].completedAt.mono < cases[i + 1].startedAt.mono)
  }

  ghost predicate EndsInGate(readbacks: seq<Readback>, ids: Identities) {
    var n := |readbacks|;
    && n >= 2 && readbacks[n - 2].fan == Cpu && readbacks[n - 1].fan == Gpu
    && readbacks[n - 2].identity == ids.cpu && readbacks[n - 1].identity == ids.gpu
  }

  ghost predicate BoundTo(readbacks: seq<Readback>, transitions: seq<Transition>, bootId: string) {
    && (forall i :: 0 <= i < |readbacks| ==> readbacks[i].bootId == Some(bootId))
    && (forall i :: 0 <= i < |transitions| ==> transitions[i].bootId == Some(bootId))
  }

  ghost predicate Continues(env: Environment, k: nat, before: string, after: string) {
    && env.continuations(k + 1).Some?
    && var c := env.continuations(k + 1).value;
    && c.completed && c.bootBefore == before && c.bootAfter == after && Between(env, k, c.postBootAt)
  }

  ghost predicate Arms(env: Environment, k: nat) {
    env.arms(k + 1).Some? && Between(env, k, env.arms(k + 1).value.armedAt) && HasNonblank(env.arms(k + 1).value.controller)
  }

  ghost predicate Restores(env: Environment, k: nat) {
    env.restorations(k + 1).Some? && Between(env, k, env.restorations(k + 1).value)
  }

  /** After a reboot: a new boot, no endpoint taken for the other one, and every request answered in time. */
  ghost predicate HealthyReboot(env: Environment, bootId: string, previous: Option<Identities>, last: Timestamp) {
    && Healthy(env)
    && (forall k: nat :: env.bootIds(k) == env.bootIds(0))
    && env.bootIds(0).Some? && BootIdsValid(bootId, env.bootIds(0).value)
    && (previous.Some? ==> env.ids.cpu != previous.value.gpu && env.ids.gpu != previous.value.cpu)
    && last.wall <= env.clock(0).wall
    && (forall k: nat :: Continues(env, k, bootId, env.bootIds(0).value))
    && (forall k: nat :: Arms(env, k))
    && (forall k: nat :: Restores(env, k))
  }

  lemma RebootIsAttested(env: Environment, bootId: string, previous: Option<Identities>, last: Timestamp)
    ensures HealthyReboot(env, bootId, previous, last) ==> forall k: nat :: env.attestations(k)
  {
  }

  /** The reboot is taken up as the evidence demands. */
  lemma RebootTimes(env: Environment, k: nat, bootId: string, previous: Option<Identities>, last: Timestamp,
                    requestedAt: Timestamp, caseStartedAt: Timestamp)
    requires HealthyReboot(env, bootId, previous, last)
    requires requestedAt == StrictlyAfter(env.clock(k), last) && caseStartedAt == StrictlyAfter(env.clock(k + 1), requestedAt)
    ensures env.continuations(k + 2).Some? && env.bootIds(0).Some? && env.bootIds(k + 4) == env.bootIds(0)
    ensures ContinuationValid(env.continuations(k + 2).value, caseStartedAt, env.clock(k + 3), bootId, env.bootIds(0).value)
    ensures Past(env, k + 5, env.clock(k + 3))
  {
    hide IsIdentifier;
    assert Continues(env, k + 1, bootId, env.bootIds(0).value);
    assert env.clock(0).wall <= env.clock(k).wall;
    assert caseStartedAt.wall == env.clock(k + 1).wall;
  }

  /** A run that has recorded nothing yet. */
  ghost predicate JustBegun(c: Checkpoint, env: Environment, k: nat, notBefore: Timestamp) {
    && c == Checkpoint(notBefore, notBefore, [], [], [], [], Some(env.ids), false, c.bootId)
    && Past(env, k, notBefore)
  }

  lemma TrackIsReady(c: Checkpoint, env: Environment, k: nat)
    requires HealthyRun(env) && OnTrack(c, env, k)
    ensures Healthy(env) && c.lastEventAt.mono < env.clock(k).mono && c.identities == Some(env.ids) && c.faults == []
    ensures BoundTo(c.readbacks, c.transitions, c.bootId)
  {
  }

  lemma StaysBoundTo(r0: seq<Readback>, t0: seq<Transition>, r1: seq<Readback>, t1: seq<Transition>, bootId: string)
    requires BoundTo(r0, t0, bootId) && r0 <= r1 && t0 <= t1
    requires forall i :: |r0| <= i < |r1| ==> r1[i].bootId == Some(bootId)
    requires forall i :: |t0| <= i < |t1| ==> t1[i].bootId == Some(bootId)
    ensures BoundTo(r1, t1, bootId)
  {
  }

  /** The case begun with call `k` is observed as it should be, takes time, is cleaned up after at a time in between, and attested. */
  predicate CaseSucceeds(env: Environment, k: nat, caseStartedAt: Timestamp) {
    && env.cases(k) == Some(true) && env.clock(k + 1).mono > caseStartedAt.mono
    && env.cleanups(k + 2).Some? && NotBefore(env.cleanups(k + 2).value, env.clock(k + 1))
    && NotBefore(env.clock(k + 3), env.cleanups(k + 2).value) && env.attestations(k + 4)
  }

  /** Nothing that a case checks is amiss in a healthy environment. */
  lemma CaseTimes(env: Environment, k: nat, last: Timestamp)
    requires HealthyRun(env) && last.mono < env.clock(k).mono
    ensures StrictlyAfter(env.clock(k), last) == env.clock(k) && StrictlyAfter(env.clock(k + 1), env.clock(k)) == env.clock(k + 1)
    ensures env.cases(k + 2) == Some(true) && env.clock(k + 3).mono > env.clock(k + 1).mono
    ensures env.cleanups(k + 4).Some? && env.attestations(k + 6)
    ensures var cleanup := env.cleanups(k + 4).value;
            && NotBefore(cleanup, env.clock(k + 3)) && NotBefore(env.clock(k + 5), cleanup)
            && StrictlyAfter(cleanup, env.clock(k)) == cleanup && Past(env, k + 7, cleanup)
  {
    assert CleansUp(env, k + 3);
  }

  /** A case that passed in a healthy environment leaves the run on track. */
  lemma TrackContinues(before: Checkpoint, middle: Checkpoint, after: Checkpoint, env: Environment, j: nat, k: nat,
                       gate: AutoGate, gateNotBefore: Timestamp, caseStartedAt: Timestamp, case_: Case)
    requires HealthyRun(env) && OnTrack(before, env, j) && j + 4 <= k
    requires middle.cases == before.cases && middle.startedAt == before.startedAt && middle.bootId == before.bootId && middle.lastEventAt == before.lastEventAt
    requires EndsInGate(middle.readbacks, env.ids)
    requires BoundTo(middle.readbacks, middle.transitions, middle.bootId)
    requires k >= 6 && Between(env, k - 3, gate.completedAt) && Past(env, k - 6, gateNotBefore)
    requires caseStartedAt == env.clock(j + 1)
    requires after.faults == [] && after.finalAutoConfirmed && after.identities == Some(env.ids)
    requires after.readbacks == middle.readbacks && after.startedAt == middle.startedAt && after.bootId == middle.bootId
    requires var restoredAt := StrictlyAfter(env.clock(k), gate.completedAt);
             && after.lastEventAt == Later(middle.lastEventAt, Later(restoredAt, gate.completedAt))
             && after.transitions == middle.transitions + [Transition(restoredAt, Some(middle.bootId), InCase(case_), FirmwareAuto)]
    requires after.cases == middle.cases + [CaseResult(case_, caseStartedAt, gateNotBefore, None, true)]
    ensures OnTrack(after, env, k + 1)
  {
    assert after.lastEventAt == env.clock(k);
  }

  /** A time that has passed when call `k` is made. */
  ghost predicate Past(env: Environment, k: nat, t: Timestamp) {
    t.mono <= env.clock(k).mono && t.wall <= env.clock(k).wall
  }

  // ---------------------------------------------------------------- in-place rewrites

  method FillReadbacks(readbacks: seq<Readback>, bootId: string) returns (r: seq<Readback>)
    ensures |r| == |readbacks|
    ensures forall i :: 0 <= i < |r| ==> r[i] == (if readbacks[i].bootId.None? then readbacks[i].(bootId := Some(bootId)) else readbacks[i])
  {
    r := readbacks;
    for i := 0 to |readbacks|
      invariant |r| == |readbacks|
      invariant forall k :: 0 <= k < i ==> r[k] == (if readbacks[k].bootId.None? then readbacks[k].(bootId := Some(bootId)) else readbacks[k])
      invariant forall k :: i <= k < |r| ==> r[k] == readbacks[k]
    {
      if r[i].bootId.None? {
        r := r[i := r[i].(bootId := Some(bootId))];
      }
    }
  }

  method FillTransitions(transitions: seq<Transition>, bootId: string) returns (r: seq<Transition>)
    ensures |r| == |transitions|
    ensures forall i :: 0 <= i < |r| ==> r[i] == (if transitions[i].bootId.None? then transitions[i].(bootId := Some(bootId)) else transitions[i])
  {
    r := transitions;
    for i := 0 to |transitions|
      invariant |r| == |transitions|
      invariant forall k :: 0 <= k < i ==> r[k] == (if transitions[k].bootId.None? then transitions[k].(bootId := Some(bootId)) else transitions[k])
      invariant forall k :: i <= k < |r| ==> r[k] == transitions[k]
    {
      if r[i].bootId.None? {
        r := r[i := r[i].(bootId := Some(bootId))];
      }
    }
  }

  function Withdrawn(r: Readback): Readback {
    if r.outcome == Confirmed then r.(outcome := Unexpected) else r
  }

  /** Takes back the confirmation of the last two readbacks, newest first. */
  method WithdrawLastTwo(readbacks: seq<Readback>) returns (r: seq<Readback>)
    ensures |r| == |readbacks|
    ensures forall i :: 0 <= i < |r| ==> r[i] == (if i + 2 >= |r| then Withdrawn(readbacks[i]) else readbacks[i])
  {
    r := readbacks;
    var taken := 0;
    while taken < 2 && taken < |readbacks|
      invariant |r| == |readbacks| && 0 <= taken <= 2 && taken <= |r|
      invariant forall i :: 0 <= i < |r| ==> r[i] == (if i + taken >= |r| then Withdrawn(readbacks[i]) else readbacks[i])
    {
      var i := |r| - 1 - taken;
      r := r[i := Withdrawn(r[i])];
      taken := taken + 1;
    }
  }

  // ---------------------------------------------------------------- the runner

  datatype FanConfirmation = FanConfirmation(completedAt: Timestamp, observation: Option<Observation>, valid: bool)

  datatype AutoGate = AutoGate(completedAt: Timestamp, pair: Option<AutoPair>, confirmed: bool) {
    function Found(): Option<Identities> {
      if pair.None? then None else Some(Identities(pair.value.cpu.identity, pair.value.gpu.identity))
    }
  }

  /** Both readings were made no earlier than `t`, CPU first. */
  predicate ReadSince(pair: AutoPair, t: Timestamp) {
    NotBefore(pair.cpu.observedAt, t) && NotBefore(pair.gpu.observedAt, pair.cpu.observedAt)
  }

  predicate ReadBy(pair: AutoPair, t: Timestamp) {
    pair.cpu.observedAt.mono <= t.mono && pair.gpu.observedAt.mono <= t.mono
  }

  /**
   * What the evidence of a passed reboot shows: a new boot; both fans read in Auto on endpoints that did not
   * trade places; armed after that; restored after that on both clocks; both read in Auto again after that, on the
   * same endpoints.
   */
  predicate RebootProven(o: RebootObservation, bootId: string, previous: Option<Identities>) {
    && o.continuation.completed && o.continuation.bootBefore == bootId && o.continuation.bootAfter != bootId
    && o.autoBeforeArm.Some? && o.armed.Some? && o.restoredAt.Some? && o.autoAfterArm.Some?
    && ArmedInBetween(o.autoBeforeArm.value, o.armed.value, o.restoredAt.value, o.autoAfterArm.value, previous)
  }

  predicate ArmedInBetween(before: AutoPair, armed: ArmObservation, restoredAt: Timestamp, after: AutoPair, previous: Option<Identities>) {
    && PairShowsAuto(before) && PairShowsAuto(after)
    && (previous.Some? ==> before.cpu.identity != previous.value.gpu && before.gpu.identity != previous.value.cpu)
    && before.cpu.observedAt.mono < armed.armedAt.mono && before.gpu.observedAt.mono < armed.armedAt.mono
    && armed.armedAt.mono < restoredAt.mono && armed.armedAt.wall < restoredAt.wall
    && ReadSince(after, restoredAt)
    && after.cpu.identity == before.cpu.identity && after.gpu.identity == before.gpu.identity
  }

  predicate PairShowsAuto(pair: AutoPair) {
    pair.cpu.isFresh && pair.cpu.enable == Some(2) && pair.gpu.isFresh && pair.gpu.enable == Some(2)
  }

  class LifecycleRun {
    const startedAt: Timestamp
    const bootId: string
    var lastEventAt: Timestamp
    var readbacks: seq<Readback>
    var transitions: seq<Transition>
    var faults: seq<FaultRecord>
    var cases: seq<CaseResult>
    var identities: Option<Identities>
    var finalAutoConfirmed: bool

    constructor (c: Checkpoint)
      ensures State() == c
    {
      startedAt, bootId, lastEventAt := c.startedAt, c.bootId, c.lastEventAt;
      readbacks, transitions, faults, cases := c.readbacks, c.transitions, c.faults, c.cases;
      identities, finalAutoConfirmed := c.identities, c.finalAutoConfirmed;
    }

    function State(): Checkpoint
      reads this
    {
      Checkpoint(startedAt, lastEventAt, readbacks, transitions, faults, cases, identities, finalAutoConfirmed, bootId)
    }

    /** Exactly one readback is recorded per read, whatever the answer. */
    method ConfirmOneFan(env: Environment, fan: Fan, notBefore: Timestamp, expected: Option<string>, gateBootId: Option<string>, allowReset: bool)
      returns (r: FanConfirmation)
      modifies this`readbacks, this`faults, env
      ensures env.trace == old(env.trace) + [Read(fan, r.observation)]
      ensures |readbacks| == |old(readbacks)| + 1 && old(readbacks) <= readbacks && old(faults) <= faults
      ensures readbacks[|old(readbacks)|].bootId == gateBootId && readbacks[|old(readbacks)|].fan == fan
      ensures readbacks[|old(readbacks)|].outcome == Confirmed <==> r.valid && ShowsAuto(r.observation)
      ensures r.valid ==> r.observation.Some? && r.observation.value.isFresh && HasNonblank(r.observation.value.identity)
      ensures r.valid ==> NotBefore(r.observation.value.observedAt, notBefore) && r.completedAt.mono >= r.observation.value.observedAt.mono
      ensures r.valid && allowReset ==> r.completedAt == r.observation.value.observedAt
      ensures r.valid <==> faults == old(faults)
      ensures env.calls == old(env.calls) + 3
      ensures Healthy(env) && Past(env, old(env.calls), notBefore) ==>
                && r.valid && ShowsAuto(r.observation) && r.observation.value.identity == IdentityOf(env.ids, fan)
                && Between(env, old(env.calls), r.completedAt) && readbacks[|old(readbacks)|].identity == IdentityOf(env.ids, fan)
    {
      assert Healthy(env) ==> ReadsAuto(env, env.calls, fan);
      var requestedAt := env.Now();
      var answer := env.ConfirmFirmwareAuto(fan);
      var rawCompletedAt := env.Now();
      var fallback := if expected.Some? then expected.value else UnresolvedTarget(fan);
      if answer.None? {
        var completedAt := if allowReset then rawCompletedAt else StrictlyAfter(rawCompletedAt, notBefore);
        readbacks := readbacks + [Readback(completedAt, rawCompletedAt, false, gateBootId, fan, None, fallback, Unreadable)];
        faults := faults + [FaultRecord(completedAt, gateBootId, ObservationFailed)];
        return FanConfirmation(completedAt, None, false);
      }
      var o := answer.value;
      var timely := o.isFresh && NotBefore(o.observedAt, requestedAt) && NotBefore(rawCompletedAt, o.observedAt) && NotBefore(o.observedAt, notBefore);
      var named := HasNonblank(o.identity);
      var completedAt := if allowReset then o.observedAt else StrictlyAfter(o.observedAt, notBefore);
      readbacks := readbacks + [Readback(completedAt, o.observedAt, o.isFresh, gateBootId, fan,
                                         if named then o.enable else None,
                                         if named then o.identity else fallback,
                                         if timely && named && o.enable == Some(2) then Confirmed
                                         else if named && o.enable.Some? then Unexpected
                                         else Unreadable)];
      if !timely || !named {
        faults := faults + [FaultRecord(completedAt, gateBootId, ObservationInvalid)];
      }
      r := FanConfirmation(completedAt, answer, timely && named);
    }

    method ReadBothFans(env: Environment, notBefore: Timestamp, expected: Option<Identities>, gateBootId: Option<string>, allowReset: bool)
      returns (cpu: FanConfirmation, gpu: FanConfirmation)
      modifies this`readbacks, this`faults, env
      ensures env.trace == old(env.trace) + Gate(cpu.observation, gpu.observation) && env.calls == old(env.calls) + 6
      ensures |readbacks| == |old(readbacks)| + 2 && old(readbacks) <= readbacks && old(faults) <= faults
      ensures readbacks[|readbacks| - 2].fan == Cpu && readbacks[|readbacks| - 1].fan == Gpu
      ensures readbacks[|readbacks| - 2].bootId == gateBootId && readbacks[|readbacks| - 1].bootId == gateBootId
      ensures readbacks[|readbacks| - 2].outcome == Confirmed <==> cpu.valid && ShowsAuto(cpu.observation)
      ensures readbacks[|readbacks| - 1].outcome == Confirmed <==> gpu.valid && ShowsAuto(gpu.observation)
      ensures cpu.valid ==> cpu.observation.Some? && cpu.observation.value.isFresh && NotBefore(cpu.observation.value.observedAt, notBefore)
      ensures gpu.valid ==> gpu.observation.Some? && gpu.observation.value.isFresh
      ensures gpu.valid && !allowReset ==> gpu.observation.value.observedAt.mono >= notBefore.mono
      ensures cpu.valid && gpu.valid && allowReset ==> NotBefore(gpu.observation.value.observedAt, cpu.observation.value.observedAt)
      ensures cpu.valid && gpu.valid ==>
                cpu.completedAt.mono >= cpu.observation.value.observedAt.mono && gpu.completedAt.mono >= gpu.observation.value.observedAt.mono
      ensures cpu.valid && gpu.valid <==> faults == old(faults)
      ensures Healthy(env) && Past(env, old(env.calls), notBefore) ==>
                && DistinctIdentities(env.ids) && cpu.valid && gpu.valid && ShowsAuto(cpu.observation) && ShowsAuto(gpu.observation)
                && cpu.observation.value.identity == env.ids.cpu && gpu.observation.value.identity == env.ids.gpu
                && cpu.completedAt.mono < gpu.completedAt.mono && Between(env, old(env.calls) + 3, gpu.completedAt)
                && readbacks[|readbacks| - 2].identity == env.ids.cpu && readbacks[|readbacks| - 1].identity == env.ids.gpu
    {
      hide HasNonblank;
      cpu := ConfirmOneFan(env, Cpu, notBefore, if expected.Some? then Some(expected.value.cpu) else None, gateBootId, allowReset);
      var gpuNotBefore := if allowReset then cpu.completedAt else Later(notBefore, cpu.completedAt);
      gpu := ConfirmOneFan(env, Gpu, gpuNotBefore, if expected.Some? then Some(expected.value.gpu) else None, gateBootId, allowReset);
    }

    /**
     * Reads both fans, CPU first. The gate holds only on two fresh, timely Auto readings of two distinct
     * named endpoints, the expected ones if any were expected; otherwise it leaves a fault and no
     * confirmed readback of its own. Older readbacks are never touched.
     */
    method ConfirmAutoGate(env: Environment, notBefore: Timestamp, expected: Option<Identities>, gateBootId: Option<string>, allowReset: bool)
      returns (g: AutoGate, ghost cpuRead: Option<Observation>, ghost gpuRead: Option<Observation>)
      modifies this`readbacks, this`faults, env
      ensures env.trace == old(env.trace) + Gate(cpuRead, gpuRead)
      ensures g.confirmed ==> ShowsAuto(cpuRead) && ShowsAuto(gpuRead)
      ensures g.confirmed ==> g.pair == Some(AutoPair(cpuRead.value, gpuRead.value)) && DistinctIdentities(g.Found().value)
      ensures g.confirmed && expected.Some? ==> g.Found() == expected
      ensures g.confirmed && allowReset ==> ReadSince(g.pair.value, notBefore) && ReadBy(g.pair.value, g.completedAt)
      ensures g.confirmed <==> faults == old(faults)
      ensures old(faults) <= faults && old(readbacks) <= readbacks && |readbacks| == |old(readbacks)| + 2
      ensures forall i :: |old(readbacks)| <= i < |readbacks| ==>
                readbacks[i].bootId == gateBootId && (readbacks[i].outcome == Confirmed <==> g.confirmed)
      ensures env.calls == old(env.calls) + 6
      ensures Healthy(env) && Past(env, old(env.calls), notBefore) && (expected.None? || expected.value == env.ids) ==>
                && g.confirmed && g.Found() == Some(env.ids) && Between(env, old(env.calls) + 3, g.completedAt)
                && readbacks[|readbacks| - 2].fan == Cpu && readbacks[|readbacks| - 1].fan == Gpu
                && readbacks[|readbacks| - 2].identity == env.ids.cpu && readbacks[|readbacks| - 1].identity == env.ids.gpu
    {
      hide Healthy, Between, Past, HasNonblank;
      ghost var before := readbacks;
      var cpu, gpu := ReadBothFans(env, notBefore, expected, gateBootId, allowReset);
      var completedAt := Later(cpu.completedAt, gpu.completedAt);
      cpuRead, gpuRead := cpu.observation, gpu.observation;
      var pair := if cpu.observation.Some? && gpu.observation.Some? then Some(AutoPair(cpu.observation.value, gpu.observation.value)) else None;
      var confirmed :=
        && cpu.valid && gpu.valid
        && cpu.observation.value.enable == Some(2) && gpu.observation.value.enable == Some(2)
        && DistinctIdentities(Identities(cpu.observation.value.identity, gpu.observation.value.identity))
        && (expected.None? || (cpu.observation.value.identity == expected.value.cpu && gpu.observation.value.identity == expected.value.gpu));
      if !confirmed {
        readbacks := WithdrawLastTwo(readbacks);
        assert before <= readbacks;
        faults := faults + [FaultRecord(completedAt, gateBootId, AutoUnconfirmed)];
      }
      g := AutoGate(completedAt, pair, confirmed);
    }

    /** Records that a case is about to begin. */
    method RequestCase(env: Environment, case_: Case) returns (requestedAt: Timestamp, caseStartedAt: Timestamp)
      modifies this`transitions, env`calls
      ensures requestedAt == StrictlyAfter(env.clock(old(env.calls)), lastEventAt) && env.calls == old(env.calls) + 2
      ensures caseStartedAt == StrictlyAfter(env.clock(old(env.calls) + 1), requestedAt)
      ensures transitions == old(transitions) + [Transition(requestedAt, Some(bootId), FirmwareAuto, InCase(case_))]
    {
      var now := env.Now();
      requestedAt := StrictlyAfter(now, lastEventAt);
      transitions := transitions + [Transition(requestedAt, Some(bootId), FirmwareAuto, InCase(case_))];
      now := env.Now();
      caseStartedAt := StrictlyAfter(now, requestedAt);
    }

    /** Requests and runs a case, then always cleans up after it. */
    method PerformCase(env: Environment, case_: Case) returns (caseStartedAt: Timestamp, gateNotBefore: Timestamp, failed: bool)
      modifies this`transitions, env
      ensures env.trace == old(env.trace) + [RunCase(case_), Cleanup(case_)]
      ensures |transitions| == |old(transitions)| + 1 && old(transitions) <= transitions
      ensures transitions[|old(transitions)|].bootId == Some(bootId)
      ensures env.calls >= old(env.calls) + 6
      ensures HealthyRun(env) && lastEventAt.mono < env.clock(old(env.calls)).mono ==>
                !failed && Past(env, env.calls, gateNotBefore) && caseStartedAt == env.clock(old(env.calls) + 1)
    {
      hide HealthyRun, Past, NotBefore, StrictlyAfter;
      if HealthyRun(env) && lastEventAt.mono < env.clock(env.calls).mono {
        CaseTimes(env, env.calls, lastEventAt);
      }
      var requestedAt;
      requestedAt, caseStartedAt := RequestCase(env, case_);
      gateNotBefore, failed := RunAndCleanUp(env, case_, requestedAt, caseStartedAt);
    }

    /** The case itself and its cleanup, which always follows. */
    method RunAndCleanUp(env: Environment, case_: Case, requestedAt: Timestamp, caseStartedAt: Timestamp) returns (gateNotBefore: Timestamp, failed: bool)
      modifies env
      ensures env.trace == old(env.trace) + [RunCase(case_), Cleanup(case_)]
      ensures old(env.calls) + 4 <= env.calls <= old(env.calls) + 5
      ensures failed <==> !CaseSucceeds(env, old(env.calls), caseStartedAt)
      ensures !failed ==> gateNotBefore == StrictlyAfter(env.cleanups(old(env.calls) + 2).value, requestedAt) && env.calls == old(env.calls) + 5
    {
      hide NotBefore, StrictlyAfter;
      var answer := env.RunLiveCase(case_);
      var observedCompletedAt := env.Now();
      failed := answer.None? || !answer.value || observedCompletedAt.mono <= caseStartedAt.mono;
      var cleanup := env.RestoreAfterCase(case_);
      var cleanupCompletedAt := env.Now();
      gateNotBefore := cleanupCompletedAt;
      if cleanup.Some? && NotBefore(cleanup.value, observedCompletedAt) && NotBefore(cleanupCompletedAt, cleanup.value) {
        gateNotBefore := cleanup.value;
      } else {
        failed := true;
      }
      gateNotBefore := StrictlyAfter(gateNotBefore, requestedAt);
      if answer.Some? {
        var attested := env.Attested();
        failed := failed || !attested;
      }
    }

    /** Runs one case that is not the reboot: case, cleanup, gate, in this order and whatever fails. */
    method RunOrdinaryCase(env: Environment, case_: Case) returns (passed: bool, ghost b: Block)
      requires case_ != Reboot
      modifies this, env
      ensures b.OrdinaryBlock? && b.case_ == case_ && env.trace == old(env.trace) + Events(b)
      ensures passed ==> Confirms(b) && finalAutoConfirmed
      ensures passed <==> faults == old(faults)
      ensures Extends(old(State()), State()) && Recorded(old(State()), State(), case_, passed)
      ensures AllBound(old(readbacks), old(transitions)) ==> AllBound(readbacks, transitions)
      ensures old(identities).Some? ==> identities.Some?
      ensures HealthyRun(env) && OnTrack(old(State()), env, old(env.calls)) ==> passed && OnTrack(State(), env, env.calls)
    {
      hide ShowsAuto, HealthyRun, Between, Past, OnTrack, AllBound, BoundTo, EndsInGate;
      ghost var before := State();
      var caseStartedAt, gateNotBefore, failed, gate;
      caseStartedAt, gateNotBefore, failed, gate, b := CaseThenGate(env, case_);
      ghost var middle, k := State(), env.calls;
      FinishOrdinaryCase(env, case_, gate, caseStartedAt, gateNotBefore, failed);
      passed := !failed && gate.confirmed;
      if HealthyRun(env) && OnTrack(before, env, old(env.calls)) {
        TrackContinues(before, middle, State(), env, old(env.calls), k, gate, gateNotBefore, caseStartedAt, case_);
      }
      if AllBound(before.readbacks, before.transitions) {
        BoundGrows(middle.readbacks, middle.transitions, readbacks, transitions);
      }
    }

    /** The case with its cleanup, then the gate. */
    method CaseThenGate(env: Environment, case_: Case)
      returns (caseStartedAt: Timestamp, gateNotBefore: Timestamp, failed: bool, gate: AutoGate, ghost b: Block)
      requires case_ != Reboot
      modifies this`transitions, this`readbacks, this`faults, env
      ensures b.OrdinaryBlock? && b.case_ == case_ && env.trace == old(env.trace) + Events(b)
      ensures (gate.confirmed ==> Confirms(b) && gate.pair.Some?) && (gate.confirmed <==> faults == old(faults))
      ensures old(transitions) <= transitions && old(readbacks) <= readbacks && old(faults) <= faults
      ensures AllBound(old(readbacks), old(transitions)) ==> AllBound(readbacks, transitions)
      ensures env.calls >= old(env.calls) + 12
      ensures HealthyRun(env) && OnTrack(old(State()), env, old(env.calls)) ==>
                && !failed && gate.confirmed && gate.Found() == Some(env.ids) && faults == []
                && caseStartedAt == env.clock(old(env.calls) + 1) && Past(env, env.calls - 6, gateNotBefore)
                && Between(env, env.calls - 3, gate.completedAt) && EndsInGate(readbacks, env.ids) && BoundTo(readbacks, transitions, bootId)
    {
      hide HasNonblank, DistinctIdentities, HealthyRun, Healthy, Between, Past, OnTrack, AllBound, BoundTo;
      ghost var start, before := env.trace, State();
      if HealthyRun(env) && OnTrack(before, env, env.calls) {
        TrackIsReady(before, env, env.calls);
      }
      caseStartedAt, gateNotBefore, failed := PerformCase(env, case_);
      ghost var cpuRead, gpuRead;
      gate, cpuRead, gpuRead := ConfirmAutoGate(env, gateNotBefore, identities, Some(bootId), false);
      b := OrdinaryBlock(case_, cpuRead, gpuRead);
      assert env.trace == start + Events(b);
      if AllBound(before.readbacks, before.transitions) {
        BoundGrows(before.readbacks, before.transitions, readbacks, transitions);
      }
      if HealthyRun(env) && OnTrack(before, env, old(env.calls)) {
        StaysBoundTo(before.readbacks, before.transitions, readbacks, transitions, bootId);
      }
    }

    method FinishOrdinaryCase(env: Environment, case_: Case, gate: AutoGate, caseStartedAt: Timestamp, gateNotBefore: Timestamp, failed: bool)
      modifies this`faults, this`lastEventAt, this`finalAutoConfirmed, this`identities, this`transitions, this`cases, env`calls
      ensures faults == if failed then old(faults) + [FaultRecord(gate.completedAt, Some(bootId), CaseFailed)] else old(faults)
      ensures finalAutoConfirmed == gate.confirmed && identities == if gate.confirmed then gate.Found() else old(identities)
      ensures env.calls == old(env.calls) + 1
      ensures var restoredAt := StrictlyAfter(env.clock(old(env.calls)), gate.completedAt);
              && lastEventAt == Later(old(lastEventAt), Later(restoredAt, gate.completedAt))
              && transitions == old(transitions) + [Transition(restoredAt, Some(bootId), InCase(case_), if gate.confirmed then FirmwareAuto else Blocked)]
      ensures cases == old(cases) + [CaseResult(case_, caseStartedAt, gateNotBefore, None, !failed && gate.confirmed)]
    {
      if failed {
        faults := faults + [FaultRecord(gate.completedAt, Some(bootId), CaseFailed)];
      }
      var now := env.Now();
      var restoredAt := StrictlyAfter(now, gate.completedAt);
      lastEventAt := Later(lastEventAt, Later(restoredAt, gate.completedAt));
      finalAutoConfirmed := gate.confirmed;
      if gate.confirmed {
        identities := gate.Found();
      }
      transitions := transitions + [Transition(restoredAt, Some(bootId), InCase(case_), if finalAutoConfirmed then FirmwareAuto else Blocked)];
      cases := cases + [CaseResult(case_, caseStartedAt, gateNotBefore, None, !failed && finalAutoConfirmed)];
    }

    // -------------------------------------------------------------- the reboot case

    /** Picks the case up after the reboot; unbound evidence gets the boot it was made in. */
    method BeginReboot(env: Environment)
      returns (caseStartedAt: Timestamp, observedAt: Timestamp, c: Option<Continuation>, failed: bool, postBootId: string)
      modifies this`readbacks, this`transitions, env
      ensures env.trace == old(env.trace) + [ResumeReboot]
      ensures c.None? ==> failed
      ensures !failed ==> c.value.completed && c.value.bootBefore == bootId && c.value.bootAfter != bootId
      ensures HealthyReboot(env, bootId, old(identities), lastEventAt) ==> !failed && Past(env, env.calls, observedAt)
      ensures AllBound(old(readbacks), old(transitions)) ==>
                && readbacks == old(readbacks) && AllBound(readbacks, transitions)
                && old(transitions) <= transitions && |transitions| == |old(transitions)| + 1
    {
      hide IsIdentifier, StrictlyAfter, HealthyReboot, Past, AllBound;
      ghost var k := env.calls;
      var requestedAt;
      requestedAt, caseStartedAt := RequestCase(env, Reboot);
      if AllBound(old(readbacks), old(transitions)) {
        BoundGrows(old(readbacks), old(transitions), readbacks, transitions);
      }
      if HealthyReboot(env, bootId, identities, lastEventAt) {
        RebootTimes(env, k, bootId, identities, lastEventAt, requestedAt, caseStartedAt);
      }
      c := env.ResumeAfterReboot();
      observedAt := env.Now();
      failed := true;
      var preBootId := UNVERIFIED_PRE_REBOOT;
      postBootId := UNVERIFIED_POST_REBOOT;
      if c.Some? {
        var current := env.CurrentBootId();
        failed := current.None? || !ContinuationValid(c.value, caseStartedAt, observedAt, bootId, current.value);
        if BootIdsValid(c.value.bootBefore, c.value.bootAfter) {
          preBootId, postBootId := c.value.bootBefore, c.value.bootAfter;
        }
      }
      BindEvidence(preBootId);
    }

    /** Evidence that carries no boot identity gets this one; bound evidence is left alone. */
    method BindEvidence(preBootId: string)
      modifies this`readbacks, this`transitions
      ensures AllBound(old(readbacks), old(transitions)) ==> readbacks == old(readbacks) && transitions == old(transitions)
    {
      readbacks := FillReadbacks(readbacks, preBootId);
      transitions := FillTransitions(transitions, preBootId);
    }

    /** Arms once, and only behind a confirmed gate on unambiguous endpoints. */
    method ArmBehindGate(env: Environment, gate: AutoGate, failedBefore: bool)
      returns (armed: Option<ArmObservation>, failed: bool, ghost called: bool)
      requires gate.confirmed ==> gate.pair.Some?
      modifies this`identities, env
      ensures env.trace == old(env.trace) + (if called then [ArmReboot] else [])
      ensures called ==> gate.confirmed && !failedBefore
      ensures !failed ==> called && armed.Some? && armed.value.armedAt.mono > gate.completedAt.mono && identities.Some?
      ensures called && old(identities).Some? ==>
                gate.pair.value.cpu.identity != old(identities).value.gpu && gate.pair.value.gpu.identity != old(identities).value.cpu
      ensures old(identities).Some? ==> identities.Some?
      ensures env.calls >= old(env.calls)
      ensures HealthyReboot(env, bootId, old(identities), lastEventAt) && gate.confirmed && gate.Found() == Some(env.ids) && !failedBefore
              && old(env.calls) > 0 && Past(env, old(env.calls) - 1, gate.completedAt) ==>
                !failed && env.calls > 0 && Past(env, env.calls - 1, armed.value.armedAt)
    {
      hide HasNonblank;
      assert HealthyReboot(env, bootId, identities, lastEventAt) && env.calls > 0 ==> Arms(env, env.calls - 1);
      armed, failed, called := None, true, false;
      if !failedBefore && gate.confirmed {
        var rebound := Rebound(gate.pair.value, identities);
        if rebound.Some? {
          var answer := env.ArmAfterReboot();
          called := true;
          var completedAt := env.Now();
          if answer.Some? && gate.completedAt.mono < answer.value.armedAt.mono <= completedAt.mono && HasNonblank(answer.value.controller) {
            armed, failed := answer, false;
            identities := rebound;
          }
        }
      }
    }

    /** Restores the controller and closes with a terminal gate, whether or not it was ever armed. */
    method RestoreAndGate(env: Environment, armed: Option<ArmObservation>, expected: Option<Identities>, postBootId: string)
      returns (restoredAt: Option<Timestamp>, gate: AutoGate, ghost cpuRead: Option<Observation>, ghost gpuRead: Option<Observation>)
      modifies this`readbacks, this`faults, env
      ensures env.trace == old(env.trace) + [RestoreReboot] + Gate(cpuRead, gpuRead)
      ensures gate.confirmed ==> ShowsAuto(cpuRead) && ShowsAuto(gpuRead) && gate.pair == Some(AutoPair(cpuRead.value, gpuRead.value))
      ensures gate.confirmed && expected.Some? ==> gate.Found() == expected
      ensures gate.confirmed && restoredAt.Some? ==> ReadSince(gate.pair.value, restoredAt.value)
      ensures restoredAt.Some? && armed.Some? ==> armed.value.armedAt.mono < restoredAt.value.mono && armed.value.armedAt.wall < restoredAt.value.wall
      ensures gate.confirmed <==> faults == old(faults)
      ensures old(faults) <= faults && old(readbacks) <= readbacks
      ensures forall i :: |old(readbacks)| <= i < |readbacks| ==> readbacks[i].bootId.Some?
      ensures Healthy(env) && (forall k: nat :: Restores(env, k)) && (expected.None? || expected.value == env.ids) && old(env.calls) > 0
              && (armed.Some? ==> Past(env, old(env.calls) - 1, armed.value.armedAt)) ==>
                restoredAt.Some? && gate.confirmed
    {
      hide HasNonblank, DistinctIdentities;
      assert (forall k: nat :: Restores(env, k)) && env.calls > 0 ==> Restores(env, env.calls - 1);
      var answer := env.RestoreAfterReboot();
      var completedAt := env.Now();
      restoredAt := None;
      if answer.Some? && NotBefore(completedAt, answer.value)
         && (armed.None? || (answer.value.mono > armed.value.armedAt.mono && answer.value.wall > armed.value.armedAt.wall)) {
        restoredAt := answer;
      }
      gate, cpuRead, gpuRead := ConfirmAutoGate(env, if restoredAt.Some? then restoredAt.value else completedAt, expected, Some(postBootId), true);
    }

    /** The post-boot part: gate, arm if it holds, restore, terminal gate. */
    method GateArmRestore(env: Environment, observedAt: Timestamp, failedBefore: bool, postBootId: string)
      returns (gate: AutoGate, armed: Option<ArmObservation>, restoredAt: Option<Timestamp>, terminal: AutoGate, failed: bool, ghost b: Block)
      modifies this`readbacks, this`faults, this`identities, env
      ensures b.RebootBlock? && WellFormedBlock(b) && env.trace == old(env.trace) + AfterResume(b)
      ensures !failed ==> !failedBefore && Confirms(b) && b.armed && faults == old(faults) && gate.confirmed
      ensures !failed ==>
                && gate.pair.Some? && armed.Some? && restoredAt.Some? && terminal.pair.Some?
                && ArmedInBetween(gate.pair.value, armed.value, restoredAt.value, terminal.pair.value, old(identities))
      ensures (gate.confirmed ==> gate.pair.Some?) && (!terminal.confirmed ==> failed)
      ensures old(faults) <= faults && old(readbacks) <= readbacks
      ensures forall i :: |old(readbacks)| <= i < |readbacks| ==> readbacks[i].bootId.Some?
      ensures old(identities).Some? ==> identities.Some?
      ensures HealthyReboot(env, bootId, old(identities), lastEventAt) && Past(env, old(env.calls), observedAt) && !failedBefore ==> !failed
    {
      hide HasNonblank, DistinctIdentities, BootIdsValid, ReadSince;
      ghost var cpuRead, gpuRead, cpuAfter, gpuAfter, called;
      gate, cpuRead, gpuRead := ConfirmAutoGate(env, observedAt, None, Some(postBootId), true);
      armed, failed, called := ArmBehindGate(env, gate, failedBefore);
      restoredAt, terminal, cpuAfter, gpuAfter := RestoreAndGate(env, armed, gate.Found(), postBootId);
      b := RebootBlock(cpuRead, gpuRead, called, cpuAfter, gpuAfter);
      failed := failed || restoredAt.None? || !terminal.confirmed;
    }

    method RunReboot(env: Environment) returns (passed: bool, ghost b: Block)
      modifies this, env
      ensures b.RebootBlock? && WellFormedBlock(b) && env.trace == old(env.trace) + Events(b)
      ensures passed ==> Confirms(b) && b.armed && finalAutoConfirmed
      ensures passed <==> faults == old(faults)
      ensures HealthyReboot(env, bootId, old(identities), old(lastEventAt)) ==> passed
      ensures Recorded(old(State()), State(), Reboot, passed)
      ensures passed ==> cases[|old(cases)|].reboot.Some? && RebootProven(cases[|old(cases)|].reboot.value, bootId, old(identities))
      ensures AllBound(old(readbacks), old(transitions)) ==> Extends(old(State()), State()) && AllBound(readbacks, transitions)
      ensures old(identities).Some? ==> identities.Some?
    {
      hide Confirms, WellFormedBlock, AfterResume, AllBound, HealthyReboot, Past, ArmedInBetween;
      ghost var start := env.trace;
      RebootIsAttested(env, bootId, identities, lastEventAt);
      var caseStartedAt, observedAt, c, failed, postBootId := BeginReboot(env);
      ghost var r1, t1 := readbacks, transitions;
      var gate, armed, restoredAt, terminal, unsafe;
      gate, armed, restoredAt, terminal, unsafe, b := GateArmRestore(env, observedAt, failed, postBootId);
      assert env.trace == start + Events(b);
      failed := failed || unsafe;
      finalAutoConfirmed := terminal.confirmed;
      if c.Some? {
        var attested := env.Attested();
        failed := failed || !attested;
      }
      FinishReboot(env, gate, terminal, c, armed, restoredAt, caseStartedAt, postBootId, failed);
      passed := !failed;
      if AllBound(r1, t1) {
        BoundGrows(r1, t1, readbacks, transitions);
      }
    }

    method FinishReboot(env: Environment, gate: AutoGate, terminal: AutoGate, c: Option<Continuation>, armed: Option<ArmObservation>,
                        restoredAt: Option<Timestamp>, caseStartedAt: Timestamp, postBootId: string, failed: bool)
      requires (gate.confirmed ==> gate.pair.Some?) && (!finalAutoConfirmed ==> failed)
      modifies this`faults, this`lastEventAt, this`identities, this`transitions, this`cases, env`calls
      ensures faults == old(faults) || (failed && old(faults) <= faults && |faults| > |old(faults)|)
      ensures failed ==> faults != old(faults)
      ensures |transitions| == |old(transitions)| + 1 && old(transitions) <= transitions && transitions[|old(transitions)|].bootId.Some?
      ensures |cases| == |old(cases)| + 1 && old(cases) <= cases
      ensures cases[|old(cases)|].case_ == Reboot && cases[|old(cases)|].passed == !failed
      ensures !failed && c.Some? && gate.confirmed && armed.Some? && terminal.confirmed ==>
                cases[|old(cases)|].reboot == Some(RebootObservation(c.value, gate.pair, armed, restoredAt, terminal.pair))
      ensures old(identities).Some? ==> identities.Some?
    {
      if failed {
        faults := faults + [FaultRecord(gate.completedAt, Some(postBootId), CaseFailed)];
      }
      var now := env.Now();
      lastEventAt := StrictlyAfter(now, lastEventAt);
      if gate.confirmed {
        identities := gate.Found();
      }
      transitions := transitions + [Transition(now, Some(postBootId), InCase(Reboot), if finalAutoConfirmed then FirmwareAuto else Blocked)];
      var before := if gate.confirmed && armed.Some? then gate.pair else None;
      var observation := if c.None? then None
                         else Some(RebootObservation(c.value, before, armed, restoredAt, if terminal.confirmed then terminal.pair else None));
      cases := cases + [CaseResult(Reboot, caseStartedAt, terminal.completedAt, observation, !failed && finalAutoConfirmed)];
    }

    // -------------------------------------------------------------- phases

    /** The first gate; if it fails, one cleanup and one more gate, after which no case can run. */
    method OpenGate(env: Environment, notBefore: Timestamp) returns (ghost prefix: Trace)
      requires faults == []
      modifies this, env
      ensures env.trace == old(env.trace) + prefix && Quiet(prefix)
      ensures finalAutoConfirmed && faults == [] ==> AutoJustBefore(prefix, |prefix|)
      ensures finalAutoConfirmed || faults != []
      ensures cases == old(cases)
      ensures HealthyRun(env) && JustBegun(old(State()), env, old(env.calls), notBefore) ==> OnTrack(State(), env, env.calls)
    {
      hide HasNonblank, DistinctIdentities;
      var gate, cpuRead, gpuRead := ConfirmAutoGate(env, notBefore, identities, Some(bootId), false);
      prefix := Gate(cpuRead, gpuRead);
      lastEventAt := Later(lastEventAt, gate.completedAt);
      finalAutoConfirmed := gate.confirmed;
      if !gate.confirmed {
        ghost var more := RetryGate(env, gate.completedAt);
        prefix := prefix + more;
      }
    }

    /** One cleanup and one more gate; the fault of the first gate stays. */
    method RetryGate(env: Environment, failedAt: Timestamp) returns (ghost more: Trace)
      requires faults != []
      modifies this, env
      ensures env.trace == old(env.trace) + more && Quiet(more)
      ensures faults != [] && cases == old(cases)
    {
      var cleanup := env.RestoreAfterCase(InvalidConfiguration);
      var completedAt := env.Now();
      if cleanup.None? || !NotBefore(cleanup.value, failedAt) || !NotBefore(completedAt, cleanup.value) {
        faults := faults + [FaultRecord(completedAt, Some(bootId), InitialRecoveryFailed)];
      }
      lastEventAt := Later(lastEventAt, completedAt);
      var gate, cpuRead, gpuRead := ConfirmAutoGate(env, lastEventAt, identities, Some(bootId), false);
      more := [Cleanup(InvalidConfiguration)] + Gate(cpuRead, gpuRead);
      lastEventAt := Later(lastEventAt, gate.completedAt);
      finalAutoConfirmed := gate.confirmed;
    }

    method RunNext(env: Environment, case_: Case) returns (passed: bool, ghost b: Block)
      modifies this, env
      ensures WellFormedBlock(b) && BlockCase(b) == case_ && env.trace == old(env.trace) + Events(b)
      ensures passed ==> Confirms(b) && finalAutoConfirmed && (b.RebootBlock? ==> b.armed)
      ensures passed <==> faults == old(faults)
      ensures Recorded(old(State()), State(), case_, passed)
      ensures Kept(old(State()), State())
      ensures case_ != Reboot && HealthyRun(env) && OnTrack(old(State()), env, old(env.calls)) ==> passed && OnTrack(State(), env, env.calls)
      ensures case_ == Reboot && HealthyReboot(env, bootId, old(identities), old(lastEventAt)) ==> passed
      ensures case_ == Reboot ==> RebootRecorded(old(State()), State())
    {
      hide Events, Confirms, AllBound, Extends, HealthyRun, OnTrack, HealthyReboot, RebootProven;
      if case_ == Reboot {
        passed, b := RunReboot(env);
      } else {
        passed, b := RunOrdinaryCase(env, case_);
      }
    }

    /**
     * Runs the remaining cases in order. The calls made are exactly the blocks of the cases recorded;
     * a case is run only if all before it passed; nothing bound to a boot is ever rewritten. The report is
     * accepted when all eight cases passed without a fault and the last gate confirmed Auto.
     */
    method RunPhase(env: Environment, pauseBeforeReboot: bool) returns (r: Result<Progress, PlanError>, ghost blocks: seq<Block>)
      requires |cases| <= |ALL_CASES|
      modifies this, env
      ensures env.trace == old(env.trace) + Flatten(blocks) && CasesRun(old(State()), State(), blocks)
      ensures blocks != [] ==> old(finalAutoConfirmed) && old(faults) == []
      ensures Kept(old(State()), State())
      ensures PassedSoundly(old(State()), State(), blocks)
      ensures r.Ok? && r.value.Complete? ==> r.value.report.state == State()
      ensures r.Ok? && r.value.Complete? ==>
                (r.value.report.accepted <==>
                 |cases| == |ALL_CASES| && (forall i :: 0 <= i < |cases| ==> cases[i].passed) && faults == [] && finalAutoConfirmed)
      ensures r.Ok? && r.value.Complete? && pauseBeforeReboot && |old(cases)| < |ALL_CASES| ==>
                |cases| < |ALL_CASES| && (faults != [] || (!old(finalAutoConfirmed) && faults == old(faults)))
      ensures r.Ok? && r.value.AwaitingReboot? ==>
                r.value.checkpoint == State() && ValidCheckpoint(State()) && AllPassed(old(State()), State(), blocks)
      ensures pauseBeforeReboot && old(cases) == [] && HealthyRun(env) && env.bootIds(0) == Some(bootId)
              && OnTrack(old(State()), env, old(env.calls)) ==>
                r.Ok? && r.value.AwaitingReboot?
      ensures !pauseBeforeReboot && old(faults) == [] && old(finalAutoConfirmed) && |old(cases)| == |ALL_CASES| - 1
              && (forall i :: 0 <= i < |old(cases)| ==> old(cases)[i].passed)
              && HealthyReboot(env, bootId, old(identities), old(lastEventAt)) ==>
                r.Ok? && r.value.Complete? && r.value.report.accepted
      ensures RebootRecorded(old(State()), State())
      ensures !pauseBeforeReboot ==> r.Ok? && r.value.Complete?
      ensures !pauseBeforeReboot && old(finalAutoConfirmed) && old(faults) == [] && |old(cases)| < |ALL_CASES| ==> blocks != []
    {
      hide CasesRun, AllPassed, PassedSoundly, Kept, ValidCheckpoint, Flatten, HealthyRun, OnTrack, HealthyReboot, RebootRecorded;
      blocks := [];
      TrackIsOpen(State(), env, env.calls);
      EmptyPhase(State(), env.trace);
      var paused := false;
      if finalAutoConfirmed && faults == [] {
        paused, blocks := RunCases(env, pauseBeforeReboot);
      }
      if paused {
        TrackIsCheckpoint(old(State()), State(), env, env.calls, blocks);
        var current := env.CurrentBootId();
        if current != Some(bootId) || !ValidCheckpoint(State()) {
          return Err(InvalidCheckpoint), blocks;
        }
        return Ok(AwaitingReboot(State())), blocks;
      }
      AllPassedTogether(old(State()), State(), blocks);
      var now := env.Now();
      r := Ok(Complete(Report(State(), Normalize(now, lastEventAt), Accepted(State()))));
    }

    /** The loop over the remaining cases; stops before the reboot if asked to, and at the first case that fails. */
    method RunCases(env: Environment, pauseBeforeReboot: bool) returns (paused: bool, ghost blocks: seq<Block>)
      requires |cases| <= |ALL_CASES|
      modifies this, env
      ensures Progressed(old(State()), State(), old(env.trace), env.trace, blocks)
      ensures PassedSoundly(old(State()), State(), blocks)
      ensures paused ==> pauseBeforeReboot && AllPassed(old(State()), State(), blocks)
      ensures !paused && |old(cases)| < |ALL_CASES| ==> blocks != []
      ensures !paused && pauseBeforeReboot && |old(cases)| < |ALL_CASES| ==> |cases| < |ALL_CASES| && faults != old(faults)
      ensures pauseBeforeReboot && |old(cases)| < |ALL_CASES| && HealthyRun(env) && OnTrack(old(State()), env, old(env.calls)) ==>
                paused && |cases| == |ALL_CASES| - 1 && OnTrack(State(), env, env.calls)
      ensures !pauseBeforeReboot && |old(cases)| == |ALL_CASES| - 1 && HealthyReboot(env, bootId, old(identities), old(lastEventAt)) ==>
                AllPassed(old(State()), State(), blocks) && |cases| == |ALL_CASES|
      ensures RebootRecorded(old(State()), State())
    {
      blocks := [];
      EmptyPhase(State(), env.trace);
      RebootIsLast();
      hide Progressed, AllPassed, PassedSoundly, Kept, Events, WellFormedBlock, BlockCase, Confirms, Recorded, HealthyRun, OnTrack, HealthyReboot, ALL_CASES, RebootRecorded;
      var i := |cases|;
      while i < |ALL_CASES|
        invariant |old(cases)| <= i <= |ALL_CASES| && i == |cases|
        invariant Progressed(old(State()), State(), old(env.trace), env.trace, blocks) && AllPassed(old(State()), State(), blocks)
        invariant PassedSoundly(old(State()), State(), blocks)
        invariant i > |old(cases)| ==> blocks != []
        invariant pauseBeforeReboot && |old(cases)| < |ALL_CASES| ==> i < |ALL_CASES|
        invariant pauseBeforeReboot && HealthyRun(env) && OnTrack(old(State()), env, old(env.calls)) ==> OnTrack(State(), env, env.calls)
        invariant i == |old(cases)| ==> identities == old(identities) && lastEventAt == old(lastEventAt)
        invariant RebootRecorded(old(State()), State())
      {
        if pauseBeforeReboot && ALL_CASES[i] == Reboot {
          return true, blocks;
        }
        ghost var middle, heard := State(), env.trace;
        var passed, b := RunNext(env, ALL_CASES[i]);
        OneMoreCase(old(State()), middle, State(), old(env.trace), heard, blocks, b, passed);
        RebootStaysRecorded(old(State()), middle, State());
        blocks := blocks + [b];
        i := i + 1;
        if !passed {
          break;
        }
      }
      paused := false;
    }
  }

  lemma RebootIsLast()
    ensures |ALL_CASES| == 8 && forall i :: 0 <= i < |ALL_CASES| ==> (ALL_CASES[i] == Reboot <==> i == 7)
  {
  }

  lemma TrackIsOpen(c: Checkpoint, env: Environment, k: nat)
    ensures OnTrack(c, env, k) ==> c.finalAutoConfirmed && c.faults == []
  {
  }

  /** A healthy run that has come to the reboot can be checkpointed. */
  lemma TrackIsCheckpoint(before: Checkpoint, after: Checkpoint, env: Environment, k: nat, blocks: seq<Block>)
    requires CasesRun(before, after, blocks)
    ensures HealthyRun(env) ==> env.bootIds(k) == env.bootIds(0)
    ensures before.cases == [] && HealthyRun(env) && env.bootIds(0) == Some(after.bootId) && OnTrack(after, env, k) && |after.cases| == |ALL_CASES| - 1
            ==> ValidCheckpoint(after)
  {
    hide IsIdentifier, HasNonblank, CleansUp, ReadsAuto, Orderly;
  }

  /** What was passed before and what passed since. */
  lemma AllPassedTogether(before: Checkpoint, after: Checkpoint, blocks: seq<Block>)
    requires CasesRun(before, after, blocks)
    ensures AllPassed(before, after, blocks) && (forall i :: 0 <= i < |before.cases| ==> before.cases[i].passed) ==>
              forall i :: 0 <= i < |after.cases| ==> after.cases[i].passed
    ensures AllPassed(before, after, blocks) ==> after.faults == before.faults && (blocks != [] ==> after.finalAutoConfirmed)
  {
    hide Confirms, Orderly;
  }

  /** If the reboot is what was recorded since `before`, and it passed, its evidence proves it. */
  ghost predicate RebootRecorded(before: Checkpoint, after: Checkpoint) {
    |before.cases| == 7 && |after.cases| == 8 && after.cases[7].passed ==>
      after.cases[7].reboot.Some? && RebootProven(after.cases[7].reboot.value, before.bootId, before.identities)
  }

  lemma RebootStaysRecorded(before: Checkpoint, middle: Checkpoint, after: Checkpoint)
    requires |before.cases| <= |middle.cases| && |after.cases| == |middle.cases| + 1 && middle.bootId == before.bootId
    requires |middle.cases| == |before.cases| ==> middle.identities == before.identities
    requires |middle.cases| == 7 ==> RebootRecorded(middle, after)
    ensures RebootRecorded(before, after)
  {
  }

  lemma EmptyPhase(c: Checkpoint, heard: Trace)
    requires |c.cases| <= |ALL_CASES|
    ensures RebootRecorded(c, c)
    ensures Progressed(c, c, heard, heard, []) && AllPassed(c, c, []) && PassedSoundly(c, c, [])
  {
  }

  /** The calls heard since `begun` are the blocks, which account for the cases recorded. */
  ghost predicate Progressed(before: Checkpoint, after: Checkpoint, begun: Trace, heard: Trace, blocks: seq<Block>) {
    heard == begun + Flatten(blocks) && CasesRun(before, after, blocks) && Kept(before, after)
  }

  /** One block per case recorded since `before`, in order, each case run only after all earlier ones passed. */
  ghost predicate CasesRun(before: Checkpoint, after: Checkpoint, blocks: seq<Block>) {
    && Orderly(blocks, |before.cases|)
    && |after.cases| == |before.cases| + |blocks| && before.cases <= after.cases
    && (forall i :: |before.cases| <= i < |after.cases| ==> after.cases[i].case_ == ALL_CASES[i])
    && (forall i :: |before.cases| <= i < |after.cases| - 1 ==> after.cases[i].passed)
  }

  /** Every case recorded since `before` passed, its block ended in Auto, a reboot was armed, and no fault was added. */
  ghost predicate AllPassed(before: Checkpoint, after: Checkpoint, blocks: seq<Block>) {
    && (forall i :: |before.cases| <= i < |after.cases| ==> after.cases[i].passed)
    && (forall i :: 0 <= i < |blocks| ==> Confirms(blocks[i]))
    && (forall i :: 0 <= i < |blocks| ==> blocks[i].RebootBlock? ==> blocks[i].armed)
    && after.faults == before.faults && (blocks != [] ==> after.finalAutoConfirmed)
  }

  /** A phase whose last recorded case passed is one in which all is well. */
  ghost predicate PassedSoundly(before: Checkpoint, after: Checkpoint, blocks: seq<Block>) {
    (forall i :: |before.cases| <= i < |after.cases| ==> after.cases[i].passed) ==> AllPassed(before, after, blocks)
  }

  /** If all evidence was bound to its boot, it is still there unchanged and what was added is bound too. */
  ghost predicate Kept(before: Checkpoint, after: Checkpoint) {
    AllBound(before.readbacks, before.transitions) ==> Extends(before, after) && AllBound(after.readbacks, after.transitions)
  }

  lemma KeptTrans(a: Checkpoint, b: Checkpoint, c: Checkpoint)
    requires Kept(a, b) && Kept(b, c)
    ensures Kept(a, c)
  {
  }

  lemma OneMoreBlock(blocks: seq<Block>, b: Block, first: nat)
    requires Orderly(blocks, first) && first + |blocks| < |ALL_CASES|
    requires forall i :: 0 <= i < |blocks| ==> Confirms(blocks[i])
    requires WellFormedBlock(b) && BlockCase(b) == ALL_CASES[first + |blocks|]
    ensures Orderly(blocks + [b], first) && Flatten(blocks + [b]) == Flatten(blocks) + Events(b)
  {
    FlattenOneMore(blocks, b);
    hide Events, Confirms, WellFormedBlock, BlockCase, Flatten, ALL_CASES;
    var more := blocks + [b];
    forall i | 0 <= i < |more| ensures WellFormedBlock(more[i]) && BlockCase(more[i]) == ALL_CASES[first + i] {
      assert more[i] == (if i < |blocks| then blocks[i] else b);
    }
  }

  lemma FlattenOneMore(blocks: seq<Block>, b: Block)
    ensures Flatten(blocks + [b]) == Flatten(blocks) + Events(b)
  {
  }

  lemma OneMoreRecorded(before: Checkpoint, middle: Checkpoint, after: Checkpoint, case_: Case, passed: bool)
    requires before.cases <= middle.cases && Recorded(middle, after, case_, passed)
    requires forall i :: |before.cases| <= i < |middle.cases| ==> middle.cases[i].passed
    requires |after.cases| <= |ALL_CASES| && case_ == ALL_CASES[|middle.cases|]
    requires forall i :: |before.cases| <= i < |middle.cases| ==> middle.cases[i].case_ == ALL_CASES[i]
    ensures before.cases <= after.cases
    ensures forall i :: |before.cases| <= i < |middle.cases| ==> after.cases[i].passed
    ensures forall i :: |before.cases| <= i < |after.cases| ==> after.cases[i].case_ == ALL_CASES[i]
  {
  }

  lemma OneMoreCase(before: Checkpoint, middle: Checkpoint, after: Checkpoint, begun: Trace, heard: Trace, blocks: seq<Block>, b: Block, passed: bool)
    requires Progressed(before, middle, begun, heard, blocks) && AllPassed(before, middle, blocks)
    requires |middle.cases| < |ALL_CASES| && WellFormedBlock(b) && BlockCase(b) == ALL_CASES[|middle.cases|]
    requires Recorded(middle, after, BlockCase(b), passed) && Kept(middle, after)
    requires passed ==> Confirms(b) && (b.RebootBlock? ==> b.armed) && after.faults == middle.faults && after.finalAutoConfirmed
    ensures Progressed(before, after, begun, heard + Events(b), blocks + [b])
    ensures passed ==> AllPassed(before, after, blocks + [b])
    ensures PassedSoundly(before, after, blocks + [b])
    ensures |after.cases| == |middle.cases| + 1
    ensures middle.faults == before.faults
  {
    hide Events, Confirms, WellFormedBlock, BlockCase, Kept, Flatten, Orderly;
    KeptTrans(before, middle, after);
    OneMoreBlock(blocks, b, |before.cases|);
    OneMoreRecorded(before, middle, after, BlockCase(b), passed);
    assert heard + Events(b) == begun + (Flatten(blocks) + Events(b));
  }

  // ---------------------------------------------------------------- the two entry points

  /**
   * Runs up to the reboot, from a first gate that is retried once behind a cleanup. `admitted` stands for
   * the checks of envelope, prerequisite binding and prerequisite endpoints. A report made before the reboot
   * is never accepted and always carries a fault; if nothing is wrong, the run gets to the reboot.
   */
  method RunUntilReboot(env: Environment, endpoints: Identities, admitted: bool) returns (r: Result<Progress, PlanError>, ghost made: Trace)
    modifies env
    ensures env.trace == old(env.trace) + made && SafeTrace(made)
    ensures r.Ok? && r.value.AwaitingReboot? ==>
              ValidCheckpoint(r.value.checkpoint) && AutoJustBefore(made, |made|) && NoReboot(made)
    ensures r.Ok? && r.value.Complete? ==>
              !r.value.report.accepted && |r.value.report.state.cases| < |ALL_CASES| && r.value.report.state.faults != []
    ensures admitted && HealthyRun(env) && endpoints == env.ids ==> r.Ok? && r.value.AwaitingReboot?
  {
    hide HealthyRun, HealthyReboot, OnTrack, Past, JustBegun, Quiet, SafeTrace, ValidCheckpoint, CasesRun, AllPassed, PassedSoundly, Kept;
    hide NoReboot, IsIdentifier, AutoJustBefore, Flatten;
    RunStarts(env, env.calls);
    NothingIsSafe();
    made := [];
    if !admitted {
      return Err(InvalidCheckpoint), made;
    }
    var bootId := env.CurrentBootId();
    if bootId.None? || !IsIdentifier(bootId.value) {
      return Err(InvalidCheckpoint), made;
    }
    var startedAt := env.Now();
    var run := new LifecycleRun(Checkpoint(startedAt, startedAt, [], [], [], [], Some(endpoints), false, bootId.value));
    ghost var prefix := run.OpenGate(env, startedAt);
    ghost var before := run.State();
    ghost var blocks;
    r, blocks := run.RunPhase(env, true);
    made := prefix + Flatten(blocks);
    PhaseIsSafe(prefix, before, run.State(), blocks);
  }

  lemma NothingIsSafe()
    ensures SafeTrace([])
  {
  }

  lemma RunStarts(env: Environment, k: nat)
    ensures HealthyRun(env) ==>
              && env.bootIds(k) == env.bootIds(0) && env.bootIds(0).Some? && IsIdentifier(env.bootIds(0).value)
              && JustBegun(Checkpoint(env.clock(k + 1), env.clock(k + 1), [], [], [], [], Some(env.ids), false, env.bootIds(0).value),
                           env, k + 2, env.clock(k + 1))
  {
  }

  /** What a phase that starts from the first gate may conclude about its calls. */
  lemma PhaseIsSafe(prefix: Trace, before: Checkpoint, after: Checkpoint, blocks: seq<Block>)
    requires Quiet(prefix) && before.cases == [] && CasesRun(before, after, blocks)
    requires blocks != [] ==> AutoJustBefore(prefix, |prefix|)
    ensures SafeTrace(prefix + Flatten(blocks))
    ensures AllPassed(before, after, blocks) && ValidCheckpoint(after) ==>
              var t := prefix + Flatten(blocks); AutoJustBefore(t, |t|) && NoReboot(t)
  {
    hide SafeTrace, Confirms, Flatten, WellFormedBlock, AutoJustBefore;
    LanguageIsSafe(prefix, blocks, 0);
    if AllPassed(before, after, blocks) && ValidCheckpoint(after) {
      FlattenEndsInAuto(prefix, blocks);
      forall i | 0 <= i < |blocks| ensures blocks[i].OrdinaryBlock? {
        assert BlockCase(blocks[i]) == ALL_CASES[i] != Reboot;
      }
      OrdinaryBlocksHaveNoReboot(blocks);
    }
  }

  lemma CheckpointIsReady(c: Checkpoint)
    requires ValidCheckpoint(c)
    ensures |c.cases| == |ALL_CASES| - 1 && c.finalAutoConfirmed && c.faults == [] && AllBound(c.readbacks, c.transitions)
    ensures forall i :: 0 <= i < |c.cases| ==> c.cases[i].passed
  {
  }

  /** Only the reboot is left to a resumed phase, and everything in the checkpoint is kept. */
  lemma ResumedPhase(c: Checkpoint, after: Checkpoint, blocks: seq<Block>)
    requires ValidCheckpoint(c) && CasesRun(c, after, blocks) && Kept(c, after) && blocks != []
    ensures Extends(c, after)
    ensures blocks[0].RebootBlock? && WellFormedBlock(blocks[0]) && Flatten(blocks) == Events(blocks[0])
    ensures |after.cases| == |ALL_CASES| && forall i :: 0 <= i < |after.cases| ==> after.cases[i].case_ == ALL_CASES[i]
    ensures |blocks| == 1 && forall i :: 0 <= i < |c.cases| ==> after.cases[i].passed
  {
    hide Events, Confirms, DistinctIdentities, IsIdentifier;
    assert ALL_CASES[|c.cases|] == Reboot;
    assert blocks == [blocks[0]];
  }

  /** Passing the reboot is all that acceptance needs, and it means armed behind a confirmed gate and back in Auto. */
  lemma ResumedOutcome(c: Checkpoint, after: Checkpoint, blocks: seq<Block>, begun: Trace)
    requires ValidCheckpoint(c) && CasesRun(c, after, blocks) && Kept(c, after) && blocks != [] && PassedSoundly(c, after, blocks)
    requires forall i :: 0 <= i < |after.cases| ==> after.cases[i].passed
    ensures after.faults == [] && after.finalAutoConfirmed && blocks[0].RebootBlock? && blocks[0].armed
    ensures ShowsAuto(blocks[0].cpu) && ShowsAuto(blocks[0].gpu)
    ensures var t := begun + Events(blocks[0]); AutoJustBefore(t, |t|)
  {
    ResumedPhase(c, after, blocks);
    hide Kept, CasesRun, Flatten, ShowsAuto, IsIdentifier, DistinctIdentities;
    var b, t := blocks[0], begun + Events(blocks[0]);
    assert Confirms(b);
    var n := |AfterResume(b)|;
    assert AfterResume(b)[n - 2..] == Gate(b.cpuAfter, b.gpuAfter);
    assert t[|t| - 2..] == Gate(b.cpuAfter, b.gpuAfter);
    assert t[|t| - 2] == Read(Cpu, b.cpuAfter) && t[|t| - 1] == Read(Gpu, b.gpuAfter);
  }

  /**
   * Completes the reboot case from a checkpoint. The report only appends to it, and a safe trace that led
   * to the checkpoint stays safe. It is accepted exactly when all eight cases are recorded in order and
   * passed, no fault is recorded and the last two calls read both fans in Auto; the reboot was then armed
   * behind a confirmed gate, and its evidence proves the new boot. If nothing is wrong it is accepted.
   */
  method Resume(env: Environment, c: Checkpoint) returns (r: Result<Report, PlanError>, ghost b: Block)
    modifies env
    ensures !ValidCheckpoint(c) ==> r.Err? && env.trace == old(env.trace)
    ensures ValidCheckpoint(c) ==> r.Ok? && Extends(c, r.value.state)
    ensures ValidCheckpoint(c) ==>
              (r.value.accepted <==>
               && |r.value.state.cases| == |ALL_CASES|
               && (forall i :: 0 <= i < |r.value.state.cases| ==> r.value.state.cases[i].case_ == ALL_CASES[i] && r.value.state.cases[i].passed)
               && r.value.state.faults == []
               && AutoJustBefore(env.trace, |env.trace|))
    ensures ValidCheckpoint(c) && HealthyReboot(env, c.bootId, c.identities, c.lastEventAt) ==> r.value.accepted
    ensures ValidCheckpoint(c) && r.value.accepted ==>
              var last := r.value.state.cases[|ALL_CASES| - 1]; last.reboot.Some? && RebootProven(last.reboot.value, c.bootId, c.identities)
    ensures ValidCheckpoint(c) && r.value.accepted ==> b.RebootBlock? && b.armed && ShowsAuto(b.cpu) && ShowsAuto(b.gpu)
    ensures ValidCheckpoint(c) ==> b.RebootBlock? && WellFormedBlock(b) && env.trace == old(env.trace) + Events(b)
    ensures ValidCheckpoint(c) && SafeTrace(old(env.trace)) && AutoJustBefore(old(env.trace), |old(env.trace)|) && NoReboot(old(env.trace))
            ==> SafeTrace(env.trace)
  {
    hide SafeTrace, ValidCheckpoint, WellFormedBlock, Events, NoReboot, AutoJustBefore, Extends, Kept, CasesRun, AllBound, PassedSoundly, ShowsAuto, HealthyReboot, RebootProven;
    if !ValidCheckpoint(c) {
      b := RebootBlock(None, None, false, None, None);
      return Err(InvalidCheckpoint), b;
    }
    ghost var before := env.trace;
    var run := new LifecycleRun(c);
    CheckpointIsReady(c);
    var progress, blocks := run.RunPhase(env, false);
    r := Ok(progress.value.report);
    b := blocks[0];
    ResumedPhase(c, run.State(), blocks);
    if forall i :: 0 <= i < |run.cases| ==> run.cases[i].passed {
      ResumedOutcome(c, run.State(), blocks, before);
    }
    if SafeTrace(before) && AutoJustBefore(before, |before|) && NoReboot(before) {
      AppendedBlockIsSafe(before, b);
    }
  }

  predicate Accepted(c: Checkpoint) {
    |c.cases| == |ALL_CASES| && (forall i :: 0 <= i < |c.cases| ==> c.cases[i].passed) && c.finalAutoConfirmed && c.faults == []
  }

  /** Nothing recorded earlier changed. */
  predicate Extends(before: Checkpoint, after: Checkpoint) {
    && before.readbacks <= after.readbacks && before.transitions <= after.transitions
    && before.faults <= after.faults && before.cases <= after.cases
    && before.startedAt == after.startedAt && before.bootId == after.bootId
  }

  lemma BoundGrows(r0: seq<Readback>, t0: seq<Transition>, r1: seq<Readback>, t1: seq<Transition>)
    requires AllBound(r0, t0) && r0 <= r1 && t0 <= t1
    requires forall i :: |r0| <= i < |r1| ==> r1[i].bootId.Some?
    requires forall i :: |t0| <= i < |t1| ==> t1[i].bootId.Some?
    ensures AllBound(r1, t1)
  {
  }

  predicate Recorded(before: Checkpoint, after: Checkpoint, case_: Case, passed: bool) {
    && |after.cases| == |before.cases| + 1 && before.cases <= after.cases
    && after.cases[|before.cases|].case_ == case_ && after.cases[|before.cases|].passed == passed
  }
}
