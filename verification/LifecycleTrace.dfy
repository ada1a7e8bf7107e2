/**
 * What the live lifecycle qualification may do to the machine, as a language of environment calls, and
 * the safety rules that every word of the language obeys (live_lifecycle.rs).
 */
module LifecycleTrace {
  import opened Wrappers
  import opened Config
  import opened Evidence

  /** One answer to "read this fan's enable endpoint". */
  datatype Observation = Observation(observedAt: Timestamp, isFresh: bool, enable: Option<nat>, identity: string)

  datatype Case =
    | InvalidConfiguration
    | DuplicateProcess
    | NormalStopRestart
    | ProcessKillRecovery
    | WatchdogRecovery
    | AcToBatteryTransition
    | SuspendResume
    | Reboot

  const ALL_CASES: seq<Case> := [
    InvalidConfiguration, DuplicateProcess, NormalStopRestart, ProcessKillRecovery,
    WatchdogRecovery, AcToBatteryTransition, SuspendResume, Reboot]

  /** Calls that touch the machine, with the answer where it matters. */
  datatype Event =
    | Read(fan: Fan, answer: Option<Observation>)
    | RunCase(case_: Case)
    | Cleanup(case_: Case)
    | ResumeReboot
    | ArmReboot
    | RestoreReboot

  type Trace = seq<Event>

  predicate ShowsAuto(answer: Option<Observation>) {
    answer.Some? && answer.value.isFresh && answer.value.enable == Some(2)
  }

  predicate AutoRead(e: Event, fan: Fan) {
    e.Read? && e.fan == fan && ShowsAuto(e.answer)
  }

  predicate ReadOf(e: Event, fan: Fan) {
    e.Read? && e.fan == fan
  }

  // ---------------------------------------------------------------- the safety rules

  /** Both fans were just read in Auto, CPU first. */
  ghost predicate AutoJustBefore(t: Trace, k: int) {
    2 <= k <= |t| && AutoRead(t[k - 2], Cpu) && AutoRead(t[k - 1], Gpu)
  }

  ghost predicate BothReadAt(t: Trace, k: int) {
    0 <= k && k + 1 < |t| && ReadOf(t[k], Cpu) && ReadOf(t[k + 1], Gpu)
  }

  ghost predicate RestoredAt(t: Trace, k: int) {
    0 <= k < |t| && t[k] == RestoreReboot && BothReadAt(t, k + 1)
  }

  /** The rule for the call at position `k`. */
  ghost predicate SafeAt(t: Trace, k: nat)
    requires k < |t|
  {
    match t[k]
    case RunCase(c) =>
      // begun in Auto, and cleaned up and read before anything else
      c != Reboot && AutoJustBefore(t, k) && k + 1 < |t| && t[k + 1] == Cleanup(c) && BothReadAt(t, k + 2)
    case ResumeReboot =>
      // begun in Auto, gated by both reads, and always restored and read at the end
      AutoJustBefore(t, k) && BothReadAt(t, k + 1)
      && (RestoredAt(t, k + 3) || (k + 3 < |t| && t[k + 3] == ArmReboot && RestoredAt(t, k + 4)))
    case ArmReboot =>
      // only right after the confirmed post-boot gate
      AutoJustBefore(t, k) && k >= 3 && t[k - 3] == ResumeReboot && RestoredAt(t, k + 1)
    case _ => true
  }

  ghost predicate SafeTrace(t: Trace) {
    && (forall k :: 0 <= k < |t| ==> SafeAt(t, k))
    && (forall j, k :: 0 <= j < k < |t| ==> !(t[j] == ArmReboot && t[k] == ArmReboot))
    && (forall j, k :: 0 <= j < k < |t| ==> !(t[j] == ResumeReboot && t[k].RunCase?))
  }

  // ---------------------------------------------------------------- the language of the runner

  datatype Block =
    | OrdinaryBlock(case_: Case, cpu: Option<Observation>, gpu: Option<Observation>)
    | RebootBlock(cpu: Option<Observation>, gpu: Option<Observation>, armed: bool,
                  cpuAfter: Option<Observation>, gpuAfter: Option<Observation>)

  function BlockCase(b: Block): Case {
    if b.OrdinaryBlock? then b.case_ else Reboot
  }

  function Gate(cpu: Option<Observation>, gpu: Option<Observation>): Trace {
    [Read(Cpu, cpu), Read(Gpu, gpu)]
  }

  function Events(b: Block): Trace {
    match b
    case OrdinaryBlock(c, cpu, gpu) => [RunCase(c), Cleanup(c)] + Gate(cpu, gpu)
    case RebootBlock(_, _, _, _, _) => [ResumeReboot] + AfterResume(b)
  }

  function AfterResume(b: Block): Trace
    requires b.RebootBlock?
  {
    Gate(b.cpu, b.gpu) + (if b.armed then [ArmReboot] else []) + [RestoreReboot] + Gate(b.cpuAfter, b.gpuAfter)
  }

  function Flatten(blocks: seq<Block>): Trace {
    if blocks == [] then [] else Flatten(blocks[..|blocks| - 1]) + Events(blocks[|blocks| - 1])
  }

  predicate WellFormedBlock(b: Block) {
    && (b.OrdinaryBlock? ==> b.case_ != Reboot)
    && (b.RebootBlock? && b.armed ==> ShowsAuto(b.cpu) && ShowsAuto(b.gpu))
  }

  /** The block leaves both fans seen in Auto. */
  predicate Confirms(b: Block) {
    if b.OrdinaryBlock? then ShowsAuto(b.cpu) && ShowsAuto(b.gpu) else ShowsAuto(b.cpuAfter) && ShowsAuto(b.gpuAfter)
  }

  /** Cases in the fixed order from number `first` on, each begun only because the one before left Auto. */
  ghost predicate Orderly(blocks: seq<Block>, first: nat) {
    && first + |blocks| <= |ALL_CASES|
    && (forall i :: 0 <= i < |blocks| ==> WellFormedBlock(blocks[i]) && BlockCase(blocks[i]) == ALL_CASES[first + i])
    && (forall i :: 0 <= i < |blocks| - 1 ==> Confirms(blocks[i]))
  }

  /** Reads and cleanups only: nothing that needs a rule. */
  ghost predicate Quiet(t: Trace) {
    forall k :: 0 <= k < |t| ==> t[k].Read? || t[k].Cleanup?
  }

  // ---------------------------------------------------------------- the rules hold of the language

  lemma SafeAtExtends(t: Trace, more: Trace, k: nat)
    requires k < |t| && SafeAt(t, k)
    ensures SafeAt(t + more, k)
  {
  }

  lemma OrdinaryBlockIsSafe(t: Trace, b: Block)
    requires b.OrdinaryBlock? && WellFormedBlock(b) && AutoJustBefore(t, |t|)
    ensures forall k :: |t| <= k < |t + Events(b)| ==> SafeAt(t + Events(b), k)
  {
  }

  /** The calls of a reboot block, one by one. */
  lemma RebootEvents(b: Block)
    requires b.RebootBlock?
    ensures var e := Events(b);
            && e[0] == ResumeReboot && e[1] == Read(Cpu, b.cpu) && e[2] == Read(Gpu, b.gpu)
            && (if b.armed then |e| == 7 && e[3] == ArmReboot && e[4] == RestoreReboot && e[5] == Read(Cpu, b.cpuAfter) && e[6] == Read(Gpu, b.gpuAfter)
                else |e| == 6 && e[3] == RestoreReboot && e[4] == Read(Cpu, b.cpuAfter) && e[5] == Read(Gpu, b.gpuAfter))
  {
  }

  lemma RebootBlockIsSafe(t: Trace, b: Block)
    requires b.RebootBlock? && WellFormedBlock(b) && AutoJustBefore(t, |t|)
    ensures forall k :: |t| <= k < |t + Events(b)| ==> SafeAt(t + Events(b), k)
    ensures forall k :: |t| < k < |t + Events(b)| ==> !(t + Events(b))[k].RunCase? && ((t + Events(b))[k] == ArmReboot ==> k == |t| + 3)
  {
    var e := Events(b);
    var u, n := t + e, |t|;
    RebootEvents(b);
    hide Events, ShowsAuto;
    forall k | n < k < |u| ensures !u[k].RunCase? && (u[k] == ArmReboot ==> k == n + 3 && b.armed) && u[k] != ResumeReboot {
      assert u[k] == e[k - n];
    }
    assert u[n] == e[0] && u[n + 1] == e[1] && u[n + 2] == e[2] && u[n + 3] == e[3] && u[n + 4] == e[4] && u[n + 5] == e[5];
    assert AutoJustBefore(u, n);
    if b.armed {
      assert u[n + 6] == e[6];
      assert RestoredAt(u, n + 4) && AutoJustBefore(u, n + 3);
    } else {
      assert RestoredAt(u, n + 3);
    }
  }

  /** No arming and no reboot among cases that are not the last. */
  lemma {:induction false} OrdinaryBlocksHaveNoReboot(blocks: seq<Block>)
    requires forall i :: 0 <= i < |blocks| ==> blocks[i].OrdinaryBlock?
    ensures NoReboot(Flatten(blocks))
    decreases |blocks|
  {
    if blocks != [] {
      OrdinaryBlocksHaveNoReboot(blocks[..|blocks| - 1]);
    }
  }

  lemma {:induction false} FlattenEndsInAuto(prefix: Trace, blocks: seq<Block>)
    requires blocks == [] ==> AutoJustBefore(prefix, |prefix|)
    requires blocks != [] ==> Confirms(blocks[|blocks| - 1])
    ensures AutoJustBefore(prefix + Flatten(blocks), |prefix + Flatten(blocks)|)
  {
  }

  /**
   * Every trace the runner can produce is safe: a case is begun only with both fans just read in Auto;
   * a case other than the reboot is followed at once by its cleanup and both reads; arming happens at
   * most once, straight after a confirmed post-boot gate; restoration and a terminal gate always follow.
   */
  lemma {:induction false} LanguageIsSafe(prefix: Trace, blocks: seq<Block>, first: nat)
    requires Quiet(prefix) && Orderly(blocks, first)
    requires blocks != [] ==> AutoJustBefore(prefix, |prefix|)
    ensures SafeTrace(prefix + Flatten(blocks))
    decreases |blocks|
  {
    hide SafeTrace, Events, Confirms, AutoJustBefore, WellFormedBlock;
    if blocks == [] {
      assert prefix + Flatten(blocks) == prefix;
      QuietIsSafe(prefix);
    } else {
      var init, last := blocks[..|blocks| - 1], blocks[|blocks| - 1];
      LanguageIsSafe(prefix, init, first);
      FlattenEndsInAuto(prefix, init);
      EarlierBlocksDoNotReboot(prefix, blocks, first);
      AppendedBlockIsSafe(prefix + Flatten(init), last);
      assert prefix + Flatten(blocks) == prefix + Flatten(init) + Events(last);
    }
  }

  lemma EarlierBlocksDoNotReboot(prefix: Trace, blocks: seq<Block>, first: nat)
    requires Quiet(prefix) && Orderly(blocks, first) && blocks != []
    ensures NoReboot(prefix + Flatten(blocks[..|blocks| - 1]))
  {
    hide Flatten, Confirms, WellFormedBlock;
    var init := blocks[..|blocks| - 1];
    forall i | 0 <= i < |init| ensures init[i].OrdinaryBlock? {
      assert BlockCase(blocks[i]) == ALL_CASES[first + i] != Reboot;
    }
    OrdinaryBlocksHaveNoReboot(init);
  }

  /** The machine has not been rebooted or armed for the reboot. */
  ghost predicate NoReboot(t: Trace) {
    forall k :: 0 <= k < |t| ==> t[k] != ArmReboot && t[k] != ResumeReboot
  }

  lemma QuietIsSafe(t: Trace)
    requires Quiet(t)
    ensures SafeTrace(t)
  {
  }

  /** A safe trace that ends in Auto and has not rebooted stays safe when one more case is run. */
  lemma AppendedBlockIsSafe(t: Trace, b: Block)
    requires SafeTrace(t) && AutoJustBefore(t, |t|) && WellFormedBlock(b)
    requires NoReboot(t)
    ensures SafeTrace(t + Events(b))
  {
    var u := t + Events(b);
    if b.OrdinaryBlock? {
      OrdinaryBlockIsSafe(t, b);
    } else {
      RebootBlockIsSafe(t, b);
    }
    hide SafeAt, AutoJustBefore;
    forall k | 0 <= k < |u| ensures SafeAt(u, k) {
      if k < |t| {
        SafeAtExtends(t, Events(b), k);
      }
    }
  }
}
