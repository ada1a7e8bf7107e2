/**
 * Whole runs of one owning controller: any sequence of its operations, in any order, on any devices,
 * with samples and receipts kept and used again at will, against any fault pattern of the machine.
 */
module Session {
  import opened Wrappers
  import opened Demand
  import opened Config
  import opened Output
  import opened ControlLaw
  import opened Platform
  import opened Restoration
  import opened Ownership
  import opened Controller
  import opened Arming
  import opened ControlCycle

  /** `sample` and `control` pick any sample collected and any control armed so far. */
  datatype Command =
    | Refreshing(device: Identity)
    | Collecting(device: Identity, sampled: Sampled)
    | ArmingWith(device: Identity, config: ValidatedConfig, admitted: bool, sample: nat)
    | Cycling(control: nat, reading: Option<ControlLaw.Sample>)
    | Restoring(device: Identity)
    | Containing(device: Identity)
    | Safing(device: Identity)
    | Recovering(device: Identity, cycles: nat)
    | Releasing

  /** The protocol step a command takes. */
  predicate Takes(command: Command, op: Operation) {
    match command
    case Refreshing(device) => op.Refresh? && op.device == device
    case Collecting(device, sampled) => op.Collect? && op.device == device && op.sampled == sampled
    case ArmingWith(device, _, admitted, _) => op.Arm? && op.device == device && (op.admitted ==> admitted)
    case Restoring(device) => op.Restore? && op.device == device
    case Containing(device) => op.Contain? && op.device == device
    case Safing(device) => op.RestoreOrContain? && op.device == device
    case Recovering(device, _) => op.Recover? && op.device == device
    case Releasing => op.Release?
    case Cycling(_, _) => false
  }

  /** One step per command, except for cycles, which take none, and arming with a sample nobody has. */
  ghost predicate TakenInOrder(commands: seq<Command>, steps: seq<Option<Operation>>) {
    && |steps| <= |commands|
    && forall k :: 0 <= k < |steps| ==>
         if steps[k].Some? then Takes(commands[k], steps[k].value) else commands[k].Cycling? || commands[k].ArmingWith?
  }

  function Taken(steps: seq<Option<Operation>>): seq<Operation> {
    if steps == [] then []
    else Taken(steps[..|steps| - 1]) + (if steps[|steps| - 1].Some? then [steps[|steps| - 1].value] else [])
  }

  /** The controller is where the protocol is after these steps. */
  ghost predicate Follows(own: ControllerOwnership, id: nat, steps: seq<Option<Operation>>)
    reads own
  {
    own.View() == Run(Acquired(id), Taken(steps)) && Possible(Acquired(id), Taken(steps))
  }

  lemma OneMoreStep(id: nat, steps: seq<Option<Operation>>, step: Option<Operation>)
    requires Possible(Acquired(id), Taken(steps))
    requires step.Some? ==> Unforged(Run(Acquired(id), Taken(steps)), step.value)
    ensures Possible(Acquired(id), Taken(steps + [step]))
    ensures Run(Acquired(id), Taken(steps + [step]))
            == if step.Some? then Step(Run(Acquired(id), Taken(steps)), step.value) else Run(Acquired(id), Taken(steps))
  {
    hide Step, Run, Possible, Unforged;
    assert (steps + [step])[..|steps|] == steps;
    if step.Some? {
      RunOneMore(Acquired(id), Taken(steps), step.value);
    } else {
      assert Taken(steps) + [] == Taken(steps);
    }
  }

  lemma NoSteps(id: nat, commands: seq<Command>)
    ensures Run(Acquired(id), Taken([])) == Acquired(id) && Possible(Acquired(id), Taken([])) && TakenInOrder(commands, [])
  {
  }

  lemma OneMoreTaken(commands: seq<Command>, steps: seq<Option<Operation>>, step: Option<Operation>)
    requires TakenInOrder(commands, steps) && |steps| < |commands|
    requires if step.Some? then Takes(commands[|steps|], step.value) else commands[|steps|].Cycling? || commands[|steps|].ArmingWith?
    ensures TakenInOrder(commands, steps + [step])
  {
    hide Takes;
  }

  /** Every control ever armed, in order: their epochs increase, and each agrees with the machine while current. */
  ghost predicate ControlsAgree(own: ControllerOwnership, controls: seq<HealthyControl>)
    reads own, own.machine, controls
  {
    && (forall k :: 0 <= k < |controls| ==> controls[k].Agrees(own) && controls[k].customEpoch <= own.epoch)
    && (forall j, k :: 0 <= j < k < |controls| ==> controls[j].customEpoch < controls[k].customEpoch)
  }

  ghost predicate FloorsAtLeast(controls: seq<HealthyControl>, floor: FanOutputs) {
    forall k :: 0 <= k < |controls| ==> AtLeast(FloorOutputs(controls[k].config), floor)
  }

  method Safe(own: ControllerOwnership, controls: seq<HealthyControl>, command: Command, ghost w: Watch) returns (ghost op: Operation)
    requires own.Valid() && own.lockHeld && own.machine.Watched(w) && ControlsAgree(own, controls)
    requires command.Restoring? || command.Containing? || command.Safing? || command.Recovering?
    modifies own, own.machine
    ensures own.Valid() && own.lockHeld && own.machine.Watched(w) && ControlsAgree(own, controls)
    ensures old(own.machine.trace) <= own.machine.trace
    ensures own.issued == old(own.issued) && own.handed == old(own.handed)
    ensures Takes(command, op) && own.View() == Step(old(own.View()), op)
  {
    hide Invariant, AllTryCalls, ContainBothCalls, SafingCalls, RecoveryCalls, OnlyRestored, OnlyContained, OnlySafed, StatusHolds, Concluded;
    if command.Restoring? {
      var restoration, bothAuto, tries := own.RestoreFirmwareAuto(command.device, w);
      op := Restore(command.device, bothAuto);
    } else if command.Containing? {
      var containment := own.ContainCustomFansAtMaximum(command.device, w);
      op := Contain(command.device, containment.RestorationConfirmed());
    } else if command.Safing? {
      var outcome, restored, contained, tries := own.RestoreOrContainFirmwareAuto(command.device, w);
      op := RestoreOrContain(command.device, restored, contained);
    } else {
      var done, made := own.RecoverFirmwareAuto(command.device, command.cycles, w);
      op := Operation.Recover(command.device, done);
    }
  }

  method Sampling(own: ControllerOwnership, controls: seq<HealthyControl>, command: Command)
    returns (sample: Option<ReadySample>, ghost op: Operation)
    requires own.Valid() && own.lockHeld && ControlsAgree(own, controls)
    requires command.Refreshing? || command.Collecting?
    modifies own, own.machine`now, own.machine`log
    ensures own.Valid() && own.lockHeld && own.machine.OnlyTimePassed() && ControlsAgree(own, controls)
    ensures old(own.issued) <= own.issued && own.handed == old(own.handed)
    ensures sample.Some? ==> sample.value in own.issued
    ensures Takes(command, op) && own.View() == Step(old(own.View()), op)
  {
    hide Invariant, HistoryAfter, OutputsOf;
    ghost var core := own.View().core;
    sample := None;
    if command.Refreshing? {
      var ok, bothAuto := own.RefreshConfirmation(command.device);
      op := Refresh(command.device, bothAuto);
    } else {
      var r, bothAuto := own.CollectFreshSample(command.device, command.sampled);
      op := Collect(command.device, bothAuto, command.sampled);
      if r.Ok? {
        sample := r.value;
      }
    }
    assert own.epoch > core.epoch || (own.epoch == core.epoch && own.restorationConfirmed == core.confirmed);
  }

  method ArmOne(own: ControllerOwnership, controls: seq<HealthyControl>, command: Command, sample: ReadySample, ghost w: Watch)
    returns (next: seq<HealthyControl>, ghost op: Operation)
    requires own.Valid() && own.lockHeld && own.machine.Watched(w) && ControlsAgree(own, controls)
    requires command.ArmingWith? && sample in own.issued
    requires FloorsAtLeast(controls, w.floor) && AtLeast(FloorOutputs(command.config), w.floor)
    modifies own, own.machine
    ensures own.Valid() && own.lockHeld && own.machine.Watched(w)
    ensures ControlsAgree(own, next) && FloorsAtLeast(next, w.floor)
    ensures old(own.machine.trace) <= own.machine.trace
    ensures own.issued == old(own.issued) && own.handed in {old(own.handed), old(own.handed) + {command.device}}
    ensures next == controls || (|next| == |controls| + 1 && fresh(next[|controls|]) && next[..|controls|] == controls)
    ensures Takes(command, op) && Unforged(old(own.View()), op) && own.View() == Step(old(own.View()), op)
    ensures |next| == |controls| + (if op.armed then 1 else 0)
  {
    hide Invariant, HistoryAfter, OutputsOf, FloorOutputs;
    var r;
    r, op := ArmBothFans(own, command.device, command.config, command.admitted, sample, w);
    EndingAnEpochAdvances(old(own.View()), op);
    next := controls;
    if r.Ok? {
      var control := new HealthyControl.FromArmed(r.value);
      next := controls + [control];
    }
  }

  method CycleOne(own: ControllerOwnership, controls: seq<HealthyControl>, k: nat, sampled: Option<ControlLaw.Sample>, ghost w: Watch)
    requires own.Valid() && own.machine.Watched(w) && ControlsAgree(own, controls) && FloorsAtLeast(controls, w.floor)
    requires k < |controls|
    modifies own.machine, controls[k]
    ensures own.Valid() && own.machine.Watched(w) && ControlsAgree(own, controls)
    ensures old(own.machine.trace) <= own.machine.trace
  {
    hide Invariant, HistoryAfter, OutputsOf, FloorOutputs;
    var r := controls[k].RunCycle(own, sampled, w);
  }

  /** Carries out one command; `step` is the protocol step it took. */
  method Obey(own: ControllerOwnership, controls: seq<HealthyControl>, samples: seq<ReadySample>, command: Command, ghost w: Watch)
    returns (next: seq<HealthyControl>, sample: Option<ReadySample>, ghost step: Option<Operation>)
    requires own.Valid() && own.lockHeld && own.machine.Watched(w) && ControlsAgree(own, controls) && FloorsAtLeast(controls, w.floor)
    requires command.ArmingWith? ==> AtLeast(FloorOutputs(command.config), w.floor)
    requires forall s :: s in samples ==> s in own.issued
    modifies own, own.machine, controls
    ensures own.Valid() && own.machine.Watched(w) && old(own.machine.trace) <= own.machine.trace
    ensures ControlsAgree(own, next) && FloorsAtLeast(next, w.floor)
    ensures next == controls || (|next| == |controls| + 1 && fresh(next[|controls|]) && next[..|controls|] == controls)
    ensures old(own.issued) <= own.issued && (sample.Some? ==> sample.value in own.issued)
    ensures if step.Some? then Takes(command, step.value) && Unforged(old(own.View()), step.value) && own.View() == Step(old(own.View()), step.value)
            else (command.Cycling? || (command.ArmingWith? && command.sample >= |samples|)) && own.View() == old(own.View())
    ensures !own.lockHeld ==> command.Releasing?
  {
    hide Invariant, AtLeast, FloorOutputs, HistoryAfter, OutputsOf, Step, BothCustomAt;
    next, sample, step := controls, None, None;
    if command.Refreshing? || command.Collecting? {
      ghost var op;
      sample, op := Sampling(own, controls, command);
      step := Some(op);
    } else if command.ArmingWith? {
      if command.sample < |samples| {
        ghost var op;
        next, op := ArmOne(own, controls, command, samples[command.sample], w);
        step := Some(op);
      }
    } else if command.Cycling? {
      if command.control < |controls| {
        CycleOne(own, controls, command.control, command.reading, w);
      }
    } else if command.Releasing? {
      var ok, unlocked := own.ReleaseLock();
      step := Some(Release(unlocked));
    } else {
      ghost var op := Safe(own, controls, command, w);
      step := Some(op);
    }
  }

  /**
   * Over every run: no observer ever sees a fan in Custom below its floor unless it was found so; every
   * control ever armed agrees with the machine whenever it is current; and once the lock is released,
   * every device ever handed to Custom is physically back in Auto. The run is a run of the protocol, one
   * step per command until the lock is released.
   */
  method Operate(m: Machine, id: nat, commands: seq<Command>, ghost w: Watch)
    returns (own: ControllerOwnership, controls: seq<HealthyControl>, ghost steps: seq<Option<Operation>>)
    requires m.Watched(w)
    requires forall c :: c in commands && c.ArmingWith? ==> AtLeast(FloorOutputs(c.config), w.floor)
    modifies m
    ensures own.machine == m && m.Watched(w) && old(m.trace) <= m.trace
    ensures own.Valid() && ControlsAgree(own, controls)
    ensures own.restorationConfirmed || !own.lockHeld ==> AllAuto(m.devices, own.handed)
    ensures TakenInOrder(commands, steps) && Follows(own, id, steps) && (own.lockHeld ==> |steps| == |commands|)
  {
    hide Invariant, AtLeast, FloorOutputs, HistoryAfter, OutputsOf, Step, Run, Possible, Taken, TakenInOrder, Takes, BothCustomAt, Unforged;
    steps := [];
    NoSteps(id, commands);
    own := new ControllerOwnership(m, id);
    controls := [];
    var samples: seq<ReadySample> := [];
    for i := 0 to |commands|
      invariant own.machine == m && m.Watched(w) && old(m.trace) <= m.trace
      invariant own.Valid() && own.lockHeld && ControlsAgree(own, controls) && FloorsAtLeast(controls, w.floor)
      invariant fresh(own) && (forall k :: 0 <= k < |controls| ==> fresh(controls[k]))
      invariant forall s :: s in samples ==> s in own.issued
      invariant |steps| == i && TakenInOrder(commands, steps) && Follows(own, id, steps)
    {
      var sample;
      ghost var step;
      controls, sample, step := Obey(own, controls, samples, commands[i], w);
      OneMoreStep(id, steps, step);
      OneMoreTaken(commands, steps, step);
      steps := steps + [step];
      if !own.lockHeld {
        break;
      }
      if sample.Some? {
        samples := samples + [sample.value];
      }
    }
    if own.restorationConfirmed || !own.lockHeld {
      own.ConfirmedMeansAllAuto();
    }
  }
}
