/** The owning controller as the object it is (ownership.rs), driving the machine and taking the steps of `Ownership`. */
module Controller {
  import opened Wrappers
  import opened Demand
  import opened Config
  import opened Output
  import opened Platform
  import opened Restoration
  import opened Ownership

  datatype SafingOutcome =
    | Restored
    | Contained(restoration: RestorationError, containment: Containment)
    | Critical(restoration: RestorationError, containment: Containment)

  /** Restoration is always tried; containment follows exactly when it did not succeed. */
  function SafingCalls(device: Identity, r: SafingOutcome, tries: seq<Try>): seq<Call> {
    AllTryCalls(device, tries) + (if r.Restored? then [] else ContainBothCalls(device, r.containment))
  }

  /** Both modes are read, CPU first; `bothAuto` is what they say. */
  ghost predicate ReadBothModes(before: seq<Call>, after: seq<Call>, device: Identity, bothAuto: bool) {
    && |after| == |before| + 2 && before <= after
    && var cpu, gpu := after[|before|], after[|before| + 1];
    && cpu.ModeRead? && cpu.id == device && cpu.fan == Cpu && gpu.ModeRead? && gpu.id == device && gpu.fan == Gpu
    && (bothAuto <==> cpu.modeAnswer == Ok(Auto) && gpu.modeAnswer == Ok(Auto))
  }

  datatype CollectError = FirmwareAutoUnconfirmed | SamplingFailed

  class ControllerOwnership {
    const machine: Machine
    const ownershipId: nat
    var lockHeld: bool
    var controlledDevice: Option<Identity>
    var restorationConfirmed: bool
    var epochStarted: bool
    var epoch: nat
    ghost var issued: set<ReadySample>
    ghost var receipts: set<Receipt>
    ghost var outstanding: set<Identity>
    /** Every device on which arming ever began. */
    ghost var handed: set<Identity>

    ghost function View(): World
      reads this
    {
      World(Core(ownershipId, controlledDevice, restorationConfirmed, epochStarted, epoch, lockHeld),
            issued, receipts, outstanding)
    }

    /** The protocol invariant, and its physical meaning: what is not outstanding really is in Auto. */
    ghost predicate Valid()
      reads this, machine
    {
      && Invariant(View())
      && outstanding <= handed
      && AllAuto(machine.devices, handed - outstanding)
    }

    lemma ConfirmedMeansAllAuto()
      requires Valid() && (restorationConfirmed || !lockHeld)
      ensures AllAuto(machine.devices, handed)
    {
    }

    constructor (machine: Machine, id: nat)
      ensures this.machine == machine && Valid() && View() == Acquired(id) && handed == {}
    {
      this.machine := machine;
      ownershipId := id;
      lockHeld := true;
      controlledDevice := None;
      restorationConfirmed := false;
      epochStarted := false;
      epoch := 0;
      issued, receipts, outstanding, handed := {}, {}, {}, {};
    }

    method ResetEpoch()
      modifies this`epochStarted, this`epoch
      ensures !epochStarted && epoch == old(epoch) + 1
    {
      epochStarted := false;
      epoch := epoch + 1;
    }

    method InvalidateEpoch()
      modifies this`restorationConfirmed, this`epochStarted, this`epoch
      ensures View().core == Invalidate(old(View().core))
    {
      restorationConfirmed := false;
      ResetEpoch();
    }

    /** Re-reads both fans; reads only. */
    method RefreshConfirmation(device: Identity) returns (ok: bool, ghost bothAuto: bool)
      requires Valid() && lockHeld
      modifies this`restorationConfirmed, this`epochStarted, this`epoch, machine`now, machine`log
      ensures machine.OnlyTimePassed()
      ensures Valid() && View() == Step(old(View()), Refresh(device, bothAuto))
      ensures ok == restorationConfirmed
      ensures ok ==> BothAuto(machine.devices, device)
      ensures if old(restorationConfirmed) && Accountable(old(View().core), device)
              then ReadBothModes(old(machine.log), machine.log, device, bothAuto)
              else machine.log == old(machine.log) && !ok
    {
      StepKeepsInvariant(View(), Refresh(device, false));
      StepKeepsInvariant(View(), Refresh(device, true));
      hide Invariant;
      if !restorationConfirmed {
        return false, false;
      }
      if controlledDevice.Some? && controlledDevice.value != device {
        InvalidateEpoch();
        return false, false;
      }
      var cpu := machine.ReadMode(device, Cpu);
      var gpu := machine.ReadMode(device, Gpu);
      ok := cpu == Ok(Auto) && gpu == Ok(Auto);
      bothAuto := ok;
      if !ok {
        InvalidateEpoch();
      }
    }

    /** Takes a sample only after both fans were seen in Auto again; `sampled` is what the sample gate answers. */
    method CollectFreshSample(device: Identity, sampled: Sampled) returns (r: Result<Option<ReadySample>, CollectError>, ghost bothAuto: bool)
      requires Valid() && lockHeld
      modifies this`restorationConfirmed, this`epochStarted, this`epoch, this`issued, machine`now, machine`log
      ensures machine.OnlyTimePassed()
      ensures Valid() && View() == Step(old(View()), Collect(device, bothAuto, sampled))
      ensures r.Ok? ==> BothAuto(machine.devices, device)
      ensures r == Err(FirmwareAutoUnconfirmed) <==> !AfterRefresh(old(View().core), device, bothAuto).confirmed
      ensures r.Ok? && r.value.Some? <==> restorationConfirmed && sampled.Fresh?
      ensures r.Ok? && r.value.Some? ==> r.value.value in issued && Usable(View().core, r.value.value)
      ensures if old(restorationConfirmed) && Accountable(old(View().core), device)
              then ReadBothModes(old(machine.log), machine.log, device, bothAuto)
              else machine.log == old(machine.log) && r == Err(FirmwareAutoUnconfirmed)
    {
      StepKeepsInvariant(View(), Collect(device, false, sampled));
      StepKeepsInvariant(View(), Collect(device, true, sampled));
      var ok;
      ok, bothAuto := RefreshConfirmation(device);
      hide Invariant;
      if !ok {
        return Err(FirmwareAutoUnconfirmed), bothAuto;
      }
      epochStarted := true;
      if sampled.SampleFailed? {
        InvalidateEpoch();
        return Err(SamplingFailed), bothAuto;
      }
      if sampled.AwaitingSecond? {
        return Ok(None), bothAuto;
      }
      var ready := ReadySample(ownershipId, epoch, sampled.completedAt);
      issued := issued + {ready};
      r := Ok(Some(ready));
    }

    /** Called by arming alone, with the sample that permits it. */
    method BeginCustomTransition(device: Identity, ghost sample: ReadySample)
      requires Valid() && sample in issued && Usable(View().core, sample)
      modifies this
      ensures Valid() && lockHeld == old(lockHeld)
      ensures View() == old(View()).(core := BeginCustom(old(View().core), device), outstanding := old(outstanding) + {device})
      ensures old(outstanding) == {} && handed == old(handed) + {device}
      ensures forall q :: q in receipts ==> q.epoch < epoch
    {
      controlledDevice := Some(device);
      restorationConfirmed := false;
      ResetEpoch();
      outstanding := outstanding + {device};
      handed := handed + {device};
    }

    /** The receipt for a completed handover. */
    method RecordReceipt(device: Identity) returns (r: Receipt)
      requires Valid() && !restorationConfirmed && device in outstanding
      requires forall q :: q in receipts ==> q.epoch < epoch
      modifies this`receipts
      ensures Valid() && r == Receipt(ownershipId, epoch, device) && Current(View().core, r)
      ensures receipts == old(receipts) + {r}
    {
      r := Receipt(ownershipId, epoch, device);
      receipts := receipts + {r};
    }

    ghost method SettleAccount(device: Identity, bothAuto: bool)
      modifies this`outstanding
      ensures outstanding == Account(old(outstanding), device, bothAuto)
    {
      outstanding := Account(outstanding, device, bothAuto);
    }

    method RestoreFirmwareAuto(device: Identity, ghost w: Watch)
      returns (r: Result<(), RestorationError>, ghost bothAuto: bool, ghost tries: seq<Try>)
      requires Valid() && lockHeld && machine.Watched(w)
      modifies this`restorationConfirmed, this`epochStarted, this`epoch, this`outstanding, machine
      ensures machine.Watched(w) && old(machine.trace) <= machine.trace
      ensures machine.log == old(machine.log) + AllTryCalls(device, tries) && tries != []
      ensures OnlyRestored(old(machine.devices), machine.devices, device)
      ensures Valid() && View() == Step(old(View()), Restore(device, bothAuto))
      ensures Concluded(if r.Err? && r.error.DifferentController? then Ok(()) else r, tries)
      ensures r.Err? && r.error.DifferentController? ==> old(controlledDevice) == Some(r.error.admitted) && r.error.restored == device != r.error.admitted
      ensures r.Err? && r.error.DeadlineExceeded? ==> machine.now >= old(machine.now) + RESTORATION_WINDOW
      ensures bothAuto ==> BothAuto(machine.devices, device)
      ensures r.Ok? == restorationConfirmed && (r.Ok? ==> bothAuto)
    {
      StepKeepsInvariant(View(), Restore(device, false));
      StepKeepsInvariant(View(), Restore(device, true));
      hide Invariant, OnlyRestored, AllTryCalls, AllAuto, BothAuto, Account, Concluded;
      ghost var before := machine.devices;
      InvalidateEpoch();
      var restored;
      restored, tries := Restoration.RestoreFirmwareAuto(machine, device, w);
      bothAuto := restored.Ok?;
      SettleAccount(device, bothAuto);
      RestoredStaysAuto(before, machine.devices, device, handed - old(outstanding));
      SettledStaysAuto(machine.devices, handed, old(outstanding), device, bothAuto);
      if restored.Err? {
        return Err(restored.error), bothAuto, tries;
      }
      if controlledDevice.Some? && controlledDevice.value != device {
        return Err(DifferentController(controlledDevice.value, device)), bothAuto, tries;
      }
      restorationConfirmed := true;
      r := Ok(());
    }

    method ContainCustomFansAtMaximum(device: Identity, ghost w: Watch) returns (r: Containment)
      requires Valid() && lockHeld && machine.Watched(w)
      modifies this`restorationConfirmed, this`epochStarted, this`epoch, this`outstanding, machine
      ensures machine.Watched(w) && old(machine.trace) <= machine.trace
      ensures machine.log == old(machine.log) + ContainBothCalls(device, r)
      ensures OnlyContained(old(machine.devices), machine.devices, device)
      ensures Valid() && View() == Step(old(View()), Contain(device, r.RestorationConfirmed()))
      ensures StatusHolds(r.cpu, machine.devices, device, Cpu) && StatusHolds(r.gpu, machine.devices, device, Gpu)
      ensures r.RestorationConfirmed() ==> BothAuto(machine.devices, device)
    {
      StepKeepsInvariant(View(), Contain(device, false));
      StepKeepsInvariant(View(), Contain(device, true));
      hide Invariant, OnlyContained, ContainBothCalls, AllAuto, BothAuto, Account;
      ghost var before := machine.devices;
      InvalidateEpoch();
      r := ContainCustomFans(machine, device, w);
      SettleAccount(device, r.RestorationConfirmed());
      ContainedStaysAuto(before, machine.devices, device, handed - old(outstanding));
      SettledStaysAuto(machine.devices, handed, old(outstanding), device, r.RestorationConfirmed());
      restorationConfirmed := r.RestorationConfirmed() && (controlledDevice.None? || controlledDevice.value == device);
    }

    method RestoreOrContainFirmwareAuto(device: Identity, ghost w: Watch)
      returns (r: SafingOutcome, ghost restored: bool, ghost contained: bool, ghost tries: seq<Try>)
      requires Valid() && lockHeld && machine.Watched(w)
      modifies this`restorationConfirmed, this`epochStarted, this`epoch, this`outstanding, machine
      ensures machine.Watched(w) && old(machine.trace) <= machine.trace
      ensures machine.log == old(machine.log) + SafingCalls(device, r, tries) && tries != []
      ensures OnlySafed(old(machine.devices), machine.devices, device)
      ensures Valid() && View() == Step(old(View()), RestoreOrContain(device, restored, contained))
      ensures !r.Critical? == restorationConfirmed
      ensures !r.Critical? ==> BothAuto(machine.devices, device)
      ensures r.Critical? ==> StatusHolds(r.containment.cpu, machine.devices, device, Cpu)
                              && StatusHolds(r.containment.gpu, machine.devices, device, Gpu)
    {
      ghost var first, before, begun := machine.devices, View(), machine.log;
      contained := false;
      var restoration;
      restoration, restored, tries := RestoreFirmwareAuto(device, w);
      ghost var second := machine.devices;
      RestoreThenContain(before, device, restored);
      hide Invariant, AllTryCalls, ContainBothCalls, AllAuto, OnlySafed, OnlyRestored, OnlyContained, Concluded, Step;
      if restoration.Ok? {
        RestoredAndContained(first, second, second, device);
        return Restored, restored, contained, tries;
      }
      var containment := ContainCustomFansAtMaximum(device, w);
      RestoredAndContained(first, second, machine.devices, device);
      Reassociate(begun, AllTryCalls(device, tries), ContainBothCalls(device, containment));
      contained := containment.RestorationConfirmed();
      r := if containment.RestorationConfirmed() && restorationConfirmed
           then Contained(restoration.error, containment)
           else Critical(restoration.error, containment);
    }

    /** Observed for at most `cycles` recovery cycles; the source's loop has no bound. */
    method RecoverFirmwareAuto(device: Identity, cycles: nat, ghost w: Watch) returns (done: bool, ghost made: seq<RecoveryCycle>)
      requires Valid() && lockHeld && machine.Watched(w)
      modifies this`restorationConfirmed, this`epochStarted, this`epoch, this`outstanding, machine
      ensures machine.Watched(w) && old(machine.trace) <= machine.trace
      ensures machine.log == old(machine.log) + RecoveryCalls(device, made) && |made| <= cycles
      ensures !done ==> |made| == cycles && AllUnfinished(made)
      ensures OnlySafed(old(machine.devices), machine.devices, device)
      ensures Valid() && View() == Step(old(View()), Operation.Recover(device, done))
      ensures done ==> BothAuto(machine.devices, device)
    {
      RecoverStep(View(), device, false);
      RecoverStep(View(), device, true);
      hide Step, Invariant, OnlySafed, RecoveryCalls, RecoveryTime, AllUnfinished, AllAuto, BothAuto, Account;
      ghost var before := machine.devices;
      InvalidateEpoch();
      done, made := Restoration.Recover(machine, device, cycles, w);
      SettleAccount(device, done);
      SafedStaysAuto(before, machine.devices, device, handed - old(outstanding));
      SettledStaysAuto(machine.devices, handed, old(outstanding), device, done);
      restorationConfirmed := done && (controlledDevice.None? || controlledDevice.value == device);
    }

    /** The lock is given up only with every device ever handed to Custom physically back in Auto. */
    method ReleaseLock() returns (ok: bool, ghost unlocked: bool)
      requires Valid() && lockHeld
      modifies this`lockHeld, machine`log
      ensures machine.OnlyTimePassed()
      ensures Valid() && View() == Step(old(View()), Release(unlocked))
      ensures ok == !lockHeld
      ensures ok ==> AllAuto(machine.devices, handed)
      ensures if restorationConfirmed then machine.log == old(machine.log) + [Unlock(ok)] else machine.log == old(machine.log) && !ok
    {
      unlocked := false;
      if !restorationConfirmed {
        return false, unlocked;
      }
      ConfirmedMeansAllAuto();
      var released := machine.ReleaseOwnershipLock();
      unlocked := released;
      if released {
        lockHeld := false;
      }
      ok := released;
    }
  }

  /** Restoring and, failing that, containing is one step. */
  lemma RestoreThenContain(w: World, device: Identity, restored: bool)
    requires w.core.locked
    ensures var first := Step(w, Restore(device, restored));
            && first.core.locked
            && (first.core.confirmed ==> restored && first == Step(w, RestoreOrContain(device, restored, false)))
            && (!first.core.confirmed ==> forall contained: bool ::
                  Step(first, Contain(device, contained)) == Step(w, RestoreOrContain(device, restored, contained)))
  {
  }

  lemma RecoverStep(w: World, device: Identity, done: bool)
    requires Invariant(w) && w.core.locked
    ensures Step(w, Operation.Recover(device, done))
            == w.(core := AfterSafing(w.core, device, done), outstanding := Account(w.outstanding, device, done))
    ensures Invariant(Step(w, Operation.Recover(device, done)))
  {
    StepKeepsInvariant(w, Operation.Recover(device, done));
  }

  // ---------------------------------------------------------------- devices in Auto

  ghost predicate AllAuto(s: Devices, ids: set<Identity>) {
    forall id :: id in ids ==> BothAuto(s, id)
  }

  lemma SafedStaysAuto(before: Devices, after: Devices, device: Identity, ids: set<Identity>)
    requires OnlySafed(before, after, device) && AllAuto(before, ids)
    ensures AllAuto(after, ids)
  {
    forall id | id in ids ensures BothAuto(after, id) {
      SafingKeepsAuto(before, after, device, id);
    }
  }

  /** Settling the account of a device seen in Auto keeps what is settled in Auto. */
  lemma SettledStaysAuto(s: Devices, handed: set<Identity>, outstanding: set<Identity>, device: Identity, bothAuto: bool)
    requires AllAuto(s, handed - outstanding) && (bothAuto ==> BothAuto(s, device))
    ensures AllAuto(s, handed - Account(outstanding, device, bothAuto)) && Account(outstanding, device, bothAuto) <= outstanding
  {
  }

  lemma RestoredStaysAuto(before: Devices, after: Devices, device: Identity, ids: set<Identity>)
    requires OnlyRestored(before, after, device) && AllAuto(before, ids)
    ensures AllAuto(after, ids)
  {
    SafedStaysAuto(before, after, device, ids);
  }

  lemma ContainedStaysAuto(before: Devices, after: Devices, device: Identity, ids: set<Identity>)
    requires OnlyContained(before, after, device) && AllAuto(before, ids)
    ensures AllAuto(after, ids)
  {
    SafedStaysAuto(before, after, device, ids);
  }
}
