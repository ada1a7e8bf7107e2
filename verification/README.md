# Fan control, verified

A Dafny model of a fail-closed controller for the two fans of a laptop, and of the runners that qualify
it before it may work unattended.

The firmware normally drives both fans (Firmware Auto). The controller may take them over (Custom) only
after two fresh samples, and must give them back before it lets go of its lock. While in Custom a fan
runs at whatever PWM it was last told, so the safety of the whole design rests on never leaving a fan in
Custom at too low a value, whichever read, write or clock misbehaves. The model has four parts.

**Calibration** (`Calibration*.dfy`). A session finds each fan's safe floor: a descending sweep, five
maximum/floor transitions, a fifteen-minute hold, four speed anchors. It logs every accepted
observation and can be rebuilt from the log. `CalibrationSession` gives the transitions as functions,
`CalibrationMachine` is the class that performs them in place, and the other modules prove what every
reachable session satisfies: its log is honest (`CalibrationReplay`), supervised and canonical
(`CalibrationProtocol`), genuine entry by entry and the only source of the results (`CalibrationLog`), valid
as evidence (`CalibrationEvidence`), and never at a dead end (`CalibrationProgress`).

**Control law** (`Demand`, `Curve`, `Policy`, `Config`, `Output`, `ControlLaw`). Curves, temperature
hysteresis, hold-then-ramp smoothing and round-up to PWM; admission of a configuration against a
protected one by looking at knots only.

**Ownership, arming and control** (`Platform`, `Restoration`, `Ownership`, `Controller`, `Arming`,
`ControlCycle`, `Session`). `Platform.Machine` is the hardware: any read may fail, any write may fail with
or without effect, reads that succeed are truthful, nobody else writes. It records every state it has
been in, every access with its answer, and every command. A `Watch` is an observer who starts at some moment with some floor; every method that takes one
promises that the observer sees no fan in Custom below the floor unless it was found so. Arming keeps
this promise for every floor, so also for 255. `Ownership` is the protocol of epochs, ready samples and
receipts as a state machine; the class in `Controller` is proved to take its steps, and `Session` runs any
sequence of operations.

**Qualification runners** (`LifecycleTrace`, `Lifecycle`, `Endurance`, `Thermal`). The environment
answers every call with an arbitrary value and keeps a trace of what it was asked. What holds for every
environment is safety; that a run gets anywhere is proved for healthy environments, in which clocks move on,
answers come between the call before and the call after, and say what they should. The constructors `Ideal`
show that there are such environments.

Conventions. `f64` is `real`; the explicit comparison epsilon is kept. Durations are real seconds in the
smoother, nanoseconds on the machine's clock and milliseconds in evidence. An operation that overruns
its own deadline is one of those that fail, so single file operations carry no deadline; deadlines that
a branch tests are kept. Values the source computes by looking at data that is not modelled (a policy
authority's verdict, the checks on one lifecycle observation or one telemetry capture, a tachometer
band) are arbitrary inputs, so every theorem holds whatever they are.

Where code and intention differ: repeating a target to the smoother is not always invisible, because a
repeat can start the hold earlier. `Policy.ExtraUpdateCanShow` gives such a run and
`Policy.ExtraUpdateInvisible` the exact condition. The comparison epsilon of admission can cost one PWM
step on curves with fractional knots (`ControlLaw.OneStepCanBeLost`); file validation only lets
whole-number knots through, so no accepted file is affected (`ControlLaw.ValidatedRunDominates`). The
`break` at the top of the restoration loop is never taken, since the deadline was already compared at the
end of the previous attempt.

## Model

| member | source | states |
|---|---|---|
| CalibrationReplay.ResumeRestoresSession | crates/fan-control-core/src/calibration.rs:340-395 | Resuming the checkpoint of any reachable session that has not failed gives back that session in every field; only a pending revalidation is added, and not even that once it is complete. |
| CalibrationReplay.CheckpointOfResumed | crates/fan-control-core/src/calibration.rs:340-395 | The other way round: every accepted checkpoint is exactly the checkpoint of the session it rebuilds. |
| CalibrationReplay.AcceptedExactlyWhenHonest | crates/fan-control-core/src/calibration.rs:349-395 | A checkpoint is accepted if and only if some sequence of observations and reloads from a fresh start reaches a live session that writes it: no forged, reordered or truncated-and-edited log gets in, and no honest one is refused. |
| CalibrationReplay.FailureIsFinal | crates/fan-control-core/src/calibration.rs:770-778 | After any failure, whatever is observed or reloaded leaves the session exactly as it is, and its checkpoint is refused for either fan. |
| CalibrationReplay.ReachableIsReplayable | crates/fan-control-core/src/calibration.rs:349-395 | The log determines the session, for every sequence of actions including nested resumes. |
| CalibrationProtocol.UnbrokenSupervision | crates/fan-control-core/src/calibration.rs:679-733 | In any reachable log, the samples of all events between two revalidations, concatenated, strictly increase in time with gaps of at most 2 s, and every one shows the other fan in Custom at 255. |
| CalibrationProtocol.CompletedLogIsCanonical | crates/fan-control-core/src/calibration.rs:397-441 | With revalidations removed, every completed log is a sweep prefix, five alternating maximum/floor pairs, one hold and four anchors; the floor is the lowest settled level plus 1000 and one of 4000, 5000, 6000, 7000. |
| CalibrationProtocol.NothingBelowFloorAfterSweep | crates/fan-control-core/src/calibration.rs:397-441 | Once the sweep is over, no step of any reachable session commands less than the floor, as duty or as PWM. |
| CalibrationEvidence.ProducerMeetsValidator | crates/fan-control-core/src/evidence.rs:1455-1525 | The evidence of every completed session passes every calibration check of record validation: allowed floor, derived deadline, canonical duties, ordered plausible anchors, exact replay of the embedded log. |
| CalibrationEvidence.ValidExactlyWhenMeasured | crates/fan-control-core/src/evidence.rs:1455-1525 | The checks admit exactly honest evidence: a record is valid if and only if some sequence of actions completes a session of its fan with that very evidence. |
| CalibrationLog.ReachableLogIsGenuine | crates/fan-control-core/src/calibration.rs:484-648 | Every entry of every reachable log, failed sessions included, shows the selected fan in Custom at the commanded PWM in every sample; a hold lasted fifteen minutes at a plausible, steady speed; every level but a sweep level settled. |
| CalibrationLog.HoldsAreGenuine | crates/fan-control-core/src/calibration.rs:608-648 | In every reachable log a recorded hold spans at least 900000 ms, every sample at the PWM of the floor with a plausible speed, and no two speeds apart by more than 10 % of their median or 50 RPM. |
| CalibrationLog.CompletedHeldOnce | crates/fan-control-core/src/calibration.rs:608-648 | A completed calibration rests on exactly one such hold, at its own floor. |
| CalibrationLog.ReachableIsComputed | crates/fan-control-core/src/calibration.rs:745-758 | In every reachable session the slowest response is the maximum over the settled levels of its log, and the anchors are the duties and median speeds of its captures in order. |
| CalibrationLog.EvidenceIsComputed | crates/fan-control-core/src/calibration.rs:749-760 | Published evidence consists of the session's own log and of what is computed from it: floor, slowest response, deadline min(slowest + 2000, 10000), anchors. |
| CalibrationProgress.LevelAcceptedExactly | crates/fan-control-core/src/calibration.rs:484-606 | A level is accepted if and only if a level is due, both fans were held where the step wants them from the command on without a gap, it follows the last sample within 2 s unless just resumed, and it settled; an unsettled sweep level passes only from the third on and if it was seen conclusively; an anchor must not be slower than the one before. |
| CalibrationProgress.HoldAcceptedExactly | crates/fan-control-core/src/calibration.rs:608-648 | A hold is accepted if and only if it is due, follows on, the other fan is at maximum and it is genuine. |
| CalibrationProgress.NeverStuck | crates/fan-control-core/src/calibration.rs:397-441 | No dead ends: from every reachable session that has not failed, resumed ones included, some sequence of observations completes it. |
| CalibrationProgress.StepsLeft | crates/fan-control-core/src/calibration.rs:397-441 | Accepted observations, revalidations aside, and the steps still missing never exceed twenty, and none is missing exactly when the session is complete. |
| Calibration.HoldSampleCountIsImplied | crates/fan-control-core/src/calibration.rs:608-648 | The minimum sample count of the 15-minute hold already follows from its duration and the 2 s gap bound. |
| Calibration.DurationBoundedByCount | crates/fan-control-core/src/calibration.rs:892-910 | n continuous samples span at least n-1 ms and at most 2000(n-1) ms. |
| Calibration.AnchorDuties | crates/fan-control-core/src/calibration.rs:35-49 | For every allowed floor the anchor duties are exactly floor, midpoint to 7500, 7500 and 10000: removing duplicates never drops one. |
| Calibration.StableMedian | crates/fan-control-core/src/calibration.rs:870-890 | A level is stable if and only if there are at least three readings and no two differ by more than the larger of 10 % of their median and 50 RPM. |
| Calibration.MedianIsMiddle | crates/fan-control-core/src/calibration.rs:919-923 | More than half of the readings do not exceed the median, and at most half lie below it. |
| Calibration.SettledLevel | crates/fan-control-core/src/calibration.rs:787-849 | A settled level has a plausible median speed and a response time from 1 to 10 s. |
| Calibration.SettledMeans | crates/fan-control-core/src/calibration.rs:787-849 | A level settles if and only if its last sample is 1 to 10 s after the command and, from the first reported speed on, every sample reports a plausible speed, at least three of them over at least a second and 250 ms apart, no two of them further apart than the tolerance. |
| Calibration.SettledValues | crates/fan-control-core/src/calibration.rs:787-849 | It carries the median of those speeds and the time from the command to the last sample. |
| Calibration.DutyToPwmIsLeast | crates/fan-control-core/src/calibration.rs:925-928 | The commanded PWM is the least step not below duty * 255 / 10000, and a byte for every duty. |
| CalibrationSession.NextStep | crates/fan-control-core/src/calibration.rs:397-441 | Revalidation is asked for exactly while a resume is pending. |
| CalibrationSession.RecordLevel | crates/fan-control-core/src/calibration.rs:484-606 | An accepted level appends exactly its own event; a rejected one fails the session and leaves log and last time untouched. |
| CalibrationSession.RecordHold | crates/fan-control-core/src/calibration.rs:608-648 | An accepted hold appends exactly its own event and is accepted only in the hold phase with no revalidation pending; a rejected one fails the session. What a hold must show is stated by `CalibrationProgress.HoldAcceptedExactly`. |
| CalibrationSession.RecordSweep | crates/fan-control-core/src/calibration.rs:650-677 | A sweep level keeps the session coherent: a floor is fixed only from a non-empty prefix of stable levels, and only if the margin is available. |
| CalibrationSession.Replay | crates/fan-control-core/src/calibration.rs:349-395 | A replay that succeeds rebuilds a live session with no pending revalidation whose log is the one replayed. |
| CalibrationMachine.ConservativeFanCalibration.constructor | crates/fan-control-core/src/calibration.rs:325-338 | A new machine is the starting session. |
| CalibrationMachine.ConservativeFanCalibration.Level | crates/fan-control-core/src/calibration.rs:484-606 | The in-place update ends in the session, and with the error, that `RecordLevel` gives. |
| CalibrationMachine.ConservativeFanCalibration.Hold | crates/fan-control-core/src/calibration.rs:608-648 | The in-place update ends in the session, and with the error, that `RecordHold` gives. |
| CalibrationMachine.ConservativeFanCalibration.SweepTo | crates/fan-control-core/src/calibration.rs:650-677 | The in-place sweep step, field by field that of `RecordSweep`. |
| CalibrationMachine.ConservativeFanCalibration.CaptureAnchorAt | crates/fan-control-core/src/calibration.rs:559-580 | The in-place anchor step, which completes with evidence after the fourth anchor. |
| CalibrationMachine.ConservativeFanCalibration.ValidateSamples | crates/fan-control-core/src/calibration.rs:714-733 | The two scans report the other fan before the selected fan, and any report fails the session. |
| CalibrationMachine.ConservativeFanCalibration.TakeCheckpoint | crates/fan-control-core/src/calibration.rs:340-347 | The checkpoint carries the fan, the whole log and whether the session failed. |
| CalibrationMachine.ConservativeFanCalibration.ResumeFrom | crates/fan-control-core/src/calibration.rs:349-395 | The replay loop accepts exactly the checkpoints `Resume` accepts and ends in the same session. |
| Demand.ToPwm | crates/fan-control-core/src/demand.rs:53-58 | The least 8-bit step not below the exact scaled demand. |
| Demand.ToPwmMonotone | crates/fan-control-core/src/demand.rs:53-58 | More demand never gives a lower PWM. |
| Curve.FromOrderedPoints | crates/fan-control-core/src/curve.rs:58-71 | A curve is accepted if and only if it is non-empty and strictly increasing in temperature. |
| Curve.ClampIsIdentity | crates/fan-control-core/src/curve.rs:73-121 | Inside its segment the clamp of the interpolation changes nothing. |
| Curve.ScaledPositionAgrees | crates/fan-control-core/src/curve.rs:73-121 | The overflow branch, which scales all temperatures first, computes the same position. |
| Curve.EvaluateIsPiecewiseLinear | crates/fan-control-core/src/curve.rs:73-121 | The curve is flat outside its knots and, between neighbours, the straight line through both. |
| Curve.EvaluateMonotone | crates/fan-control-core/src/curve.rs:73-121 | Non-decreasing knots give a curve that is non-decreasing at every pair of real temperatures. |
| Curve.KnotChecksDecideDominance | crates/fan-control-core/src/curve.rs:123-132 | Checking only knots decides dominance: `first_below` finds nothing if and only if candidate(t) + epsilon >= protected(t) at every real temperature, inside and outside both knot ranges. |
| Curve.IntegerKnotsDominateExactly | crates/fan-control-core/src/curve.rs:123-132 | With whole-number knots less than 10^9 degrees apart the epsilon hides nothing: no finding means candidate(t) >= protected(t) everywhere. |
| Config.ValidateCurve | crates/fan-control-core/src/validation.rs:406-482 | A curve is accepted if and only if it has two points or more, all in the range of its component (90 or 82 degrees), strictly hotter and never less demanding, and reaches 100 percent; it then has exactly the points of the file. |
| Config.ValidateConfig | crates/fan-control-core/src/validation.rs:323-396 | A file is accepted if and only if every value is in its range and all four curves are acceptable; hysteresis, hold, rate, both floors and every knot of every curve are then the file's own, each in its place. |
| Config.FullDemandWhenHot | crates/fan-control-core/src/validation.rs:457-466 | From the critical temperature of its component upwards a validated curve demands 100 percent. |
| Config.AdmissionDecidesDominance | crates/fan-control-core/src/envelope.rs:47-111 | A candidate is admitted if and only if both floors and all four curves dominate the protected ones, up to the epsilon, at every temperature. |
| Config.RefusalIsTrue | crates/fan-control-core/src/envelope.rs:47-111 | A refusal names a floor that really is lower, or a curve and a temperature at which it really is lower by more than the epsilon. |
| Config.AdmissionIsExact | crates/fan-control-core/src/envelope.rs:47-111 | With whole-number knots, admission means dominance with no slack. |
| Policy.EffectiveTemperature.Update | crates/fan-control-core/src/policy.rs:45-63 | The effective temperature stays between the sample and the sample plus the hysteresis. |
| Policy.EffectiveIsNearest | crates/fan-control-core/src/policy.rs:45-63 | It is the point of that interval nearest to the previous value. |
| Policy.DemandSmoother.Update | crates/fan-control-core/src/policy.rs:149-196 | An update is refused exactly when time went back, and then changes nothing; otherwise it takes the step of `Advance`, whose hold and ramp the next rows state without it. |
| Policy.NeverBelowTarget | crates/fan-control-core/src/policy.rs:149-196 | The smoother never commands less than the target just given, rises to it at once and otherwise never rises. |
| Policy.PendingClosedForm | crates/fan-control-core/src/policy.rs:149-196 | In any run that ends with a downshift pending since p there is a point at time p from which every command equals the command there less rate * max(0, last update - p - hold). |
| Policy.HoldDelaysDownshift | crates/fan-control-core/src/policy.rs:149-196 | In any run, an update lowers the command only later than hold after the downshift became pending. |
| Policy.RateBound | crates/fan-control-core/src/policy.rs:149-196 | Between any two points of any run the command falls no faster than the configured rate. |
| Policy.ExtraUpdateInvisible | crates/fan-control-core/src/policy.rs:149-196 | An extra update with the same target, placed earlier, leaves the state unchanged if and only if the target raises the command or continues the pending downshift (or the two updates coincide). |
| Policy.ExtraUpdateCanShow | crates/fan-control-core/src/policy.rs:149-196 | A concrete run in which an extra update does show: it starts the hold earlier, and the command is 95 instead of 100. |
| Policy.SteadyRunCollapses | crates/fan-control-core/src/policy.rs:149-196 | However many updates repeat a target that starts no new hold, only the last one matters. |
| Policy.ConstantTargetReached | crates/fan-control-core/src/policy.rs:149-196 | A constant target is reached by the first update at or after p + hold + gap / rate, and kept. |
| Output.OutputsMonotone | crates/fan-control-core/src/output.rs:57-65 | More demand never lowers either fan, and neither fan ever goes below its floor. |
| Output.OutputsAreLeastCovering | crates/fan-control-core/src/output.rs:33-75 | On battery power the battery curves count, on AC and on unknown power the AC curves; each fan gets the least PWM step covering its own floor, the CPU curve at the CPU temperature and the GPU curve at the GPU temperature. |
| Output.TargetIsHigherCurve | crates/fan-control-core/src/output.rs:33-75 | The shared demand is the higher of the two curves of the profile in force. |
| Output.OtherProfileIgnored | crates/fan-control-core/src/output.rs:67-75 | Replacing the other power state's profile by any profile changes nothing; unknown power is treated as AC. |
| ControlLaw.ComputeNextOutputs | crates/fan-control-core/src/control_cycle.rs:387-431 | The working copy of the history is advanced as the law says, outputs are at or above both floors, and the only failure is a clock that went back. |
| ControlLaw.CycleIgnoresOtherProfile | crates/fan-control-core/src/control_cycle.rs:387-431 | A cycle on battery does not depend on the AC profile, any other cycle not on the battery profile, and unknown power behaves as AC. |
| ControlLaw.RunIgnoresOtherProfile | crates/fan-control-core/src/control_cycle.rs:387-431 | The same for whole runs all on battery, or never on battery. |
| ControlLaw.SteadyRunKeepsOutputs | crates/fan-control-core/src/control_cycle.rs:387-431 | No chatter: once the command has reached its target, temperatures that fall by no more than the hysteresis, in whatever pattern, change no output in any cycle. |
| ControlLaw.RunKeepsRaisedOutputs | crates/fan-control-core/src/control_cycle.rs:387-431 | In every run an output that was raised is kept on both fans in every cycle completed within the configured hold. |
| ControlLaw.RunSlewLimit | crates/fan-control-core/src/control_cycle.rs:387-431 | Between any two cycles of any run each fan falls by at most one step more than 2.55 * rate * (time between their completions). |
| ControlLaw.CycleCoversMemoryless | crates/fan-control-core/src/control_cycle.rs:387-431 | With non-decreasing curves, hysteresis plus smoothing plus round-up never give less than the memoryless outputs for the same raw sample, and exactly those on the first cycle. |
| ControlLaw.RunCoversMemoryless | crates/fan-control-core/src/control_cycle.rs:387-431 | The same in every cycle of every run. |
| ControlLaw.AdmittedRunDominates | crates/fan-control-core/src/envelope.rs:47-111 | An admitted candidate with non-decreasing, whole-number curves gives each fan, in every cycle of every run, at least what the protected configuration computes for that raw sample. |
| ControlLaw.AdmittedRunNearlyDominates | crates/fan-control-core/src/envelope.rs:47-111 | Without whole-number knots it is at most one PWM step lower. |
| ControlLaw.OneStepCanBeLost | crates/fan-control-core/src/curve.rs:123-132 | The step can really be lost: 20 % is admitted against 20.0000000005 % and gives 51 against 52. |
| ControlLaw.ValidatedRunDominates | crates/fan-control-core/src/validation.rs:323-396 | For configurations that pass file validation nothing more need be assumed for that dominance. |
| ControlLaw.HotMeansMaximum | crates/fan-control-core/src/output.rs:33-65 | In every cycle of every run with the CPU at 90 degrees or more, or the GPU at 82, both fans are commanded to 255. |
| Platform.SafeFromSafeStart | crates/fan-control-core/src/platform.rs:592-602 | If the state an observer found was safe, so is every state the observer sees. |
| Platform.Machine.WriteMode | crates/fan-control-core/src/platform.rs:1412-1488 | A guarded write takes effect only while its guards hold, may fail with or without effect, touches one field of one fan, and cannot create a hazard. |
| Platform.Machine.WritePwm | crates/fan-control-core/src/platform.rs:1412-1488 | The same for a duty write. |
| Restoration.RestoreBefore | crates/fan-control-core/src/restoration.rs:147-231 | Every attempt commands Auto on the CPU fan and then on the GPU fan, whatever happens to the first, and reads both back: the whole log of accesses is those attempts. There are one to three, the last one decides, the error counts them and carries the answers of the last; an attempt in which nothing failed confirms. Success means both fans really are in Auto, within the deadline; PWM values are kept and modes only move to Auto. |
| Restoration.RestoreFirmwareAuto | crates/fan-control-core/src/restoration.rs:135-145 | The same within the two-second window; the deadline is reported as exceeded only when two seconds have passed. |
| Restoration.Attempt | crates/fan-control-core/src/restoration.rs:147-231 | One attempt is exactly four accesses: Auto written to CPU and GPU, both modes read; `written` and `readback` are the answers. If both writes and both reads succeed, it is confirmed. |
| Restoration.ContainFan | crates/fan-control-core/src/restoration.rs:313-349 | The mode is always read; a fan found in Custom is always commanded to 255 and read back, and the status reports the answers of exactly these accesses. It is true of the fan, and only a fan in Custom is ever raised. |
| Restoration.ContainCustomFans | crates/fan-control-core/src/restoration.rs:255-284 | Both fans are contained independently, with all accesses of both; a confirmed restoration means both really are in Auto. |
| Restoration.Recover | crates/fan-control-core/src/restoration.rs:286-311 | Recovery ends only with both fans in Auto; every cycle before that made one to three restoration attempts and contained both fans, and took at least two seconds. |
| Restoration.RecoverOnce | crates/fan-control-core/src/restoration.rs:286-311 | One cycle is its attempts followed, exactly if they did not succeed, by containment; it is over only if Auto was confirmed by one of the two. |
| Ownership.SafeRelease | crates/fan-control-core/src/ownership.rs:315-333 | Over every operation sequence and fault pattern, the lock is released only if every device ever handed to Custom has since been confirmed in Auto. |
| Ownership.UsableSampleMeansConfirmed | crates/fan-control-core/src/ownership.rs:109-144 | A ready sample that arming would accept proves that restoration is still confirmed, that no device is unaccounted for and that no receipt is current. |
| Ownership.AtMostOneCurrentReceipt | crates/fan-control-core/src/arming.rs:37-43 | At most one arming receipt is current, and it is for the device in charge, the only one unaccounted for. |
| Ownership.NothingRevives | crates/fan-control-core/src/ownership.rs:185-313 | After a restoration, containment, recovery or arming attempt, no later sequence of operations makes any older receipt current or any older ready sample usable. |
| Ownership.StaleStaysStale | crates/fan-control-core/src/ownership.rs:179-191 | A receipt that stops being current is never current again. |
| Ownership.ServiceCycleCompletes | crates/fan-control-core/src/ownership.rs:86-334 | The protocol is never stuck: from every state that keeps the invariant with the lock held, a device that may be served can be restored, sampled twice and armed, which gives a current receipt, then restored and released with nothing unaccounted for. |
| Ownership.StepKeepsInvariant | crates/fan-control-core/src/ownership.rs:164-333 | Every operation keeps the protocol invariant, and epochs never go back. |
| Ownership.RunKeepsInvariant | crates/fan-control-core/src/ownership.rs:164-333 | So does every sequence of operations; nothing given out is ever taken back from the record. |
| Controller.ControllerOwnership.constructor | crates/fan-control-core/src/ownership.rs:459-469 | A new ownership holds the lock with nothing confirmed, nothing issued and nothing handed over. |
| Controller.ControllerOwnership.RefreshConfirmation | crates/fan-control-core/src/ownership.rs:193-231 | While confirmed on the right device both modes are read, CPU first, and confirmation stays exactly if both answered Auto; otherwise the epoch ends. Reads only. |
| Controller.ControllerOwnership.CollectFreshSample | crates/fan-control-core/src/ownership.rs:109-144 | Issues a ready sample exactly when both fans were just read in Auto and the sample gate answered with a second fresh sample, and only for the current epoch. |
| Controller.ControllerOwnership.BeginCustomTransition | crates/fan-control-core/src/ownership.rs:164-169 | Starts a new epoch with one device unaccounted for, and it was the only one. |
| Controller.ControllerOwnership.RestoreFirmwareAuto | crates/fan-control-core/src/ownership.rs:238-258 | Makes the attempts of restoration and confirms exactly when both fans were read in Auto on the device in charge; a wrong device is reported only when there is another one in charge. Devices already in Auto stay there. |
| Controller.ControllerOwnership.ContainCustomFansAtMaximum | crates/fan-control-core/src/ownership.rs:260-275 | Makes exactly the accesses of containment; confirms only if both fans were found in Auto on the device in charge. |
| Controller.ControllerOwnership.RestoreOrContainFirmwareAuto | crates/fan-control-core/src/ownership.rs:277-301 | Restoration is always tried, containment exactly when that did not confirm; not critical means restoration is confirmed and both fans really are in Auto. |
| Controller.ControllerOwnership.RecoverFirmwareAuto | crates/fan-control-core/src/ownership.rs:303-313 | Makes the cycles of recovery; when it ends both fans really are in Auto. |
| Controller.ControllerOwnership.ReleaseLock | crates/fan-control-core/src/ownership.rs:315-333 | While confirmed the operating system is asked, and its answer decides; at the moment of release every device ever handed to Custom physically is in Auto. |
| Arming.Stage | crates/fan-control-core/src/arming.rs:505-575 | Success means both fans in Auto with 255 staged by exactly two writes, CPU first; no observer sees a new hazard on the way; a failure blames the last access. |
| Arming.StageBoth | crates/fan-control-core/src/arming.rs:527-555 | The writes made are a beginning of the two staging writes, at most the last of them failed, and both fans stay in Auto. |
| Arming.EnterCustom | crates/fan-control-core/src/arming.rs:577-604 | From there two guarded writes, CPU first, leave both fans in Custom at 255; a failure blames the last access, and no observer sees a fan in Custom below 255. |
| Arming.ConfirmCustomAtMaximum | crates/fan-control-core/src/arming.rs:643-698 | Success means both fans really are in Custom at 255. |
| Arming.AwaitTachometers | crates/fan-control-core/src/arming.rs:717-756 | The polling loop ends; success gives two plausible speeds read one after the other in one round; a timeout comes only at or after the deadline, and anything else blames the last access. |
| Arming.Arm | crates/fan-control-core/src/arming.rs:479-641 | Under any fault pattern no state on the way has a fan in Custom below 255 that was not found so; the writes are a beginning of the four handover writes in order, and none unless the ready sample was at most two seconds old. Success leaves both fans in Custom at 255 with plausible speeds, and its accesses are exactly these: poll, device lookup, both modes, both staging writes and both entries with a poll after each write, read-backs, and three confirmations around two rounds of tachometer readings. Every failure has a cause: an access of this call with the answer that failed it, a sample too old or from the future, or ten seconds without two turning fans. |
| Arming.ArmBothFans | crates/fan-control-core/src/arming.rs:300-419 | Arming succeeds only for an admitted candidate with a ready sample of this very epoch; success hands out a current receipt for both fans in Custom at 255, with exactly the handover writes made. A failure has a cause in the verdict, the sample, the clock or an access; the same call then commands Auto on both fans, and unless safing failed too both fans really are in Auto. |
| ControlCycle.ConfirmState | crates/fan-control-core/src/control_cycle.rs:450-484 | Success means both fans really are in Custom at exactly the expected outputs. |
| ControlCycle.WriteChangedFan | crates/fan-control-core/src/control_cycle.rs:486-529 | An unchanged output writes nothing; a changed one is written once, touches only that duty, is read back, and never goes below the floor even if the write fails with unknown effect; a failure blames the last access. |
| ControlCycle.HealthyControl.WriteChangedOutputs | crates/fan-control-core/src/control_cycle.rs:486-529 | The writes are those of the changed outputs, CPU first, all of them on success; from the confirmed previous outputs, success leaves both fans at the new ones; no mode ever changes. |
| ControlCycle.HealthyControl.FromArmed | crates/fan-control-core/src/control_cycle.rs:34-61 | Control starts at maximum outputs with no history, bound to the receipt. |
| ControlCycle.HealthyControl.TryRunCycle | crates/fan-control-core/src/control_cycle.rs:286-385 | A completed cycle makes exactly these accesses: two polls, device, state, device, tachometers, state and device confirmed, every changed duty written in Custom between polls and read back, then poll, state and device again; it leaves both fans at what the law gives for the samples so far. A failed one leaves history and remembered outputs as they were, and has a cause: no sample, a clock that went back, or the last access, judged against what was last written. |
| ControlCycle.HealthyControl.RunCycle | crates/fan-control-core/src/control_cycle.rs:257-284 | Each cycle either re-establishes that both fans are in Custom at the remembered outputs, or invalidates control for good; invalidated or stale control writes nothing. |
| ControlCycle.LastOutputsOfRun | crates/fan-control-core/src/control_cycle.rs:387-431 | The remembered outputs are the last ones of the law's run over the completed samples. |
| ControlCycle.FansDominateProtected | crates/fan-control-core/src/control_cycle.rs:286-385 | From file to fans: while control is current, both fans physically run at no less than the protected configuration asks for the newest raw sample. |
| Session.Operate | crates/fan-control-core/src/ownership.rs:86-334 | Over every sequence of operations, devices, kept and reused samples and receipts, and faults: no fan is ever seen in Custom below its floor unless found so; every control ever armed agrees with the machine whenever it is current; a released lock means every device handed over is physically in Auto; and the run is a run of the ownership protocol, one step per command until the lock is released. |
| LifecycleTrace.LanguageIsSafe | crates/fan-control-core/src/live_lifecycle.rs:793-1181 | Every trace of the runner is safe: a case starts only with both fans just read in Auto; a case other than the reboot is followed at once by cleanup and both reads; arming happens at most once, straight after a confirmed post-boot gate; restoration and a terminal gate always follow the reboot. |
| LifecycleTrace.AppendedBlockIsSafe | crates/fan-control-core/src/live_lifecycle.rs:755-769 | A safe trace that ends in Auto stays safe when the reboot is appended after a resume. |
| Lifecycle.LifecycleRun.ConfirmOneFan | crates/fan-control-core/src/live_lifecycle.rs:1361-1472 | Exactly one readback per read; it is confirmed only on a fresh, timely, named Auto answer, and anything else leaves a fault; in a healthy environment it is confirmed. |
| Lifecycle.LifecycleRun.ConfirmAutoGate | crates/fan-control-core/src/live_lifecycle.rs:1243-1353 | A gate holds if and only if it adds no fault; then both fans were freshly read in Auto on two distinct expected endpoints. Its two readbacks are confirmed exactly when it holds, and older ones are untouched. In a healthy environment it holds. |
| Lifecycle.WithdrawLastTwo | crates/fan-control-core/src/live_lifecycle.rs:1327-1332 | Only the last two outcomes are rewritten. |
| Lifecycle.FillReadbacks | crates/fan-control-core/src/live_lifecycle.rs:957-968 | Only readbacks without a boot identity receive one. |
| Lifecycle.FillTransitions | crates/fan-control-core/src/live_lifecycle.rs:957-968 | Only transitions without a boot identity receive one. |
| Lifecycle.LifecycleRun.RunOrdinaryCase | crates/fan-control-core/src/live_lifecycle.rs:824-1181 | Case, cleanup and both reads in this order whatever fails; it passes if and only if it adds no fault, and then both fans were read in Auto; in a healthy environment it passes. |
| Lifecycle.LifecycleRun.RunReboot | crates/fan-control-core/src/live_lifecycle.rs:833-1181 | Resume, gate, at most one arming behind a confirmed gate, restoration, terminal gate; it passes if and only if it adds no fault, and in a healthy environment it does. The evidence of a passed reboot shows a new boot, both fans in Auto on endpoints that did not trade places, armed after that, restored after that on both clocks, and both in Auto again after that on the same endpoints. Evidence already bound to its boot is not rewritten. |
| Lifecycle.LifecycleRun.OpenGate | crates/fan-control-core/src/live_lifecycle.rs:700-751 | The first gate is retried once behind a cleanup; after a failed first gate no case can run. |
| Lifecycle.LifecycleRun.RunPhase | crates/fan-control-core/src/live_lifecycle.rs:771-1228 | The calls made are exactly the blocks of the cases recorded, in order, each run only because all before it passed. A report is accepted if and only if there are eight cases, all passed, no fault is recorded and the last gate confirmed Auto; a phase that stops before the reboot without getting there has a fault. |
| Lifecycle.RunUntilReboot | crates/fan-control-core/src/live_lifecycle.rs:652-752 | For every environment the calls are safe; a pause hands out a valid checkpoint with both fans just read in Auto and no reboot yet; a report made before the reboot is never accepted and always carries a fault. In a healthy environment the run gets to the reboot. |
| Lifecycle.Resume | crates/fan-control-core/src/live_lifecycle.rs:755-769 | For every environment a report resumed from a valid checkpoint has its readbacks, transitions and cases as prefixes; an invalid checkpoint is refused without a call; the trace stays safe. The report is accepted if and only if all eight cases are recorded in order and passed, no fault is recorded and the trace ends with both fans read in Auto; the reboot was then armed behind a confirmed gate and its evidence proves a new boot. In a healthy environment it is accepted. |
| Endurance.SegmentIndexAtElapsed | crates/fan-control-core/src/endurance.rs:1507-1516 | The first segment that has not ended before the given time, or the last. |
| Endurance.OneBoundaryAtATime | crates/fan-control-core/src/endurance.rs:620-701 | From one sample to the next at most one segment boundary is crossed, and it is at the time of the first. |
| Endurance.EnduranceRun.RecordObserver | crates/fan-control-core/src/endurance.rs:1448-1480 | A check is recorded if and only if the observer answered between two readings within the deadline, and after the check before by at most 5 s on both clocks; the whole list stays so spaced. In a healthy environment it is recorded. |
| Endurance.EnduranceRun.PerformConfirmedStop | crates/fan-control-core/src/endurance.rs:1593-1693 | One attempt; it counts only if the expected process was reported absent between request and completion, within 5 s and within the deadline, and anything else leaves a fault; in a healthy environment it counts. |
| Endurance.EnduranceRun.ClimbLadder | crates/fan-control-core/src/endurance.rs:877-939 | Stop, contain, force, in order, ending with the first confirmed absence and never giving up before the third. |
| Endurance.EnduranceRun.RestoreOne | crates/fan-control-core/src/endurance.rs:1695-1790 | A restoration counts if and only if Auto was written, read and reported on a trusted endpoint within 5 s; anything else leaves a fault. |
| Endurance.EnduranceRun.Close | crates/fan-control-core/src/endurance.rs:1027-1050 | Either both fans are confirmed in Auto, or containment at maximum is tried on both; Auto is tried only if allowed. |
| Endurance.EnduranceRun.ChangeSegment | crates/fan-control-core/src/endurance.rs:620-701 | A segment is entered only if the observer attended and the confirmed state matches between the boundary and 2 s after it; anything else leaves a fault. |
| Endurance.EnduranceRun.TakeSamples | crates/fan-control-core/src/endurance.rs:620-820 | As long as no fault is recorded, checks, transitions and samples add up, the active segment is the scheduled one, every sample is a valid capture within the envelope complete within 100 ms of its moment, and every segment was entered within 2 s of its boundary; in a healthy environment all 1800 samples are taken. |
| Endurance.EnduranceRun.ShutDown | crates/fan-control-core/src/endurance.rs:835-1072 | The whole ladder is climbed whatever happened before; with no new fault it adds exactly four observer checks and one transition back to Firmware Auto, and the workload of a complete run was absent within 10 s of its scheduled end. |
| Endurance.ShutdownIsSafe | crates/fan-control-core/src/endurance.rs:835-1050 | For every environment: workload stops precede service stops; Auto is restored only once the workload, and the service if Custom was entered, were confirmed absent; the last two calls are both fans confirmed in Auto or containment tried on both. |
| Endurance.RunSupervisedEndurance | crates/fan-control-core/src/endurance.rs:346-1152 | All of that for every run. It is accepted if and only if no fault was recorded, and then has 1800 samples each in its slot and within the envelope, the eight transitions from Firmware Auto through Custom and all six segments at their boundaries and back, a timely stop, and exactly samples + transitions + 4 observer checks, as the evidence validator counts them, each after the one before by at most 5 s on both clocks. In a healthy environment it is accepted. |
| Thermal.PercentileIsNearestRank | crates/fan-control-core/src/evidence.rs:2058-2063 | The reported P95 is a member that at least 95 % of the values do not exceed, while fewer than 95 % lie below it. |
| Thermal.NearestRankIsUnique | crates/fan-control-core/src/evidence.rs:2058-2063 | No other value has this property, so the percentile is exactly the nearest-rank one. |
| Thermal.PercentileWithinPeak | crates/fan-control-core/src/evidence.rs:2018-2037 | P95 never exceeds the peak, also for no readings at all. |
| Thermal.EnvelopeIsCoherent | crates/fan-control-core/src/endurance.rs:1931-2020 | An envelope derived from real summaries has P95 limits within its peak limits below the abort limits, and every baseline it came from is within it. |
| Thermal.EnvelopeIsTight | crates/fan-control-core/src/endurance.rs:1931-2020 | Each limit is exactly the largest baseline value plus two degrees, and an envelope exists exactly when all four are positive and below the abort temperatures of 95 and 85 degrees. |
| Thermal.SlopeAtMost | crates/fan-control-core/src/evidence.rs:2069-2108 | The least-squares slope never exceeds the fastest rise between two points. |
| Thermal.FinalSlopeAtMost | crates/fan-control-core/src/evidence.rs:2069-2108 | If no two readings of the last five minutes rise faster than L >= 0 per minute, the final slope is at most L, whatever their order and spacing. |
| Thermal.SlopeOfLine | crates/fan-control-core/src/evidence.rs:2069-2108 | Points on a line that are not all simultaneous give back its slope. |
| Thermal.FinalSlopeOfLine | crates/fan-control-core/src/evidence.rs:2069-2108 | Readings of the last five minutes that follow a line are reported with its slope per minute, whatever came before them, provided two of them were taken at different times. |

## Left out

- Floating point: rounding of `f64`, and the saturation of non-finite values, are not modelled; the clamp and scale branches of curve evaluation are proved to change nothing over the reals.
- Integer width: overflow of `u64` timestamps, epochs, identifiers and deadlines, where the code panics, saturates or reports an overflow fault.
- Restoration.Recover: is observed for a given number of cycles, because the recovery loop of the source has no bound; that it ends is not claimed.
- Controller.ControllerOwnership.RecoverFirmwareAuto: inherits that bound.
- CalibrationEvidence.ProducerMeetsValidator: leaves out the binding of a calibration to the commands recorded around it, and runs that are not of the calibration stage.
- Lifecycle.RunUntilReboot: takes the checks of envelope, binding and prerequisite endpoints as one boolean; the checkpoint's validation as an evidence record is not modelled. A healthy environment is sufficient for getting to the reboot, not necessary.
- Endurance.RunSupervisedEndurance: takes plan validation as given and the checks on one capture as arbitrary answers; of the validator's observer rules it proves the exact count and the spacing, not the placement of single checks between transitions. A healthy environment is sufficient for acceptance; the exact condition is stated on the recorded faults.
- Thermal.EnvelopeIsCoherent: the slope limit of the endurance check is covered by `Thermal.FinalSlopeAtMost` alone, and rounding a slope to a whole number is not modelled.
- The claim that the runners never report invalid generated evidence, which depends on timing between two clock reads.
- `recover_system_firmware_auto_cycle`, used by the separate recovery executable, which clears the confirmation without a new epoch; the ownership theorems are about the other operations.
- Acquiring the lock and rejecting competing services; the fresh-sample gates and their cadence rules (`sampling.rs`), whose answers are arbitrary.
- Sensor rediscovery after a fault (`sensor_recovery.rs`) and shutdown signals (`termination.rs`): `Session.Operate` covers any order of the operations they use; a shutdown request may appear at any point.
- Tachometer bands during control (`tachometer.rs`): whether a reading is in its band is arbitrary.
- Discovery and sensor access (`acer_hwmon.rs`, `coretemp.rs`, `nvidia_gpu.rs`, `external_power.rs`): a device is an identity.
- Preflight, compatibility, policy authority and promotion: long comparisons, hashing and parsing that would only add easy members.
- Baseline and matched-workload runners: the same style as the endurance run without fan writes.
- File publication, serialization, diagnostics and messages.
