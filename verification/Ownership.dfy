/**
 * The ownership protocol as a state machine (ownership.rs): epochs, ready samples, arming receipts and
 * the confirmed-restoration flag. Outcomes of device operations are arbitrary inputs, so every fault
 * pattern is one run; class `ControllerOwnership` is proved to take exactly these steps.
 */
module Ownership {
  import opened Wrappers
  import opened Platform

  /** The fields of the owning controller. */
  datatype Core = Core(
    id: nat,
    controlled: Option<Identity>,
    confirmed: bool,
    epochStarted: bool,
    epoch: nat,
    locked: bool)

  /** Proof that two consecutive samples were taken in one Firmware Auto epoch. */
  datatype ReadySample = ReadySample(ownershipId: nat, epoch: nat, completedAt: Nanos)

  datatype Receipt = Receipt(ownershipId: nat, epoch: nat, device: Identity)

  /** The controller together with everything it has given out, and the devices still to be accounted for. */
  datatype World = World(core: Core, issued: set<ReadySample>, receipts: set<Receipt>, outstanding: set<Identity>)

  datatype Sampled = SampleFailed | AwaitingSecond | Fresh(completedAt: Nanos)

  /** Operations with what the outside answered; `restored` and `contained` mean that both fans read Auto. */
  datatype Operation =
    | Refresh(device: Identity, bothAuto: bool)
    | Collect(device: Identity, bothAuto: bool, sampled: Sampled)
    | Arm(device: Identity, sample: ReadySample, admitted: bool, armed: bool, restored: bool, contained: bool)
    | Restore(device: Identity, restored: bool)
    | Contain(device: Identity, contained: bool)
    | RestoreOrContain(device: Identity, restored: bool, contained: bool)
    | Recover(device: Identity, restored: bool)
    | Release(unlocked: bool)

  // ---------------------------------------------------------------- steps

  function ResetEpoch(c: Core): Core {
    c.(epochStarted := false, epoch := c.epoch + 1)
  }

  function Invalidate(c: Core): Core {
    ResetEpoch(c.(confirmed := false))
  }

  predicate Accountable(c: Core, device: Identity) {
    c.controlled.None? || c.controlled.value == device
  }

  /** Both fans re-read as Auto on the right device, or the epoch ends; succeeds iff the result is confirmed. */
  function AfterRefresh(c: Core, device: Identity, bothAuto: bool): Core {
    if !c.confirmed then c
    else if !Accountable(c, device) || !bothAuto then Invalidate(c)
    else c
  }

  function AfterCollect(c: Core, device: Identity, bothAuto: bool, sampled: Sampled): Core {
    var refreshed := AfterRefresh(c, device, bothAuto);
    if !refreshed.confirmed then refreshed
    else
      var started := refreshed.(epochStarted := true);
      if sampled.SampleFailed? then Invalidate(started) else started
  }

  function BeginCustom(c: Core, device: Identity): Core {
    ResetEpoch(c.(controlled := Some(device), confirmed := false))
  }

  /** A restoration, containment or recovery on `device`: a new epoch, confirmed only for the device in charge. */
  function AfterSafing(c: Core, device: Identity, bothAuto: bool): Core {
    Invalidate(c).(confirmed := bothAuto && Accountable(c, device))
  }

  function AfterRestoreOrContain(c: Core, device: Identity, restored: bool, contained: bool): Core {
    var first := AfterSafing(c, device, restored);
    if first.confirmed then first else AfterSafing(first, device, contained)
  }

  predicate Usable(c: Core, sample: ReadySample) {
    c.locked && sample.ownershipId == c.id && sample.epoch == c.epoch
  }

  predicate Current(c: Core, receipt: Receipt) {
    receipt.ownershipId == c.id && receipt.epoch == c.epoch && !c.confirmed
  }

  /** Arming begins only with admission and a sample of this very epoch. */
  predicate Begins(c: Core, op: Operation) {
    op.Arm? && op.admitted && Usable(c, op.sample)
  }

  function Step(w: World, op: Operation): World {
    var c := w.core;
    if !c.locked then w
    else
      match op
      case Refresh(device, bothAuto) =>
        w.(core := AfterRefresh(c, device, bothAuto))
      case Collect(device, bothAuto, sampled) =>
        var next := AfterCollect(c, device, bothAuto, sampled);
        w.(core := next,
           issued := if next.confirmed && sampled.Fresh? then w.issued + {ReadySample(c.id, next.epoch, sampled.completedAt)}
                     else w.issued)
      case Arm(device, sample, admitted, armed, restored, contained) =>
        var begun := if Begins(c, op) then BeginCustom(c, device) else c;
        var handed := if Begins(c, op) then w.outstanding + {device} else w.outstanding;
        if Begins(c, op) && armed then
          w.(core := begun, outstanding := handed, receipts := w.receipts + {Receipt(c.id, begun.epoch, device)})
        else
          w.(core := AfterRestoreOrContain(begun, device, restored, contained),
             outstanding := Account(handed, device, restored || contained))
      case Restore(device, restored) =>
        w.(core := AfterSafing(c, device, restored), outstanding := Account(w.outstanding, device, restored))
      case Contain(device, contained) =>
        w.(core := AfterSafing(c, device, contained), outstanding := Account(w.outstanding, device, contained))
      case RestoreOrContain(device, restored, contained) =>
        w.(core := AfterRestoreOrContain(c, device, restored, contained),
           outstanding := Account(w.outstanding, device, restored || contained))
      case Recover(device, restored) =>
        w.(core := AfterSafing(c, device, restored), outstanding := Account(w.outstanding, device, restored))
      case Release(unlocked) =>
        w.(core := if c.confirmed && unlocked then c.(locked := false) else c)
  }

  function Account(outstanding: set<Identity>, device: Identity, bothAuto: bool): set<Identity> {
    if bothAuto then outstanding - {device} else outstanding
  }

  function Acquired(id: nat): World {
    World(Core(id, None, false, false, 0, true), {}, {}, {})
  }

  /** Ready samples cannot be forged: one that bears this controller's id was issued by it. */
  predicate Unforged(w: World, op: Operation) {
    op.Arm? && op.sample.ownershipId == w.core.id ==> op.sample in w.issued
  }

  predicate Possible(w: World, ops: seq<Operation>)
    decreases |ops|
  {
    ops == [] || (Unforged(w, ops[0]) && Possible(Step(w, ops[0]), ops[1..]))
  }

  function Run(w: World, ops: seq<Operation>): World
    decreases |ops|
  {
    if ops == [] then w else Run(Step(w, ops[0]), ops[1..])
  }

  // ---------------------------------------------------------------- the invariant

  ghost predicate SamplesCurrentOnlyWhileConfirmed(w: World) {
    forall s :: s in w.issued ==>
      s.ownershipId == w.core.id && s.epoch <= w.core.epoch && (s.epoch == w.core.epoch ==> w.core.confirmed)
  }

  ghost predicate ReceiptsCurrentOnlyWhileOutstanding(w: World) {
    && (forall r :: r in w.receipts ==>
          && r.ownershipId == w.core.id && r.epoch <= w.core.epoch
          && (r.epoch == w.core.epoch ==> !w.core.confirmed && w.core.controlled == Some(r.device) && r.device in w.outstanding))
    && (forall r, q :: r in w.receipts && q in w.receipts && r.epoch == q.epoch ==> r == q)
  }

  ghost predicate OutstandingIsControlled(w: World) {
    && (w.core.confirmed ==> w.outstanding == {})
    && (forall d :: d in w.outstanding ==> w.core.controlled == Some(d))
    && (!w.core.locked ==> w.core.confirmed)
  }

  ghost predicate Invariant(w: World) {
    SamplesCurrentOnlyWhileConfirmed(w) && ReceiptsCurrentOnlyWhileOutstanding(w) && OutstandingIsControlled(w)
  }

  lemma StepKeepsInvariant(w: World, op: Operation)
    requires Invariant(w) && Unforged(w, op)
    ensures Invariant(Step(w, op))
    ensures Step(w, op).core.epoch >= w.core.epoch && Step(w, op).core.id == w.core.id
    ensures w.issued <= Step(w, op).issued && w.receipts <= Step(w, op).receipts
  {
  }

  lemma {:induction false} RunKeepsInvariant(w: World, ops: seq<Operation>)
    requires Invariant(w) && Possible(w, ops)
    ensures Invariant(Run(w, ops))
    ensures Run(w, ops).core.epoch >= w.core.epoch && Run(w, ops).core.id == w.core.id
    ensures w.issued <= Run(w, ops).issued && w.receipts <= Run(w, ops).receipts
    decreases |ops|
  {
    hide Step, Invariant;
    if ops != [] {
      StepKeepsInvariant(w, ops[0]);
      RunKeepsInvariant(Step(w, ops[0]), ops[1..]);
    }
  }

  // ---------------------------------------------------------------- what holds over every run

  /** The lock is given up only when every device ever handed to Custom has since been confirmed in Auto. */
  lemma SafeRelease(id: nat, ops: seq<Operation>)
    requires Possible(Acquired(id), ops)
    ensures var w := Run(Acquired(id), ops);
            !w.core.locked ==> w.core.confirmed && w.outstanding == {}
  {
    RunKeepsInvariant(Acquired(id), ops);
  }

  /** A ready sample that arming would accept proves that restoration is still confirmed and no receipt is current. */
  lemma UsableSampleMeansConfirmed(id: nat, ops: seq<Operation>, sample: ReadySample)
    requires Possible(Acquired(id), ops)
    requires var w := Run(Acquired(id), ops); sample in w.issued && Usable(w.core, sample)
    ensures var w := Run(Acquired(id), ops);
            && w.core.confirmed && w.outstanding == {}
            && forall r :: r in w.receipts ==> !Current(w.core, r)
  {
    RunKeepsInvariant(Acquired(id), ops);
  }

  /** At most one receipt is current, and it is for the device in charge, still unaccounted for. */
  lemma AtMostOneCurrentReceipt(id: nat, ops: seq<Operation>, r: Receipt, q: Receipt)
    requires Possible(Acquired(id), ops)
    requires var w := Run(Acquired(id), ops);
             r in w.receipts && q in w.receipts && Current(w.core, r) && Current(w.core, q)
    ensures r == q
    ensures var w := Run(Acquired(id), ops);
            w.core.controlled == Some(r.device) && w.outstanding == {r.device}
  {
    RunKeepsInvariant(Acquired(id), ops);
  }

  lemma {:induction false} RunOneMore(w: World, ops: seq<Operation>, op: Operation)
    ensures Run(w, ops + [op]) == Step(Run(w, ops), op)
    ensures Possible(w, ops + [op]) <==> Possible(w, ops) && Unforged(Run(w, ops), op)
    decreases |ops|
  {
    hide Step, Unforged;
    if ops == [] {
      assert [op][1..] == [];
    } else {
      assert (ops + [op])[1..] == ops[1..] + [op];
      RunOneMore(Step(w, ops[0]), ops[1..], op);
    }
  }

  /** A service cycle from `w` on one device: restore, two samples, arm, restore, release. */
  function ServiceCycle(w: World, device: Identity, completedAt: Nanos): seq<Operation> {
    [Restore(device, true), Collect(device, true, AwaitingSecond), Collect(device, true, Fresh(completedAt)),
     Arm(device, ReadySample(w.core.id, w.core.epoch + 1, completedAt), true, true, false, false),
     Restore(device, true), Release(true)]
  }

  lemma RunTwo(w: World, ops: seq<Operation>, a: Operation, b: Operation)
    requires Possible(w, ops) && Unforged(Run(w, ops), a) && Unforged(Step(Run(w, ops), a), b)
    ensures Run(w, ops + [a, b]) == Step(Step(Run(w, ops), a), b) && Possible(w, ops + [a, b])
  {
    hide Step, Unforged, Run, Possible;
    RunOneMore(w, ops, a);
    RunOneMore(w, ops + [a], b);
    assert ops + [a] + [b] == ops + [a, b];
  }

  /** Restoring and a first sample confirm the device, whatever happened before. */
  lemma ServedOnce(w: World, device: Identity)
    requires Invariant(w) && w.core.locked && Accountable(w.core, device)
    ensures var served := Step(Step(w, Restore(device, true)), Collect(device, true, AwaitingSecond));
            && served.core == Core(w.core.id, w.core.controlled, true, true, w.core.epoch + 1, true)
            && served.outstanding == {}
  {
  }

  /** A second sample then arms: the receipt is current and the device outstanding. */
  lemma ServedTwice(w: World, device: Identity, completedAt: Nanos)
    requires w.core.locked && w.core.confirmed && w.outstanding == {} && Accountable(w.core, device)
    ensures var sample := ReadySample(w.core.id, w.core.epoch, completedAt);
            var sampled := Step(w, Collect(device, true, Fresh(completedAt)));
            var armed := Step(sampled, Arm(device, sample, true, true, false, false));
            && sample in sampled.issued && armed.outstanding == {device}
            && armed.core == Core(w.core.id, Some(device), false, false, w.core.epoch + 1, true)
            && Receipt(w.core.id, w.core.epoch + 1, device) in armed.receipts
  {
  }

  lemma ServedAndReturned(w: World, device: Identity)
    requires w.core.locked && w.core.controlled == Some(device) && w.outstanding == {device}
    ensures var end := Step(Step(w, Restore(device, true)), Release(true));
            !end.core.locked && end.core.confirmed && end.outstanding == {}
  {
  }

  /**
   * The protocol is not stuck: from every reachable locked state, whatever failed before, a device that may be
   * served can be restored, sampled and armed, which gives a current receipt, and then restored and released.
   */
  lemma ServiceCycleCompletes(w: World, device: Identity, completedAt: Nanos)
    requires Invariant(w) && w.core.locked && Accountable(w.core, device)
    ensures Possible(w, ServiceCycle(w, device, completedAt))
    ensures var armed := Run(w, ServiceCycle(w, device, completedAt)[..4]);
            armed.core.locked && Receipt(w.core.id, armed.core.epoch, device) in armed.receipts
            && Current(armed.core, Receipt(w.core.id, armed.core.epoch, device))
    ensures var end := Run(w, ServiceCycle(w, device, completedAt));
            !end.core.locked && end.core.confirmed && end.outstanding == {}
  {
    hide Step, Invariant;
    var ops := ServiceCycle(w, device, completedAt);
    ServedOnce(w, device);
    RunTwo(w, [], ops[0], ops[1]);
    var served := Run(w, [] + [ops[0], ops[1]]);
    ServedTwice(served, device, completedAt);
    RunTwo(w, [] + [ops[0], ops[1]], ops[2], ops[3]);
    var armed := Run(w, [] + [ops[0], ops[1]] + [ops[2], ops[3]]);
    ServedAndReturned(armed, device);
    RunTwo(w, [] + [ops[0], ops[1]] + [ops[2], ops[3]], ops[4], ops[5]);
    assert ops[..4] == [] + [ops[0], ops[1]] + [ops[2], ops[3]];
    assert ops == ops[..4] + [ops[4], ops[5]];
  }

  predicate EndsEpoch(op: Operation) {
    op.Arm? || op.Restore? || op.Contain? || op.RestoreOrContain? || op.Recover?
  }

  lemma EndingAnEpochAdvances(w: World, op: Operation)
    requires w.core.locked && EndsEpoch(op)
    ensures Step(w, op).core.epoch > w.core.epoch
  {
  }

  /**
   * Once a restoration, containment, recovery or arming attempt has happened, nothing given out before
   * it becomes usable again, whatever follows: no older receipt is current and no older sample arms.
   */
  lemma NothingRevives(w: World, op: Operation, ops: seq<Operation>)
    requires Invariant(w) && w.core.locked && EndsEpoch(op) && Possible(w, [op] + ops)
    ensures forall r :: r in w.receipts ==> !Current(Run(w, [op] + ops).core, r)
    ensures forall s :: s in w.issued ==> !Usable(Run(w, [op] + ops).core, s)
  {
    hide Step;
    assert ([op] + ops)[1..] == ops;
    EndingAnEpochAdvances(w, op);
    StepKeepsInvariant(w, op);
    RunKeepsInvariant(Step(w, op), ops);
  }

  /** A receipt that stops being current is never current again. */
  lemma StaleStaysStale(w: World, ops: seq<Operation>, r: Receipt)
    requires Invariant(w) && Possible(w, ops) && r in w.receipts && !Current(w.core, r)
    ensures !Current(Run(w, ops).core, r)
  {
    RunKeepsInvariant(w, ops);
  }
}
