/**
 The driver loop of the tower, run against an arbitrary outside world, and what
 holds of every run of every machine that `compose_iterable` can build.
 */
module Tower {
  import opened Wrappers
  import opened Types
  import opened Transmit
  import opened Steps

  /** What one iteration meets: answers for `advance`, which sends land, and whether the slot poll answers. */
  datatype Turn = Turn(reply: Reply, landed: nat -> bool, slotReached: bool)

  /** Signatures are told apart by when and where they were made. */
  datatype Signature = Signature(turn: nat, position: nat)

  datatype Event = Event(step: StepBatch, ok: bool)

  datatype Ending = Completed | AdvanceFailed | SendFailed | NotConfirmed | Panicked

  datatype Run = Run(trace: seq<Event>, sigs: seq<Signature>, ending: Ending, machine: Machine)

  /** One `Option` for each transaction of a batch: its signature if it landed. */
  function Send(count: nat, turn: Turn, i: nat): (r: seq<Option<Signature>>)
    ensures |r| == count
    ensures forall k :: 0 <= k < count ==> r[k] == if turn.landed(k) then Some(Signature(i, k)) else None
  {
    seq(count, k requires 0 <= k => if turn.landed(k) then Some(Signature(i, k)) else None)
  }

  /** The signatures that were obtained. */
  function Landed(results: seq<Option<Signature>>): seq<Signature> {
    if results == [] then []
    else (if results[0].Some? then [results[0].value] else []) + Landed(results[1..])
  }

  predicate AllLanded(results: seq<Option<Signature>>) {
    forall k :: 0 <= k < |results| ==> results[k].Some?
  }

  /** How many Solana transactions a step sends. */
  function SendCount(step: StepBatch): nat {
    match step
    case Single(_, _) => 1
    case SingleWithSigners(_) => 1
    case Parallel(batch, _) => |batch|
    case ParallelUnchecked(batch, _) => |batch|
    case _ => 0
  }

  /** Whether the loop goes on after a step. */
  predicate Continues(step: StepBatch, turn: Turn, i: nat) {
    match step
    case ParallelUnchecked(_, _) => true
    case ConfirmationIterativeTx(confirm) => confirm
    case WaitNextSlot(_) => turn.slotReached
    case _ => AllLanded(Send(SendCount(step), turn, i))
  }

  /** What a step needs for the loop to go on, read off the turn: which of its sends landed, what was polled. */
  ghost predicate Confirmed(step: StepBatch, turn: Turn) {
    match step
    case Single(_, _) => turn.landed(0)
    case SingleWithSigners(_) => turn.landed(0)
    case Parallel(batch, _) => forall p :: 0 <= p < |batch| ==> turn.landed(p)
    case ParallelUnchecked(_, _) => true
    case ConfirmationIterativeTx(confirm) => confirm
    case WaitNextSlot(_) => turn.slotReached
    case End => true
  }

  lemma ContinuesIffConfirmed(step: StepBatch, turn: Turn, i: nat)
    ensures Continues(step, turn, i) <==> Confirmed(step, turn)
  {
    var results := Send(SendCount(step), turn, i);
    if step.Parallel? && Continues(step, turn, i) {
      forall p | 0 <= p < |step.batch|
        ensures turn.landed(p)
      {
        assert results[p].Some?;
      }
    }
    if step.Single? || step.SingleWithSigners? {
      assert AllLanded(results) <==> results[0].Some?;
    }
  }

  function Failure(step: StepBatch): Ending {
    if step.ConfirmationIterativeTx? then NotConfirmed else SendFailed
  }

  /** The signatures collected after a step, and the unchecked ones kept aside. */
  function Collect(step: StepBatch, turn: Turn, i: nat, sigs: seq<Signature>, unchecked: seq<Option<Signature>>)
    : (seq<Signature>, seq<Option<Signature>>)
  {
    match step
    case ParallelUnchecked(batch, _) => (sigs, Send(|batch|, turn, i))
    case ConfirmationIterativeTx(_) => (sigs + Landed(unchecked), unchecked)
    case _ => (sigs + Landed(Send(SendCount(step), turn, i)), unchecked)
  }

  // ------------------------------------------------------ termination measure

  function TransmitMeasure(rlp: seq<Byte>, s: TransmitState): nat {
    match s
    case TransmitInit => |Batches(rlp)| + 2
    case TransmitExecute(batches) => |batches| + 1
    case TransmitComplete => 0
  }

  function AltMeasure(s: AltState): nat {
    match s.step
    case AltExecute => 2
    case AltWaitNextSlot => 1
    case AltEnd => 0
  }

  function ExecMeasure(rlp: seq<Byte>, s: ExecState): nat {
    match s.step
    case Transmitting => 3 + if s.AtomicTxHolder? || s.IterativeTxHolder? then TransmitMeasure(rlp, s.transmit) else 0
    case Executing => 2
    case Confirming => 1
    case Finished => 0
  }

  function Measure(rlp: seq<Byte>, m: Machine): nat {
    match m
    case Plain(exec) => ExecMeasure(rlp, exec)
    case AltComposed(alt, exec, None) => 1 + AltMeasure(alt) + ExecMeasure(rlp, exec)
    case AltComposed(_, exec, Some(_)) => ExecMeasure(rlp, exec)
    case AltComposedHolder(alt, transmit, exec, None) =>
      1 + AltMeasure(alt) + TransmitMeasure(rlp, transmit) + ExecMeasure(rlp, exec)
    case AltComposedHolder(_, _, exec, Some(_)) => ExecMeasure(rlp, exec)
  }

  lemma TransmitDrops(rlp: seq<Byte>, s: TransmitState, reply: Reply)
    ensures var (next, advanced) := TransmitAdvance(rlp, s, reply);
            && TransmitMeasure(rlp, next) <= TransmitMeasure(rlp, s)
            && (advanced.Step? && advanced != Step(End) ==> TransmitMeasure(rlp, next) < TransmitMeasure(rlp, s))
  {
    hide Batches, AsIxs;
  }

  lemma AltDrops(s: AltState, reply: Reply)
    ensures var (next, advanced) := AltAdvance(s, reply);
            && AltMeasure(next) <= AltMeasure(s)
            && (advanced.Step? && advanced != Step(End) ==> AltMeasure(next) < AltMeasure(s))
  {
    hide AltIxs;
  }

  lemma ExecDrops(rlp: seq<Byte>, s: ExecState, reply: Reply)
    ensures var (next, advanced) := ExecAdvance(rlp, s, reply);
            && ExecMeasure(rlp, next) <= ExecMeasure(rlp, s)
            && (advanced.Step? && advanced != Step(End) ==> ExecMeasure(rlp, next) < ExecMeasure(rlp, s))
  {
    hide TransmitAdvance, TransmitMeasure;
    if s.step.Transmitting? && (s.AtomicTxHolder? || s.IterativeTxHolder?) {
      TransmitDrops(rlp, s.transmit, reply);
    }
  }

  /** Every step but `End` brings the machine nearer to its end. */
  lemma AdvanceDrops(rlp: seq<Byte>, m: Machine, reply: Reply)
    ensures var (next, advanced) := MachineAdvance(rlp, m, reply);
            advanced.Step? && advanced != Step(End) ==> Measure(rlp, next) < Measure(rlp, m)
  {
    hide TransmitAdvance, AltAdvance, ExecAdvance, TransmitMeasure, AltMeasure, ExecMeasure;
    ExecDrops(rlp, m.exec, reply);
    if !m.Plain? {
      AltDrops(m.alt, reply);
    }
    if m.AltComposedHolder? {
      TransmitDrops(rlp, m.transmit, reply);
    }
  }

  // ------------------------------------------------------------ the driver

  /** The loop of `send_and_confirm_tx_iterable` from turn `i` on. */
  function RunFrom(rlp: seq<Byte>, m: Machine, world: nat -> Turn, i: nat,
                   sigs: seq<Signature>, unchecked: seq<Option<Signature>>): Run
    decreases Measure(rlp, m)
  {
    var (next, advanced) := MachineAdvance(rlp, m, world(i).reply);
    match advanced
    case Panic => Run([], sigs, Panicked, next)
    case Error => Run([], sigs, AdvanceFailed, next)
    case Step(End) => Run([], sigs, Completed, next)
    case Step(step) =>
      if !Continues(step, world(i), i) then Run([Event(step, false)], sigs, Failure(step), next)
      else
        AdvanceDrops(rlp, m, world(i).reply);
        var (moreSigs, moreUnchecked) := Collect(step, world(i), i, sigs, unchecked);
        var rest := RunFrom(rlp, next, world, i + 1, moreSigs, moreUnchecked);
        rest.(trace := [Event(step, true)] + rest.trace)
  }

  function RunOf(rlp: seq<Byte>, m: Machine, world: nat -> Turn): Run {
    RunFrom(rlp, m, world, 0, [], [])
  }
}
