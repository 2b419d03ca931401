/**
 How runs end: with an outside world that cooperates every composed transaction
 completes after a known number of turns, and a run that ends in any other way
 names the answer or the send that stopped it.
 */
module TowerProgress {
  import opened Wrappers
  import opened Types
  import opened Transmit
  import opened Steps
  import opened Tower
  import opened TowerSafety

  /**
   Everything is emulated, fetched, polled and confirmed, and every send lands.
   The emulator may still report no virtual machine.
   */
  ghost predicate Willing(turn: Turn) {
    && turn.reply.transmitEmulated && turn.reply.deallocEmulated && turn.reply.allocEmulated
    && turn.reply.altFetched.Some? && turn.reply.altFetched.value.wellFormed
    && turn.reply.emulation.Accepted? && turn.reply.confirmed == Some(true)
    && turn.slotReached && forall k :: turn.landed(k)
  }

  ghost predicate WillingUntil(world: nat -> Turn, i: nat, last: nat) {
    forall j :: i <= j <= last ==> Willing(world(j))
  }

  function Greater(a: nat, b: nat): nat {
    if a <= b then b else a
  }

  /** Number of calls of `advance` before the one that executes, when nothing fails. */
  function TurnsLeft(rlp: seq<Byte>, m: Machine): nat {
    match m
    case AltComposed(alt, _, None) => AltMeasure(alt)
    case AltComposedHolder(alt, transmit, _, None) => Greater(AltMeasure(alt), |Unsent(rlp, transmit)|)
    case _ => |UnsentBatches(rlp, m)|
  }

  // ---------------------------------------------------------- one willing step

  lemma TransmitWilling(rlp: seq<Byte>, s: TransmitState, reply: Reply)
    requires GoodTransmit(s) && reply.transmitEmulated
    ensures var (next, advanced) := TransmitAdvance(rlp, s, reply);
            && advanced.Step?
            && (advanced == Step(End) <==> Unsent(rlp, s) == [])
            && |Unsent(rlp, next)| == (if Unsent(rlp, s) == [] then 0 else |Unsent(rlp, s)| - 1)
  {
    hide Batches, AsIxs;
    TransmitStep(rlp, s, reply);
  }

  lemma AltWilling(s: AltState, turn: Turn)
    requires GoodAlt(s) && Willing(turn)
    ensures var (next, advanced) := AltAdvance(s, turn.reply);
            && advanced.Step?
            && (advanced == Step(End) <==> AltMeasure(s) == 0)
            && AltMeasure(next) == (if AltMeasure(s) == 0 then 0 else AltMeasure(s) - 1)
  {
    hide AltIxs;
  }

  lemma ExecWilling(rlp: seq<Byte>, s: ExecState, turn: Turn)
    requires GoodExec(s) && !s.step.Transmitting? && Willing(turn)
    ensures var (next, advanced) := ExecAdvance(rlp, s, turn.reply);
            && !advanced.Error?
            && (advanced.Panic? <==> s.step.Executing? && s.IterativeTxHolder? && turn.reply.emulation == Accepted(None))
            && (s.step.Executing? && advanced.Step? ==> advanced.step.Single? || advanced.step.ParallelUnchecked?)
            && (s.step.Confirming? ==> advanced == Step(ConfirmationIterativeTx(true)))
  {
  }

  /** A willing turn lets the loop go on after any step that a machine hands out. */
  lemma WillingContinues(step: StepBatch, turn: Turn, i: nat)
    requires Willing(turn) && (step.ConfirmationIterativeTx? ==> step.confirm)
    ensures Continues(step, turn, i)
  {
  }

  /** One call on a willing turn: a preparing step, the execution, or the missing virtual machine. */
  ghost predicate Progresses(rlp: seq<Byte>, m: Machine, turn: Turn) {
    var (next, advanced) := MachineAdvance(rlp, m, turn.reply);
    if 0 < TurnsLeft(rlp, m) then
      && advanced.Step? && advanced.step != End && !Executes(advanced.step) && !advanced.step.ConfirmationIterativeTx?
      && TurnsLeft(rlp, next) == TurnsLeft(rlp, m) - 1
    else if m.exec.IterativeTxHolder? && turn.reply.emulation == Accepted(None) then advanced.Panic?
    else advanced.Step? && (advanced.step.Single? || advanced.step.ParallelUnchecked?)
  }

  lemma PlainProgresses(rlp: seq<Byte>, m: Machine, turn: Turn)
    requires Good(m) && m.Plain? && WillExecute(m) == 1 && Willing(turn)
    ensures Progresses(rlp, m, turn)
  {
    hide TransmitAdvance, Willing;
    if m.exec.step.Transmitting? {
      assert turn.reply.transmitEmulated && turn.reply.emulation.Accepted? by {
        WillingReply(turn);
      }
      TransmitWilling(rlp, m.exec.transmit, turn.reply);
      TransmitStep(rlp, m.exec.transmit, turn.reply);
    } else {
      ExecWilling(rlp, m.exec, turn);
    }
  }

  lemma WillingReply(turn: Turn)
    requires Willing(turn)
    ensures turn.reply.transmitEmulated && turn.reply.emulation.Accepted?
  {
  }

  lemma VersionedProgresses(rlp: seq<Byte>, m: Machine, turn: Turn)
    requires Good(m) && !m.Plain? && m.version.Some? && WillExecute(m) == 1 && Willing(turn)
    ensures Progresses(rlp, m, turn)
  {
    hide ExecAdvance, Willing;
    ExecWilling(rlp, m.exec, turn);
  }

  lemma AltProgresses(rlp: seq<Byte>, alt: AltState, exec: ExecState, turn: Turn)
    requires Good(AltComposed(alt, exec, None)) && Willing(turn)
    ensures Progresses(rlp, AltComposed(alt, exec, None), turn)
  {
    hide AltAdvance, ExecAdvance, Willing, AltIxs;
    AltWilling(alt, turn);
    AltStepped(alt, _ => turn, 0);
    TableIxs(alt);
    ExecWilling(rlp, exec, turn);
  }

  /** Pieces are left: a batch goes out, together with what the table needs. */
  lemma JoinProgresses(rlp: seq<Byte>, alt: AltState, transmit: TransmitState, exec: ExecState, turn: Turn)
    requires Good(AltComposedHolder(alt, transmit, exec, None)) && Willing(turn) && Unsent(rlp, transmit) != []
    ensures Progresses(rlp, AltComposedHolder(alt, transmit, exec, None), turn)
  {
    hide AltAdvance, TransmitAdvance, MachineAdvance, Willing, AltIxs, UnsentAltOf, Unsent, AsIxs, Progresses;
    WillingReply(turn);
    AltWilling(alt, turn);
    AltStepped(alt, _ => turn, 0);
    TransmitWilling(rlp, transmit, turn.reply);
    TransmitStep(rlp, transmit, turn.reply);
    var (nextAlt, altAdvanced) := AltAdvance(alt, turn.reply);
    var (nextTransmit, _) := TransmitAdvance(rlp, transmit, turn.reply);
    JoinsOn(rlp, alt, transmit, exec, turn, nextAlt, altAdvanced.step, nextTransmit, Unsent(rlp, transmit)[0]);
  }

  lemma JoinsOn(rlp: seq<Byte>, alt: AltState, transmit: TransmitState, exec: ExecState, turn: Turn,
                nextAlt: AltState, altStep: StepBatch, nextTransmit: TransmitState, batch: seq<Piece>)
    requires AltAdvance(alt, turn.reply) == (nextAlt, Step(altStep))
    requires altStep == Parallel(UnsentAltOf(alt), Legacy) || altStep == End || altStep.WaitNextSlot?
    requires AltMeasure(nextAlt) == if AltMeasure(alt) == 0 then 0 else AltMeasure(alt) - 1
    requires TransmitAdvance(rlp, transmit, turn.reply) == (nextTransmit, Step(Parallel(AsIxs(batch), Legacy))) && batch != []
    requires Unsent(rlp, transmit) != [] && |Unsent(rlp, nextTransmit)| == |Unsent(rlp, transmit)| - 1
    ensures Progresses(rlp, AltComposedHolder(alt, transmit, exec, None), turn)
  {
    hide AltAdvance, TransmitAdvance, MachineAdvance, AltIxs, UnsentAltOf, Unsent, AsIxs, AltMeasure;
    var table := if altStep.Parallel? then UnsentAltOf(alt) else [];
    TableIxs(alt);
    JoinAdvance(rlp, alt, transmit, exec, turn.reply, nextAlt, altStep, nextTransmit, table, AsIxs(batch));
    JoinedBatch(table, batch);
  }

  /** Everything is sent: the table machine goes on, and then the transaction executes. */
  lemma SentProgresses(rlp: seq<Byte>, alt: AltState, transmit: TransmitState, exec: ExecState, turn: Turn)
    requires Good(AltComposedHolder(alt, transmit, exec, None)) && Willing(turn) && Unsent(rlp, transmit) == []
    ensures Progresses(rlp, AltComposedHolder(alt, transmit, exec, None), turn)
  {
    hide AltAdvance, TransmitAdvance, ExecAdvance, Willing, AltIxs;
    WillingReply(turn);
    AltWilling(alt, turn);
    AltStepped(alt, _ => turn, 0);
    TransmitWilling(rlp, transmit, turn.reply);
    TableIxs(alt);
    ExecWilling(rlp, exec, turn);
  }

  lemma MachineProgresses(rlp: seq<Byte>, m: Machine, turn: Turn)
    requires Good(m) && WillExecute(m) == 1 && Willing(turn)
    ensures Progresses(rlp, m, turn)
  {
    match m
    case Plain(_) => PlainProgresses(rlp, m, turn);
    case AltComposed(alt, exec, None) => AltProgresses(rlp, alt, exec, turn);
    case AltComposedHolder(alt, transmit, exec, None) =>
      if Unsent(rlp, transmit) != [] {
        JoinProgresses(rlp, alt, transmit, exec, turn);
      } else {
        SentProgresses(rlp, alt, transmit, exec, turn);
      }
    case _ => VersionedProgresses(rlp, m, turn);
  }

  /** The confirmation of an iterative transaction, and the end. */
  lemma ConfirmProgresses(rlp: seq<Byte>, m: Machine, turn: Turn)
    requires Good(m) && WillExecute(m) == 0 && (Confirms(m) ==> Willing(turn))
    ensures Confirms(m) ==> MachineAdvance(rlp, m, turn.reply).1 == Step(ConfirmationIterativeTx(true))
    ensures !Confirms(m) ==> MachineAdvance(rlp, m, turn.reply).1 == Step(End)
  {
    hide Willing;
    if Confirms(m) {
      ExecWilling(rlp, m.exec, turn);
    }
  }

  // ------------------------------------------------------------- willing runs

  /** After the execution only a confirmation is left. */
  lemma {:induction false} RunFinishes(rlp: seq<Byte>, m: Machine, world: nat -> Turn, i: nat,
                                       sigs: seq<Signature>, unchecked: seq<Option<Signature>>)
    requires Good(m) && WillExecute(m) == 0 && (Confirms(m) ==> Willing(world(i)))
    ensures RunFrom(rlp, m, world, i, sigs, unchecked).ending == Completed
    ensures |RunFrom(rlp, m, world, i, sigs, unchecked).trace| == if Confirms(m) then 1 else 0
    decreases Measure(rlp, m)
  {
    hide MachineAdvance, Good, Measure, VersionFor, UnsentBatches, UnsentAlt, Collect, Willing, Continues;
    ConfirmProgresses(rlp, m, world(i));
    if Confirms(m) {
      MachineStepped(rlp, m, world, i);
      var (next, advanced) := MachineAdvance(rlp, m, world(i).reply);
      AdvanceDrops(rlp, m, world(i).reply);
      WillingContinues(advanced.step, world(i), i);
      var (moreSigs, moreUnchecked) := Collect(advanced.step, world(i), i, sigs, unchecked);
      RunFinishes(rlp, next, world, i + 1, moreSigs, moreUnchecked);
    }
  }

  /** The missing virtual machine is met on the turn of the execution. */
  ghost predicate MeetsNoVm(rlp: seq<Byte>, m: Machine, world: nat -> Turn, i: nat) {
    m.exec.IterativeTxHolder? && world(i + TurnsLeft(rlp, m)).reply.emulation == Accepted(None)
  }

  lemma {:induction false} RunProgresses(rlp: seq<Byte>, m: Machine, world: nat -> Turn, i: nat,
                                         sigs: seq<Signature>, unchecked: seq<Option<Signature>>)
    requires Good(m) && WillExecute(m) == 1 && WillingUntil(world, i, i + TurnsLeft(rlp, m) + 1)
    ensures var run := RunFrom(rlp, m, world, i, sigs, unchecked);
            && run.ending == (if MeetsNoVm(rlp, m, world, i) then Panicked else Completed)
            && |run.trace| == TurnsLeft(rlp, m) + (if MeetsNoVm(rlp, m, world, i) then 0 else if Iterative(m) then 2 else 1)
    decreases Measure(rlp, m)
  {
    hide MachineAdvance, Good, Measure, VersionFor, UnsentBatches, UnsentAlt, Collect, Willing, Continues, TurnsLeft, HoldsExecution,
         PieceBatches, AltSent, IxsOf;
    assert Willing(world(i));
    MachineProgresses(rlp, m, world(i));
    MachineStepped(rlp, m, world, i);
    var (next, advanced) := MachineAdvance(rlp, m, world(i).reply);
    if advanced.Step? {
      AdvanceDrops(rlp, m, world(i).reply);
      WillingContinues(advanced.step, world(i), i);
      var (moreSigs, moreUnchecked) := Collect(advanced.step, world(i), i, sigs, unchecked);
      if 0 < TurnsLeft(rlp, m) {
        RunProgresses(rlp, next, world, i + 1, moreSigs, moreUnchecked);
      } else {
        assert Willing(world(i + 1));
        RunFinishes(rlp, next, world, i + 1, moreSigs, moreUnchecked);
      }
    }
  }

  /** The turn on which a composed transaction executes when nothing fails before. */
  function ExecutionTurn(rlp: seq<Byte>, useHolder: bool, keys: seq<Pubkey>): nat {
    Greater(if UseAlt(keys) then 2 else 0, if useHolder then |Batches(rlp)| else 0)
  }

  /**
   If every turn up to the one after the execution is willing, the run ends
   there: it completes, having executed on the turn that the number of batches
   and the lookup table determine, unless an iterative holder transaction
   meets an emulation without virtual machine on that very turn; then, and
   only then, it panics.
   */
  lemma WillingRunCompletes(rlp: seq<Byte>, useHolder: bool, keys: seq<Pubkey>, isAtomic: bool, iterations: nat, world: nat -> Turn)
    requires WillingUntil(world, 0, ExecutionTurn(rlp, useHolder, keys) + 1)
    ensures
      var run := RunOf(rlp, Compose(useHolder, keys, isAtomic, iterations), world);
      var turn := ExecutionTurn(rlp, useHolder, keys);
      var noVm := useHolder && !isAtomic && world(turn).reply.emulation == Accepted(None);
      && run.ending == (if noVm then Panicked else Completed)
      && |run.trace| == turn + (if noVm then 0 else if isAtomic then 1 else 2)
  {
    ComposedGood(rlp, useHolder, keys, isAtomic, iterations, world);
    ComposedTurns(rlp, useHolder, keys, isAtomic, iterations);
    RunProgresses(rlp, Compose(useHolder, keys, isAtomic, iterations), world, 0, [], []);
  }

  lemma ComposedTurns(rlp: seq<Byte>, useHolder: bool, keys: seq<Pubkey>, isAtomic: bool, iterations: nat)
    ensures TurnsLeft(rlp, Compose(useHolder, keys, isAtomic, iterations)) == ExecutionTurn(rlp, useHolder, keys)
  {
    hide Batches;
  }

  // ------------------------------------------------------------ failing runs

  /** The emulation of the batches, asked for by the first call, fails. */
  predicate TransmitDeclined(s: TransmitState, reply: Reply) {
    s.TransmitInit? && !reply.transmitEmulated
  }

  /** First the two emulations are asked for, then the table; nothing behind that. */
  predicate AltDeclined(s: AltState, reply: Reply) {
    match s.step
    case AltExecute => !reply.deallocEmulated || !reply.allocEmulated
    case AltWaitNextSlot => reply.altFetched.None? || !reply.altFetched.value.wellFormed
    case AltEnd => false
  }

  /** The instruction was built beforehand, so that executing asks for no emulation. */
  predicate Prebuilt(s: ExecState) {
    (s.AtomicTx? && s.built) || (s.IterativeTx? && s.ixs.Some?)
  }

  /** Nothing is left that must go out before the transaction. */
  predicate ExecDue(rlp: seq<Byte>, s: ExecState) {
    match s.step
    case Transmitting => (s.AtomicTxHolder? || s.IterativeTxHolder?) && Unsent(rlp, s.transmit) == []
    case Executing => true
    case _ => false
  }

  /** A holder machine takes a failed confirmation for a negative one; the other iterative machine reports the failure. */
  predicate ExecDeclined(rlp: seq<Byte>, s: ExecState, reply: Reply) {
    || (s.step.Transmitting? && (s.AtomicTxHolder? || s.IterativeTxHolder?) && TransmitDeclined(s.transmit, reply))
    || (ExecDue(rlp, s) && !Prebuilt(s) && reply.emulation.Rejected?)
    || (s.step.Confirming? && s.IterativeTx? && reply.confirmed.None?)
  }

  /** The inner machine that executes is asked on this turn. */
  predicate ExecAsked(rlp: seq<Byte>, m: Machine) {
    match m
    case AltComposed(alt, _, None) => alt.step.AltEnd?
    case AltComposedHolder(alt, transmit, _, None) => alt.step.AltEnd? && Unsent(rlp, transmit) == []
    case _ => true
  }

  /** One of the answers that a machine in this state asks for is an error. */
  predicate Declined(rlp: seq<Byte>, m: Machine, reply: Reply) {
    || (!m.Plain? && m.version.None? && AltDeclined(m.alt, reply))
    || (m.AltComposedHolder? && m.version.None? && TransmitDeclined(m.transmit, reply))
    || (ExecAsked(rlp, m) && ExecDeclined(rlp, m.exec, reply))
  }

  /** The transaction is due, and the emulator reports no virtual machine for it. */
  predicate LacksVm(rlp: seq<Byte>, m: Machine, reply: Reply) {
    ExecAsked(rlp, m) && m.exec.IterativeTxHolder? && ExecDue(rlp, m.exec) && reply.emulation == Accepted(None)
  }

  lemma TransmitAsks(rlp: seq<Byte>, s: TransmitState, reply: Reply)
    requires GoodTransmit(s)
    ensures TransmitAdvance(rlp, s, reply).1.Error? <==> TransmitDeclined(s, reply)
    ensures TransmitAdvance(rlp, s, reply).1 == Step(End) <==> !TransmitDeclined(s, reply) && Unsent(rlp, s) == []
    ensures !TransmitAdvance(rlp, s, reply).1.Panic?
    ensures TransmitAdvance(rlp, s, reply).1.Step? ==>
              TransmitAdvance(rlp, s, reply).1.step.Parallel? || TransmitAdvance(rlp, s, reply).1.step == End
  {
    hide Batches, AsIxs;
    TransmitStep(rlp, s, reply);
  }

  lemma AltAsks(s: AltState, reply: Reply)
    requires GoodAlt(s)
    ensures AltAdvance(s, reply).1.Error? <==> AltDeclined(s, reply)
    ensures AltAdvance(s, reply).1 == Step(End) <==> s.step.AltEnd?
    ensures AltAdvance(s, reply).1 == Step(End) ==> AltAdvance(s, reply).0 == s
    ensures !AltAdvance(s, reply).1.Panic?
    ensures AltAdvance(s, reply).1.Step? ==>
              var step := AltAdvance(s, reply).1.step;
              step.Parallel? || step.WaitNextSlot? || step == End
  {
    hide AltIxs;
  }

  lemma ExecAsks(rlp: seq<Byte>, s: ExecState, reply: Reply)
    requires GoodExec(s)
    ensures ExecAdvance(rlp, s, reply).1.Error? <==> ExecDeclined(rlp, s, reply)
    ensures ExecAdvance(rlp, s, reply).1.Panic? <==>
            !ExecDeclined(rlp, s, reply) && s.IterativeTxHolder? && ExecDue(rlp, s) && reply.emulation == Accepted(None)
    ensures ExecAdvance(rlp, s, reply).1 == Step(ConfirmationIterativeTx(false)) ==> reply.confirmed != Some(true)
  {
    hide TransmitAdvance, TransmitDeclined, Unsent;
    if s.AtomicTxHolder? || s.IterativeTxHolder? {
      TransmitAsks(rlp, s.transmit, reply);
    }
  }

  lemma ReversionAsks(s: ExecState, advanced: Advanced, version: TxVersion)
    ensures Reversion(s, advanced, version).Error? <==> advanced.Error?
    ensures Reversion(s, advanced, version).Panic? <==> advanced.Panic?
    ensures Reversion(s, advanced, version) == Step(ConfirmationIterativeTx(false)) <==> advanced == Step(ConfirmationIterativeTx(false))
  {
  }

  /**
   A call of `advance` fails exactly if one of the answers it asks for is an
   error, and panics exactly if the transaction is due, nothing it asks for is
   an error, and there is no virtual machine.
   */
  lemma FailsIffDeclined(rlp: seq<Byte>, m: Machine, reply: Reply)
    requires Good(m)
    ensures MachineAdvance(rlp, m, reply).1.Error? <==> Declined(rlp, m, reply)
    ensures MachineAdvance(rlp, m, reply).1.Panic? <==> !Declined(rlp, m, reply) && LacksVm(rlp, m, reply)
    ensures MachineAdvance(rlp, m, reply).1 == Step(ConfirmationIterativeTx(false)) ==> reply.confirmed != Some(true)
  {
    hide TransmitAdvance, AltAdvance, ExecAdvance, Reversion, TransmitDeclined, AltDeclined, ExecDeclined, ExecDue, Unsent, AltIxs;
    ExecAsks(rlp, m.exec, reply);
    if m.Plain? {
    } else if m.version.Some? {
      ReversionAsks(m.exec, ExecAdvance(rlp, m.exec, reply).1, m.version.value);
    } else {
      AltAsks(m.alt, reply);
      if m.alt.step.AltEnd? {
        ReversionAsks(m.exec, ExecAdvance(rlp, m.exec, reply).1, V0(m.alt.account.value.account));
      }
      if m.AltComposedHolder? {
        TransmitAsks(rlp, m.transmit, reply);
      }
    }
  }

  /** The machine on the `n`-th turn from here, if the run gets that far. */
  function MachineAt(rlp: seq<Byte>, m: Machine, world: nat -> Turn, i: nat, n: nat): Machine
    decreases n
  {
    if n == 0 then m else MachineAt(rlp, MachineAdvance(rlp, m, world(i).reply).0, world, i + 1, n - 1)
  }

  ghost predicate DeclinedOn(rlp: seq<Byte>, m: Machine, world: nat -> Turn, i: nat, n: nat) {
    Declined(rlp, MachineAt(rlp, m, world, i, n), world(i + n).reply)
  }

  /**
   What stopped a run. A failed call was declined something it asked for, and no
   call before it was; the bad answer is that of the turn behind the trace, the
   bad send that of its last event.
   */
  ghost predicate Explained(rlp: seq<Byte>, m: Machine, run: Run, world: nat -> Turn, i: nat) {
    && (forall k :: 0 <= k < |run.trace| ==> !DeclinedOn(rlp, m, world, i, k))
    && match run.ending
       case Completed => !DeclinedOn(rlp, m, world, i, |run.trace|)
       case AdvanceFailed => DeclinedOn(rlp, m, world, i, |run.trace|)
       case Panicked =>
         && !DeclinedOn(rlp, m, world, i, |run.trace|)
         && LacksVm(rlp, MachineAt(rlp, m, world, i, |run.trace|), world(i + |run.trace|).reply)
       case SendFailed =>
         && run.trace != []
         && Unsuccessful(run.trace[|run.trace| - 1].step, world(i + |run.trace| - 1))
       case NotConfirmed =>
         && run.trace != []
         && run.trace[|run.trace| - 1].step == ConfirmationIterativeTx(false)
         && world(i + |run.trace| - 1).reply.confirmed != Some(true)
  }

  /** Some transaction of the step did not land, or the slot could not be polled. */
  ghost predicate Unsuccessful(step: StepBatch, turn: Turn) {
    if step.WaitNextSlot? then !turn.slotReached else exists k :: 0 <= k < SendCount(step) && !turn.landed(k)
  }

  lemma StepFails(rlp: seq<Byte>, m: Machine, reply: Reply, step: StepBatch, turn: Turn, i: nat)
    requires Good(m) && MachineAdvance(rlp, m, reply).1 == Step(step) && !Continues(step, turn, i)
    ensures Failure(step).SendFailed? ==> Unsuccessful(step, turn)
    ensures Failure(step).NotConfirmed? ==> step == ConfirmationIterativeTx(false) && reply.confirmed != Some(true)
  {
    hide MachineAdvance;
    FailsIffDeclined(rlp, m, reply);
    if Failure(step).SendFailed? && !step.WaitNextSlot? {
      var results := Send(SendCount(step), turn, i);
      var k :| 0 <= k < |results| && results[k].None?;
      assert !turn.landed(k);
    }
  }

  lemma LaterTurn(rlp: seq<Byte>, m: Machine, world: nat -> Turn, i: nat, n: nat)
    requires 0 < n
    ensures MachineAt(rlp, m, world, i, n) == MachineAt(rlp, MachineAdvance(rlp, m, world(i).reply).0, world, i + 1, n - 1)
    ensures DeclinedOn(rlp, m, world, i, n) == DeclinedOn(rlp, MachineAdvance(rlp, m, world(i).reply).0, world, i + 1, n - 1)
  {
  }

  lemma ExplainedMore(rlp: seq<Byte>, m: Machine, world: nat -> Turn, i: nat, event: Event, rest: Run, run: Run)
    requires Explained(rlp, MachineAdvance(rlp, m, world(i).reply).0, rest, world, i + 1)
    requires !Declined(rlp, m, world(i).reply) && run == rest.(trace := [event] + rest.trace)
    ensures Explained(rlp, m, run, world, i)
  {
    hide MachineAdvance, Declined, LacksVm, Unsuccessful, DeclinedOn;
    forall k | 0 <= k < |run.trace|
      ensures !DeclinedOn(rlp, m, world, i, k)
    {
      if 0 < k {
        LaterTurn(rlp, m, world, i, k);
      } else {
        FirstTurn(rlp, m, world, i);
      }
    }
    LaterTurn(rlp, m, world, i, |run.trace|);
  }

  lemma FirstTurn(rlp: seq<Byte>, m: Machine, world: nat -> Turn, i: nat)
    ensures DeclinedOn(rlp, m, world, i, 0) == Declined(rlp, m, world(i).reply) && MachineAt(rlp, m, world, i, 0) == m
  {
  }

  lemma {:induction false} RunExplained(rlp: seq<Byte>, m: Machine, world: nat -> Turn, i: nat,
                                        sigs: seq<Signature>, unchecked: seq<Option<Signature>>)
    requires Good(m)
    ensures Explained(rlp, m, RunFrom(rlp, m, world, i, sigs, unchecked), world, i)
    decreases Measure(rlp, m)
  {
    hide MachineAdvance, Good, Measure, VersionFor, UnsentBatches, UnsentAlt, Collect, Continues, Declined, LacksVm, DeclinedOn, Unsuccessful,
         Accounted, InPlace;
    MachineStepped(rlp, m, world, i);
    FailsIffDeclined(rlp, m, world(i).reply);
    FirstTurn(rlp, m, world, i);
    var (next, advanced) := MachineAdvance(rlp, m, world(i).reply);
    if advanced.Step? && advanced.step != End {
      if Continues(advanced.step, world(i), i) {
        AdvanceDrops(rlp, m, world(i).reply);
        var (moreSigs, moreUnchecked) := Collect(advanced.step, world(i), i, sigs, unchecked);
        RunExplained(rlp, next, world, i + 1, moreSigs, moreUnchecked);
        ExplainedMore(rlp, m, world, i, Event(advanced.step, true), RunFrom(rlp, next, world, i + 1, moreSigs, moreUnchecked),
                      RunFrom(rlp, m, world, i, sigs, unchecked));
      } else {
        StepFails(rlp, m, world(i).reply, advanced.step, world(i), i);
      }
    }
  }

  /** Every run names the answer, the missing virtual machine or the send that stopped it, if anything did. */
  lemma EveryFailureExplained(rlp: seq<Byte>, useHolder: bool, keys: seq<Pubkey>, isAtomic: bool, iterations: nat, world: nat -> Turn)
    ensures
      var m := Compose(useHolder, keys, isAtomic, iterations);
      Explained(rlp, m, RunOf(rlp, m, world), world, 0)
  {
    ComposedGood(rlp, useHolder, keys, isAtomic, iterations, world);
    RunExplained(rlp, Compose(useHolder, keys, isAtomic, iterations), world, 0, [], []);
  }
}
