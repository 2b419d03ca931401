/**
 Whole-run safety: whatever the outside world does, every run of a composed
 transaction sends each piece of the RLP once and in order, executes at most
 once, and does so only when everything it depends on has been confirmed.
 */
module TowerSafety {
  import opened Wrappers
  import opened Types
  import opened Transmit
  import opened Steps
  import opened Tower
  import C = Chunks

  // ------------------------------------------------- what a step or a run sends

  /** Everything a step sends, whatever kind of step it is. */
  function IxsOf(step: StepBatch): (r: seq<Ix>)
    ensures |r| == SendCount(step)
  {
    match step
    case Single(ix, _) => [ix]
    case SingleWithSigners(ix) => [ix]
    case Parallel(batch, _) => batch
    case ParallelUnchecked(batch, _) => batch
    case _ => []
  }

  ghost predicate HoldsExecution(step: StepBatch) {
    exists k :: 0 <= k < |IxsOf(step)| && IxsOf(step)[k].ExecuteIx?
  }

  /** An execution step: one of the two kinds meant for it, or any other that holds an execution. */
  ghost predicate Executes(step: StepBatch) {
    step.Single? || step.ParallelUnchecked? || HoldsExecution(step)
  }

  function PieceOf(ix: Ix): seq<Piece> {
    if ix.TransmitIx? then [ix.piece] else []
  }

  function PiecesIn(batch: seq<Ix>): seq<Piece> {
    if batch == [] then [] else PieceOf(batch[0]) + PiecesIn(batch[1..])
  }

  function TableIx(ix: Ix): seq<Ix> {
    if ix.AltDeallocIx? || ix.AltAllocIx? then [ix] else []
  }

  /** The transactions of a batch that build the lookup table. */
  function AltIn(batch: seq<Ix>): seq<Ix> {
    if batch == [] then [] else TableIx(batch[0]) + AltIn(batch[1..])
  }

  /** The pieces a step sends, as one batch if there are any. */
  function PieceBatches(step: StepBatch): seq<seq<Piece>> {
    if PiecesIn(IxsOf(step)) != [] then [PiecesIn(IxsOf(step))] else []
  }

  function AltSent(step: StepBatch): seq<Ix> {
    AltIn(IxsOf(step))
  }

  function SentBatches(trace: seq<Event>): seq<seq<Piece>> {
    if trace == [] then [] else PieceBatches(trace[0].step) + SentBatches(trace[1..])
  }

  function SentAlt(trace: seq<Event>): seq<Ix> {
    if trace == [] then [] else AltSent(trace[0].step) + SentAlt(trace[1..])
  }

  ghost function Executions(trace: seq<Event>): nat {
    if trace == [] then 0 else (if Executes(trace[0].step) then 1 else 0) + Executions(trace[1..])
  }

  // ------------------------------------------------ what a machine still has to send

  function Unsent(rlp: seq<Byte>, s: TransmitState): seq<seq<Piece>> {
    match s
    case TransmitInit => Batches(rlp)
    case TransmitExecute(batches) => Reversed(batches)
    case TransmitComplete => []
  }

  function UnsentBatches(rlp: seq<Byte>, m: Machine): seq<seq<Piece>> {
    match m
    case Plain(AtomicTxHolder(Transmitting, transmit)) => Unsent(rlp, transmit)
    case Plain(IterativeTxHolder(Transmitting, transmit)) => Unsent(rlp, transmit)
    case AltComposedHolder(_, transmit, _, None) => Unsent(rlp, transmit)
    case _ => []
  }

  function UnsentAltOf(alt: AltState): seq<Ix> {
    if alt.step.AltExecute? && alt.keys.Some? then AltIxs(alt.keys.value) else []
  }

  function UnsentAlt(m: Machine): seq<Ix> {
    match m
    case AltComposed(alt, _, None) => UnsentAltOf(alt)
    case AltComposedHolder(alt, _, _, None) => UnsentAltOf(alt)
    case _ => []
  }

  function WillExecute(m: Machine): nat {
    if m.exec.step.Transmitting? || m.exec.step.Executing? then 1 else 0
  }

  predicate Iterative(m: Machine) {
    m.exec.IterativeTx? || m.exec.IterativeTxHolder?
  }

  predicate Confirms(m: Machine) {
    m.exec.step.Confirming?
  }

  /** The version that refers to the lookup table fetched on this turn; none if the fetch fails. */
  function Fetched(turn: Turn): Option<TxVersion> {
    if turn.reply.altFetched.Some? then Some(V0(turn.reply.altFetched.value.account)) else None
  }

  function AltVersion(alt: AltState, world: nat -> Turn, i: nat): Option<TxVersion> {
    match alt.step
    case AltExecute => Fetched(world(i + 1))
    case AltWaitNextSlot => Fetched(world(i))
    case AltEnd => if alt.account.Some? then Some(V0(alt.account.value.account)) else None
  }

  /** The version in which a machine that is at turn `i` will execute, if it comes to that. */
  function VersionFor(m: Machine, world: nat -> Turn, i: nat): Option<TxVersion> {
    match m
    case Plain(_) => Some(Legacy)
    case AltComposed(alt, _, None) => AltVersion(alt, world, i)
    case AltComposed(_, _, Some(version)) => Some(version)
    case AltComposedHolder(alt, _, _, None) => AltVersion(alt, world, i)
    case AltComposedHolder(_, _, _, Some(version)) => Some(version)
  }

  // ------------------------------------------------------------ reachable states

  predicate GoodTransmit(s: TransmitState) {
    s.TransmitExecute? ==> forall k :: 0 <= k < |s.batches| ==> s.batches[k] != []
  }

  predicate GoodAlt(s: AltState) {
    && (s.step.AltExecute? ==> s.keys.Some? && s.keys.value != [])
    && (s.step.AltEnd? ==> s.account.Some? && s.account.value.wellFormed)
  }

  predicate GoodExec(s: ExecState) {
    match s
    case AtomicTx(step, _) => step.Executing? || step.Finished?
    case IterativeTx(step, ixs) => !step.Transmitting? && (step.Executing? ==> ixs.Some?)
    case AtomicTxHolder(step, transmit) => !step.Confirming? && GoodTransmit(transmit)
    case IterativeTxHolder(_, transmit) => GoodTransmit(transmit)
  }

  predicate Good(m: Machine) {
    match m
    case Plain(exec) => GoodExec(exec)
    case AltComposed(alt, exec, version) =>
      && GoodExec(exec) && (exec.AtomicTx? || exec.IterativeTx?)
      && (version.None? ==> GoodAlt(alt) && exec.step.Executing?)
    case AltComposedHolder(alt, transmit, exec, version) =>
      && GoodExec(exec) && (exec.AtomicTxHolder? || exec.IterativeTxHolder?) && !exec.step.Transmitting?
      && (version.None? ==> GoodAlt(alt) && GoodTransmit(transmit) && exec.step.Executing?)
  }

  // -------------------------------------------------------------- one step

  lemma Joined<T>(a: seq<T>, b: seq<T>, c: seq<T>)
    ensures (a + b) + c == a + (b + c) && a + [] == a && [] + c == c
  {
  }

  lemma {:induction false} PiecesAppend(a: seq<Ix>, b: seq<Ix>)
    ensures PiecesIn(a + b) == PiecesIn(a) + PiecesIn(b)
  {
    hide PieceOf;
    if a == [] {
      Joined([], [], b);
      Joined([], [], PiecesIn(b));
    } else {
      var all := a + b;
      assert all[0] == a[0] && all[1..] == a[1..] + b;
      PiecesAppend(a[1..], b);
      Joined(PieceOf(a[0]), PiecesIn(a[1..]), PiecesIn(b));
    }
  }

  lemma {:induction false} AltAppend(a: seq<Ix>, b: seq<Ix>)
    ensures AltIn(a + b) == AltIn(a) + AltIn(b)
  {
    hide TableIx;
    if a == [] {
      Joined([], [], b);
      Joined([], [], AltIn(b));
    } else {
      var all := a + b;
      assert all[0] == a[0] && all[1..] == a[1..] + b;
      AltAppend(a[1..], b);
      Joined(TableIx(a[0]), AltIn(a[1..]), AltIn(b));
    }
  }

  lemma {:induction false} TransmitBatch(pieces: seq<Piece>)
    ensures PiecesIn(AsIxs(pieces)) == pieces
    ensures AltIn(AsIxs(pieces)) == []
  {
    if pieces != [] {
      TransmitBatch(pieces[1..]);
      assert AsIxs(pieces)[1..] == AsIxs(pieces[1..]);
    }
  }

  lemma {:induction false} OnlyExecutions(batch: seq<Ix>)
    requires forall k :: 0 <= k < |batch| ==> batch[k].ExecuteIx?
    ensures PiecesIn(batch) == [] && AltIn(batch) == []
  {
    if batch != [] {
      OnlyExecutions(batch[1..]);
    }
  }

  /** What an execution step sends: iterations numbered from zero, and nothing else. */
  lemma ExecutionContent(step: StepBatch, count: nat)
    requires (step.Single? && step.ix == ExecuteIx(0)) || (step.ParallelUnchecked? && step.batch == Iterations(count))
    ensures IxsOf(step) == Iterations(|IxsOf(step)|)
    ensures PieceBatches(step) == [] && AltSent(step) == []
  {
    OnlyExecutions(IxsOf(step));
  }

  lemma {:induction false} OnlyAlt(batch: seq<Ix>)
    requires forall k :: 0 <= k < |batch| ==> batch[k].AltDeallocIx? || batch[k].AltAllocIx?
    ensures PiecesIn(batch) == []
    ensures AltIn(batch) == batch
  {
    if batch != [] {
      OnlyAlt(batch[1..]);
    }
  }

  lemma ReversedTwice<T>(s: seq<T>)
    ensures Reversed(Reversed(s)) == s
  {
  }

  lemma ReversedPop<T>(s: seq<T>)
    requires s != []
    ensures Reversed(s) == [s[|s| - 1]] + Reversed(s[..|s| - 1])
  {
  }

  lemma FreshBatches(rlp: seq<Byte>)
    ensures GoodTransmit(TransmitExecute(Reversed(Batches(rlp))))
  {
    C.CutIsCut(Pieces(rlp), BATCH_LIMIT);
  }

  lemma PopStep(rlp: seq<Byte>, batches: seq<seq<Piece>>)
    requires GoodTransmit(TransmitExecute(batches))
    ensures var (next, advanced) := TransmitPop(batches);
            && GoodTransmit(next)
            && (batches == [] ==> next == TransmitComplete && advanced == Step(End))
            && (batches != [] ==>
                  && Reversed(batches)[0] != []
                  && advanced == Step(Parallel(AsIxs(Reversed(batches)[0]), Legacy))
                  && Reversed(batches) == [Reversed(batches)[0]] + Unsent(rlp, next))
  {
    if batches != [] {
      ReversedPop(batches);
    }
  }

  /** One call on the transmit machine hands out the next unsent batch. */
  lemma TransmitStep(rlp: seq<Byte>, s: TransmitState, reply: Reply)
    requires GoodTransmit(s)
    ensures var (next, advanced) := TransmitAdvance(rlp, s, reply);
            && !advanced.Panic?
            && GoodTransmit(next)
            && (advanced == Step(End) ==> next.TransmitComplete? && Unsent(rlp, s) == [])
            && (advanced.Step? && advanced.step != End ==>
                  && Unsent(rlp, s) != [] && Unsent(rlp, s)[0] != []
                  && advanced.step == Parallel(AsIxs(Unsent(rlp, s)[0]), Legacy)
                  && Unsent(rlp, s) == [Unsent(rlp, s)[0]] + Unsent(rlp, next))
  {
    hide Batches, AsIxs;
    if s.TransmitInit? {
      FreshBatches(rlp);
      ReversedTwice(Batches(rlp));
      PopStep(rlp, Reversed(Batches(rlp)));
    } else if s.TransmitExecute? {
      PopStep(rlp, s.batches);
    }
  }

  /** One call on the lookup table machine. */
  lemma AltStepped(s: AltState, world: nat -> Turn, i: nat)
    requires GoodAlt(s)
    ensures var (next, advanced) := AltAdvance(s, world(i).reply);
            && !advanced.Panic?
            && (advanced.Step? ==>
                  && GoodAlt(next) && UnsentAltOf(next) == []
                  && AltVersion(next, world, i + 1) == AltVersion(s, world, i))
            && (advanced == Step(End) ==> next == s && s.step.AltEnd?)
            && (advanced.Step? && advanced.step != End ==>
                  || advanced.step == Parallel(UnsentAltOf(s), Legacy)
                  || (advanced.step.WaitNextSlot? && UnsentAltOf(s) == []))
  {
  }

  /** What a step must hand out, and what it must leave, for a run to be accounted for. */
  ghost predicate Accounted(rlp: seq<Byte>, m: Machine, step: StepBatch, next: Machine) {
    && UnsentBatches(rlp, m) == PieceBatches(step) + UnsentBatches(rlp, next)
    && UnsentAlt(m) == AltSent(step) + UnsentAlt(next)
    && WillExecute(m) == (if Executes(step) then 1 else 0) + WillExecute(next)
    && Iterative(next) == Iterative(m)
  }

  /** An execution comes last, is confirmed at once if it is iterative, and needs nothing unsent. */
  ghost predicate InPlace(rlp: seq<Byte>, m: Machine, step: StepBatch, next: Machine, version: Option<TxVersion>) {
    && (Executes(step) ==>
          && UnsentBatches(rlp, m) == [] && UnsentAlt(m) == [] && UnsentBatches(rlp, next) == [] && UnsentAlt(next) == []
          && (step.Single? || step.ParallelUnchecked?) && IxsOf(step) == Iterations(|IxsOf(step)|)
          && Some(step.version) == version && step.ParallelUnchecked? == Iterative(m))
    && (step.ConfirmationIterativeTx? <==> Confirms(m))
    && (Confirms(next) <==> Executes(step) && Iterative(m))
    && (SendCount(step) == 0 || step.Single? || step.Parallel? || step.ParallelUnchecked?)
  }

  /** An execution step in another version. */
  function Versioned(step: StepBatch, version: TxVersion): StepBatch {
    match step
    case Single(ix, _) => Single(ix, version)
    case ParallelUnchecked(batch, _) => ParallelUnchecked(batch, version)
    case _ => step
  }

  /** What holds of the executing machine alone holds of the machine around it once nothing is left to prepare. */
  lemma VersionedInPlace(rlp: seq<Byte>, m: Machine, step: StepBatch, next: Machine, version: TxVersion)
    requires InPlace(rlp, Plain(m.exec), step, Plain(next.exec), Some(Legacy)) && Accounted(rlp, Plain(m.exec), step, Plain(next.exec))
    requires UnsentBatches(rlp, m) == [] && UnsentAlt(m) == [] && UnsentBatches(rlp, next) == [] && UnsentAlt(next) == []
    requires !m.exec.step.Transmitting? && !next.exec.step.Transmitting?
    ensures InPlace(rlp, m, Versioned(step, version), next, Some(version))
    ensures Accounted(rlp, m, Versioned(step, version), next)
  {
    assert IxsOf(Versioned(step, version)) == IxsOf(step);
  }

  lemma ExecStepped(rlp: seq<Byte>, s: ExecState, version: TxVersion, reply: Reply)
    requires GoodExec(s) && !s.step.Transmitting?
    ensures var (next, advanced) := ExecAdvance(rlp, s, reply);
            && GoodExec(next) && !next.step.Transmitting?
            && (advanced.Panic? ==> s.IterativeTxHolder? && reply.emulation == Accepted(None))
            && (advanced == Step(End) <==> s.step.Finished?) && (advanced == Step(End) ==> next == s)
            && (advanced.Step? && advanced.step != End ==>
                  && InPlace(rlp, Plain(s), advanced.step, Plain(next), Some(Legacy))
                  && Accounted(rlp, Plain(s), advanced.step, Plain(next)))
            && (next.AtomicTx? <==> s.AtomicTx?) && (next.IterativeTx? <==> s.IterativeTx?)
            && (next.AtomicTxHolder? <==> s.AtomicTxHolder?)
            && (advanced.Step? ==> Reversion(s, advanced, version) == Step(Versioned(advanced.step, version)))
            && (!advanced.Step? ==> Reversion(s, advanced, version) == advanced)
  {
    var (_, advanced) := ExecAdvance(rlp, s, reply);
    if advanced.Step? && (advanced.step.Single? || advanced.step.ParallelUnchecked?) {
      ExecutionContent(advanced.step, |IxsOf(advanced.step)|);
    }
  }

  /** What one call of `advance` gives, on any reachable state of any machine. */
  ghost predicate Stepped(rlp: seq<Byte>, m: Machine, world: nat -> Turn, i: nat) {
    var (next, advanced) := MachineAdvance(rlp, m, world(i).reply);
    && (advanced.Panic? ==> m.exec.IterativeTxHolder? && world(i).reply.emulation == Accepted(None))
    && (advanced == Step(End) ==>
          && UnsentBatches(rlp, m) == [] && UnsentAlt(m) == [] && WillExecute(m) == 0 && !Confirms(m)
          && forall reply :: MachineAdvance(rlp, next, reply) == (next, Step(End)))
    && (advanced.Step? && advanced.step != End ==>
          && !m.exec.step.Finished?
          && Good(next)
          && Accounted(rlp, m, advanced.step, next)
          && InPlace(rlp, m, advanced.step, next, VersionFor(m, world, i))
          && VersionFor(next, world, i + 1) == VersionFor(m, world, i)
          && next.exec.IterativeTxHolder? == m.exec.IterativeTxHolder?)
  }

  /** A machine that transmits for itself. */
  function TransmittingExec(exec: ExecState, transmit: TransmitState): ExecState {
    if exec.AtomicTxHolder? then AtomicTxHolder(Transmitting, transmit) else IterativeTxHolder(Transmitting, transmit)
  }

  lemma PlainTransmitAdvance(rlp: seq<Byte>, exec: ExecState, reply: Reply)
    requires exec.step.Transmitting? && (exec.AtomicTxHolder? || exec.IterativeTxHolder?)
    requires TransmitAdvance(rlp, exec.transmit, reply).1 != Step(End)
    ensures var (next, advanced) := TransmitAdvance(rlp, exec.transmit, reply);
            MachineAdvance(rlp, Plain(exec), reply) == (Plain(TransmittingExec(exec, next)), advanced)
  {
    hide TransmitAdvance;
  }

  lemma PlainErrs(rlp: seq<Byte>, m: Machine, world: nat -> Turn, i: nat)
    requires MachineAdvance(rlp, m, world(i).reply).1.Error?
    ensures Stepped(rlp, m, world, i)
  {
    hide MachineAdvance;
  }

  /** It sends the next batch. */
  lemma PlainTransmits(rlp: seq<Byte>, m: Machine, world: nat -> Turn, i: nat)
    requires Good(m) && m.Plain? && m.exec.step.Transmitting?
    requires TransmitAdvance(rlp, m.exec.transmit, world(i).reply).1 != Step(End)
    ensures Stepped(rlp, m, world, i)
  {
    hide TransmitAdvance, MachineAdvance, Stepped, AsIxs;
    var (transmit, transmitted) := TransmitAdvance(rlp, m.exec.transmit, world(i).reply);
    TransmitStep(rlp, m.exec.transmit, world(i).reply);
    PlainTransmitAdvance(rlp, m.exec, world(i).reply);
    if transmitted.Error? {
      PlainErrs(rlp, m, world, i);
    } else {
      var next, batch := Plain(TransmittingExec(m.exec, transmit)), Unsent(rlp, m.exec.transmit)[0];
      JoinedBatch([], batch);
      Joined([], [], AsIxs(batch));
      PreparesStepped(rlp, m, world, i, next, Parallel(AsIxs(batch), Legacy));
    }
  }

  /** The machine once everything is transmitted. */
  function SwitchedExec(exec: ExecState, transmit: TransmitState): ExecState {
    if exec.AtomicTxHolder? then AtomicTxHolder(Executing, transmit) else IterativeTxHolder(Executing, transmit)
  }

  lemma PlainSwitchAdvance(rlp: seq<Byte>, exec: ExecState, reply: Reply)
    requires exec.step.Transmitting? && (exec.AtomicTxHolder? || exec.IterativeTxHolder?)
    requires TransmitAdvance(rlp, exec.transmit, reply).1 == Step(End)
    ensures MachineAdvance(rlp, Plain(exec), reply) ==
            MachineAdvance(rlp, Plain(SwitchedExec(exec, TransmitAdvance(rlp, exec.transmit, reply).0)), reply)
  {
    hide TransmitAdvance, ExecuteAtomic, ExecuteIterative;
    var (next, _) := TransmitAdvance(rlp, exec.transmit, reply);
    assert ExecAdvance(rlp, exec, reply) == ExecAdvance(rlp, SwitchedExec(exec, next), reply);
  }

  lemma FinishedStays(rlp: seq<Byte>, s: ExecState, version: TxVersion, reply: Reply)
    requires s.step.Finished?
    ensures ExecAdvance(rlp, s, reply) == (s, Step(End)) && Reversion(s, Step(End), version) == Step(End)
  {
  }

  lemma ExecutingStepped(rlp: seq<Byte>, exec: ExecState, world: nat -> Turn, i: nat)
    requires GoodExec(exec) && !exec.step.Transmitting?
    ensures Stepped(rlp, Plain(exec), world, i)
  {
    hide ExecAdvance, InPlace, Accounted;
    ExecStepped(rlp, exec, Legacy, world(i).reply);
    if exec.step.Finished? {
      forall reply: Reply
        ensures MachineAdvance(rlp, Plain(exec), reply) == (Plain(exec), Step(End))
      {
        FinishedStays(rlp, exec, Legacy, reply);
      }
    }
  }

  /** Two machines that do the same on a turn, and have the same left to do. */
  lemma SwitchedStepped(rlp: seq<Byte>, m: Machine, switched: Machine, world: nat -> Turn, i: nat)
    requires Stepped(rlp, switched, world, i)
    requires MachineAdvance(rlp, m, world(i).reply) == MachineAdvance(rlp, switched, world(i).reply)
    requires UnsentBatches(rlp, m) == UnsentBatches(rlp, switched) && UnsentAlt(m) == UnsentAlt(switched)
    requires WillExecute(m) == WillExecute(switched) == 1 && Iterative(m) == Iterative(switched)
    requires m.exec.IterativeTxHolder? == switched.exec.IterativeTxHolder? && VersionFor(m, world, i) == VersionFor(switched, world, i)
    ensures Stepped(rlp, m, world, i)
  {
    hide MachineAdvance, UnsentBatches, UnsentAlt, VersionFor, Executes, PieceBatches, AltSent;
  }

  /** Once all is sent it executes, in the same call. */
  lemma PlainSwitches(rlp: seq<Byte>, m: Machine, world: nat -> Turn, i: nat)
    requires Good(m) && m.Plain? && m.exec.step.Transmitting?
    requires TransmitAdvance(rlp, m.exec.transmit, world(i).reply).1 == Step(End)
    ensures Stepped(rlp, m, world, i)
  {
    hide TransmitAdvance, MachineAdvance, ExecAdvance, InPlace, Accounted, Stepped;
    var transmit := TransmitAdvance(rlp, m.exec.transmit, world(i).reply).0;
    TransmitStep(rlp, m.exec.transmit, world(i).reply);
    PlainSwitchAdvance(rlp, m.exec, world(i).reply);
    ExecutingStepped(rlp, SwitchedExec(m.exec, transmit), world, i);
    SwitchedStepped(rlp, m, Plain(SwitchedExec(m.exec, transmit)), world, i);
  }

  lemma PlainStepped(rlp: seq<Byte>, m: Machine, world: nat -> Turn, i: nat)
    requires Good(m) && m.Plain?
    ensures Stepped(rlp, m, world, i)
  {
    hide TransmitAdvance, Stepped;
    if !m.exec.step.Transmitting? {
      ExecutingStepped(rlp, m.exec, world, i);
    } else if TransmitAdvance(rlp, m.exec.transmit, world(i).reply).1 == Step(End) {
      PlainSwitches(rlp, m, world, i);
    } else {
      PlainTransmits(rlp, m, world, i);
    }
  }

  /** After the switch the composed machine is its executing machine, in the version of the table. */
  lemma VersionedStepped(rlp: seq<Byte>, m: Machine, world: nat -> Turn, i: nat)
    requires Good(m) && !m.Plain? && m.version.Some?
    ensures Stepped(rlp, m, world, i)
  {
    hide ExecAdvance, Reversion, InPlace, Accounted;
    ExecStepped(rlp, m.exec, m.version.value, world(i).reply);
    var (next, _) := MachineAdvance(rlp, m, world(i).reply);
    var (_, advanced) := ExecAdvance(rlp, m.exec, world(i).reply);
    if advanced == Step(End) {
      forall reply: Reply
        ensures MachineAdvance(rlp, next, reply) == (next, Step(End))
      {
        FinishedStays(rlp, m.exec, m.version.value, reply);
      }
    } else if advanced.Step? {
      VersionedInPlace(rlp, m, advanced.step, next, m.version.value);
    }
  }

  lemma JoinedBatch(alt: seq<Ix>, batch: seq<Piece>)
    requires batch != [] && forall k :: 0 <= k < |alt| ==> alt[k].AltDeallocIx? || alt[k].AltAllocIx?
    ensures PieceBatches(Parallel(alt + AsIxs(batch), Legacy)) == [batch]
    ensures AltSent(Parallel(alt + AsIxs(batch), Legacy)) == alt
    ensures !HoldsExecution(Parallel(alt + AsIxs(batch), Legacy))
  {
    OnlyAlt(alt);
    TransmitBatch(batch);
    PiecesAppend(alt, AsIxs(batch));
    AltAppend(alt, AsIxs(batch));
    assert AltIn(alt) + AltIn(AsIxs(batch)) == alt;
    assert PiecesIn(alt) + PiecesIn(AsIxs(batch)) == batch;
  }

  /** Joining is defined for the steps two machines side by side can meet in, and loses and repeats nothing they send. */
  lemma JoinSendsBoth(alt: StepBatch, transmit: StepBatch)
    ensures JoinParallel(alt, transmit).Some? <==>
              transmit.End? || (transmit.Parallel? && (alt.Parallel? || alt.End? || alt.WaitNextSlot?))
    ensures JoinParallel(alt, transmit).Some? ==>
              && IxsOf(JoinParallel(alt, transmit).value) == IxsOf(alt) + IxsOf(transmit)
              && (JoinParallel(alt, transmit).value == End <==> alt.End? && transmit.End?)
  {
    Joined(IxsOf(alt), [], []);
    Joined([], [], IxsOf(transmit));
  }

  /** While pieces are left, the joined machine sends a batch together with whatever the table needs. */
  lemma JoinAdvance(rlp: seq<Byte>, alt: AltState, transmit: TransmitState, exec: ExecState, reply: Reply,
                    nextAlt: AltState, altStep: StepBatch, nextTransmit: TransmitState, table: seq<Ix>, pieces: seq<Ix>)
    requires AltAdvance(alt, reply) == (nextAlt, Step(altStep))
    requires altStep == Parallel(table, Legacy) || (table == [] && (altStep == End || altStep.WaitNextSlot?))
    requires TransmitAdvance(rlp, transmit, reply) == (nextTransmit, Step(Parallel(pieces, Legacy)))
    ensures MachineAdvance(rlp, AltComposedHolder(alt, transmit, exec, None), reply)
         == (AltComposedHolder(nextAlt, nextTransmit, exec, None), Step(Parallel(table + pieces, Legacy)))
  {
    assert [] + pieces == pieces;
  }

  lemma JoinAccounted(rlp: seq<Byte>, alt: AltState, transmit: TransmitState, exec: ExecState,
                      nextAlt: AltState, nextTransmit: TransmitState, step: StepBatch, batch: seq<Piece>)
    requires exec.step.Executing?
    requires step.Parallel? && !HoldsExecution(step) && PieceBatches(step) == [batch] && AltSent(step) == UnsentAltOf(alt)
    requires Unsent(rlp, transmit) == [batch] + Unsent(rlp, nextTransmit)
    requires UnsentAltOf(nextAlt) == []
    ensures Accounted(rlp, AltComposedHolder(alt, transmit, exec, None), step, AltComposedHolder(nextAlt, nextTransmit, exec, None))
  {
    hide PieceBatches, AltSent, Unsent, UnsentAltOf, HoldsExecution;
    assert UnsentAltOf(alt) + [] == UnsentAltOf(alt);
  }

  /** A step that prepares the execution: it sends what it must, and nothing else changes. */
  lemma PreparesStepped(rlp: seq<Byte>, m: Machine, world: nat -> Turn, i: nat, next: Machine, step: StepBatch)
    requires MachineAdvance(rlp, m, world(i).reply) == (next, Step(step))
    requires (step.Parallel? || step.WaitNextSlot?) && !HoldsExecution(step) && Accounted(rlp, m, step, next) && Good(next) && WillExecute(m) == 1 && !Confirms(next)
    requires VersionFor(next, world, i + 1) == VersionFor(m, world, i)
    requires next.exec.IterativeTxHolder? == m.exec.IterativeTxHolder?
    ensures Stepped(rlp, m, world, i)
  {
  }

  lemma JoinStepped(rlp: seq<Byte>, alt: AltState, transmit: TransmitState, exec: ExecState, world: nat -> Turn, i: nat,
                    nextTransmit: TransmitState, batch: seq<Piece>, nextAlt: AltState, altStep: StepBatch)
    requires Good(AltComposedHolder(alt, transmit, exec, None)) && GoodAlt(nextAlt) && GoodTransmit(nextTransmit)
    requires AltAdvance(alt, world(i).reply) == (nextAlt, Step(altStep)) && UnsentAltOf(nextAlt) == []
    requires altStep == Parallel(UnsentAltOf(alt), Legacy) || (UnsentAltOf(alt) == [] && (altStep == End || altStep.WaitNextSlot?))
    requires AltVersion(nextAlt, world, i + 1) == AltVersion(alt, world, i)
    requires TransmitAdvance(rlp, transmit, world(i).reply) == (nextTransmit, Step(Parallel(AsIxs(batch), Legacy)))
    requires Unsent(rlp, transmit) == [batch] + Unsent(rlp, nextTransmit) && batch != []
    ensures Stepped(rlp, AltComposedHolder(alt, transmit, exec, None), world, i)
  {
    var table := UnsentAltOf(alt);
    TableIxs(alt);
    JoinedBatch(table, batch);
    var step := Parallel(table + AsIxs(batch), Legacy);
    JoinAdvance(rlp, alt, transmit, exec, world(i).reply, nextAlt, altStep, nextTransmit, table, AsIxs(batch));
    JoinAccounted(rlp, alt, transmit, exec, nextAlt, nextTransmit, step, batch);
    PreparesStepped(rlp, AltComposedHolder(alt, transmit, exec, None), world, i, AltComposedHolder(nextAlt, nextTransmit, exec, None), step);
  }

  lemma AltFails(rlp: seq<Byte>, alt: AltState, transmit: TransmitState, exec: ExecState, world: nat -> Turn, i: nat)
    requires AltAdvance(alt, world(i).reply).1.Error?
    ensures Stepped(rlp, AltComposedHolder(alt, transmit, exec, None), world, i)
  {
  }

  lemma TableIxs(alt: AltState)
    ensures forall k :: 0 <= k < |UnsentAltOf(alt)| ==> UnsentAltOf(alt)[k].AltDeallocIx? || UnsentAltOf(alt)[k].AltAllocIx?
  {
  }

  lemma AltComposedHolderStepped(rlp: seq<Byte>, m: Machine, world: nat -> Turn, i: nat)
    requires Good(m) && m.AltComposedHolder?
    ensures Stepped(rlp, m, world, i)
  {
    match m
    case AltComposedHolder(_, _, _, Some(_)) =>
      VersionedStepped(rlp, m, world, i);
    case AltComposedHolder(alt, transmit, exec, None) =>
      var (nextTransmit, transmitted) := TransmitAdvance(rlp, transmit, world(i).reply);
      if transmitted.Step? && transmitted != Step(End) {
        AltStepped(alt, world, i);
        TransmitStep(rlp, transmit, world(i).reply);
        var (nextAlt, altAdvanced) := AltAdvance(alt, world(i).reply);
        if altAdvanced.Step? {
          JoinStepped(rlp, alt, transmit, exec, world, i, nextTransmit, Unsent(rlp, transmit)[0], nextAlt, altAdvanced.step);
        } else {
          AltFails(rlp, alt, transmit, exec, world, i);
        }
      } else {
        TransmittedStepped(rlp, alt, transmit, exec, world, i);
      }
  }

  lemma TransmitFails(rlp: seq<Byte>, alt: AltState, transmit: TransmitState, exec: ExecState, world: nat -> Turn, i: nat)
    requires GoodAlt(alt) && TransmitAdvance(rlp, transmit, world(i).reply).1.Error?
    requires AltAdvance(alt, world(i).reply).1.Step?
    ensures Stepped(rlp, AltComposedHolder(alt, transmit, exec, None), world, i)
  {
    hide TransmitAdvance, AltAdvance;
  }

  lemma TableStep(alt: seq<Ix>, step: StepBatch)
    requires step == Parallel(alt, Legacy) || (step.WaitNextSlot? && alt == [])
    requires forall k :: 0 <= k < |alt| ==> alt[k].AltDeallocIx? || alt[k].AltAllocIx?
    ensures PieceBatches(step) == [] && AltSent(step) == alt && !Executes(step)
  {
    OnlyAlt(alt);
  }

  lemma HolderPrepares(rlp: seq<Byte>, alt: AltState, transmit: TransmitState, exec: ExecState, world: nat -> Turn, i: nat,
                       nextAlt: AltState, step: StepBatch, nextTransmit: TransmitState)
    requires Good(AltComposedHolder(alt, transmit, exec, None)) && GoodAlt(nextAlt) && GoodTransmit(nextTransmit)
    requires AltAdvance(alt, world(i).reply) == (nextAlt, Step(step)) && UnsentAltOf(nextAlt) == []
    requires step == Parallel(UnsentAltOf(alt), Legacy) || (UnsentAltOf(alt) == [] && step.WaitNextSlot?)
    requires AltVersion(nextAlt, world, i + 1) == AltVersion(alt, world, i)
    requires TransmitAdvance(rlp, transmit, world(i).reply) == (nextTransmit, Step(End))
    requires Unsent(rlp, transmit) == [] && nextTransmit.TransmitComplete?
    ensures Stepped(rlp, AltComposedHolder(alt, transmit, exec, None), world, i)
  {
    hide AltAdvance, TransmitAdvance, AltVersion, AltIxs;
    TableIxs(alt);
    TableStep(UnsentAltOf(alt), step);
    Joined(UnsentAltOf(alt), [], []);
    PreparesStepped(rlp, AltComposedHolder(alt, transmit, exec, None), world, i, AltComposedHolder(nextAlt, nextTransmit, exec, None), step);
  }

  /** The switch to execution, in the turn in which both side machines are at their ends. */
  lemma HolderSwitches(rlp: seq<Byte>, alt: AltState, transmit: TransmitState, exec: ExecState, world: nat -> Turn, i: nat,
                       nextTransmit: TransmitState)
    requires Good(AltComposedHolder(alt, transmit, exec, None)) && alt.step.AltEnd?
    requires AltAdvance(alt, world(i).reply) == (alt, Step(End))
    requires TransmitAdvance(rlp, transmit, world(i).reply) == (nextTransmit, Step(End)) && Unsent(rlp, transmit) == []
    ensures Stepped(rlp, AltComposedHolder(alt, transmit, exec, None), world, i)
  {
    hide AltAdvance, TransmitAdvance, MachineAdvance, ExecAdvance, Reversion, InPlace, Accounted;
    var version := V0(alt.account.value.account);
    ExecStepped(rlp, exec, version, world(i).reply);
    HolderSwitchAdvance(rlp, alt, transmit, exec, world(i).reply, nextTransmit, version);
    var (nextExec, advanced) := ExecAdvance(rlp, exec, world(i).reply);
    var m, next := AltComposedHolder(alt, transmit, exec, None), AltComposedHolder(alt, nextTransmit, nextExec, Some(version));
    if advanced.Step? && advanced != Step(End) {
      VersionedInPlace(rlp, m, advanced.step, next, version);
    }
  }

  lemma HolderSwitchAdvance(rlp: seq<Byte>, alt: AltState, transmit: TransmitState, exec: ExecState, reply: Reply,
                            nextTransmit: TransmitState, version: TxVersion)
    requires alt.account.Some? && alt.account.value.wellFormed && version == V0(alt.account.value.account)
    requires AltAdvance(alt, reply) == (alt, Step(End)) && TransmitAdvance(rlp, transmit, reply) == (nextTransmit, Step(End))
    ensures MachineAdvance(rlp, AltComposedHolder(alt, transmit, exec, None), reply)
         == (AltComposedHolder(alt, nextTransmit, ExecAdvance(rlp, exec, reply).0, Some(version)),
             Reversion(exec, ExecAdvance(rlp, exec, reply).1, version))
  {
    hide AltAdvance, TransmitAdvance, ExecAdvance, Reversion;
  }

  /** Nothing is left to transmit: the joined machine does what the lookup table machine does. */
  lemma TransmittedStepped(rlp: seq<Byte>, alt: AltState, transmit: TransmitState, exec: ExecState, world: nat -> Turn, i: nat)
    requires Good(AltComposedHolder(alt, transmit, exec, None))
    requires var advanced := TransmitAdvance(rlp, transmit, world(i).reply).1; !advanced.Step? || advanced == Step(End)
    ensures Stepped(rlp, AltComposedHolder(alt, transmit, exec, None), world, i)
  {
    hide AltAdvance, TransmitAdvance, MachineAdvance, Stepped, AltVersion, UnsentAltOf;
    AltStepped(alt, world, i);
    TransmitStep(rlp, transmit, world(i).reply);
    var (nextAlt, altAdvanced) := AltAdvance(alt, world(i).reply);
    var (nextTransmit, transmitted) := TransmitAdvance(rlp, transmit, world(i).reply);
    if altAdvanced.Error? {
      AltFails(rlp, alt, transmit, exec, world, i);
    } else if transmitted.Error? {
      TransmitFails(rlp, alt, transmit, exec, world, i);
    } else if altAdvanced == Step(End) {
      HolderSwitches(rlp, alt, transmit, exec, world, i, nextTransmit);
    } else {
      HolderPrepares(rlp, alt, transmit, exec, world, i, nextAlt, altAdvanced.step, nextTransmit);
    }
  }

  lemma AltPrepares(rlp: seq<Byte>, alt: AltState, exec: ExecState, world: nat -> Turn, i: nat, nextAlt: AltState, step: StepBatch)
    requires Good(AltComposed(alt, exec, None)) && GoodAlt(nextAlt)
    requires AltAdvance(alt, world(i).reply) == (nextAlt, Step(step)) && UnsentAltOf(nextAlt) == []
    requires step == Parallel(UnsentAltOf(alt), Legacy) || (UnsentAltOf(alt) == [] && step.WaitNextSlot?)
    requires AltVersion(nextAlt, world, i + 1) == AltVersion(alt, world, i)
    ensures Stepped(rlp, AltComposed(alt, exec, None), world, i)
  {
    hide AltAdvance, AltVersion, AltIxs;
    TableIxs(alt);
    TableStep(UnsentAltOf(alt), step);
    Joined(UnsentAltOf(alt), [], []);
    PreparesStepped(rlp, AltComposed(alt, exec, None), world, i, AltComposed(nextAlt, exec, None), step);
  }

  lemma AltSwitchAdvance(rlp: seq<Byte>, alt: AltState, exec: ExecState, reply: Reply, version: TxVersion)
    requires alt.account.Some? && alt.account.value.wellFormed && version == V0(alt.account.value.account)
    requires AltAdvance(alt, reply) == (alt, Step(End))
    ensures MachineAdvance(rlp, AltComposed(alt, exec, None), reply)
         == (AltComposed(alt, ExecAdvance(rlp, exec, reply).0, Some(version)), Reversion(exec, ExecAdvance(rlp, exec, reply).1, version))
  {
    hide AltAdvance, ExecAdvance, Reversion;
  }

  lemma AltSwitches(rlp: seq<Byte>, alt: AltState, exec: ExecState, world: nat -> Turn, i: nat)
    requires Good(AltComposed(alt, exec, None)) && alt.step.AltEnd?
    requires AltAdvance(alt, world(i).reply) == (alt, Step(End))
    ensures Stepped(rlp, AltComposed(alt, exec, None), world, i)
  {
    hide AltAdvance, MachineAdvance, ExecAdvance, Reversion, InPlace, Accounted;
    var version := V0(alt.account.value.account);
    ExecStepped(rlp, exec, version, world(i).reply);
    AltSwitchAdvance(rlp, alt, exec, world(i).reply, version);
    var (nextExec, advanced) := ExecAdvance(rlp, exec, world(i).reply);
    if advanced.Step? && advanced != Step(End) {
      VersionedInPlace(rlp, AltComposed(alt, exec, None), advanced.step, AltComposed(alt, nextExec, Some(version)), version);
    }
  }

  lemma AltErrs(rlp: seq<Byte>, alt: AltState, exec: ExecState, world: nat -> Turn, i: nat)
    requires AltAdvance(alt, world(i).reply).1.Error?
    ensures Stepped(rlp, AltComposed(alt, exec, None), world, i)
  {
    hide AltAdvance;
  }

  lemma AltComposedStepped(rlp: seq<Byte>, m: Machine, world: nat -> Turn, i: nat)
    requires Good(m) && m.AltComposed?
    ensures Stepped(rlp, m, world, i)
  {
    if m.version.Some? {
      VersionedStepped(rlp, m, world, i);
    } else {
      AltBuilds(rlp, m.alt, m.exec, world, i);
    }
  }

  lemma AltBuilds(rlp: seq<Byte>, alt: AltState, exec: ExecState, world: nat -> Turn, i: nat)
    requires Good(AltComposed(alt, exec, None))
    ensures Stepped(rlp, AltComposed(alt, exec, None), world, i)
  {
    hide AltAdvance, MachineAdvance, Stepped, AltVersion, UnsentAltOf;
    AltStepped(alt, world, i);
    var (nextAlt, altAdvanced) := AltAdvance(alt, world(i).reply);
    if altAdvanced.Error? {
      AltErrs(rlp, alt, exec, world, i);
    } else if altAdvanced == Step(End) {
      AltSwitches(rlp, alt, exec, world, i);
    } else {
      AltPrepares(rlp, alt, exec, world, i, nextAlt, altAdvanced.step);
    }
  }

  lemma MachineStepped(rlp: seq<Byte>, m: Machine, world: nat -> Turn, i: nat)
    requires Good(m)
    ensures Stepped(rlp, m, world, i)
  {
    match m
    case Plain(_) => PlainStepped(rlp, m, world, i);
    case AltComposed(_, _, _) => AltComposedStepped(rlp, m, world, i);
    case AltComposedHolder(_, _, _, _) => AltComposedHolderStepped(rlp, m, world, i);
  }

  // -------------------------------------------------- what the turns answered

  /** How many transactions an execution sends: one, the composed number of iterations, or the number the emulation of that turn gave. */
  ghost predicate RightCount(exec: ExecState, step: StepBatch, reply: Reply) {
    match exec
    case AtomicTx(_, _) => |IxsOf(step)| == 1
    case AtomicTxHolder(_, _) => |IxsOf(step)| == 1
    case IterativeTx(_, ixs) => ixs == Some(|IxsOf(step)|)
    case IterativeTxHolder(_, _) => reply.emulation == Accepted(Some(|IxsOf(step)|))
  }

  /** The same kind of transaction, with the same instructions as long as they are not sent. */
  ghost predicate SameKind(a: ExecState, b: ExecState) {
    && (a.AtomicTx? <==> b.AtomicTx?) && (a.AtomicTxHolder? <==> b.AtomicTxHolder?)
    && (a.IterativeTx? <==> b.IterativeTx?)
    && (a.IterativeTx? && b.IterativeTx? && a.step.Executing? && b.step.Executing? ==> a.ixs == b.ixs)
  }

  lemma ExecCounts(rlp: seq<Byte>, s: ExecState, reply: Reply)
    requires GoodExec(s)
    ensures var (next, advanced) := ExecAdvance(rlp, s, reply);
            && SameKind(next, s)
            && (advanced.Step? && (advanced.step.Single? || advanced.step.ParallelUnchecked?) ==> RightCount(s, advanced.step, reply))
            && (advanced.Step? && advanced.step.ConfirmationIterativeTx? ==>
                  (advanced.step.confirm <==> reply.confirmed == Some(true)))
            && (advanced.Step? ==> !advanced.step.WaitNextSlot?)
  {
    hide TransmitAdvance, Unsent, GoodTransmit, PieceBatches, Iterations;
    IterationCount();
    if s.AtomicTxHolder? || s.IterativeTxHolder? {
      TransmitSteps(rlp, s.transmit, reply);
    }
  }

  lemma IterationCount()
    ensures forall count :: |Iterations(count)| == count
  {
  }

  lemma TransmitSteps(rlp: seq<Byte>, s: TransmitState, reply: Reply)
    requires GoodTransmit(s)
    ensures var advanced := TransmitAdvance(rlp, s, reply).1; advanced.Step? ==> advanced.step == End || advanced.step.Parallel?
  {
    hide TransmitAdvance;
    TransmitStep(rlp, s, reply);
  }

  /** The table machine waits for the slot in which the fetched table was last extended. */
  lemma AltWaits(s: AltState, reply: Reply)
    ensures var advanced := AltAdvance(s, reply).1;
            advanced.Step? && advanced.step.WaitNextSlot? ==>
              reply.altFetched.Some? && advanced.step.slot == reply.altFetched.value.lastExtendedSlot
  {
    hide AltIxs;
  }

  /** What a step says is what this turn's answers said. */
  ghost predicate Reflects(exec: ExecState, step: StepBatch, reply: Reply) {
    && (step.Single? || step.ParallelUnchecked? ==> RightCount(exec, step, reply))
    && (step.ConfirmationIterativeTx? ==> (step.confirm <==> reply.confirmed == Some(true)))
    && (step.WaitNextSlot? ==> reply.altFetched.Some? && step.slot == reply.altFetched.value.lastExtendedSlot)
  }

  ghost predicate Counted(m: Machine, next: Machine, advanced: Advanced, reply: Reply) {
    SameKind(next.exec, m.exec) && (advanced.Step? ==> Reflects(m.exec, advanced.step, reply))
  }

  lemma ExecCounted(rlp: seq<Byte>, s: ExecState, version: TxVersion, reply: Reply)
    requires GoodExec(s)
    ensures var (next, advanced) := ExecAdvance(rlp, s, reply);
            && SameKind(next, s) && (advanced.Step? ==> Reflects(s, advanced.step, reply))
            && (Reversion(s, advanced, version).Step? ==> Reflects(s, Reversion(s, advanced, version).step, reply))
  {
    hide ExecAdvance;
    ExecCounts(rlp, s, reply);
    var advanced := ExecAdvance(rlp, s, reply).1;
    assert advanced.Step? ==> IxsOf(Reversion(s, advanced, version).step) == IxsOf(advanced.step);
  }

  lemma TableCounted(alt: AltState, reply: Reply)
    requires GoodAlt(alt)
    ensures var (next, advanced) := AltAdvance(alt, reply);
            && !advanced.Panic? && (advanced == Step(End) ==> next == alt && alt.step.AltEnd?)
            && (advanced.Step? ==> advanced.step.Parallel? || advanced.step.WaitNextSlot? || advanced.step == End)
            && forall exec :: advanced.Step? ==> Reflects(exec, advanced.step, reply)
  {
    hide AltAdvance, AltIxs, RightCount;
    AltWaits(alt, reply);
    AltStepped(alt, _ => Turn(reply, _ => true, true), 0);
  }

  lemma JoinedCounted(exec: ExecState, alt: StepBatch, transmit: StepBatch, reply: Reply)
    requires Reflects(exec, alt, reply) && (transmit.Parallel? || transmit == End)
    ensures JoinParallel(alt, transmit).Some? ==> Reflects(exec, JoinParallel(alt, transmit).value, reply)
  {
    hide RightCount;
  }

  lemma MachineCounts(rlp: seq<Byte>, m: Machine, reply: Reply)
    requires Good(m)
    ensures var (next, advanced) := MachineAdvance(rlp, m, reply); Counted(m, next, advanced, reply)
  {
    hide TransmitAdvance, AltAdvance, ExecAdvance, Reversion, AltIxs, RightCount, SameKind, Reflects, IxsOf, JoinParallel;
    KindSame(m.exec);
    if m.Plain? {
      ExecCounted(rlp, m.exec, Legacy, reply);
    } else if m.version.Some? {
      ExecCounted(rlp, m.exec, m.version.value, reply);
    } else {
      TableCounted(m.alt, reply);
      if m.alt.step.AltEnd? {
        ExecCounted(rlp, m.exec, V0(m.alt.account.value.account), reply);
      }
      if m.AltComposedHolder? {
        TransmitStep(rlp, m.transmit, reply);
        var alt, transmitted := AltAdvance(m.alt, reply).1, TransmitAdvance(rlp, m.transmit, reply).1;
        if alt.Step? && transmitted.Step? {
          JoinedCounted(m.exec, alt.step, transmitted.step, reply);
          JoinedEnd(alt.step, transmitted.step);
        }
      }
    }
  }

  lemma KindSame(exec: ExecState)
    ensures SameKind(exec, exec)
  {
  }

  lemma JoinedEnd(alt: StepBatch, transmit: StepBatch)
    requires alt.Parallel? || alt.WaitNextSlot? || alt == End
    requires transmit.Parallel? || transmit == End
    ensures JoinParallel(alt, transmit).Some?
    ensures JoinParallel(alt, transmit).value == End <==> alt == End && transmit == End
  {
  }

  // --------------------------------------------------------------- whole runs

  /** Sends are taken from the front of what was unsent, and a completed run leaves nothing. */
  lemma {:induction false} RunSends(rlp: seq<Byte>, m: Machine, world: nat -> Turn, i: nat,
                                    sigs: seq<Signature>, unchecked: seq<Option<Signature>>)
    requires Good(m)
    ensures var run := RunFrom(rlp, m, world, i, sigs, unchecked);
            && SentBatches(run.trace) <= UnsentBatches(rlp, m)
            && SentAlt(run.trace) <= UnsentAlt(m)
            && Executions(run.trace) <= WillExecute(m)
            && (run.ending.Completed? ==>
                  && SentBatches(run.trace) == UnsentBatches(rlp, m)
                  && SentAlt(run.trace) == UnsentAlt(m)
                  && Executions(run.trace) == WillExecute(m))
    decreases Measure(rlp, m)
  {
    hide MachineAdvance, Good, Measure, VersionFor, UnsentBatches, UnsentAlt, Collect, Continues, InPlace, Executes, PieceBatches, AltSent;
    MachineStepped(rlp, m, world, i);
    var (next, advanced) := MachineAdvance(rlp, m, world(i).reply);
    if advanced.Step? && advanced.step != End {
      if Continues(advanced.step, world(i), i) {
        AdvanceDrops(rlp, m, world(i).reply);
        var (moreSigs, moreUnchecked) := Collect(advanced.step, world(i), i, sigs, unchecked);
        RunSends(rlp, next, world, i + 1, moreSigs, moreUnchecked);
        var rest := RunFrom(rlp, next, world, i + 1, moreSigs, moreUnchecked);
        TraceHead(Event(advanced.step, true), rest.trace);
      } else {
        TraceHead(Event(advanced.step, false), []);
      }
    }
  }

  lemma TraceHead(event: Event, rest: seq<Event>)
    ensures SentBatches([event] + rest) == PieceBatches(event.step) + SentBatches(rest)
    ensures SentAlt([event] + rest) == AltSent(event.step) + SentAlt(rest)
    ensures Executions([event] + rest) == (if Executes(event.step) then 1 else 0) + Executions(rest)
  {
    assert ([event] + rest)[1..] == rest;
  }

  /** Nothing but the missing virtual machine of an iterative holder transaction makes a run panic; a completed machine stays completed. */
  lemma {:induction false} RunEnds(rlp: seq<Byte>, m: Machine, world: nat -> Turn, i: nat,
                                   sigs: seq<Signature>, unchecked: seq<Option<Signature>>)
    requires Good(m)
    ensures var run := RunFrom(rlp, m, world, i, sigs, unchecked);
            && (run.ending.Panicked? ==> m.exec.IterativeTxHolder? && world(i + |run.trace|).reply.emulation == Accepted(None))
            && (run.ending.Completed? ==> forall reply :: MachineAdvance(rlp, run.machine, reply) == (run.machine, Step(End)))
    decreases Measure(rlp, m)
  {
    hide MachineAdvance, Good, Measure, Accounted, InPlace, VersionFor, UnsentBatches, UnsentAlt, Collect, Continues, WillExecute;
    MachineStepped(rlp, m, world, i);
    var (next, advanced) := MachineAdvance(rlp, m, world(i).reply);
    if advanced.Step? && advanced.step != End && Continues(advanced.step, world(i), i) {
      AdvanceDrops(rlp, m, world(i).reply);
      var (moreSigs, moreUnchecked) := Collect(advanced.step, world(i), i, sigs, unchecked);
      RunEnds(rlp, next, world, i + 1, moreSigs, moreUnchecked);
    }
  }

  /** Event `k` belongs to turn `i + k`; it is marked as confirmed exactly if its sends landed then, and only the last one may not be. */
  ghost predicate Faithful(trace: seq<Event>, world: nat -> Turn, i: nat, k: nat)
    requires k < |trace|
  {
    && (trace[k].ok <==> Confirmed(trace[k].step, world(i + k)))
    && (k < |trace| - 1 ==> trace[k].ok)
  }

  lemma {:induction false} RunFaithful(rlp: seq<Byte>, m: Machine, world: nat -> Turn, i: nat,
                                       sigs: seq<Signature>, unchecked: seq<Option<Signature>>, k: nat)
    requires Good(m) && k < |RunFrom(rlp, m, world, i, sigs, unchecked).trace|
    ensures Faithful(RunFrom(rlp, m, world, i, sigs, unchecked).trace, world, i, k)
    ensures RunFrom(rlp, m, world, i, sigs, unchecked).ending.Completed? ==> RunFrom(rlp, m, world, i, sigs, unchecked).trace[k].ok
    decreases Measure(rlp, m)
  {
    hide MachineAdvance, Good, Measure, Accounted, InPlace, VersionFor, Collect, Continues;
    MachineStepped(rlp, m, world, i);
    var (next, advanced) := MachineAdvance(rlp, m, world(i).reply);
    ContinuesIffConfirmed(advanced.step, world(i), i);
    if Continues(advanced.step, world(i), i) {
      AdvanceDrops(rlp, m, world(i).reply);
      var (moreSigs, moreUnchecked) := Collect(advanced.step, world(i), i, sigs, unchecked);
      if 0 < k {
        RunFaithful(rlp, next, world, i + 1, moreSigs, moreUnchecked, k - 1);
      }
    }
  }

  /** A run fails to send or to be confirmed exactly if its last event is one that was not confirmed. */
  ghost predicate EndingTold(run: Run) {
    var failed := run.trace != [] && !run.trace[|run.trace| - 1].ok;
    && (run.ending.SendFailed? <==> failed && !run.trace[|run.trace| - 1].step.ConfirmationIterativeTx?)
    && (run.ending.NotConfirmed? <==> failed && run.trace[|run.trace| - 1].step.ConfirmationIterativeTx?)
  }

  lemma {:induction false} RunTold(rlp: seq<Byte>, m: Machine, world: nat -> Turn, i: nat,
                                   sigs: seq<Signature>, unchecked: seq<Option<Signature>>)
    ensures EndingTold(RunFrom(rlp, m, world, i, sigs, unchecked))
    decreases Measure(rlp, m)
  {
    hide MachineAdvance, Measure, Collect, Continues;
    var (next, advanced) := MachineAdvance(rlp, m, world(i).reply);
    if advanced.Step? && advanced.step != End && Continues(advanced.step, world(i), i) {
      AdvanceDrops(rlp, m, world(i).reply);
      var (moreSigs, moreUnchecked) := Collect(advanced.step, world(i), i, sigs, unchecked);
      RunTold(rlp, next, world, i + 1, moreSigs, moreUnchecked);
    }
  }

  /** Every step says what the answers of its own turn said, and an execution is as large as the machine was composed for. */
  lemma {:induction false} RunAnswered(rlp: seq<Byte>, m: Machine, world: nat -> Turn, i: nat,
                                       sigs: seq<Signature>, unchecked: seq<Option<Signature>>, k: nat)
    requires Good(m) && k < |RunFrom(rlp, m, world, i, sigs, unchecked).trace|
    ensures Reflects(m.exec, RunFrom(rlp, m, world, i, sigs, unchecked).trace[k].step, world(i + k).reply)
    ensures Executes(RunFrom(rlp, m, world, i, sigs, unchecked).trace[k].step) ==> WillExecute(m) == 1
    decreases Measure(rlp, m)
  {
    hide MachineAdvance, Good, Measure, VersionFor, UnsentBatches, UnsentAlt, Collect, Continues, Executes, Reflects, SameKind, InPlace,
         PieceBatches, AltSent;
    MachineStepped(rlp, m, world, i);
    MachineCounts(rlp, m, world(i).reply);
    var (next, advanced) := MachineAdvance(rlp, m, world(i).reply);
    if 0 < k {
      AdvanceDrops(rlp, m, world(i).reply);
      var (moreSigs, moreUnchecked) := Collect(advanced.step, world(i), i, sigs, unchecked);
      RunAnswered(rlp, next, world, i + 1, moreSigs, moreUnchecked, k - 1);
      var rest := RunFrom(rlp, next, world, i + 1, moreSigs, moreUnchecked);
      StillReflects(m, next, rest.trace[k - 1].step, world(i + k).reply);
    }
  }

  lemma StillReflects(m: Machine, next: Machine, step: StepBatch, reply: Reply)
    requires Good(m) && Good(next) && SameKind(next.exec, m.exec) && Reflects(next.exec, step, reply)
    requires Executes(step) ==> WillExecute(m) == 1 && WillExecute(next) == 1
    ensures Reflects(m.exec, step, reply)
  {
    hide HoldsExecution, IxsOf;
  }

  /** At an execution everything else has been sent before, and the version is the expected one. */
  ghost predicate ExecutionInPlace(batches: seq<seq<Piece>>, table: seq<Ix>, version: Option<TxVersion>, trace: seq<Event>, k: nat)
    requires k < |trace|
  {
    Executes(trace[k].step) ==>
      && SentBatches(trace[..k]) == batches
      && SentAlt(trace[..k]) == table
      && (trace[k].step.Single? || trace[k].step.ParallelUnchecked?)
      && IxsOf(trace[k].step) == Iterations(|IxsOf(trace[k].step)|)
      && Some(trace[k].step.version) == version
  }

  lemma {:induction false} RunExecutes(rlp: seq<Byte>, m: Machine, world: nat -> Turn, i: nat,
                                       sigs: seq<Signature>, unchecked: seq<Option<Signature>>, k: nat)
    requires Good(m) && k < |RunFrom(rlp, m, world, i, sigs, unchecked).trace|
    ensures ExecutionInPlace(UnsentBatches(rlp, m), UnsentAlt(m), VersionFor(m, world, i),
                             RunFrom(rlp, m, world, i, sigs, unchecked).trace, k)
    decreases Measure(rlp, m)
  {
    hide MachineAdvance, Good, Measure, Collect, UnsentBatches, UnsentAlt, VersionFor, PieceBatches, AltSent, Executes, HoldsExecution, ExecutionInPlace;
    MachineStepped(rlp, m, world, i);
    var (next, advanced) := MachineAdvance(rlp, m, world(i).reply);
    var trace := RunFrom(rlp, m, world, i, sigs, unchecked).trace;
    if k == 0 {
      FirstInPlace(rlp, m, advanced.step, next, VersionFor(m, world, i), trace);
    } else {
      AdvanceDrops(rlp, m, world(i).reply);
      var (moreSigs, moreUnchecked) := Collect(advanced.step, world(i), i, sigs, unchecked);
      RunExecutes(rlp, next, world, i + 1, moreSigs, moreUnchecked, k - 1);
      var rest := RunFrom(rlp, next, world, i + 1, moreSigs, moreUnchecked);
      LaterInPlace(UnsentBatches(rlp, next), UnsentAlt(next), VersionFor(m, world, i), Event(advanced.step, true), rest.trace, k);
    }
  }

  lemma FirstInPlace(rlp: seq<Byte>, m: Machine, step: StepBatch, next: Machine, version: Option<TxVersion>, trace: seq<Event>)
    requires InPlace(rlp, m, step, next, version) && trace != [] && trace[0].step == step
    ensures ExecutionInPlace(UnsentBatches(rlp, m), UnsentAlt(m), version, trace, 0)
  {
    assert trace[..0] == [];
  }

  lemma LaterInPlace(batches: seq<seq<Piece>>, table: seq<Ix>, version: Option<TxVersion>, event: Event, rest: seq<Event>, k: nat)
    requires 0 < k <= |rest| && ExecutionInPlace(batches, table, version, rest, k - 1)
    ensures ExecutionInPlace(PieceBatches(event.step) + batches, AltSent(event.step) + table, version, [event] + rest, k)
  {
    hide PieceBatches, AltSent, Executes;
    TraceHead(event, rest[..k - 1]);
    assert ([event] + rest)[..k] == [event] + rest[..k - 1];
  }

  /** All signatures obtained for the events of a trace, in sending order. */
  function Signatures(trace: seq<Event>, world: nat -> Turn, i: nat): seq<Signature> {
    if trace == [] then []
    else Landed(Send(SendCount(trace[0].step), world(i), i)) + Signatures(trace[1..], world, i + 1)
  }

  /** A completed run returns every signature it obtained, those of unchecked sends included. */
  lemma {:induction false} RunSignatures(rlp: seq<Byte>, m: Machine, world: nat -> Turn, i: nat,
                                         sigs: seq<Signature>, unchecked: seq<Option<Signature>>)
    requires Good(m)
    ensures var run := RunFrom(rlp, m, world, i, sigs, unchecked);
            run.ending.Completed? ==>
              run.sigs == sigs + (if Confirms(m) then Landed(unchecked) else []) + Signatures(run.trace, world, i)
    decreases Measure(rlp, m)
  {
    hide MachineAdvance, Good, Measure, Accounted, VersionFor, UnsentBatches, UnsentAlt, WillExecute;
    MachineStepped(rlp, m, world, i);
    var (next, advanced) := MachineAdvance(rlp, m, world(i).reply);
    if advanced.Step? && advanced.step != End && Continues(advanced.step, world(i), i) {
      var step := advanced.step;
      AdvanceDrops(rlp, m, world(i).reply);
      var (moreSigs, moreUnchecked) := Collect(step, world(i), i, sigs, unchecked);
      RunSignatures(rlp, next, world, i + 1, moreSigs, moreUnchecked);
      var rest := RunFrom(rlp, next, world, i + 1, moreSigs, moreUnchecked);
      assert ([Event(step, true)] + rest.trace)[1..] == rest.trace;
      Joined(sigs, Landed(Send(SendCount(step), world(i), i)), Signatures(rest.trace, world, i + 1));
      Joined(sigs, Landed(unchecked), Signatures(rest.trace, world, i + 1));
    }
  }

  /** How a completed run ends: an atomic execution is the last event, an iterative one is followed by its confirmation. */
  ghost predicate EndsWell(m: Machine, trace: seq<Event>) {
    && (m.exec.step.Finished? ==> trace == [])
    && (Confirms(m) ==> trace == [Event(ConfirmationIterativeTx(true), true)])
    && (WillExecute(m) == 1 && Iterative(m) ==>
          && 2 <= |trace| && trace[|trace| - 2].step.ParallelUnchecked?
          && trace[|trace| - 1] == Event(ConfirmationIterativeTx(true), true))
    && (WillExecute(m) == 1 && !Iterative(m) ==>
          1 <= |trace| && trace[|trace| - 1].step.Single?)
  }

  /** One more event in front of a run that ends well. */
  lemma EndsWellMore(rlp: seq<Byte>, m: Machine, step: StepBatch, next: Machine, version: Option<TxVersion>, rest: seq<Event>)
    requires Accounted(rlp, m, step, next) && InPlace(rlp, m, step, next, version) && !m.exec.step.Finished?
    requires step.ConfirmationIterativeTx? ==> step.confirm
    requires EndsWell(next, rest)
    ensures EndsWell(m, [Event(step, true)] + rest)
  {
    hide UnsentBatches, UnsentAlt, PieceBatches, AltSent, HoldsExecution, IxsOf, Iterations;
  }

  lemma {:induction false} RunEndsWell(rlp: seq<Byte>, m: Machine, world: nat -> Turn, i: nat,
                                       sigs: seq<Signature>, unchecked: seq<Option<Signature>>)
    requires Good(m)
    ensures RunFrom(rlp, m, world, i, sigs, unchecked).ending.Completed? ==>
              EndsWell(m, RunFrom(rlp, m, world, i, sigs, unchecked).trace)
    decreases Measure(rlp, m)
  {
    hide MachineAdvance, Good, Measure, VersionFor, UnsentBatches, UnsentAlt, Collect, Accounted, InPlace;
    MachineStepped(rlp, m, world, i);
    var (next, advanced) := MachineAdvance(rlp, m, world(i).reply);
    if advanced.Step? && advanced.step != End && Continues(advanced.step, world(i), i) {
      AdvanceDrops(rlp, m, world(i).reply);
      var (moreSigs, moreUnchecked) := Collect(advanced.step, world(i), i, sigs, unchecked);
      RunEndsWell(rlp, next, world, i + 1, moreSigs, moreUnchecked);
      var rest := RunFrom(rlp, next, world, i + 1, moreSigs, moreUnchecked);
      if rest.ending.Completed? {
        EndsWellMore(rlp, m, advanced.step, next, VersionFor(m, world, i), rest.trace);
      }
    }
  }

  // ------------------------------------------------------- composed machines

  lemma ComposedGood(rlp: seq<Byte>, useHolder: bool, keys: seq<Pubkey>, isAtomic: bool, iterations: nat, world: nat -> Turn)
    ensures
      var m := Compose(useHolder, keys, isAtomic, iterations);
      && Good(m)
      && UnsentBatches(rlp, m) == (if useHolder then Batches(rlp) else [])
      && UnsentAlt(m) == (if UseAlt(keys) then AltIxs(keys) else [])
      && VersionFor(m, world, 0) == (if UseAlt(keys) then Fetched(world(1)) else Some(Legacy))
      && WillExecute(m) == 1
      && Iterative(m) == !isAtomic
      && m.exec.IterativeTxHolder? == (useHolder && !isAtomic)
  {
  }

  lemma PrefixBuilds(sent: seq<Ix>, keys: seq<Pubkey>)
    requires sent <= AltIxs(keys)
    ensures exists table :: BuildsTable(table, keys) && sent <= table
  {
    AltIxsBuild(keys);
  }

  /**
   In every run, whatever lands or fails: the batches of the RLP go out in
   order and at most once, so do the transactions that build the lookup table
   of the keys, and the transaction is executed at most once. A completed run
   has sent and confirmed all of them and executed exactly once.
   */
  lemma EveryRunSendsOnce(rlp: seq<Byte>, useHolder: bool, keys: seq<Pubkey>, isAtomic: bool, iterations: nat, world: nat -> Turn)
    ensures
      var run := RunOf(rlp, Compose(useHolder, keys, isAtomic, iterations), world);
      && SentBatches(run.trace) <= (if useHolder then Batches(rlp) else [])
      && (if |keys| > 28 then exists table :: BuildsTable(table, keys) && SentAlt(run.trace) <= table else SentAlt(run.trace) == [])
      && Executions(run.trace) <= 1
      && (run.ending.Completed? ==>
            && SentBatches(run.trace) == (if useHolder then Batches(rlp) else [])
            && (|keys| > 28 ==> BuildsTable(SentAlt(run.trace), keys))
            && Executions(run.trace) == 1)
  {
    hide BuildsTable, AltIxs, Executes, PieceBatches, AltSent;
    ComposedGood(rlp, useHolder, keys, isAtomic, iterations, world);
    var run := RunOf(rlp, Compose(useHolder, keys, isAtomic, iterations), world);
    RunSends(rlp, Compose(useHolder, keys, isAtomic, iterations), world, 0, [], []);
    if |keys| > 28 {
      AltIxsBuild(keys);
      PrefixBuilds(SentAlt(run.trace), keys);
    }
  }

  /**
   An execution step comes only after every batch of the RLP (with a holder)
   and every lookup table transaction was sent, and all of them landed. It is
   one of the two kinds meant for executions and sends iterations numbered from
   zero, as many as the emulation of that turn, or the composed transaction,
   says. With a lookup table it is a version 0 transaction on the fetched table.
   */
  lemma EveryRunExecutesLast(rlp: seq<Byte>, useHolder: bool, keys: seq<Pubkey>, isAtomic: bool, iterations: nat,
                             world: nat -> Turn, k: nat)
    requires k < |RunOf(rlp, Compose(useHolder, keys, isAtomic, iterations), world).trace|
    requires Executes(RunOf(rlp, Compose(useHolder, keys, isAtomic, iterations), world).trace[k].step)
    ensures
      var run := RunOf(rlp, Compose(useHolder, keys, isAtomic, iterations), world);
      var sent := IxsOf(run.trace[k].step);
      && SentBatches(run.trace[..k]) == (if useHolder then Batches(rlp) else [])
      && (if |keys| > 28 then BuildsTable(SentAlt(run.trace[..k]), keys) else SentAlt(run.trace[..k]) == [])
      && (run.trace[k].step.Single? || run.trace[k].step.ParallelUnchecked?)
      && (forall p :: 0 <= p < |sent| ==> sent[p] == ExecuteIx(p))
      && (isAtomic ==> |sent| == 1)
      && (!isAtomic && useHolder ==> world(k).reply.emulation == Accepted(Some(|sent|)))
      && (!isAtomic && !useHolder ==> |sent| == iterations)
      && (|keys| > 28 ==>
            && world(1).reply.altFetched.Some?
            && run.trace[k].step.version == V0(world(1).reply.altFetched.value.account))
      && (|keys| <= 28 ==> run.trace[k].step.version == Legacy)
      && (forall j :: 0 <= j < k ==> Confirmed(run.trace[j].step, world(j)))
  {
    hide RunFrom, Executes, BuildsTable, AltIxs, PieceBatches, AltSent, Confirmed;
    var m := Compose(useHolder, keys, isAtomic, iterations);
    var run := RunOf(rlp, m, world);
    ComposedGood(rlp, useHolder, keys, isAtomic, iterations, world);
    RunExecutes(rlp, m, world, 0, [], [], k);
    RunAnswered(rlp, m, world, 0, [], [], k);
    AltIxsBuild(keys);
    forall j | 0 <= j < k
      ensures Confirmed(run.trace[j].step, world(j))
    {
      RunFaithful(rlp, m, world, 0, [], [], j);
    }
  }

  /**
   The loop goes on behind a step exactly if everything it must wait for has
   happened: every transaction of a checked step landed on its turn, the slot
   was polled, the confirmation was positive. A confirmation is positive
   exactly if the poll of its turn confirmed, and the slot waited for is the one
   in which the fetched table was last extended. The run reports a failed send or
   a missing confirmation exactly if its last step is one of which that is not
   so.
   */
  lemma EveryRunConfirms(rlp: seq<Byte>, useHolder: bool, keys: seq<Pubkey>, isAtomic: bool, iterations: nat, world: nat -> Turn)
    ensures
      var run := RunOf(rlp, Compose(useHolder, keys, isAtomic, iterations), world);
      var last := |run.trace| - 1;
      && (forall k :: 0 <= k < |run.trace| ==>
            && (run.trace[k].ok <==> Confirmed(run.trace[k].step, world(k)))
            && (k < last ==> run.trace[k].ok)
            && (run.trace[k].step.ConfirmationIterativeTx? ==>
                  (run.trace[k].step.confirm <==> world(k).reply.confirmed == Some(true)))
            && (run.trace[k].step.WaitNextSlot? ==>
                  && world(k).reply.altFetched.Some?
                  && run.trace[k].step.slot == world(k).reply.altFetched.value.lastExtendedSlot))
      && (run.ending.SendFailed? <==>
            run.trace != [] && !run.trace[last].step.ConfirmationIterativeTx? && !Confirmed(run.trace[last].step, world(last)))
      && (run.ending.NotConfirmed? <==>
            run.trace != [] && run.trace[last].step.ConfirmationIterativeTx? && world(last).reply.confirmed != Some(true))
  {
    hide RunFrom, Confirmed, Executes, Compose, Good, RightCount, UnsentBatches, UnsentAlt, VersionFor;
    var m := Compose(useHolder, keys, isAtomic, iterations);
    var run := RunOf(rlp, m, world);
    ComposedGood(rlp, useHolder, keys, isAtomic, iterations, world);
    RunTold(rlp, m, world, 0, [], []);
    forall k | 0 <= k < |run.trace|
      ensures (run.trace[k].ok <==> Confirmed(run.trace[k].step, world(k))) && (k < |run.trace| - 1 ==> run.trace[k].ok)
      ensures run.trace[k].step.ConfirmationIterativeTx? ==> (run.trace[k].step.confirm <==> world(k).reply.confirmed == Some(true))
      ensures run.trace[k].step.WaitNextSlot? ==>
                && world(k).reply.altFetched.Some?
                && run.trace[k].step.slot == world(k).reply.altFetched.value.lastExtendedSlot
    {
      RunFaithful(rlp, m, world, 0, [], [], k);
      RunAnswered(rlp, m, world, 0, [], [], k);
    }
    if run.trace != [] {
      var last := |run.trace| - 1;
      ConfirmationConfirms(run.trace[last].step, world(last));
    }
  }

  lemma ConfirmationConfirms(step: StepBatch, turn: Turn)
    ensures step.ConfirmationIterativeTx? ==> (Confirmed(step, turn) <==> step.confirm)
  {
  }

  // ------------------------------------------------------------- signatures

  /** Signature of transaction `position` on turn `turn`, which was sent then and landed. */
  ghost predicate Obtained(trace: seq<Event>, world: nat -> Turn, i: nat, sig: Signature) {
    && i <= sig.turn < i + |trace|
    && sig.position < |IxsOf(trace[sig.turn - i].step)| && world(sig.turn).landed(sig.position)
  }

  predicate Earlier(a: Signature, b: Signature) {
    a.turn < b.turn || (a.turn == b.turn && a.position < b.position)
  }

  ghost predicate InSendingOrder(sigs: seq<Signature>) {
    forall a, b :: 0 <= a < b < |sigs| ==> Earlier(sigs[a], sigs[b])
  }

  /** Result `k` is that of the transaction at position `from + k`. */
  ghost predicate SendResultAt(results: seq<Option<Signature>>, turn: Turn, i: nat, from: nat, k: nat)
    requires k < |results|
  {
    var position := from + k;
    results[k] == if turn.landed(position) then Some(Signature(i, position)) else None
  }

  ghost predicate ResultsOf(results: seq<Option<Signature>>, turn: Turn, i: nat, from: nat) {
    forall k :: 0 <= k < |results| ==> SendResultAt(results, turn, i, from, k)
  }

  ghost predicate LandedIn(sigs: seq<Signature>, turn: Turn, i: nat, from: nat, end: nat) {
    && InSendingOrder(sigs)
    && forall sig :: sig in sigs <==> sig.turn == i && from <= sig.position < end && turn.landed(sig.position)
  }

  lemma LaterResults(results: seq<Option<Signature>>, rest: seq<Option<Signature>>, turn: Turn, i: nat, from: nat, next: nat)
    requires ResultsOf(results, turn, i, from) && results != [] && rest == results[1..] && next == from + 1
    ensures ResultsOf(rest, turn, i, next)
  {
    forall k | 0 <= k < |rest|
      ensures SendResultAt(rest, turn, i, next, k)
    {
      assert SendResultAt(results, turn, i, from, k + 1);
    }
  }

  lemma {:induction false} LandedAre(results: seq<Option<Signature>>, turn: Turn, i: nat, from: nat)
    requires ResultsOf(results, turn, i, from)
    ensures LandedIn(Landed(results), turn, i, from, from + |results|)
  {
    if results != [] {
      LaterResults(results, results[1..], turn, i, from, from + 1);
      LandedAre(results[1..], turn, i, from + 1);
      assert SendResultAt(results, turn, i, from, 0);
      OneMoreLanded(results[0], Landed(results[1..]), turn, i, from, from + |results|);
    }
  }

  lemma OneMoreLanded(first: Option<Signature>, rest: seq<Signature>, turn: Turn, i: nat, from: nat, end: nat)
    requires LandedIn(rest, turn, i, from + 1, end) && from < end
    requires first == if turn.landed(from) then Some(Signature(i, from)) else None
    ensures LandedIn((if first.Some? then [first.value] else []) + rest, turn, i, from, end)
  {
    var all := (if first.Some? then [first.value] else []) + rest;
    if first.None? {
      assert all == rest;
    } else {
      assert all[0] == first.value && all[1..] == rest;
      forall a, b | 0 <= a < b < |all|
        ensures Earlier(all[a], all[b])
      {
        assert all[b] in rest;
        assert a > 0 ==> all[a] == rest[a - 1] && all[b] == rest[b - 1];
      }
    }
  }

  lemma SentAre(step: StepBatch, turn: Turn, i: nat)
    ensures InSendingOrder(Landed(Send(SendCount(step), turn, i)))
    ensures forall sig :: sig in Landed(Send(SendCount(step), turn, i)) <==>
              sig.turn == i && sig.position < |IxsOf(step)| && turn.landed(sig.position)
  {
    hide Landed, InSendingOrder, SendResultAt;
    var results := Send(SendCount(step), turn, i);
    SendResults(SendCount(step), turn, i);
    LandedAre(results, turn, i, 0);
    assert |results| == |IxsOf(step)|;
  }

  lemma SendResults(count: nat, turn: Turn, i: nat)
    ensures ResultsOf(Send(count, turn, i), turn, i, 0)
  {
  }

  lemma ObtainedHead(trace: seq<Event>, world: nat -> Turn, i: nat, sig: Signature)
    requires trace != []
    ensures Obtained(trace, world, i, sig) <==>
            || Obtained(trace[1..], world, i + 1, sig)
            || (sig.turn == i && sig.position < |IxsOf(trace[0].step)| && world(i).landed(sig.position))
  {
  }

  /** The signatures of a trace are those of its transactions that landed, in sending order and once each. */
  lemma {:induction false} SignaturesAre(trace: seq<Event>, world: nat -> Turn, i: nat)
    ensures InSendingOrder(Signatures(trace, world, i))
    ensures forall sig :: sig in Signatures(trace, world, i) <==> Obtained(trace, world, i, sig)
  {
    if trace != [] {
      hide Obtained;
      SignaturesAre(trace[1..], world, i + 1);
      SentAre(trace[0].step, world(i), i);
      var first, rest := Landed(Send(SendCount(trace[0].step), world(i), i)), Signatures(trace[1..], world, i + 1);
      forall sig
        ensures sig in first + rest <==> Obtained(trace, world, i, sig)
      {
        ObtainedHead(trace, world, i, sig);
      }
      forall sig | sig in rest
        ensures i < sig.turn
      {
        ObtainedLater(trace[1..], world, i + 1, sig);
      }
      InOrderAppend(first, rest, i);
    } else {
      assert forall sig :: !Obtained([], world, i, sig);
    }
  }

  lemma ObtainedLater(trace: seq<Event>, world: nat -> Turn, i: nat, sig: Signature)
    requires Obtained(trace, world, i, sig)
    ensures i <= sig.turn
  {
  }

  lemma InOrderAppend(first: seq<Signature>, rest: seq<Signature>, i: nat)
    requires InSendingOrder(first) && InSendingOrder(rest)
    requires (forall sig :: sig in first ==> sig.turn == i) && forall sig :: sig in rest ==> i < sig.turn
    ensures InSendingOrder(first + rest)
  {
    var all := first + rest;
    forall a, b | 0 <= a < b < |all|
      ensures Earlier(all[a], all[b])
    {
      assert all[a] in if a < |first| then first else rest;
      assert all[b] in if b < |first| then first else rest;
    }
  }

  /**
   No `unreachable!`, `expect` or `unwrap` fires, save the one on a virtual
   machine the emulator did not report. A completed machine stays at `End`,
   an iterative execution was confirmed by the poll of the last turn, and the
   run returns every signature it obtained, in sending order.
   */
  lemma EveryRunEnds(rlp: seq<Byte>, useHolder: bool, keys: seq<Pubkey>, isAtomic: bool, iterations: nat, world: nat -> Turn)
    ensures
      var m := Compose(useHolder, keys, isAtomic, iterations);
      var run := RunOf(rlp, m, world);
      && (run.ending.Panicked? ==> useHolder && !isAtomic && world(|run.trace|).reply.emulation == Accepted(None))
      && (run.ending.Completed? ==>
            && (forall reply :: MachineAdvance(rlp, run.machine, reply) == (run.machine, Step(End)))
            && EndsWell(m, run.trace)
            && (!isAtomic ==> run.trace != [] && world(|run.trace| - 1).reply.confirmed == Some(true))
            && InSendingOrder(run.sigs)
            && (forall sig :: sig in run.sigs <==> Obtained(run.trace, world, 0, sig)))
  {
    hide Good, Compose, RunFrom, EndsWell, Signatures, MachineAdvance, Continues, UnsentBatches, UnsentAlt, VersionFor, Obtained, InSendingOrder;
    var m := Compose(useHolder, keys, isAtomic, iterations);
    var run := RunOf(rlp, m, world);
    ComposedGood(rlp, useHolder, keys, isAtomic, iterations, world);
    RunEnds(rlp, m, world, 0, [], []);
    RunEndsWell(rlp, m, world, 0, [], []);
    RunSignatures(rlp, m, world, 0, [], []);
    Joined<Signature>([], [], Signatures(run.trace, world, 0));
    SignaturesAre(run.trace, world, 0);
    if run.ending.Completed? && !isAtomic {
      EndsConfirmed(m, run.trace);
      RunAnswered(rlp, m, world, 0, [], [], |run.trace| - 1);
    }
  }

  lemma EndsConfirmed(m: Machine, trace: seq<Event>)
    requires EndsWell(m, trace) && WillExecute(m) == 1 && Iterative(m)
    ensures trace != [] && trace[|trace| - 1].step == ConfirmationIterativeTx(true)
  {
  }
}
