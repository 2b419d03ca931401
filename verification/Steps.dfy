/**
 The transaction step machines as functions on values: what one call of
 `advance` does to the state of a machine and what it hands to the tower.
 Answers from outside (emulation, account reads) come in through a `Reply`.
 */
module Steps {
  import opened Wrappers
  import opened Types
  import opened Transmit
  import C = Chunks

  type Pubkey = nat

  datatype AltAccount = AltAccount(key: Pubkey, addresses: seq<Pubkey>)

  datatype TxVersion = Legacy | V0(alt: AltAccount)

  /** One Solana transaction, by what its rollup instruction does. */
  datatype Ix =
    | TransmitIx(piece: Piece)
    | AltDeallocIx
    | AltAllocIx(keys: seq<Pubkey>)
    | ExecuteIx(unique: nat)

  datatype StepBatch =
    | Single(ix: Ix, version: TxVersion)
    | SingleWithSigners(signedIx: Ix)
    | Parallel(batch: seq<Ix>, version: TxVersion)
    | ParallelUnchecked(batch: seq<Ix>, version: TxVersion)
    | ConfirmationIterativeTx(confirm: bool)
    | WaitNextSlot(slot: nat)
    | End

  /** What a call of `advance` can do. `Panic` stands for `unreachable!`, `expect` and `unwrap`. */
  datatype Advanced = Step(step: StepBatch) | Error | Panic

  /** Raw lookup table account; it may fail to deserialize. */
  datatype RawAlt = RawAlt(account: AltAccount, lastExtendedSlot: nat, wellFormed: bool)

  /** Emulation of the transaction itself; `None` where the emulator reports no virtual machine. */
  datatype Emulation = Rejected | Accepted(iterations: Option<nat>)

  /** Answers to the outside calls one `advance` may make; false and `None` are errors. */
  datatype Reply = Reply(
    transmitEmulated: bool,
    deallocEmulated: bool,
    allocEmulated: bool,
    altFetched: Option<RawAlt>,
    emulation: Emulation,
    confirmed: Option<bool>)

  // ------------------------------------------------------------- TransmitTx

  datatype TransmitState = TransmitInit | TransmitExecute(batches: seq<seq<Piece>>) | TransmitComplete

  function AsIxs(pieces: seq<Piece>): seq<Ix> {
    seq(|pieces|, i requires 0 <= i < |pieces| => TransmitIx(pieces[i]))
  }

  /** `Vec::reverse`. */
  function Reversed<T>(s: seq<T>): (r: seq<T>)
    ensures |r| == |s|
    ensures forall i :: 0 <= i < |s| ==> r[i] == s[|s| - 1 - i]
  {
    seq(|s|, i requires 0 <= i < |s| => s[|s| - 1 - i])
  }

  function TransmitAdvance(rlp: seq<Byte>, s: TransmitState, reply: Reply): (TransmitState, Advanced) {
    match s
    case TransmitInit =>
      if reply.transmitEmulated then TransmitPop(Reversed(Batches(rlp))) else (s, Error)
    case TransmitExecute(batches) => TransmitPop(batches)
    case TransmitComplete => (s, Step(End))
  }

  function TransmitPop(batches: seq<seq<Piece>>): (TransmitState, Advanced) {
    if batches == [] then (TransmitComplete, Step(End))
    else (TransmitExecute(batches[..|batches| - 1]), Step(Parallel(AsIxs(batches[|batches| - 1]), Legacy)))
  }

  // ------------------------------------------------------------------ AltTx

  // Number of keys per transaction that extends the table.
  const ALT_CHUNK_SIZE: nat := 24

  /** The keys that a list of transactions puts into the table, in order. */
  function KeysIn(ixs: seq<Ix>): seq<Pubkey> {
    if ixs == [] then [] else (if ixs[0].AltAllocIx? then ixs[0].keys else []) + KeysIn(ixs[1..])
  }

  /** Transactions that put exactly these keys into the table, in order and once: 24 each, the last one what is left. */
  ghost predicate FillsTable(ixs: seq<Ix>, keys: seq<Pubkey>) {
    && (forall k :: 0 <= k < |ixs| ==> ixs[k].AltAllocIx? && 0 < |ixs[k].keys| <= 24)
    && (forall k :: 0 <= k < |ixs| - 1 ==> |ixs[k].keys| == 24)
    && KeysIn(ixs) == keys
  }

  /** What replaces the old table by one of these keys: first the old one is given up. */
  ghost predicate BuildsTable(ixs: seq<Ix>, keys: seq<Pubkey>) {
    ixs != [] && ixs[0] == AltDeallocIx && FillsTable(ixs[1..], keys)
  }

  lemma {:induction false} KeysOfAllocs(ixs: seq<Ix>, chunks: seq<seq<Pubkey>>)
    requires |ixs| == |chunks| && forall k :: 0 <= k < |ixs| ==> ixs[k] == AltAllocIx(chunks[k])
    ensures KeysIn(ixs) == C.Concat(chunks)
  {
    if ixs != [] {
      KeysOfAllocs(ixs[1..], chunks[1..]);
    }
  }

  lemma AllocsFill(ixs: seq<Ix>, keys: seq<Pubkey>, chunks: seq<seq<Pubkey>>)
    requires |ixs| == |chunks| && forall k :: 0 <= k < |ixs| ==> ixs[k] == AltAllocIx(chunks[k])
    requires C.IsCut(chunks, keys, ALT_CHUNK_SIZE)
    ensures FillsTable(ixs, keys)
  {
    KeysOfAllocs(ixs, chunks);
  }

  lemma AltIxsBuild(keys: seq<Pubkey>)
    ensures BuildsTable(AltIxs(keys), keys)
  {
    C.CutIsCut(keys, ALT_CHUNK_SIZE);
    AllocsFill(AllocIxs(keys), keys, C.Cut(keys, ALT_CHUNK_SIZE));
    assert AltIxs(keys)[1..] == AllocIxs(keys);
  }

  datatype AltStep = AltExecute | AltWaitNextSlot | AltEnd

  datatype AltState = AltState(step: AltStep, keys: Option<seq<Pubkey>>, account: Option<RawAlt>)

  function AllocIxs(keys: seq<Pubkey>): seq<Ix> {
    var chunks := C.Cut(keys, ALT_CHUNK_SIZE);
    seq(|chunks|, i requires 0 <= i < |chunks| => AltAllocIx(chunks[i]))
  }

  function AltIxs(keys: seq<Pubkey>): seq<Ix> {
    [AltDeallocIx] + AllocIxs(keys)
  }

  function AltAdvance(s: AltState, reply: Reply): (AltState, Advanced) {
    match s.step
    case AltExecute =>
      if !reply.deallocEmulated then (s, Error)
      else if s.keys.None? then (s, Panic)
      else
        var taken := s.(keys := None);
        if s.keys.value == [] then (taken, Panic)
        else if !reply.allocEmulated then (taken, Error)
        else (taken.(step := AltWaitNextSlot), Step(Parallel(AltIxs(s.keys.value), Legacy)))
    case AltWaitNextSlot =>
      var ended := s.(step := AltEnd);
      if reply.altFetched.None? then (ended, Error)
      else
        var fetched := ended.(account := reply.altFetched);
        if !reply.altFetched.value.wellFormed then (fetched, Error)
        else (fetched, Step(WaitNextSlot(reply.altFetched.value.lastExtendedSlot)))
    case AltEnd => (s, Step(End))
  }

  // ------------------------------------ the four machines that execute the tx

  datatype ExecStep = Transmitting | Executing | Confirming | Finished

  datatype ExecState =
    | AtomicTx(step: ExecStep, built: bool)
    | IterativeTx(step: ExecStep, ixs: Option<nat>)
    | AtomicTxHolder(step: ExecStep, transmit: TransmitState)
    | IterativeTxHolder(step: ExecStep, transmit: TransmitState)

  /** `iterations` copies of an iterative instruction, numbered from zero. */
  function Iterations(count: nat): seq<Ix> {
    seq(count, i requires 0 <= i => ExecuteIx(i))
  }

  function ExecAdvance(rlp: seq<Byte>, s: ExecState, reply: Reply): (ExecState, Advanced) {
    match s
    case AtomicTx(Executing, built) =>
      if !built && reply.emulation.Rejected? then (s, Error)
      else (AtomicTx(Finished, false), Step(Single(ExecuteIx(0), Legacy)))
    case IterativeTx(Executing, Some(count)) =>
      (IterativeTx(Confirming, None), Step(ParallelUnchecked(Iterations(count), Legacy)))
    case IterativeTx(Executing, None) =>
      if reply.emulation.Rejected? then (s, Error)
      else if reply.emulation.iterations.None? then (s, Panic)
      else (IterativeTx(Confirming, None), Step(ParallelUnchecked(Iterations(reply.emulation.iterations.value), Legacy)))
    case IterativeTx(Confirming, ixs) =>
      (IterativeTx(Finished, ixs),
       if reply.confirmed.None? then Error else Step(ConfirmationIterativeTx(reply.confirmed.value)))
    case AtomicTxHolder(Transmitting, transmit) =>
      var (next, advanced) := TransmitAdvance(rlp, transmit, reply);
      if advanced == Step(End) then ExecuteAtomic(next, reply) else (AtomicTxHolder(Transmitting, next), advanced)
    case AtomicTxHolder(Executing, transmit) => ExecuteAtomic(transmit, reply)
    case IterativeTxHolder(Transmitting, transmit) =>
      var (next, advanced) := TransmitAdvance(rlp, transmit, reply);
      if advanced == Step(End) then ExecuteIterative(next, reply) else (IterativeTxHolder(Transmitting, next), advanced)
    case IterativeTxHolder(Executing, transmit) => ExecuteIterative(transmit, reply)
    case IterativeTxHolder(Confirming, transmit) =>
      (IterativeTxHolder(Finished, transmit), Step(ConfirmationIterativeTx(reply.confirmed == Some(true))))
    case _ => (s, Step(End))
  }

  function ExecuteAtomic(transmit: TransmitState, reply: Reply): (ExecState, Advanced) {
    (AtomicTxHolder(Finished, transmit),
     if reply.emulation.Rejected? then Error else Step(Single(ExecuteIx(0), Legacy)))
  }

  function ExecuteIterative(transmit: TransmitState, reply: Reply): (ExecState, Advanced) {
    (IterativeTxHolder(Confirming, transmit),
     if reply.emulation.Rejected? then Error
     else if reply.emulation.iterations.None? then Panic
     else Step(ParallelUnchecked(Iterations(reply.emulation.iterations.value), Legacy)))
  }

  /** The two `advance_with_version` macros. */
  function Reversion(s: ExecState, advanced: Advanced, version: TxVersion): Advanced {
    if advanced.Step? && advanced.step.Single? && (s.AtomicTx? || s.AtomicTxHolder?)
    then Step(Single(advanced.step.ix, version))
    else if advanced.Step? && advanced.step.ParallelUnchecked? && (s.IterativeTx? || s.IterativeTxHolder?)
    then Step(ParallelUnchecked(advanced.step.batch, version))
    else advanced
  }

  function ExecAdvanceWithVersion(rlp: seq<Byte>, s: ExecState, version: TxVersion, reply: Reply): (ExecState, Advanced) {
    var (next, advanced) := ExecAdvance(rlp, s, reply);
    (next, Reversion(s, advanced, version))
  }

  // ------------------------------------------------------ composed machines

  /** `None` is an `unreachable!`. */
  function JoinParallel(alt: StepBatch, transmit: StepBatch): Option<StepBatch> {
    match transmit
    case Parallel(batch1, _) =>
      (match alt
       case Parallel(batch2, version) => Some(Parallel(batch2 + batch1, version))
       case End => Some(transmit)
       case WaitNextSlot(_) => Some(transmit)
       case _ => None)
    case End => Some(alt)
    case _ => None
  }

  datatype Machine =
    | Plain(exec: ExecState)
    | AltComposed(alt: AltState, exec: ExecState, version: Option<TxVersion>)
    | AltComposedHolder(alt: AltState, transmit: TransmitState, exec: ExecState, version: Option<TxVersion>)

  function MachineAdvance(rlp: seq<Byte>, m: Machine, reply: Reply): (Machine, Advanced) {
    match m
    case Plain(exec) =>
      var (next, advanced) := ExecAdvance(rlp, exec, reply);
      (Plain(next), advanced)
    case AltComposed(alt, exec, Some(version)) =>
      var (next, advanced) := ExecAdvanceWithVersion(rlp, exec, version, reply);
      (AltComposed(alt, next, Some(version)), advanced)
    case AltComposed(alt, exec, None) =>
      var (nextAlt, advanced) := AltAdvance(alt, reply);
      if advanced != Step(End) then (AltComposed(nextAlt, exec, None), advanced)
      else if nextAlt.account.None? then (AltComposed(nextAlt, exec, None), Panic)
      else if !nextAlt.account.value.wellFormed then (AltComposed(nextAlt, exec, None), Error)
      else
        var version := V0(nextAlt.account.value.account);
        var (next, executed) := ExecAdvanceWithVersion(rlp, exec, version, reply);
        (AltComposed(nextAlt, next, Some(version)), executed)
    case AltComposedHolder(alt, transmit, exec, Some(version)) =>
      var (next, advanced) := ExecAdvanceWithVersion(rlp, exec, version, reply);
      (AltComposedHolder(alt, transmit, next, Some(version)), advanced)
    case AltComposedHolder(alt, transmit, exec, None) =>
      var (nextAlt, altAdvanced) := AltAdvance(alt, reply);
      if !altAdvanced.Step? then (AltComposedHolder(nextAlt, transmit, exec, None), altAdvanced)
      else
        var (nextTransmit, transmitAdvanced) := TransmitAdvance(rlp, transmit, reply);
        if !transmitAdvanced.Step? then (AltComposedHolder(nextAlt, nextTransmit, exec, None), transmitAdvanced)
        else
          var joined := JoinParallel(altAdvanced.step, transmitAdvanced.step);
          if joined.None? then (AltComposedHolder(nextAlt, nextTransmit, exec, None), Panic)
          else if joined.value != End then (AltComposedHolder(nextAlt, nextTransmit, exec, None), Step(joined.value))
          else if nextAlt.account.None? then (AltComposedHolder(nextAlt, nextTransmit, exec, None), Panic)
          else if !nextAlt.account.value.wellFormed then (AltComposedHolder(nextAlt, nextTransmit, exec, None), Error)
          else
            var version := V0(nextAlt.account.value.account);
            var (next, executed) := ExecAdvanceWithVersion(rlp, exec, version, reply);
            (AltComposedHolder(nextAlt, nextTransmit, next, Some(version)), executed)
  }

  // ------------------------------------------------------------ composition

  // With more account keys than this, a lookup table is used.
  const USE_ALT_KEYS_BOUND: nat := 28

  predicate UseAlt(keys: seq<Pubkey>) {
    |keys| > USE_ALT_KEYS_BOUND
  }

  /** `compose_iterable`: which machine runs the transaction, and who transmits. */
  function Compose(useHolder: bool, keys: seq<Pubkey>, isAtomic: bool, iterations: nat): Machine {
    var alt := AltState(AltExecute, Some(keys), None);
    if useHolder then
      var start := if UseAlt(keys) then Executing else Transmitting;
      var exec := if isAtomic then AtomicTxHolder(start, TransmitInit) else IterativeTxHolder(start, TransmitInit);
      if UseAlt(keys) then AltComposedHolder(alt, TransmitInit, exec, None) else Plain(exec)
    else
      var exec := if isAtomic then AtomicTx(Executing, true) else IterativeTx(Executing, Some(iterations));
      if UseAlt(keys) then AltComposed(alt, exec, None) else Plain(exec)
  }
}
