/**
 The transaction objects as the source keeps them: state in fields, changed in
 place by `Advance`. Each method is proved against the step functions.
 */
module Machines {
  import opened Wrappers
  import opened Types
  import opened Transmit
  import opened Steps
  import C = Chunks

  lemma {:induction false} TagSnoc(chunks: seq<seq<Byte>>, offset: nat, chunk: seq<Byte>)
    ensures Tag(chunks + [chunk], offset) == Tag(chunks, offset) + [Piece(offset + |C.Concat(chunks)|, chunk)]
  {
    if chunks == [] {
      assert Tag([chunk], offset) == [Piece(offset, chunk)] + Tag([], offset + |chunk|);
    } else {
      var more, head := chunks + [chunk], Piece(offset, chunks[0]);
      TagSnoc(chunks[1..], offset + |chunks[0]|, chunk);
      assert more[0] == chunks[0] && more[1..] == chunks[1..] + [chunk];
      assert Tag(more, offset) == [head] + Tag(more[1..], offset + |chunks[0]|);
      assert C.Concat(chunks) == chunks[0] + C.Concat(chunks[1..]);
    }
  }

  class TransmitTx {
    const rlp: seq<Byte>
    var step: TransmitState

    constructor (rlp: seq<Byte>)
      ensures this.rlp == rlp && step == TransmitInit
    {
      this.rlp := rlp;
      step := TransmitInit;
    }

    /** Cuts the RLP, threading the offset through the chunks. */
    method Ixs() returns (ixs: seq<Piece>)
      ensures ixs == Pieces(rlp)
    {
      var chunks := C.IntoChunks(rlp, TRANSMIT_TX_SIZE);
      var offset := 0;
      ixs := [];
      for n := 0 to |chunks|
        invariant offset == |C.Concat(chunks[..n])|
        invariant ixs == Tag(chunks[..n], 0)
      {
        TagSnoc(chunks[..n], 0, chunks[n]);
        C.ConcatAppend(chunks[..n], [chunks[n]]);
        C.ConcatSingle(chunks[n]);
        assert chunks[..n + 1] == chunks[..n] + [chunks[n]];
        ixs := ixs + [Piece(offset, chunks[n])];
        offset := offset + |chunks[n]|;
      }
      assert chunks[..|chunks|] == chunks;
    }

    method Advance(reply: Reply) returns (advanced: Advanced)
      modifies this
      ensures (step, advanced) == TransmitAdvance(rlp, old(step), reply)
      decreases if step.TransmitInit? then 2 else if step.TransmitExecute? then 1 else 0
    {
      match step {
        case TransmitInit =>
          if !reply.transmitEmulated {
            return Error;
          }
          var ixs := Ixs();
          var batches := C.IntoChunks(ixs, BATCH_LIMIT);
          step := TransmitExecute(Reversed(batches));
          advanced := Advance(reply);
        case TransmitExecute(batches) =>
          if batches != [] {
            step := TransmitExecute(batches[..|batches| - 1]);
            return Step(Parallel(AsIxs(batches[|batches| - 1]), Legacy));
          }
          step := TransmitComplete;
          advanced := Advance(reply);
        case TransmitComplete =>
          return Step(End);
      }
    }
  }

  class AltTx {
    var keys: Option<seq<Pubkey>>
    var step: AltStep
    var altRawAccount: Option<RawAlt>

    constructor (keys: seq<Pubkey>)
      ensures State() == AltState(AltExecute, Some(keys), None)
    {
      this.keys := Some(keys);
      step := AltExecute;
      altRawAccount := None;
    }

    function State(): AltState
      reads this
    {
      AltState(step, keys, altRawAccount)
    }

    /** Takes the keys out of the object and cuts them into the transactions that extend the table. */
    method TxDataAlloc() returns (data: seq<Ix>)
      requires keys.Some?
      modifies this`keys
      ensures keys == None && data == AllocIxs(old(keys).value)
      ensures FillsTable(data, old(keys).value)
    {
      var taken := keys.value;
      keys := None;
      var chunks := C.IntoChunks(taken, ALT_CHUNK_SIZE);
      data := seq(|chunks|, i requires 0 <= i < |chunks| => AltAllocIx(chunks[i]));
      AllocsFill(data, taken, chunks);
    }

    method Advance(reply: Reply) returns (advanced: Advanced)
      modifies this
      ensures (State(), advanced) == AltAdvance(old(State()), reply)
    {
      match step {
        case AltExecute =>
          if !reply.deallocEmulated {
            return Error;
          }
          var ixs := [AltDeallocIx];
          if keys.None? {
            return Panic;
          }
          var alloc := TxDataAlloc();
          if alloc == [] {
            return Panic;
          }
          if !reply.allocEmulated {
            return Error;
          }
          ixs := ixs + alloc;
          step := AltWaitNextSlot;
          return Step(Parallel(ixs, Legacy));
        case AltWaitNextSlot =>
          step := AltEnd;
          if reply.altFetched.None? {
            return Error;
          }
          altRawAccount := reply.altFetched;
          if !altRawAccount.value.wellFormed {
            return Error;
          }
          return Step(WaitNextSlot(altRawAccount.value.lastExtendedSlot));
        case AltEnd =>
          return Step(End);
      }
    }

    /** `alt_account_`: the lookup table, once its account has been fetched. */
    method AltAccountFetched() returns (account: Result<AltAccount, Advanced>)
      ensures account == if altRawAccount.None? then Err(Panic)
                         else if !altRawAccount.value.wellFormed then Err(Error)
                         else Ok(altRawAccount.value.account)
    {
      if altRawAccount.None? {
        return Err(Panic);
      }
      if !altRawAccount.value.wellFormed {
        return Err(Error);
      }
      return Ok(altRawAccount.value.account);
    }
  }

  class AtomicTx {
    var step: ExecStep
    var ixBuilt: bool

    constructor (ixBuilt: bool)
      ensures step == Executing && this.ixBuilt == ixBuilt
    {
      step := Executing;
      this.ixBuilt := ixBuilt;
    }

    method Advance(reply: Reply) returns (advanced: Advanced)
      modifies this
      ensures (Steps.AtomicTx(step, ixBuilt), advanced) == ExecAdvance([], old(Steps.AtomicTx(step, ixBuilt)), reply)
    {
      if step.Executing? {
        if !ixBuilt {
          if reply.emulation.Rejected? {
            return Error;
          }
          ixBuilt := true;
        }
        ixBuilt := false;
        step := Finished;
        return Step(Single(ExecuteIx(0), Legacy));
      }
      return Step(End);
    }
  }

  /** `IterativeTx`; the instructions are counted, not stored. */
  class IterativeTx {
    var step: ExecStep
    var ixs: Option<nat>

    constructor (ixs: Option<nat>)
      ensures step == Executing && this.ixs == ixs
    {
      step := Executing;
      this.ixs := ixs;
    }

    method Advance(reply: Reply) returns (advanced: Advanced)
      requires !step.Transmitting?
      modifies this
      ensures (Steps.IterativeTx(step, ixs), advanced) == ExecAdvance([], old(Steps.IterativeTx(step, ixs)), reply)
    {
      match step {
        case Executing =>
          if ixs.None? {
            if reply.emulation.Rejected? {
              return Error;
            }
            if reply.emulation.iterations.None? {
              return Panic;
            }
            ixs := reply.emulation.iterations;
          }
          step := Confirming;
          var taken := ixs.value;
          ixs := None;
          return Step(ParallelUnchecked(Iterations(taken), Legacy));
        case Confirming =>
          step := Finished;
          if reply.confirmed.None? {
            return Error;
          }
          return Step(ConfirmationIterativeTx(reply.confirmed.value));
        case _ =>
          return Step(End);
      }
    }
  }

  class AtomicTxHolder {
    const transmitTx: TransmitTx
    var step: ExecStep

    constructor (transmitTx: TransmitTx, useAlt: bool)
      ensures this.transmitTx == transmitTx && step == if useAlt then Executing else Transmitting
    {
      this.transmitTx := transmitTx;
      step := if useAlt then Executing else Transmitting;
    }

    method Advance(reply: Reply) returns (advanced: Advanced)
      requires !step.Confirming?
      modifies this, transmitTx
      ensures (Steps.AtomicTxHolder(step, transmitTx.step), advanced)
           == ExecAdvance(transmitTx.rlp, old(Steps.AtomicTxHolder(step, transmitTx.step)), reply)
      decreases step.Transmitting?
    {
      match step {
        case Transmitting =>
          advanced := transmitTx.Advance(reply);
          if advanced == Step(End) {
            step := Executing;
            advanced := Advance(reply);
          }
        case Executing =>
          step := Finished;
          if reply.emulation.Rejected? {
            return Error;
          }
          return Step(Single(ExecuteIx(0), Legacy));
        case _ =>
          return Step(End);
      }
    }
  }

  class IterativeTxHolder {
    const transmitTx: TransmitTx
    var step: ExecStep

    constructor (transmitTx: TransmitTx, useAlt: bool)
      ensures this.transmitTx == transmitTx && step == if useAlt then Executing else Transmitting
    {
      this.transmitTx := transmitTx;
      step := if useAlt then Executing else Transmitting;
    }

    method Advance(reply: Reply) returns (advanced: Advanced)
      modifies this, transmitTx
      ensures (Steps.IterativeTxHolder(step, transmitTx.step), advanced)
           == ExecAdvance(transmitTx.rlp, old(Steps.IterativeTxHolder(step, transmitTx.step)), reply)
      decreases step.Transmitting?
    {
      match step {
        case Transmitting =>
          advanced := transmitTx.Advance(reply);
          if advanced == Step(End) {
            step := Executing;
            advanced := Advance(reply);
          }
        case Executing =>
          step := Confirming;
          if reply.emulation.Rejected? {
            return Error;
          }
          if reply.emulation.iterations.None? {
            return Panic;
          }
          return Step(ParallelUnchecked(Iterations(reply.emulation.iterations.value), Legacy));
        case Confirming =>
          step := Finished;
          return Step(ConfirmationIterativeTx(if reply.confirmed.Some? then reply.confirmed.value else false));
        case Finished =>
          return Step(End);
      }
    }
  }

  /** The boxed transaction that executes, `Box<dyn AdvanceTx>`, by its four concrete types. */
  datatype Iterable =
    | AtomicRef(atomic: AtomicTx)
    | IterativeRef(iterative: IterativeTx)
    | AtomicHolderRef(atomicHolder: AtomicTxHolder)
    | IterativeHolderRef(iterativeHolder: IterativeTxHolder)
  {
    function Repr(): set<object> {
      match this
      case AtomicRef(tx) => {tx}
      case IterativeRef(tx) => {tx}
      case AtomicHolderRef(tx) => {tx, tx.transmitTx}
      case IterativeHolderRef(tx) => {tx, tx.transmitTx}
    }

    function State(): ExecState
      reads Repr()
    {
      match this
      case AtomicRef(tx) => Steps.AtomicTx(tx.step, tx.ixBuilt)
      case IterativeRef(tx) => Steps.IterativeTx(tx.step, tx.ixs)
      case AtomicHolderRef(tx) => Steps.AtomicTxHolder(tx.step, tx.transmitTx.step)
      case IterativeHolderRef(tx) => Steps.IterativeTxHolder(tx.step, tx.transmitTx.step)
    }

    /** Step values the enum of the concrete type has, and one RLP throughout. */
    predicate Valid(rlp: seq<Byte>)
      reads Repr()
    {
      match this
      case AtomicRef(tx) => true
      case IterativeRef(tx) => !tx.step.Transmitting?
      case AtomicHolderRef(tx) => !tx.step.Confirming? && tx.transmitTx.rlp == rlp
      case IterativeHolderRef(tx) => tx.transmitTx.rlp == rlp
    }

    method Advance(ghost rlp: seq<Byte>, reply: Reply) returns (advanced: Advanced)
      requires Valid(rlp)
      modifies Repr()
      ensures Valid(rlp)
      ensures (State(), advanced) == ExecAdvance(rlp, old(State()), reply)
    {
      match this {
        case AtomicRef(tx) => advanced := tx.Advance(reply);
        case IterativeRef(tx) => advanced := tx.Advance(reply);
        case AtomicHolderRef(tx) => advanced := tx.Advance(reply);
        case IterativeHolderRef(tx) => advanced := tx.Advance(reply);
      }
    }

    method AdvanceWithVersion(ghost rlp: seq<Byte>, version: TxVersion, reply: Reply) returns (advanced: Advanced)
      requires Valid(rlp)
      modifies Repr()
      ensures Valid(rlp)
      ensures (State(), advanced) == ExecAdvanceWithVersion(rlp, old(State()), version, reply)
    {
      advanced := Advance(rlp, reply);
      if advanced.Step? && advanced.step.Single? && (AtomicRef? || AtomicHolderRef?) {
        return Step(Single(advanced.step.ix, version));
      }
      if advanced.Step? && advanced.step.ParallelUnchecked? && (IterativeRef? || IterativeHolderRef?) {
        return Step(ParallelUnchecked(advanced.step.batch, version));
      }
    }
  }

  class AltComposed {
    const altTx: AltTx
    const iterableTx: Iterable
    var version: Option<TxVersion>

    constructor (altTx: AltTx, iterableTx: Iterable)
      ensures this.altTx == altTx && this.iterableTx == iterableTx && version == None
    {
      this.altTx := altTx;
      this.iterableTx := iterableTx;
      version := None;
    }

    ghost predicate Valid(rlp: seq<Byte>)
      reads this, iterableTx.Repr()
    {
      altTx !in iterableTx.Repr() && this !in iterableTx.Repr() && iterableTx.Valid(rlp)
    }

    ghost function State(): Machine
      reads this, altTx, iterableTx.Repr()
    {
      Steps.AltComposed(altTx.State(), iterableTx.State(), version)
    }

    method Advance(ghost rlp: seq<Byte>, reply: Reply) returns (advanced: Advanced)
      requires Valid(rlp)
      modifies this, altTx, iterableTx.Repr()
      ensures Valid(rlp)
      ensures (State(), advanced) == MachineAdvance(rlp, old(State()), reply)
    {
      if version.Some? {
        advanced := iterableTx.AdvanceWithVersion(rlp, version.value, reply);
        return;
      }
      advanced := altTx.Advance(reply);
      if advanced == Step(End) {
        var account := altTx.AltAccountFetched();
        if account.Err? {
          return account.error;
        }
        version := Some(V0(account.value));
        advanced := iterableTx.AdvanceWithVersion(rlp, version.value, reply);
      }
    }
  }

  /** Two steps of machines that run side by side, as one. */
  method JoinParallelSteps(altIx: StepBatch, transmitIx: StepBatch) returns (joined: Option<StepBatch>)
    ensures joined == JoinParallel(altIx, transmitIx)
  {
    match transmitIx {
      case Parallel(batch1, _) =>
        match altIx {
          case Parallel(batch2, version) =>
            var appended := batch2;
            appended := appended + batch1;
            return Some(Parallel(appended, version));
          case End => return Some(transmitIx);
          case WaitNextSlot(_) => return Some(transmitIx);
          case _ => return None;
        }
      case End => return Some(altIx);
      case _ => return None;
    }
  }

  class AltComposedHolder {
    const altTx: AltTx
    const transmitTx: TransmitTx
    const iterableTx: Iterable
    var version: Option<TxVersion>

    constructor (altTx: AltTx, transmitTx: TransmitTx, iterableTx: Iterable)
      ensures this.altTx == altTx && this.transmitTx == transmitTx && this.iterableTx == iterableTx && version == None
    {
      this.altTx := altTx;
      this.transmitTx := transmitTx;
      this.iterableTx := iterableTx;
      version := None;
    }

    ghost predicate Valid(rlp: seq<Byte>)
      reads this, iterableTx.Repr()
    {
      && altTx !in iterableTx.Repr() && transmitTx !in iterableTx.Repr() && this !in iterableTx.Repr()
      && transmitTx.rlp == rlp && iterableTx.Valid(rlp)
    }

    ghost function State(): Machine
      reads this, altTx, transmitTx, iterableTx.Repr()
    {
      Steps.AltComposedHolder(altTx.State(), transmitTx.step, iterableTx.State(), version)
    }

    method Advance(ghost rlp: seq<Byte>, reply: Reply) returns (advanced: Advanced)
      requires Valid(rlp)
      modifies this, altTx, transmitTx, iterableTx.Repr()
      ensures Valid(rlp)
      ensures (State(), advanced) == MachineAdvance(rlp, old(State()), reply)
    {
      if version.Some? {
        advanced := iterableTx.AdvanceWithVersion(rlp, version.value, reply);
        return;
      }
      var altAdvanced := altTx.Advance(reply);
      if !altAdvanced.Step? {
        return altAdvanced;
      }
      var transmitAdvanced := transmitTx.Advance(reply);
      if !transmitAdvanced.Step? {
        return transmitAdvanced;
      }
      var joined := JoinParallelSteps(altAdvanced.step, transmitAdvanced.step);
      if joined.None? {
        return Panic;
      }
      if joined.value != End {
        return Step(joined.value);
      }
      var account := altTx.AltAccountFetched();
      if account.Err? {
        return account.error;
      }
      version := Some(V0(account.value));
      advanced := iterableTx.AdvanceWithVersion(rlp, version.value, reply);
    }
  }
}
