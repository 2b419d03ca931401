/** Composing a transaction and driving it, on the objects themselves. */
module Driver {
  import opened Wrappers
  import opened Types
  import opened Steps
  import opened Machines
  import opened Tower

  /** What `build_tx` hands to the tower. */
  datatype Composed =
    | PlainTx(iterable: Iterable)
    | WithAlt(altComposed: Machines.AltComposed)
    | WithAltAndHolder(altComposedHolder: Machines.AltComposedHolder)
  {
    ghost function Repr(): set<object> {
      match this
      case PlainTx(tx) => tx.Repr()
      case WithAlt(tx) => {tx, tx.altTx} + tx.iterableTx.Repr()
      case WithAltAndHolder(tx) => {tx, tx.altTx, tx.transmitTx} + tx.iterableTx.Repr()
    }

    ghost predicate Valid(rlp: seq<Byte>)
      reads Repr()
    {
      match this
      case PlainTx(tx) => tx.Valid(rlp)
      case WithAlt(tx) => tx.Valid(rlp)
      case WithAltAndHolder(tx) => tx.Valid(rlp)
    }

    ghost function State(): Machine
      reads Repr()
    {
      match this
      case PlainTx(tx) => Plain(tx.State())
      case WithAlt(tx) => tx.State()
      case WithAltAndHolder(tx) => tx.State()
    }

    method Advance(ghost rlp: seq<Byte>, reply: Reply) returns (advanced: Advanced)
      requires Valid(rlp)
      modifies Repr()
      ensures Valid(rlp)
      ensures (State(), advanced) == MachineAdvance(rlp, old(State()), reply)
    {
      match this {
        case PlainTx(tx) => advanced := tx.Advance(rlp, reply);
        case WithAlt(tx) => advanced := tx.Advance(rlp, reply);
        case WithAltAndHolder(tx) => advanced := tx.Advance(rlp, reply);
      }
    }
  }

  method ComposeIterableWithHolder(useAlt: bool, keys: seq<Pubkey>, transmitTx: Machines.TransmitTx, iterableTx: Iterable)
    returns (composed: Composed)
    requires transmitTx !in iterableTx.Repr() && iterableTx.Valid(transmitTx.rlp)
    ensures composed.Valid(transmitTx.rlp) && fresh(composed.Repr() - iterableTx.Repr() - {transmitTx})
    ensures composed.State() ==
              if useAlt then Steps.AltComposedHolder(AltState(AltExecute, Some(keys), None), transmitTx.step, iterableTx.State(), None)
              else Plain(iterableTx.State())
  {
    if useAlt {
      var altTx := new Machines.AltTx(keys);
      var tx := new Machines.AltComposedHolder(altTx, transmitTx, iterableTx);
      composed := WithAltAndHolder(tx);
    } else {
      composed := PlainTx(iterableTx);
    }
  }

  method ComposeIterableWithoutHolder(ghost rlp: seq<Byte>, useAlt: bool, keys: seq<Pubkey>, iterableTx: Iterable)
    returns (composed: Composed)
    requires iterableTx.Valid(rlp)
    ensures composed.Valid(rlp) && fresh(composed.Repr() - iterableTx.Repr())
    ensures composed.State() ==
              if useAlt then Steps.AltComposed(AltState(AltExecute, Some(keys), None), iterableTx.State(), None)
              else Plain(iterableTx.State())
  {
    if useAlt {
      var altTx := new Machines.AltTx(keys);
      var tx := new Machines.AltComposed(altTx, iterableTx);
      composed := WithAlt(tx);
    } else {
      composed := PlainTx(iterableTx);
    }
  }

  /** The executing transaction that reads its RLP from a holder account. */
  method NewHolderIterable(rlp: seq<Byte>, useAlt: bool, isAtomic: bool) returns (iterable: Iterable)
    ensures iterable.Valid(rlp) && fresh(iterable.Repr())
    ensures var start := if useAlt then Executing else Transmitting;
            iterable.State() == if isAtomic then Steps.AtomicTxHolder(start, TransmitInit)
                                else Steps.IterativeTxHolder(start, TransmitInit)
  {
    var transmitTx := new Machines.TransmitTx(rlp);
    if isAtomic {
      var tx := new Machines.AtomicTxHolder(transmitTx, useAlt);
      iterable := AtomicHolderRef(tx);
    } else {
      var tx := new Machines.IterativeTxHolder(transmitTx, useAlt);
      iterable := IterativeHolderRef(tx);
    }
  }

  /** The executing transaction that carries its RLP, with its instructions already built. */
  method NewIterable(isAtomic: bool, iterations: nat) returns (iterable: Iterable)
    ensures (forall rlp :: iterable.Valid(rlp)) && fresh(iterable.Repr())
    ensures iterable.State() == if isAtomic then Steps.AtomicTx(Executing, true)
                                else Steps.IterativeTx(Executing, Some(iterations))
  {
    if isAtomic {
      var tx := new Machines.AtomicTx(true);
      iterable := AtomicRef(tx);
    } else {
      var tx := new Machines.IterativeTx(Some(iterations));
      iterable := IterativeRef(tx);
    }
  }

  /**
   `build_tx` and `compose_iterable`, with the emulation's verdict (atomic or
   not, how many iterations), the account keys of the built instruction and
   the size test `use_holder` as parameters.
   */
  method ComposeIterable(rlp: seq<Byte>, useHolder: bool, keys: seq<Pubkey>, isAtomic: bool, iterations: nat)
    returns (composed: Composed)
    ensures composed.Valid(rlp) && fresh(composed.Repr())
    ensures composed.State() == Compose(useHolder, keys, isAtomic, iterations)
  {
    var useAlt := UseAlt(keys);
    if useHolder {
      var iterable := NewHolderIterable(rlp, useAlt, isAtomic);
      var transmitTx := new Machines.TransmitTx(rlp);
      composed := ComposeIterableWithHolder(useAlt, keys, transmitTx, iterable);
    } else {
      var iterable := NewIterable(isAtomic, iterations);
      composed := ComposeIterableWithoutHolder(rlp, useAlt, keys, iterable);
    }
  }

  /** Prepends what already happened to the run that is still to come. */
  ghost function After(trace: seq<Event>, rest: Run): Run {
    Run(trace + rest.trace, rest.sigs, rest.ending, rest.machine)
  }

  lemma RunOn(rlp: seq<Byte>, m: Machine, world: nat -> Turn, i: nat, sigs: seq<Signature>, unchecked: seq<Option<Signature>>,
              trace: seq<Event>, next: Machine, step: StepBatch)
    requires MachineAdvance(rlp, m, world(i).reply) == (next, Step(step)) && step != End
    ensures var (moreSigs, moreUnchecked) := Collect(step, world(i), i, sigs, unchecked);
            Continues(step, world(i), i) ==>
              && Measure(rlp, next) < Measure(rlp, m)
              && After(trace, RunFrom(rlp, m, world, i, sigs, unchecked))
              == After(trace + [Event(step, true)], RunFrom(rlp, next, world, i + 1, moreSigs, moreUnchecked))
    ensures !Continues(step, world(i), i) ==>
              After(trace, RunFrom(rlp, m, world, i, sigs, unchecked))
              == Run(trace + [Event(step, false)], sigs, Failure(step), next)
  {
    hide MachineAdvance, Measure, Collect, Continues;
    AdvanceDrops(rlp, m, world(i).reply);
    var (moreSigs, moreUnchecked) := Collect(step, world(i), i, sigs, unchecked);
    if Continues(step, world(i), i) {
      var rest := RunFrom(rlp, next, world, i + 1, moreSigs, moreUnchecked);
      assert trace + ([Event(step, true)] + rest.trace) == (trace + [Event(step, true)]) + rest.trace;
    }
  }

  /** The signatures of the sends that succeeded. */
  method Successful(results: seq<Option<Signature>>) returns (sigs: seq<Signature>)
    ensures sigs == Landed(results)
  {
    sigs := [];
    for k := 0 to |results|
      invariant sigs == Landed(results[..k])
    {
      LandedSnoc(results[..k], results[k]);
      assert results[..k + 1] == results[..k] + [results[k]];
      if results[k].Some? {
        sigs := sigs + [results[k].value];
      }
    }
    assert results[..|results|] == results;
  }

  lemma {:induction false} LandedSnoc(results: seq<Option<Signature>>, result: Option<Signature>)
    ensures Landed(results + [result]) == Landed(results) + if result.Some? then [result.value] else []
  {
    if results == [] {
      assert Landed([]) == [];
    } else {
      LandedSnoc(results[1..], result);
      assert (results + [result])[1..] == results[1..] + [result];
    }
  }

  method AreAllLanded(results: seq<Option<Signature>>) returns (all: bool)
    ensures all == AllLanded(results)
  {
    for k := 0 to |results|
      invariant forall j :: 0 <= j < k ==> results[j].Some?
    {
      if results[k].None? {
        return false;
      }
    }
    return true;
  }

  /** Each event is marked with whether its turn confirmed it. */
  ghost predicate WellMarked(trace: seq<Event>, world: nat -> Turn) {
    forall k :: 0 <= k < |trace| ==> (trace[k].ok <==> Confirmed(trace[k].step, world(k)))
  }

  lemma NothingMarked(world: nat -> Turn)
    ensures WellMarked([], world)
  {
  }

  lemma MarkMore(trace: seq<Event>, world: nat -> Turn, event: Event)
    requires WellMarked(trace, world) && (event.ok <==> Confirmed(event.step, world(|trace|)))
    ensures WellMarked(trace + [event], world)
  {
    hide Confirmed;
  }

  lemma WholeRun(rlp: seq<Byte>, m: Machine, world: nat -> Turn)
    ensures RunOf(rlp, m, world) == RunFrom(rlp, m, world, 0, [], []) == After([], RunFrom(rlp, m, world, 0, [], []))
  {
    hide RunFrom;
  }

  /** `send_and_confirm_tx_iterable`; on success the signatures, otherwise how it failed. */
  method SendAndConfirmTxIterable(ghost rlp: seq<Byte>, tx: Composed, world: nat -> Turn)
    returns (result: Result<seq<Signature>, Ending>, ghost trace: seq<Event>)
    requires tx.Valid(rlp)
    modifies tx.Repr()
    ensures tx.Valid(rlp)
    ensures var run := RunOf(rlp, old(tx.State()), world);
            && trace == run.trace
            && tx.State() == run.machine
            && result == if run.ending.Completed? then Ok(run.sigs) else Err(run.ending)
    ensures WellMarked(trace, world)
  {
    hide MachineAdvance, Measure, Collect, Continues, Confirmed, RunFrom, Composed.State, Composed.Valid, WellMarked, RunOf;
    var sigs: seq<Signature>, unchecked: seq<Option<Signature>> := [], [];
    var i := 0;
    trace := [];
    ghost var whole := RunFrom(rlp, tx.State(), world, 0, [], []);
    WholeRun(rlp, tx.State(), world);
    NothingMarked(world);
    while true
      invariant tx.Valid(rlp)
      invariant whole == After(trace, RunFrom(rlp, tx.State(), world, i, sigs, unchecked))
      invariant i == |trace| && WellMarked(trace, world)
      decreases Measure(rlp, tx.State())
    {
      ghost var m := tx.State();
      var advanced := tx.Advance(rlp, world(i).reply);
      Stopped(rlp, m, world, i, sigs, unchecked);
      if advanced.Error? {
        return Err(AdvanceFailed), trace;
      }
      if advanced.Panic? {
        return Err(Panicked), trace;
      }
      var step := advanced.step;
      if step == End {
        return Ok(sigs), trace;
      }
      RunOn(rlp, m, world, i, sigs, unchecked, trace, tx.State(), step);
      var goesOn;
      goesOn, sigs, unchecked := Handle(step, world(i), i, sigs, unchecked);
      MarkMore(trace, world, Event(step, goesOn));
      trace := trace + [Event(step, goesOn)];
      if !goesOn {
        return Err(Failure(step)), trace;
      }
      i := i + 1;
    }
  }

  lemma Stopped(rlp: seq<Byte>, m: Machine, world: nat -> Turn, i: nat, sigs: seq<Signature>, unchecked: seq<Option<Signature>>)
    ensures var (next, advanced) := MachineAdvance(rlp, m, world(i).reply);
            && (advanced.Error? ==> RunFrom(rlp, m, world, i, sigs, unchecked) == Run([], sigs, AdvanceFailed, next))
            && (advanced.Panic? ==> RunFrom(rlp, m, world, i, sigs, unchecked) == Run([], sigs, Panicked, next))
            && (advanced == Step(End) ==> RunFrom(rlp, m, world, i, sigs, unchecked) == Run([], sigs, Completed, next))
  {
    hide MachineAdvance;
  }

  /** Sends transactions side by side; all of them must be confirmed. */
  method SendAndConfirmParallel(count: nat, turn: Turn, i: nat, sigs: seq<Signature>) returns (ok: bool, moreSigs: seq<Signature>)
    ensures ok == AllLanded(Send(count, turn, i))
    ensures moreSigs == if ok then sigs + Landed(Send(count, turn, i)) else sigs
  {
    var results := Send(count, turn, i);
    ok := AreAllLanded(results);
    moreSigs := sigs;
    if ok {
      var batchSigs := Successful(results);
      moreSigs := sigs + batchSigs;
    }
  }

  /** What the loop does with one step: send, collect signatures, decide whether to go on. */
  method Handle(step: StepBatch, turn: Turn, i: nat, sigs: seq<Signature>, unchecked: seq<Option<Signature>>)
    returns (goesOn: bool, moreSigs: seq<Signature>, moreUnchecked: seq<Option<Signature>>)
    requires step != End
    ensures goesOn == Continues(step, turn, i)
    ensures goesOn <==> Confirmed(step, turn)
    ensures (moreSigs, moreUnchecked) == if goesOn then Collect(step, turn, i, sigs, unchecked) else (sigs, unchecked)
  {
    hide Confirmed;
    ContinuesIffConfirmed(step, turn, i);
    goesOn, moreSigs, moreUnchecked := true, sigs, unchecked;
    match step {
      case Single(_, _) =>
        goesOn, moreSigs := SendAndConfirmParallel(1, turn, i, sigs);
      case SingleWithSigners(_) =>
        goesOn, moreSigs := SendAndConfirmParallel(1, turn, i, sigs);
      case Parallel(batch, _) =>
        goesOn, moreSigs := SendAndConfirmParallel(|batch|, turn, i, sigs);
      case ParallelUnchecked(batch, _) =>
        moreUnchecked := Send(|batch|, turn, i);
      case ConfirmationIterativeTx(confirm) =>
        goesOn := confirm;
        if confirm {
          var batch := Successful(unchecked);
          moreSigs := sigs + batch;
        }
      case WaitNextSlot(_) =>
        goesOn := turn.slotReached;
        assert Landed(Send(0, turn, i)) == [] && sigs + [] == sigs;
      case End =>
        assert false;
    }
  }
}
