/**
 The lock-free allocator of holder indexes: one 64-bit word, changed only by
 compare-and-exchange. Any number of agents interleave at the granularity of
 single atomic operations. The word is kept as its modification order, so a
 load may return an old value, limited by what its agent has already seen.
 */
module HolderAllocator {
  import opened Wrappers

  function Mask(i: bv64): bv64
    requires i < 64
  {
    1 << i
  }

  predicate Meets(a: bv64, b: bv64) {
    a & b != 0
  }

  predicate Bit(w: bv64, i: bv64)
    requires i < 64
  {
    Meets(w, Mask(i))
  }

  lemma MaskMeets(i: bv64, j: bv64)
    requires i < 64 && j < 64
    ensures Meets(Mask(i), Mask(j)) <==> i == j
  {
  }

  lemma Distribute(w: bv64, m: bv64, n: bv64)
    ensures (w | m) & n == (m & n) | (w & n)
  {
  }

  lemma AndNotApart(w: bv64, m: bv64, n: bv64)
    ensures m & n == 0 ==> (w & !m) & n == w & n
  {
  }

  lemma AndNotSame(w: bv64, m: bv64)
    ensures (w & !m) & m == 0
  {
  }

  lemma AndNotMeets(w: bv64, m: bv64, n: bv64)
    ensures !Meets(m, n) ==> (Meets(w & !m, n) <==> Meets(w, n))
    ensures !Meets(w & !m, m)
  {
    AndNotApart(w, m, n);
    AndNotSame(w, m);
  }

  lemma OrZero(a: bv64, b: bv64)
    ensures a | b == 0 <==> a == 0 && b == 0
  {
  }

  lemma OrMeets(w: bv64, m: bv64, n: bv64)
    ensures Meets(w | m, n) <==> Meets(m, n) || Meets(w, n)
  {
    Distribute(w, m, n);
    OrZero(m & n, w & n);
  }

  function WithBit(w: bv64, i: bv64): bv64
    requires i < 64
  {
    w | Mask(i)
  }

  function WithoutBit(w: bv64, i: bv64): bv64
    requires i < 64
  {
    w & !Mask(i)
  }

  lemma BitSet(w: bv64, i: bv64, j: bv64)
    requires i < 64 && j < 64
    ensures Bit(WithBit(w, i), j) <==> i == j || Bit(w, j)
  {
    hide Mask, Meets;
    MaskMeets(i, j);
    OrMeets(w, Mask(i), Mask(j));
  }

  lemma BitCleared(w: bv64, i: bv64, j: bv64)
    requires i < 64 && j < 64
    ensures Bit(WithoutBit(w, i), j) <==> i != j && Bit(w, j)
  {
    hide Mask, Meets;
    MaskMeets(i, j);
    AndNotMeets(w, Mask(i), Mask(j));
  }

  lemma OtherBitsKept(w: bv64, i: bv64)
    requires i < 64
    ensures Bit(WithBit(w, i), i) && !Bit(WithoutBit(w, i), i)
    ensures forall j: bv64 :: j < 64 && j != i ==> (Bit(WithBit(w, i), j) <==> Bit(w, j))
    ensures forall j: bv64 :: j < 64 && j != i ==> (Bit(WithoutBit(w, i), j) <==> Bit(w, j))
  {
    hide Bit, WithBit, WithoutBit;
    BitSet(w, i, i);
    BitCleared(w, i, i);
    forall j: bv64 | j < 64 && j != i
      ensures (Bit(WithBit(w, i), j) <==> Bit(w, j)) && (Bit(WithoutBit(w, i), j) <==> Bit(w, j))
    {
      BitSet(w, i, j);
      BitCleared(w, i, j);
    }
  }

  type AgentId = nat

  /** The life of one holder: searching for an index, holding it, dropping it. `view` is the newest value seen. */
  datatype Agent =
    | Scanning(index: bv64, bitset: bv64, view: nat)
    | Holding(index: bv64, view: nat)
    | Dropping(index: bv64, view: nat)
    | Clearing(index: bv64, current: bv64, view: nat)
    | Finished

  /** All values the word has had, oldest first, and all agents started so far. */
  datatype State = State(history: seq<bv64>, agents: map<AgentId, Agent>)

  datatype Action =
    | Begin(agent: AgentId, read: nat)         // first load of try_new
    | Skip(agent: AgentId)                     // the local copy says the index is taken
    | Claim(agent: AgentId)                    // compare_exchange succeeds
    | ClaimFails(agent: AgentId, read: nat)    // compare_exchange fails and returns a value
    | GiveUp(agent: AgentId)                   // all indexes visited: None
    | Release(agent: AgentId)                  // the holder goes out of scope
    | DropLoad(agent: AgentId, read: nat)      // load in drop
    | Clear(agent: AgentId)                    // compare_exchange_weak succeeds
    | ClearFails(agent: AgentId)               // it fails, possibly spuriously

  function Current(s: State): bv64
    requires s.history != []
  {
    s.history[|s.history| - 1]
  }

  predicate Enabled(s: State, action: Action)
    requires s.history != []
  {
    if action.Begin? then action.agent !in s.agents && action.read < |s.history|
    else
      action.agent in s.agents &&
      var agent := s.agents[action.agent];
      match action
      case Skip(_) => agent.Scanning? && agent.index < 64 && Bit(agent.bitset, agent.index)
      case Claim(_) => agent.Scanning? && agent.index < 64 && !Bit(agent.bitset, agent.index) && Current(s) == agent.bitset
      case ClaimFails(_, read) =>
        && agent.Scanning? && agent.index < 64 && !Bit(agent.bitset, agent.index)
        && agent.view <= read < |s.history| && s.history[read] != agent.bitset
      case GiveUp(_) => agent.Scanning? && agent.index == 64
      case Release(_) => agent.Holding?
      case DropLoad(_, read) => agent.Dropping? && agent.index < 64 && agent.view <= read < |s.history|
      case Clear(_) => agent.Clearing? && agent.index < 64 && Current(s) == agent.current
      case ClearFails(_) => agent.Clearing?
      case Begin(_, _) => false
  }

  function Write(s: State, value: bv64, id: AgentId, agent: Agent): State {
    State(s.history + [value], s.agents[id := agent])
  }

  function Local(s: State, id: AgentId, agent: Agent): State {
    State(s.history, s.agents[id := agent])
  }

  function Apply(s: State, action: Action): (r: State)
    requires s.history != [] && Enabled(s, action)
    ensures r.history != []
  {
    match action
    case Begin(id, read) => Local(s, id, Scanning(0, s.history[read], read))
    case Skip(id) => Local(s, id, Scanning(s.agents[id].index + 1, s.agents[id].bitset, s.agents[id].view))
    case Claim(id) =>
      var agent := s.agents[id];
      Write(s, WithBit(agent.bitset, agent.index), id, Holding(agent.index, |s.history|))
    case ClaimFails(id, read) => Local(s, id, Scanning(s.agents[id].index + 1, s.history[read], read))
    case GiveUp(id) => Local(s, id, Finished)
    case Release(id) => Local(s, id, Dropping(s.agents[id].index, s.agents[id].view))
    case DropLoad(id, read) =>
      var index := s.agents[id].index;
      if Bit(s.history[read], index) then Local(s, id, Clearing(index, s.history[read], read)) else Local(s, id, Finished)
    case Clear(id) =>
      var agent := s.agents[id];
      Write(s, WithoutBit(agent.current, agent.index), id, Finished)
    case ClearFails(id) => Local(s, id, Dropping(s.agents[id].index, s.agents[id].view))
  }

  predicate Legal(s: State, actions: seq<Action>)
    requires s.history != []
    decreases |actions|
  {
    actions == [] || (Enabled(s, actions[0]) && Legal(Apply(s, actions[0]), actions[1..]))
  }

  function RunAll(s: State, actions: seq<Action>): (r: State)
    requires s.history != [] && Legal(s, actions)
    ensures r.history != []
    decreases |actions|
  {
    if actions == [] then s else RunAll(Apply(s, actions[0]), actions[1..])
  }

  // ---------------------------------------------------------------- invariant

  /** A live holder, from its successful exchange to the exchange that clears its bit. */
  predicate Owns(agent: Agent, i: bv64) {
    (agent.Holding? || agent.Dropping? || agent.Clearing?) && agent.index == i
  }

  predicate OwnedBy(s: State, id: AgentId, i: bv64) {
    id in s.agents && Owns(s.agents[id], i)
  }

  /** Every value of the word from `view` on has the bit. */
  predicate SetSince(history: seq<bv64>, view: nat, i: bv64)
    requires i < 64
  {
    forall p :: view <= p < |history| ==> Bit(history[p], i)
  }

  predicate GoodAgent(initial: bv64, history: seq<bv64>, agent: Agent) {
    match agent
    case Scanning(index, _, view) => index <= 64 && view < |history|
    case Holding(index, view) => index < 64 && view < |history| && !Bit(initial, index) && SetSince(history, view, index)
    case Dropping(index, view) => index < 64 && view < |history| && !Bit(initial, index) && SetSince(history, view, index)
    case Clearing(index, current, view) =>
      index < 64 && view < |history| && !Bit(initial, index) && SetSince(history, view, index) && Bit(current, index)
    case Finished => true
  }

  ghost predicate AgentsGood(initial: bv64, s: State) {
    forall id :: id in s.agents ==> GoodAgent(initial, s.history, s.agents[id])
  }

  /** No index has two owners. */
  ghost predicate Exclusive(s: State) {
    forall a, b, i :: OwnedBy(s, a, i) && OwnedBy(s, b, i) ==> a == b
  }

  ghost predicate HasOwner(s: State, i: bv64) {
    exists id :: OwnedBy(s, id, i)
  }

  /** The word says exactly which indexes are owned, apart from bits that were set to begin with. */
  ghost predicate BitsMatch(initial: bv64, s: State)
    requires s.history != []
  {
    forall i: bv64 :: i < 64 ==> (Bit(Current(s), i) <==> Bit(initial, i) || HasOwner(s, i))
  }

  ghost predicate Inv(initial: bv64, s: State) {
    && s.history != [] && AgentsGood(initial, s) && Exclusive(s) && BitsMatch(initial, s)
  }

  lemma InitialInv(initial: bv64)
    ensures Inv(initial, State([initial], map[]))
  {
  }

  /** A step that writes nothing and leaves the agent owning what it owned. */
  lemma LocalKeeps(initial: bv64, s: State, id: AgentId, agent: Agent)
    requires Inv(initial, s) && GoodAgent(initial, s.history, agent)
    requires forall i :: Owns(agent, i) <==> OwnedBy(s, id, i)
    ensures Inv(initial, Local(s, id, agent))
  {
    hide Bit, Owns, GoodAgent;
    var t := Local(s, id, agent);
    assert forall other, i :: OwnedBy(t, other, i) <==> OwnedBy(s, other, i);
    forall i: bv64 | i < 64
      ensures Bit(Current(t), i) <==> Bit(initial, i) || HasOwner(t, i)
    {
      assert HasOwner(t, i) <==> HasOwner(s, i);
    }
  }

  lemma StillGood(initial: bv64, history: seq<bv64>, agent: Agent, value: bv64)
    requires GoodAgent(initial, history, agent)
    requires forall i: bv64 :: i < 64 && Owns(agent, i) ==> Bit(value, i)
    ensures GoodAgent(initial, history + [value], agent)
  {
    hide Bit;
    if agent.Holding? || agent.Dropping? || agent.Clearing? {
      assert Owns(agent, agent.index);
    }
  }

  lemma OwnerInRange(initial: bv64, s: State, id: AgentId, i: bv64)
    requires Inv(initial, s) && OwnedBy(s, id, i)
    ensures i < 64
  {
    hide Bit;
    assert GoodAgent(initial, s.history, s.agents[id]);
  }

  /** An owner's bit is set now. */
  lemma OwnerBit(initial: bv64, s: State, id: AgentId, i: bv64)
    requires Inv(initial, s) && OwnedBy(s, id, i) && i < 64
    ensures Bit(Current(s), i)
  {
    hide Bit;
    assert GoodAgent(initial, s.history, s.agents[id]);
  }

  lemma NotShared(s: State, a: AgentId, b: AgentId, i: bv64)
    requires Exclusive(s) && OwnedBy(s, a, i) && a != b
    ensures !OwnedBy(s, b, i)
  {
  }

  /** What a write by agent `id` must do to keep the invariant, given who owns what afterwards. */
  lemma WriteKeeps(initial: bv64, s: State, value: bv64, id: AgentId, agent: Agent, index: bv64, owned: bool)
    requires Inv(initial, s) && index < 64 && id in s.agents
    requires forall j: bv64 :: j < 64 && j != index ==> (Bit(value, j) <==> Bit(Current(s), j))
    requires !Bit(initial, index) && (Bit(value, index) <==> owned)
    requires forall other :: other != id ==> !OwnedBy(s, other, index)
    requires forall j :: OwnedBy(s, id, j) ==> j == index
    requires forall j :: Owns(agent, j) <==> owned && j == index
    requires GoodAgent(initial, s.history + [value], agent)
    ensures Inv(initial, Write(s, value, id, agent))
  {
    hide Bit, WithBit, WithoutBit, Inv, BitsMatch, AgentsGood, Exclusive;
    InvParts(initial, s);
    var t := Write(s, value, id, agent);
    assert AgentsGood(initial, t) by {
      WriteGood(initial, s, value, id, agent, index);
    }
    WriteOwners(s, t, id, index, owned);
    WriteBits(initial, s, t, id, index, owned);
    WriteDone(initial, t);
  }

  lemma WriteDone(initial: bv64, t: State)
    requires t.history != [] && AgentsGood(initial, t) && Exclusive(t) && BitsMatch(initial, t)
    ensures Inv(initial, t)
  {
  }

  lemma WriteGood(initial: bv64, s: State, value: bv64, id: AgentId, agent: Agent, index: bv64)
    requires Inv(initial, s) && index < 64
    requires forall j: bv64 :: j < 64 && j != index ==> (Bit(value, j) <==> Bit(Current(s), j))
    requires forall other :: other != id ==> !OwnedBy(s, other, index)
    requires GoodAgent(initial, s.history + [value], agent)
    ensures AgentsGood(initial, Write(s, value, id, agent))
  {
    hide Bit, WithBit, WithoutBit, GoodAgent, BitsMatch, Exclusive;
    var t := Write(s, value, id, agent);
    forall other | other in t.agents
      ensures GoodAgent(initial, t.history, t.agents[other])
    {
      if other != id {
        forall i: bv64 | i < 64 && Owns(s.agents[other], i)
          ensures Bit(value, i)
        {
          assert OwnedBy(s, other, i) && !OwnedBy(s, other, index);
          OwnerBit(initial, s, other, i);
        }
        StillGood(initial, s.history, s.agents[other], value);
      }
    }
  }

  /** Ownership after the write: as before, except for the index written. */
  lemma WriteOwners(s: State, t: State, id: AgentId, index: bv64, owned: bool)
    requires Exclusive(s) && id in s.agents && id in t.agents && t.agents == s.agents[id := t.agents[id]]
    requires forall other :: other != id ==> !OwnedBy(s, other, index)
    requires forall j :: OwnedBy(s, id, j) ==> j == index
    requires forall j :: Owns(t.agents[id], j) <==> owned && j == index
    ensures Exclusive(t)
    ensures forall j :: j != index ==> (HasOwner(t, j) <==> HasOwner(s, j))
    ensures HasOwner(t, index) <==> owned
  {
    hide Owns;
    assert forall other, j :: OwnedBy(t, other, j) <==> if other == id then owned && j == index else OwnedBy(s, other, j);
    forall j | j != index
      ensures HasOwner(t, j) <==> HasOwner(s, j)
    {
      if HasOwner(s, j) {
        var other :| OwnedBy(s, other, j);
        assert OwnedBy(t, other, j);
      }
    }
    assert OwnedBy(t, id, index) <==> owned;
  }

  lemma WriteBits(initial: bv64, s: State, t: State, id: AgentId, index: bv64, owned: bool)
    requires s.history != [] && t.history != [] && BitsMatch(initial, s) && index < 64
    requires forall j: bv64 :: j < 64 && j != index ==> (Bit(Current(t), j) <==> Bit(Current(s), j))
    requires !Bit(initial, index) && (Bit(Current(t), index) <==> owned)
    requires forall j :: j != index ==> (HasOwner(t, j) <==> HasOwner(s, j))
    requires HasOwner(t, index) <==> owned
    ensures BitsMatch(initial, t)
  {
    hide Bit, HasOwner;
  }

  /** A free bit has no owner. */
  lemma FreeIndex(initial: bv64, s: State, index: bv64)
    requires Inv(initial, s) && index < 64 && !Bit(Current(s), index)
    ensures !Bit(initial, index) && forall id :: !OwnedBy(s, id, index)
  {
    hide Bit;
    assert !HasOwner(s, index);
  }

  /** A successful claim: nobody owned the index, and only its bit changes. */
  lemma ClaimKeeps(initial: bv64, s: State, id: AgentId)
    requires Inv(initial, s) && Enabled(s, Claim(id))
    ensures Inv(initial, Apply(s, Claim(id)))
    ensures !HasOwner(s, s.agents[id].index) && !Bit(initial, s.agents[id].index)
    ensures OwnedBy(Apply(s, Claim(id)), id, s.agents[id].index)
    ensures forall j: bv64 :: j < 64 && j != s.agents[id].index ==> (Bit(Current(Apply(s, Claim(id))), j) <==> Bit(Current(s), j))
  {
    hide Bit, WithBit, WithoutBit, Inv;
    InvParts(initial, s);
    var index := s.agents[id].index;
    var value := WithBit(Current(s), index);
    OtherBitsKept(Current(s), index);
    FreeIndex(initial, s, index);
    WriteKeeps(initial, s, value, id, Holding(index, |s.history|), index, true);
  }

  /** A successful clear takes back exactly the dropped index. */
  lemma ClearKeeps(initial: bv64, s: State, id: AgentId)
    requires Inv(initial, s) && Enabled(s, Clear(id))
    ensures Inv(initial, Apply(s, Clear(id)))
    ensures Bit(Current(s), s.agents[id].index) && !Bit(Current(Apply(s, Clear(id))), s.agents[id].index)
    ensures forall j: bv64 :: j < 64 && j != s.agents[id].index ==> (Bit(Current(Apply(s, Clear(id))), j) <==> Bit(Current(s), j))
  {
    hide Bit, WithBit, WithoutBit, Inv, Exclusive;
    InvParts(initial, s);
    var index := s.agents[id].index;
    var value := WithoutBit(Current(s), index);
    OtherBitsKept(Current(s), index);
    OwnGood(initial, s, id);
    OwnerBit(initial, s, id, index);
    forall other | other != id
      ensures !OwnedBy(s, other, index)
    {
      NotShared(s, id, other, index);
    }
    WriteKeeps(initial, s, value, id, Finished, index, false);
  }

  lemma InvParts(initial: bv64, s: State)
    requires Inv(initial, s)
    ensures s.history != [] && AgentsGood(initial, s) && Exclusive(s) && BitsMatch(initial, s)
  {
  }

  /** The early exit of drop, "bit is already clear", is never taken. */
  lemma DropSeesItsBit(initial: bv64, s: State, id: AgentId, read: nat)
    requires Inv(initial, s) && Enabled(s, DropLoad(id, read))
    ensures Bit(s.history[read], s.agents[id].index)
    ensures Apply(s, DropLoad(id, read)).agents[id] == Clearing(s.agents[id].index, s.history[read], read)
  {
    hide Bit;
    assert GoodAgent(initial, s.history, s.agents[id]);
  }

  /** A step that writes nothing: its agent stays good and owns what it owned. */
  lemma LocalAction(initial: bv64, s: State, action: Action, agent: Agent)
    requires s.history != [] && Enabled(s, action) && !action.Claim? && !action.Clear?
    requires !action.Begin? ==> GoodAgent(initial, s.history, s.agents[action.agent])
    requires action.DropLoad? ==> Bit(s.history[action.read], s.agents[action.agent].index)
    requires agent == Apply(s, action).agents[action.agent]
    ensures GoodAgent(initial, s.history, agent)
    ensures forall i :: Owns(agent, i) <==> OwnedBy(s, action.agent, i)
    ensures Apply(s, action) == Local(s, action.agent, agent)
  {
    hide Bit, WithBit, WithoutBit;
  }

  /** Every atomic step keeps the invariant, whoever takes it and whatever a load returns. */
  lemma StepKeeps(initial: bv64, s: State, action: Action)
    requires Inv(initial, s) && Enabled(s, action)
    ensures Inv(initial, Apply(s, action))
  {
    hide Bit, WithBit, WithoutBit, Inv, Exclusive, BitsMatch, GoodAgent, Owns, OwnedBy;
    if action.Claim? {
      ClaimKeeps(initial, s, action.agent);
    } else if action.Clear? {
      ClearKeeps(initial, s, action.agent);
    } else {
      if action.DropLoad? {
        DropSeesItsBit(initial, s, action.agent, action.read);
      }
      OwnGood(initial, s, action.agent);
      var agent := Apply(s, action).agents[action.agent];
      LocalAction(initial, s, action, agent);
      LocalKeeps(initial, s, action.agent, agent);
    }
  }

  lemma OwnGood(initial: bv64, s: State, id: AgentId)
    requires Inv(initial, s)
    ensures id in s.agents ==> GoodAgent(initial, s.history, s.agents[id])
  {
  }

  lemma {:induction false} RunKeeps(initial: bv64, s: State, actions: seq<Action>)
    requires Inv(initial, s) && Legal(s, actions)
    ensures Inv(initial, RunAll(s, actions))
    decreases |actions|
  {
    if actions != [] {
      StepKeeps(initial, s, actions[0]);
      RunKeeps(initial, Apply(s, actions[0]), actions[1..]);
    }
  }

  /**
   In every reachable state of any number of agents: a bit is set exactly if it
   was set to begin with or exactly one live holder owns the index, so no two
   live holders share an index, and no holder owns an initially set one.
   */
  lemma EveryRun(initial: bv64, actions: seq<Action>)
    requires Legal(State([initial], map[]), actions)
    ensures
      var s := RunAll(State([initial], map[]), actions);
      && (forall a, b, i :: OwnedBy(s, a, i) && OwnedBy(s, b, i) ==> a == b)
      && (forall i: bv64 :: i < 64 ==> (Bit(Current(s), i) <==> Bit(initial, i) || exists id :: OwnedBy(s, id, i)))
      && (forall id, i :: OwnedBy(s, id, i) ==> i < 64 && !Bit(initial, i))
  {
    hide Bit, WithBit, WithoutBit, Legal, RunAll;
    InitialInv(initial);
    RunKeeps(initial, State([initial], map[]), actions);
    var s := RunAll(State([initial], map[]), actions);
    forall id, i | OwnedBy(s, id, i)
      ensures i < 64 && !Bit(initial, i)
    {
      assert GoodAgent(initial, s.history, s.agents[id]);
    }
    assert forall i :: HasOwner(s, i) <==> exists id :: OwnedBy(s, id, i);
  }

  // ------------------------------------------------------ counting the holders

  /** Number of bits set below `n`. */
  function Ones(w: bv64, n: bv64): nat
    requires n <= 64
  {
    if n == 0 then 0 else Ones(w, n - 1) + if Bit(w, n - 1) then 1 else 0
  }

  /** A live holder: from its successful claim until its bit is cleared. */
  predicate Live(agent: Agent) {
    agent.Holding? || agent.Dropping? || agent.Clearing?
  }

  ghost function LiveHolders(s: State): set<AgentId> {
    set id | id in s.agents && Live(s.agents[id])
  }

  predicate Less(i: bv64, n: bv64) {
    i < n
  }

  lemma LessNext(i: bv64, n: bv64)
    requires n < 64
    ensures Less(i, n + 1) <==> Less(i, n) || i == n
  {
  }

  ghost function LiveBelow(s: State, n: bv64): set<AgentId> {
    set id | id in LiveHolders(s) && Less(s.agents[id].index, n)
  }

  /** The owner of index `n`, if it has one, is the only live holder that counts in addition. */
  lemma OneMoreOwner(s: State, n: bv64, more: bv64)
    requires Exclusive(s) && !Less(n, n) && forall i :: Less(i, more) <==> Less(i, n) || i == n
    ensures HasOwner(s, n) ==> |LiveBelow(s, more)| == |LiveBelow(s, n)| + 1
    ensures !HasOwner(s, n) ==> LiveBelow(s, more) == LiveBelow(s, n)
  {
    hide Less;
    assert forall id :: id in LiveBelow(s, more) <==> id in LiveBelow(s, n) || OwnedBy(s, id, n);
    if HasOwner(s, n) {
      var id :| OwnedBy(s, id, n);
      assert LiveBelow(s, more) == LiveBelow(s, n) + {id};
    }
  }

  lemma {:induction false} OnesAreOwners(s: State, n: bv64)
    requires Inv(0, s) && n <= 64
    ensures Ones(Current(s), n) == |LiveBelow(s, n)|
    decreases n
  {
    hide Bit;
    if n == 0 {
      assert LiveBelow(s, 0) == {};
    } else {
      var m := n - 1;
      OnesAreOwners(s, m);
      NoInitialBit(m);
      InvParts(0, s);
      assert forall i :: Less(i, n) <==> Less(i, m) || i == m by {
        forall i
          ensures Less(i, n) <==> Less(i, m) || i == m
        {
          LessNext(i, m);
        }
      }
      OneMoreOwner(s, m, n);
    }
  }

  lemma NoInitialBit(i: bv64)
    requires i < 64
    ensures !Bit(0, i)
  {
  }

  /** On a word that starts empty, the number of set bits is the number of live holders. */
  lemma SetBitsAreLiveHolders(s: State)
    requires Inv(0, s)
    ensures Ones(Current(s), 64) == |LiveHolders(s)|
  {
    hide Bit, BitsMatch, Exclusive;
    OnesAreOwners(s, 64);
    forall id | id in LiveHolders(s)
      ensures s.agents[id].index < 64
    {
      OwnerInRange(0, s, id, s.agents[id].index);
    }
    assert LiveBelow(s, 64) == LiveHolders(s);
  }

  lemma EveryRunCountsHolders(actions: seq<Action>)
    requires Legal(State([0], map[]), actions)
    ensures Ones(Current(RunAll(State([0], map[]), actions)), 64) == |LiveHolders(RunAll(State([0], map[]), actions))|
  {
    hide Legal, RunAll, Inv;
    InitialInv(0);
    RunKeeps(0, State([0], map[]), actions);
    SetBitsAreLiveHolders(RunAll(State([0], map[]), actions));
  }

  /** `available_holders`: adds up the bits of the loaded word. */
  method AvailableHolders(bitset: bv64) returns (count: nat)
    ensures count == Ones(bitset, 64)
  {
    hide Bit;
    count := 0;
    var i: bv64 := 0;
    while i < 64
      invariant i <= 64 && count == Ones(bitset, i)
      decreases 64 - i
    {
      count := count + if Bit(bitset, i) then 1 else 0;
      i := i + 1;
    }
  }

  // ---------------------------------------------------- without interference

  /** `try_new` and `drop` on a word that nobody else changes. */
  class Allocator {
    var bitset: bv64

    constructor (bitset: bv64)
      ensures this.bitset == bitset
    {
      this.bitset := bitset;
    }

    /** Takes the lowest free index; fails exactly when all are taken. */
    method TryNew() returns (index: Option<bv64>)
      modifies this
      ensures index.None? <==> forall j: bv64 :: j < 64 ==> Bit(old(bitset), j)
      ensures index.None? ==> bitset == old(bitset)
      ensures index.Some? ==>
                && index.value < 64 && !Bit(old(bitset), index.value)
                && (forall j: bv64 :: j < index.value ==> Bit(old(bitset), j))
                && bitset == WithBit(old(bitset), index.value)
    {
      hide Bit, WithBit;
      var i: bv64 := 0;
      while i < 64
        invariant i <= 64 && bitset == old(bitset)
        invariant forall j: bv64 :: j < i ==> Bit(bitset, j)
        decreases 64 - i
      {
        if !Bit(bitset, i) {
          bitset := WithBit(bitset, i);
          return Some(i);
        }
        i := i + 1;
      }
      return None;
    }

    /** Gives the index back; a second drop would change nothing. */
    method Drop(index: bv64)
      requires index < 64
      modifies this
      ensures bitset == if Bit(old(bitset), index) then WithoutBit(old(bitset), index) else old(bitset)
    {
      if Bit(bitset, index) {
        bitset := WithoutBit(bitset, index);
      }
    }

    /** The life of one holder, from `try_new` to its drop, leaves the word as it was. */
    method HoldAndRelease() returns (index: Option<bv64>)
      modifies this
      ensures bitset == old(bitset)
      ensures index.None? <==> forall j: bv64 :: j < 64 ==> Bit(bitset, j)
    {
      hide Bit, WithBit, WithoutBit;
      index := TryNew();
      if index.Some? {
        OtherBitsKept(old(bitset), index.value);
        TakeAndDrop(old(bitset), index.value);
        Drop(index.value);
      }
    }
  }

  /** Taking an index and dropping it again restores the word. */
  lemma TakeAndDrop(w: bv64, i: bv64)
    requires i < 64 && !Bit(w, i)
    ensures WithoutBit(WithBit(w, i), i) == w
  {
    AndNotOr(w, Mask(i));
  }

  lemma AndNotOr(w: bv64, m: bv64)
    requires w & m == 0
    ensures (w | m) & !m == w
  {
  }
}
