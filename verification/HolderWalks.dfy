/**
 How `try_new` walks the indexes in interleaved runs. What an agent has passed
 over and what it loaded last are read off the actions of the run, not off the
 agent's state.
 */
module HolderWalks {
  import opened HolderAllocator

  /** The agent goes on to its next index: the local copy says this one is taken, or the exchange was refused. */
  predicate PassesOver(action: Action, id: AgentId) {
    action.agent == id && (action.Skip? || action.ClaimFails?)
  }

  /** How many indexes the agent has passed over. */
  function Passed(actions: seq<Action>, id: AgentId): nat {
    if actions == [] then 0
    else Passed(actions[..|actions| - 1], id) + if PassesOver(actions[|actions| - 1], id) then 1 else 0
  }

  predicate Loads(action: Action, id: AgentId) {
    action.agent == id && (action.Begin? || action.ClaimFails?)
  }

  /** Which value of the word the agent's search loaded last, by its place in the word's history. */
  function LastRead(actions: seq<Action>, id: AgentId): nat {
    if actions == [] then 0
    else
      var last := actions[|actions| - 1];
      if Loads(last, id) then last.read else LastRead(actions[..|actions| - 1], id)
  }

  predicate BitAt(w: bv64, k: nat)
    requires k < 64
  {
    Bit(w, k as bv64)
  }

  // -------------------------------------------------------------- runs, one action longer

  lemma {:induction false} RunSnoc(s: State, actions: seq<Action>, action: Action)
    requires s.history != [] && Legal(s, actions + [action])
    ensures Legal(s, actions) && Enabled(RunAll(s, actions), action)
    ensures RunAll(s, actions + [action]) == Apply(RunAll(s, actions), action)
    decreases |actions|
  {
    hide Enabled, Apply;
    var more := actions + [action];
    if actions == [] {
      assert more[1..] == [];
    } else {
      assert more[0] == actions[0] && more[1..] == actions[1..] + [action];
      RunSnoc(Apply(s, actions[0]), actions[1..], action);
    }
  }

  lemma SnocReads(actions: seq<Action>, action: Action, id: AgentId)
    ensures Passed(actions + [action], id) == Passed(actions, id) + if PassesOver(action, id) then 1 else 0
    ensures LastRead(actions + [action], id) == if Loads(action, id) then action.read else LastRead(actions, id)
  {
    assert (actions + [action])[..|actions|] == actions;
  }

  lemma {:induction false} HistoryGrows(s: State, actions: seq<Action>, n: nat)
    requires s.history != [] && Legal(s, actions) && n <= |actions|
    ensures Legal(s, actions[..n]) && RunAll(s, actions[..n]).history <= RunAll(s, actions).history
    decreases |actions|
  {
    hide Enabled, Apply;
    if n == |actions| {
      assert actions[..n] == actions;
    } else {
      var shorter := actions[..|actions| - 1];
      assert actions == shorter + [actions[|actions| - 1]];
      RunSnoc(s, shorter, actions[|actions| - 1]);
      HistoryGrows(s, shorter, n);
      assert shorter[..n] == actions[..n];
      AppliedGrows(RunAll(s, shorter), actions[|actions| - 1]);
    }
  }

  lemma AppliedGrows(s: State, action: Action)
    requires s.history != [] && Enabled(s, action)
    ensures s.history <= Apply(s, action).history
  {
    hide Bit, WithBit, WithoutBit;
  }

  // ------------------------------------------------------------------ the walk

  predicate Numbered(index: bv64, k: nat) {
    index <= 64 && index as nat == k
  }

  /** The agent's state is what its actions so far make it: next index, loaded value, index held. */
  ghost predicate Walked(s: State, actions: seq<Action>, id: AgentId) {
    if id !in s.agents then Passed(actions, id) == 0
    else
      match s.agents[id]
      case Scanning(index, bitset, view) =>
        && Numbered(index, Passed(actions, id))
        && view == LastRead(actions, id) && view < |s.history| && bitset == s.history[view]
      case Holding(index, _) => index < 64 && Numbered(index, Passed(actions, id))
      case Dropping(index, _) => index < 64 && Numbered(index, Passed(actions, id))
      case Clearing(index, _, _) => index < 64 && Numbered(index, Passed(actions, id))
      case Finished => true
  }

  lemma NextIndex(index: bv64, k: nat)
    requires index < 64 && Numbered(index, k)
    ensures Numbered(index + 1, k + 1)
  {
  }

  lemma FirstIndex()
    ensures Numbered(0, 0)
  {
  }

  lemma IndexNumber(index: bv64, k: nat)
    requires Numbered(index, k)
    ensures k <= 64 && (index < 64 <==> k < 64) && (k < 64 ==> k as bv64 == index)
  {
  }

  lemma OthersWalk(s: State, actions: seq<Action>, action: Action, id: AgentId)
    requires s.history != [] && Enabled(s, action) && Walked(s, actions, id) && action.agent != id
    ensures Walked(Apply(s, action), actions + [action], id)
  {
    hide Bit, WithBit, WithoutBit, Passed, LastRead, Numbered;
    SnocReads(actions, action, id);
    AppliedGrows(s, action);
    assert id in Apply(s, action).agents <==> id in s.agents;
    assert id in s.agents ==> Apply(s, action).agents[id] == s.agents[id];
  }

  /** A step by which the agent goes on to its next index. */
  lemma PassWalks(s: State, actions: seq<Action>, action: Action)
    requires s.history != [] && Enabled(s, action) && Walked(s, actions, action.agent) && (action.Skip? || action.ClaimFails?)
    ensures Walked(Apply(s, action), actions + [action], action.agent)
  {
    hide Bit, WithBit, WithoutBit, Passed, LastRead, Numbered;
    SnocReads(actions, action, action.agent);
    NextIndex(s.agents[action.agent].index, Passed(actions, action.agent));
  }

  lemma StaysWalked(s: State, actions: seq<Action>, action: Action)
    requires s.history != [] && Enabled(s, action) && Walked(s, actions, action.agent) && !action.Skip? && !action.ClaimFails?
    ensures Walked(Apply(s, action), actions + [action], action.agent)
  {
    hide Bit, WithBit, WithoutBit, Passed, LastRead, Numbered;
    SnocReads(actions, action, action.agent);
    FirstIndex();
  }

  lemma StepWalks(s: State, actions: seq<Action>, action: Action, id: AgentId)
    requires s.history != [] && Enabled(s, action) && Walked(s, actions, id)
    ensures Walked(Apply(s, action), actions + [action], id)
  {
    hide Enabled, Apply, Walked;
    if action.agent != id {
      OthersWalk(s, actions, action, id);
    } else if action.Skip? || action.ClaimFails? {
      PassWalks(s, actions, action);
    } else {
      StaysWalked(s, actions, action);
    }
  }

  lemma {:induction false} RunWalks(initial: bv64, actions: seq<Action>, id: AgentId)
    requires Legal(State([initial], map[]), actions)
    ensures Walked(RunAll(State([initial], map[]), actions), actions, id)
    decreases |actions|
  {
    hide Enabled, Apply;
    if actions != [] {
      var shorter, last := actions[..|actions| - 1], actions[|actions| - 1];
      assert actions == shorter + [last];
      RunSnoc(State([initial], map[]), shorter, last);
      RunWalks(initial, shorter, id);
      StepWalks(RunAll(State([initial], map[]), shorter), shorter, last, id);
    }
  }

  /** What action `n` of a run tells about the walk of its agent; `history` is the word's, `k` how many indexes were passed before. */
  ghost predicate WalksAt(action: Action, history: seq<bv64>, k: nat, read: nat) {
    match action
    case Skip(_) => k < 64 && read < |history| && BitAt(history[read], k)
    case ClaimFails(_, seen) =>
      && k < 64 && read <= seen < |history|
      && !BitAt(history[read], k) && history[seen] != history[read]
    case Claim(_) => k < 64 && read < |history| && !BitAt(history[read], k)
    case GiveUp(_) => k == 64
    case _ => true
  }

  lemma ActionWalks(s: State, actions: seq<Action>, action: Action)
    requires s.history != [] && Enabled(s, action) && Walked(s, actions, action.agent)
    ensures WalksAt(action, s.history, Passed(actions, action.agent), LastRead(actions, action.agent))
  {
    hide Apply, Bit, Passed, LastRead, Numbered;
    if action.Skip? || action.ClaimFails? || action.Claim? || action.GiveUp? {
      IndexNumber(s.agents[action.agent].index, Passed(actions, action.agent));
    }
  }

  lemma ClaimOwns(s: State, actions: seq<Action>, action: Action)
    requires s.history != [] && Enabled(s, action) && Walked(s, actions, action.agent) && action.Claim?
    ensures Passed(actions, action.agent) < 64
    ensures OwnedBy(Apply(s, action), action.agent, Passed(actions, action.agent) as bv64)
  {
    hide Bit, WithBit, Passed, LastRead, Numbered;
    IndexNumber(s.agents[action.agent].index, Passed(actions, action.agent));
  }

  lemma WalksLater(action: Action, history: seq<bv64>, later: seq<bv64>, k: nat, read: nat)
    requires WalksAt(action, history, k, read) && history <= later
    ensures WalksAt(action, later, k, read)
  {
    hide BitAt;
  }

  /**
   In every run of any number of agents each search visits the indexes in
   order, one per step. It passes over index `k` only if the value it loaded
   last has that bit, or if it found the bit clear there and the exchange met
   another value. It claims index `k` after passing over exactly the `k` indexes
   below it, and gives up only after passing over all 64.
   */
  lemma EveryRunWalks(initial: bv64, actions: seq<Action>, n: nat)
    requires Legal(State([initial], map[]), actions) && n < |actions|
    ensures Legal(State([initial], map[]), actions[..n + 1])
    ensures
      var id, before, after := actions[n].agent, actions[..n], RunAll(State([initial], map[]), actions[..n + 1]);
      && WalksAt(actions[n], RunAll(State([initial], map[]), actions).history, Passed(before, id), LastRead(before, id))
      && (actions[n].Claim? ==> OwnedBy(after, id, Passed(before, id) as bv64))
  {
    hide Enabled, Apply, WalksAt, Bit, RunAll, Legal, Walked, OwnedBy;
    var start, before := State([initial], map[]), actions[..n];
    HistoryGrows(start, actions, n + 1);
    HistoryGrows(start, actions, n);
    assert actions[..n + 1] == before + [actions[n]];
    RunSnoc(start, before, actions[n]);
    RunWalks(initial, before, actions[n].agent);
    ActionWalks(RunAll(start, before), before, actions[n]);
    if actions[n].Claim? {
      ClaimOwns(RunAll(start, before), before, actions[n]);
    }
    WalksLater(actions[n], RunAll(start, before).history, RunAll(start, actions).history,
               Passed(before, actions[n].agent), LastRead(before, actions[n].agent));
  }

  /** In every reachable state the index of a live holder is the number of indexes its search passed over. */
  lemma EveryHolderWalked(initial: bv64, actions: seq<Action>, id: AgentId, index: bv64)
    requires Legal(State([initial], map[]), actions) && OwnedBy(RunAll(State([initial], map[]), actions), id, index)
    ensures index as nat == Passed(actions, id) < 64
  {
    hide Legal, RunAll, Passed;
    RunWalks(initial, actions, id);
    IndexNumber(index, Passed(actions, id));
  }

  // ------------------------------------------------------------ one agent alone

  ghost predicate Alone(actions: seq<Action>, id: AgentId) {
    forall m :: 0 <= m < |actions| ==> actions[m].agent == id
  }

  /** A lone search meets only the initial word. */
  ghost predicate Searching(initial: bv64, s: State, actions: seq<Action>, id: AgentId) {
    id in s.agents && s.agents[id].Scanning? ==>
      && s.history == [initial] && Passed(actions, id) <= 64
      && forall j: nat :: j < Passed(actions, id) ==> BitAt(initial, j)
  }

  lemma {:induction false} AloneSearches(initial: bv64, actions: seq<Action>, id: AgentId)
    requires Legal(State([initial], map[]), actions) && Alone(actions, id)
    ensures Searching(initial, RunAll(State([initial], map[]), actions), actions, id)
    ensures actions == [] ==> RunAll(State([initial], map[]), actions) == State([initial], map[])
    ensures id !in RunAll(State([initial], map[]), actions).agents ==> RunAll(State([initial], map[]), actions).history == [initial]
    decreases |actions|
  {
    hide Enabled, Apply, Bit;
    if actions != [] {
      var start, shorter, last := State([initial], map[]), actions[..|actions| - 1], actions[|actions| - 1];
      assert actions == shorter + [last];
      RunSnoc(start, shorter, last);
      AloneSearches(initial, shorter, id);
      RunWalks(initial, shorter, id);
      assert last.agent == id;
      SearchStep(initial, RunAll(start, shorter), shorter, last, id);
    }
  }

  lemma SearchStep(initial: bv64, s: State, actions: seq<Action>, action: Action, id: AgentId)
    requires s.history != [] && Enabled(s, action) && action.agent == id
    requires Walked(s, actions, id) && Searching(initial, s, actions, id)
    requires id !in s.agents ==> s.history == [initial]
    ensures Searching(initial, Apply(s, action), actions + [action], id)
    ensures id in Apply(s, action).agents
  {
    hide BitAt, Bit, WithBit, WithoutBit, Passed, LastRead, Numbered;
    SnocReads(actions, action, id);
    ActionWalks(s, actions, action);
  }

  /**
   Without interference the search takes the lowest free index, and gives up
   only if all are taken: what `Allocator.TryNew` does in one go.
   */
  lemma AloneTakesLowest(initial: bv64, actions: seq<Action>, action: Action, id: AgentId)
    requires Legal(State([initial], map[]), actions + [action]) && Alone(actions + [action], id)
    ensures action.Claim? ==>
              && Passed(actions, id) < 64 && !BitAt(initial, Passed(actions, id))
              && (forall j: nat :: j < Passed(actions, id) ==> BitAt(initial, j))
              && OwnedBy(RunAll(State([initial], map[]), actions + [action]), id, Passed(actions, id) as bv64)
    ensures action.GiveUp? ==> forall j: nat :: j < 64 ==> BitAt(initial, j)
    ensures !action.ClaimFails?
  {
    hide Apply, BitAt, Bit, WithBit, WithoutBit, Passed, LastRead, OwnedBy, Legal, RunAll, Numbered;
    var start := State([initial], map[]);
    RunSnoc(start, actions, action);
    assert (actions + [action])[|actions|].agent == id;
    assert Alone(actions, id) by {
      assert forall m :: 0 <= m < |actions| ==> (actions + [action])[m] == actions[m];
    }
    RunWalks(initial, actions, id);
    AloneSearches(initial, actions, id);
    ActionWalks(RunAll(start, actions), actions, action);
    if action.Claim? {
      ClaimOwns(RunAll(start, actions), actions, action);
    }
  }

  /** No interleaving blocks an agent: until it is finished it can always take a step of its own. */
  lemma NeverStuck(initial: bv64, actions: seq<Action>, id: AgentId) returns (next: Action)
    requires Legal(State([initial], map[]), actions)
    requires var s := RunAll(State([initial], map[]), actions); id in s.agents && !s.agents[id].Finished?
    ensures next.agent == id && Enabled(RunAll(State([initial], map[]), actions), next)
  {
    hide Legal, RunAll, Bit, Exclusive, BitsMatch;
    InitialInv(initial);
    RunKeeps(initial, State([initial], map[]), actions);
    var s := RunAll(State([initial], map[]), actions);
    var newest := |s.history| - 1;
    OwnGood(initial, s, id);
    match s.agents[id]
    case Scanning(index, bitset, _) =>
      next := if index == 64 then GiveUp(id)
              else if Bit(bitset, index) then Skip(id)
              else if Current(s) == bitset then Claim(id)
              else ClaimFails(id, newest);
    case Holding(_, _) => next := Release(id);
    case Dropping(_, _) => next := DropLoad(id, newest);
    case Clearing(_, current, _) => next := if Current(s) == current then Clear(id) else ClearFails(id);
  }

  /** Index `i` is the bit of weight `2^i`, counted from the low end of the word. */
  lemma BitIsShift(w: bv64, i: bv64)
    requires i < 64
    ensures Bit(w, i) <==> (w >> i) & 1 == 1
  {
  }
}
