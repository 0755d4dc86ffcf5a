/** Allocation of a whole control flow graph: the stacks agree on every edge, and running the
rewritten blocks along any path has the effects of the original blocks. */
module Graph {
  import opened Stacks
  import opened Options
  import opened Lir
  import opened X87
  import opened AllocSpec
  import opened Simulation
  import opened Shuffle
  import opened StackSim
  import opened StackMerge
  import opened Allocator
  import opened BlockSim
  import opened Handlers
  import opened Raising

  /** Operation `at` may raise an exception, which leads by the given moves to the block `target`. */
  datatype Throw = Throw(at: nat, moves: Option<seq<Op>>, target: nat)

  /** `live` are the FPU registers with a value at the start of the block. `isEntry` marks the
      blocks that start with an empty stack: method entry and exception entries. */
  datatype Block = Block(ops: seq<Op>, suxs: seq<nat>, preds: seq<nat>, live: set<int>, isEntry: bool,
                         throws: seq<Throw>)

  /** A rewritten block, with the entry code for each of its exceptions. */
  datatype BlockCode = BlockCode(code: seq<Op>, entries: seq<HandlerEntry>)

  /** `exact` is ComputeExactFPURegisterUsage: the live sets of blocks with several
      predecessors are used to drop dead values. */
  datatype Cfg = Cfg(blocks: seq<Block>, exact: bool)

  // ----- well-formed graphs -----

  predicate IsBlockBranch(op: Op) { op.OpBranch? && op.toBlock }

  /** No FPU operation follows the first branch to a successor, and only blocks with several
      successors branch conditionally to one. */
  ghost predicate BranchesOk(b: Block) {
    && (forall i, j :: 0 <= i < j < |b.ops| && IsBlockBranch(b.ops[i]) ==> Neutral(b.ops[j]))
    && (forall i :: 0 <= i < |b.ops| && IsBlockBranch(b.ops[i]) && !b.ops[i].always ==> |b.suxs| > 1)
  }

  /** Every edge is recorded at both ends, and critical edges are split. */
  ghost predicate EdgesOk(g: Cfg) {
    && (forall b, s :: 0 <= b < |g.blocks| && s in g.blocks[b].suxs ==> s < |g.blocks| && b in g.blocks[s].preds)
    && (forall b, s :: 0 <= b < |g.blocks| && 0 <= s < |g.blocks| && b in g.blocks[s].preds ==> s in g.blocks[b].suxs)
    && (forall b, s :: 0 <= b < |g.blocks| && 0 <= s < |g.blocks| && s in g.blocks[b].suxs && !NeedsMerge(g, b) ==>
          forall q :: q in g.blocks[s].preds ==> q == b)
  }

  /** A block with predecessors comes after one of them; the others are entries. */
  ghost predicate OrderOk(g: Cfg) {
    forall b :: 0 <= b < |g.blocks| ==>
      if g.blocks[b].preds == [] then g.blocks[b].isEntry && g.blocks[b].live == {}
      else exists q :: q in g.blocks[b].preds && q < b
  }

  /** Register allocation: every operation finds its operands live, and what a successor needs
      is live at the end. */
  ghost predicate LivenessOk(g: Cfg) {
    forall b :: 0 <= b < |g.blocks| ==>
      && OpsOk(g.blocks[b].ops, g.blocks[b].live)
      && forall s :: s in g.blocks[b].suxs && s < |g.blocks| ==>
           g.blocks[s].live <= LiveAfterAll(g.blocks[b].ops, g.blocks[b].live)
  }

  /** Operations raise before the first branch to a successor. Entry code reads what is live at the
      operation and loads no FPU register, and handlers are entered by exceptions only. */
  ghost predicate ThrowsOk(g: Cfg, b: Block) {
    forall i :: 0 <= i < |b.throws| ==>
      && EntryOk(Head(b), b.live, b.throws[i].at, b.throws[i].moves)
      && b.throws[i].target < |g.blocks| && g.blocks[b.throws[i].target].preds == []
  }

  ghost predicate WfCfg(g: Cfg) {
    && EdgesOk(g) && OrderOk(g) && LivenessOk(g)
    && (forall b :: 0 <= b < |g.blocks| ==> ThrowsOk(g, g.blocks[b]))
    && forall b :: 0 <= b < |g.blocks| ==> BranchesOk(g.blocks[b])
  }

  /** The only successor has other predecessors. */
  predicate NeedsMerge(g: Cfg, b: int)
    requires 0 <= b < |g.blocks|
  {
    var suxs := g.blocks[b].suxs;
    |suxs| == 1 && suxs[0] < |g.blocks| && |g.blocks[suxs[0]].preds| > 1
  }

  // ----- recorded states -----

  type States = seq<Option<seq<int>>>

  ghost function Entry(states: States, b: int): seq<int>
    requires 0 <= b < |states| && (states[b].Some? ==> IsState(states[b].value))
  {
    if states[b].Some? then StateStack(states[b].value) else []
  }

  /** A recorded state covers what is live; with exact usage a merge state has nothing else. */
  ghost predicate StateOk(g: Cfg, s: int, state: Option<seq<int>>)
    requires 0 <= s < |g.blocks|
  {
    state.Some? ==>
      && IsState(state.value)
      && Covers(StateStack(state.value), g.blocks[s].live)
      && (g.exact && IsMergeBlock(g, s) ==> forall r :: r in StateStack(state.value) ==> r in g.blocks[s].live)
  }

  /** A block entered from different blocks. */
  ghost predicate IsMergeBlock(g: Cfg, s: int)
    requires 0 <= s < |g.blocks|
  {
    exists b :: 0 <= b < |g.blocks| && s in g.blocks[b].suxs && NeedsMerge(g, b)
  }

  ghost predicate StatesOk(g: Cfg, states: States)
    requires |states| == |g.blocks|
  {
    forall s :: 0 <= s < |states| ==> StateOk(g, s, states[s])
  }

  /** States are only ever added, never changed. */
  ghost predicate OnlyAdded(states: States, states': States) {
    && |states'| == |states|
    && forall s :: 0 <= s < |states| && states[s].Some? ==> states'[s] == states[s]
  }

  /** Every successor of `b` has the recorded state `exit`; only successors were recorded. */
  ghost predicate Recorded(g: Cfg, b: int, states: States, states': States, exit: seq<int>)
    requires 0 <= b < |g.blocks|
  {
    && |states'| == |g.blocks| && StatesOk(g, states') && OnlyAdded(states, states')
    && (forall s :: s in g.blocks[b].suxs && 0 <= s < |states'| ==> states'[s].Some? && Entry(states', s) == exit)
    && (forall s :: 0 <= s < |states'| && states'[s].Some? && states[s].None? ==> s in g.blocks[b].suxs)
  }

  // ----- leaving a block -----

  /** With exact usage the stack at the end of a predecessor is at least as deep as the
      recorded one. */
  lemma DeepEnough(g: Cfg, states: States, s: int, stack: seq<int>)
    requires 0 <= s < |states| == |g.blocks| && states[s].Some? && StateOk(g, s, states[s])
    requires g.exact && IsMergeBlock(g, s) && Covers(stack, g.blocks[s].live)
    ensures |StateStack(states[s].value)| <= |stack|
  {
    Pigeonhole(StateStack(states[s].value), stack);
  }

  lemma CarriesNothing(stack: seq<int>)
    requires WfStack(stack)
    ensures Carries([], stack, stack)
  {
    assert Tracks(stack, stack, stack, [], Positions(|stack|));
    TrackDone(stack, stack, [], Positions(|stack|));
  }

  lemma RecordedOnly(g: Cfg, b: int, states: States, state: seq<int>)
    requires 0 <= b < |g.blocks| && NeedsMerge(g, b) && |states| == |g.blocks| && StatesOk(g, states)
    requires var s := g.blocks[b].suxs[0]; StateOk(g, s, Some(state)) && (states[s].Some? ==> states[s] == Some(state))
    ensures var s := g.blocks[b].suxs[0]; Recorded(g, b, states, states[s := Some(state)], StateStack(state))
  {
    assert forall x :: x in g.blocks[b].suxs ==> x == g.blocks[b].suxs[0];
  }

  lemma StateOkAt(g: Cfg, states: States, s: int)
    requires |states| == |g.blocks| && StatesOk(g, states) && 0 <= s < |states| && states[s].Some?
    ensures StateOk(g, s, states[s])
  {
  }

  /** Fits the stack to the only successor: merges into its recorded state, or records the
      cleaned-up stack. */
  method MergeIntoSuccessor(g: Cfg, b: int, alloc: FpuStackAllocator, states0: States)
    returns (instrs: seq<Op>, states: States)
    requires WfCfg(g) && 0 <= b < |g.blocks| && NeedsMerge(g, b) && |states0| == |g.blocks| && StatesOk(g, states0)
    requires alloc.Valid() && Covers(alloc.sim.Contents(), g.blocks[g.blocks[b].suxs[0]].live)
    modifies alloc.sim, alloc.sim.regs, alloc.tempSim, alloc.tempSim.regs
    ensures alloc.Valid() && Recorded(g, b, states0, states, alloc.sim.Contents())
    ensures Covers(alloc.sim.Contents(), g.blocks[g.blocks[b].suxs[0]].live)
    ensures Carries(instrs, old(alloc.sim.Contents()), alloc.sim.Contents())
    ensures states0[g.blocks[b].suxs[0]].None? && !g.exact ==>
              instrs == [] && alloc.sim.Contents() == old(alloc.sim.Contents())
  {
    hide Carries, Recorded, StatesOk, WfCfg;
    var s := g.blocks[b].suxs[0];
    assert IsMergeBlock(g, s);
    states := states0;
    if states[s].Some? {
      StateOkAt(g, states, s);
      alloc.tempSim.ReadState(states[s].value);
      if g.exact {
        DeepEnough(g, states, s, alloc.sim.Contents());
      }
      instrs := MergeFpuStack(g.exact, alloc.sim, alloc.tempSim);
      RecordedOnly(g, b, states, states[s].value);
      assert states[s := states[s]] == states;
    } else {
      instrs := [];
      if g.exact {
        instrs := MergeCleanup(alloc.sim, g.blocks[s].live);
      } else {
        CarriesNothing(alloc.sim.Contents());
      }
      var state := alloc.sim.WriteState();
      RecordedOnly(g, b, states, state);
      states := states[s := Some(state)];
    }
  }

  /** Some successors of `b` have the state, and nothing else was recorded. */
  ghost predicate Propagated(g: Cfg, b: int, states0: States, states: States, state: seq<int>, n: int)
    requires 0 <= b < |g.blocks| && 0 <= n <= |g.blocks[b].suxs|
  {
    var suxs := g.blocks[b].suxs;
    && OnlyAdded(states0, states) && |states| == |g.blocks| && StatesOk(g, states)
    && (forall j :: 0 <= j < n && 0 <= suxs[j] < |states| ==> states[suxs[j]] == Some(state))
    && (forall s :: 0 <= s < |states| && states[s] != states0[s] ==> s in suxs && states[s] == Some(state))
  }

  lemma PropagateStep(g: Cfg, b: int, states0: States, states: States, state: seq<int>, n: int)
    requires WfCfg(g) && 0 <= b < |g.blocks| && 0 <= n < |g.blocks[b].suxs| && !NeedsMerge(g, b)
    requires Propagated(g, b, states0, states, state, n) && |states0| == |states|
    requires g.blocks[b].suxs[n] < |g.blocks| && states0[g.blocks[b].suxs[n]].None?
    requires IsState(state) && Covers(StateStack(state), g.blocks[g.blocks[b].suxs[n]].live)
    ensures Propagated(g, b, states0, states[g.blocks[b].suxs[n] := Some(state)], state, n + 1)
  {
    hide Covers, StateStack, IsState;
    var s := g.blocks[b].suxs[n];
    SoleMerge(g, b, s);
    hide WfCfg;
    assert StateOk(g, s, Some(state));
  }

  /** Records the unchanged stack for every successor. */
  method PropagateState(g: Cfg, b: int, alloc: FpuStackAllocator, states0: States) returns (states: States)
    requires WfCfg(g) && 0 <= b < |g.blocks| && !NeedsMerge(g, b) && |states0| == |g.blocks| && StatesOk(g, states0)
    requires alloc.Valid() && WfStack(alloc.sim.Contents())
    requires forall s :: s in g.blocks[b].suxs && 0 <= s < |states0| ==>
               states0[s].None? && Covers(alloc.sim.Contents(), g.blocks[s].live)
    ensures Recorded(g, b, states0, states, alloc.sim.Contents())
  {
    hide StatesOk, Covers, IsState, StateStack;
    var state := alloc.sim.WriteState();
    states := states0;
    var suxs := g.blocks[b].suxs;
    for i := 0 to |suxs|
      invariant Propagated(g, b, states0, states, state, i)
    {
      SoleMerge(g, b, suxs[i]);
      PropagateStep(g, b, states0, states, state, i);
      states := states[suxs[i] := Some(state)];
    }
  }

  /** A successor reached without a merge is reached from this block only. */
  lemma SoleMerge(g: Cfg, b: int, s: int)
    requires WfCfg(g) && 0 <= b < |g.blocks| && s in g.blocks[b].suxs && !NeedsMerge(g, b)
    ensures 0 <= s < |g.blocks| && !IsMergeBlock(g, s)
  {
    assert b in g.blocks[s].preds;
    forall q | 0 <= q < |g.blocks| && s in g.blocks[q].suxs
      ensures !NeedsMerge(g, q)
    {
      assert q in g.blocks[s].preds;
    }
  }

  /** What leaving block `b` needs: the stack covers what its successors read, and a successor
      that needs no merge was not reached before. */
  ghost predicate CanLeave(g: Cfg, b: int, states: States, stack: seq<int>)
    requires 0 <= b < |g.blocks| == |states|
  {
    && WfStack(stack)
    && forall s :: s in g.blocks[b].suxs && 0 <= s < |states| ==>
         && Covers(stack, g.blocks[s].live)
         && (!NeedsMerge(g, b) ==> states[s].None?)
  }

  /** Makes the stack agree with the recorded state of every successor, recording it where
      there is none. `changed` tells whether code was inserted. */
  method MergeWithSuccessors(g: Cfg, b: int, alloc: FpuStackAllocator, states0: States)
    returns (changed: bool, states: States, ghost instrs: seq<Op>)
    requires WfCfg(g) && 0 <= b < |g.blocks| == |states0| && StatesOk(g, states0)
    requires alloc.Valid() && CanLeave(g, b, states0, alloc.sim.Contents())
    modifies alloc, alloc.sim, alloc.sim.regs, alloc.tempSim, alloc.tempSim.regs
    ensures alloc.Valid() && WfStack(alloc.sim.Contents()) && Recorded(g, b, states0, states, alloc.sim.Contents())
    ensures Carries(instrs, old(alloc.sim.Contents()), alloc.sim.Contents())
    ensures NeedsMerge(g, b) ==> Covers(alloc.sim.Contents(), g.blocks[g.blocks[b].suxs[0]].live)
    ensures !NeedsMerge(g, b) ==> alloc.sim.Contents() == old(alloc.sim.Contents())
    ensures alloc.State().done == old(alloc.State().done) + instrs && alloc.Todo() == old(alloc.Todo())
    ensures (changed <==> instrs != []) && (changed ==> |g.blocks[b].suxs| == 1)
  {
    hide Carries, Recorded, StatesOk, WfCfg;
    changed := false;
    if NeedsMerge(g, b) {
      var code;
      code, states := MergeIntoSuccessor(g, b, alloc, states0);
      instrs := code;
      if |code| > 0 {
        alloc.lir := alloc.lir[..alloc.pos] + code + alloc.lir[alloc.pos..];
        alloc.pos := alloc.pos + |code|;
        changed := true;
        assert alloc.lir[..alloc.pos] == old(alloc.lir[..alloc.pos]) + code;
        assert alloc.lir[alloc.pos..] == old(alloc.lir[alloc.pos..]);
      } else {
        assert old(alloc.lir[..alloc.pos]) + [] == old(alloc.lir[..alloc.pos]);
      }
    } else {
      instrs := [];
      CarriesNothing(alloc.sim.Contents());
      states := PropagateState(g, b, alloc, states0);
      assert old(alloc.lir[..alloc.pos]) + [] == old(alloc.lir[..alloc.pos]);
    }
  }

  // ----- one block -----

  /** Position of the first branch to a successor, or the length. */
  function FirstBranch(ops: seq<Op>, i: int): (k: int)
    requires 0 <= i <= |ops|
    ensures i <= k <= |ops| && (k < |ops| ==> IsBlockBranch(ops[k]))
    ensures forall j :: i <= j < k ==> !IsBlockBranch(ops[j])
    decreases |ops| - i
  {
    if i == |ops| || IsBlockBranch(ops[i]) then i else FirstBranch(ops, i + 1)
  }

  function Head(b: Block): seq<Op> {
    b.ops[..FirstBranch(b.ops, 0)]
  }

  function Tail(b: Block): seq<Op> {
    b.ops[FirstBranch(b.ops, 0)..]
  }

  lemma {:induction false} NeutralLive(ops: seq<Op>, live: set<int>)
    requires AllNeutral(ops) && OpsOk(ops, live)
    ensures LiveAfterAll(ops, live) == live
    decreases ops
  {
    if ops != [] {
      NeutralLive(ops[1..], live);
    }
  }

  /** The operations before the first branch decide what is live at the end. */
  lemma HeadTail(g: Cfg, b: int)
    requires WfCfg(g) && 0 <= b < |g.blocks|
    ensures var blk := g.blocks[b];
            && OpsOk(Head(blk), blk.live) && AllNeutral(Tail(blk))
            && LiveAfterAll(Head(blk), blk.live) == LiveAfterAll(blk.ops, blk.live)
  {
    var blk := g.blocks[b];
    var k := FirstBranch(blk.ops, 0);
    OpsOkSplit(blk.ops, k, blk.live);
    assert BranchesOk(blk);
    forall i | 0 <= i < |Tail(blk)|
      ensures Neutral(Tail(blk)[i])
    {
      assert Tail(blk)[i] == blk.ops[k + i];
    }
    NeutralLive(Tail(blk), LiveAfterAll(Head(blk), blk.live));
  }

  /** The registers whose values a block hands on. */
  function Keep(g: Cfg, b: int): set<int>
    requires 0 <= b < |g.blocks| && OpsOk(g.blocks[b].ops, g.blocks[b].live)
  {
    if NeedsMerge(g, b) then g.blocks[g.blocks[b].suxs[0]].live
    else LiveAfterAll(g.blocks[b].ops, g.blocks[b].live)
  }

  /** Before the first branch: the first `k` operations are handled. */
  ghost predicate Heading(blk: Block, entry: seq<int>, k: int, st: Alloc, todo: seq<Op>) {
    && Covers(entry, blk.live) && OpsOk(blk.ops, blk.live)
    && 0 <= k <= FirstBranch(blk.ops, 0) && todo == blk.ops[k..]
    && OpsOk(blk.ops[..k], blk.live) && st == HandleAll(Alloc(entry, []), blk.ops[..k], blk.live)
  }

  /** After it: `merge` stands between the head and what was passed of the tail. */
  ghost predicate Tailing(g: Cfg, b: int, entry: seq<int>, k: int, merge: seq<Op>, st: Alloc, todo: seq<Op>)
    requires 0 <= b < |g.blocks|
  {
    var blk := g.blocks[b];
    && FirstBranch(blk.ops, 0) <= k <= |blk.ops| && todo == blk.ops[k..]
    && WfStack(st.stack) && Covers(entry, blk.live) && OpsOk(Head(blk), blk.live)
    && var a := HandleAll(Alloc(entry, []), Head(blk), blk.live);
       && st.done == a.done + merge + blk.ops[FirstBranch(blk.ops, 0)..k]
       && Carries(merge, a.stack, st.stack)
       && (if NeedsMerge(g, b) then Covers(st.stack, g.blocks[blk.suxs[0]].live) else st.stack == a.stack)
  }

  lemma HeadingStarts(blk: Block, entry: seq<int>)
    requires Covers(entry, blk.live) && OpsOk(blk.ops, blk.live)
    ensures Heading(blk, entry, 0, Alloc(entry, []), blk.ops)
  {
    assert blk.ops[..0] == [] && blk.ops[0..] == blk.ops;
  }

  lemma HeadingStep(blk: Block, entry: seq<int>, k: int, st: Alloc, todo: seq<Op>)
    requires Heading(blk, entry, k, st, todo) && todo != [] && !IsBlockBranch(todo[0])
    ensures WfStack(st.stack) && OpOk(todo[0], Elements(st.stack))
    ensures k < |blk.ops| && Heading(blk, entry, k + 1, HandleOp(st, todo[0]), todo[1..])
  {
    HandleNext(Alloc(entry, []), blk.ops, k, blk.live);
  }

  /** At the first branch, or at the end, the stack covers what the successors read. */
  lemma HeadingEnds(g: Cfg, b: int, states: States, entry: seq<int>, k: int, st: Alloc, todo: seq<Op>)
    requires WfCfg(g) && 0 <= b < |g.blocks| == |states|
    requires Heading(g.blocks[b], entry, k, st, todo) && (todo != [] ==> IsBlockBranch(todo[0]))
    requires forall s :: s in g.blocks[b].suxs && 0 <= s < |states| && !NeedsMerge(g, b) ==> states[s].None?
    ensures k == FirstBranch(g.blocks[b].ops, 0)
    ensures OpsOk(Head(g.blocks[b]), g.blocks[b].live)
    ensures st == HandleAll(Alloc(entry, []), Head(g.blocks[b]), g.blocks[b].live)
    ensures CanLeave(g, b, states, st.stack)
  {
    HeadTail(g, b);
    assert k < |g.blocks[b].ops| ==> todo[0] == g.blocks[b].ops[k];
  }

  lemma TailingStarts(g: Cfg, b: int, entry: seq<int>, a: Alloc, merge: seq<Op>, st: Alloc, todo: seq<Op>)
    requires 0 <= b < |g.blocks| && Covers(entry, g.blocks[b].live) && OpsOk(Head(g.blocks[b]), g.blocks[b].live)
    requires a == HandleAll(Alloc(entry, []), Head(g.blocks[b]), g.blocks[b].live)
    requires WfStack(st.stack) && st.done == a.done + merge && Carries(merge, a.stack, st.stack)
    requires if NeedsMerge(g, b) then Covers(st.stack, g.blocks[g.blocks[b].suxs[0]].live) else st.stack == a.stack
    requires todo == Tail(g.blocks[b])
    ensures Tailing(g, b, entry, FirstBranch(g.blocks[b].ops, 0), merge, st, todo)
  {
    var kb := FirstBranch(g.blocks[b].ops, 0);
    assert g.blocks[b].ops[kb..kb] == [];
    assert a.done + merge + [] == a.done + merge;
  }

  lemma TailingStep(g: Cfg, b: int, entry: seq<int>, k: int, merge: seq<Op>, st: Alloc, todo: seq<Op>)
    requires WfCfg(g) && 0 <= b < |g.blocks| && Tailing(g, b, entry, k, merge, st, todo) && todo != []
    ensures WfStack(st.stack) && OpOk(todo[0], Elements(st.stack)) && HandleOp(st, todo[0]).stack == st.stack
    ensures k < |g.blocks[b].ops| && Tailing(g, b, entry, k + 1, merge, HandleOp(st, todo[0]), todo[1..])
  {
    var blk := g.blocks[b];
    var kb := FirstBranch(blk.ops, 0);
    HeadTail(g, b);
    assert Tail(blk)[k - kb] == todo[0];
    assert blk.ops[kb..k] + [todo[0]] == blk.ops[kb..k + 1];
    var a := HandleAll(Alloc(entry, []), Head(blk), blk.live);
    assert a.done + merge + blk.ops[kb..k] + [todo[0]] == a.done + merge + blk.ops[kb..k + 1];
  }

  /** The finished block. */
  ghost predicate Rewrites(g: Cfg, b: int, entry: seq<int>, merge: seq<Op>, code: seq<Op>, exit: seq<int>)
    requires 0 <= b < |g.blocks|
  {
    var blk := g.blocks[b];
    && Covers(entry, blk.live) && OpsOk(Head(blk), blk.live) && WfStack(exit)
    && var a := HandleAll(Alloc(entry, []), Head(blk), blk.live);
       && code == a.done + merge + Tail(blk)
       && Carries(merge, a.stack, exit)
       && (if NeedsMerge(g, b) then Covers(exit, g.blocks[blk.suxs[0]].live) else exit == a.stack)
  }

  lemma TailingEnds(g: Cfg, b: int, entry: seq<int>, k: int, merge: seq<Op>, st: Alloc, todo: seq<Op>)
    requires 0 <= b < |g.blocks| && Tailing(g, b, entry, k, merge, st, todo) && todo == []
    ensures Rewrites(g, b, entry, merge, st.done, st.stack)
  {
    assert g.blocks[b].ops[FirstBranch(g.blocks[b].ops, 0)..k] == Tail(g.blocks[b]);
  }

  // ----- exception handlers of a block -----

  /** The entries of exceptions raised before operation `k`. */
  ghost predicate EntriesDone(b: Block, entry: seq<int>, entries: seq<HandlerEntry>, k: int)
    requires Covers(entry, b.live)
  {
    && |entries| == |b.throws|
    && forall i :: 0 <= i < |entries| && b.throws[i].at < k
                   && EntryOk(Head(b), b.live, b.throws[i].at, b.throws[i].moves) ==>
         entries[i] == EntryFor(Head(b), b.live, entry, b.throws[i].at, b.throws[i].moves)
  }

  /** Allocates the handlers of the operation just handled, from the stack recorded for it. */
  method AllocateHandlers(g: Cfg, b: int, alloc: FpuStackAllocator, k: nat, entries0: seq<HandlerEntry>,
                          ghost entry: seq<int>)
    returns (entries: seq<HandlerEntry>)
    requires WfCfg(g) && 0 <= b < |g.blocks| && alloc.Valid() && alloc.pos > 0
    requires RaiseOk(Head(g.blocks[b]), g.blocks[b].live, entry, k)
    requires EntriesDone(g.blocks[b], entry, entries0, k)
    requires alloc.InfoIs(RaiseAlloc(Head(g.blocks[b]), g.blocks[b].live, entry, k).stack)
    requires alloc.lir[..alloc.pos] == DoneAt(Head(g.blocks[b]), g.blocks[b].live, entry, k + 1)
    modifies alloc, alloc.sim, alloc.sim.regs
    ensures alloc.Valid() && alloc.sim.Contents() == old(alloc.sim.Contents())
    ensures alloc.lir == old(alloc.lir) && alloc.pos == old(alloc.pos)
    ensures EntriesDone(g.blocks[b], entry, entries, k + 1)
  {
    hide WfCfg, RaiseAlloc, EntryCode, EntryOk, EntryFor;
    var throws := g.blocks[b].throws;
    var now := alloc.sim.WriteState();
    alloc.sim.ReadState(alloc.info.value);
    entries := entries0;
    for i := 0 to |throws|
      invariant alloc.Valid() && alloc.lir == old(alloc.lir) && alloc.pos == old(alloc.pos)
      invariant alloc.sim.Contents() == RaiseAlloc(Head(g.blocks[b]), g.blocks[b].live, entry, k).stack
      invariant |entries| == |throws|
      invariant forall j :: 0 <= j < |throws| && (j >= i || throws[j].at != k) ==> entries[j] == entries0[j]
      invariant forall j :: 0 <= j < i && throws[j].at == k
                            && EntryOk(Head(g.blocks[b]), g.blocks[b].live, k, throws[j].moves) ==>
        entries[j] == EntryFor(Head(g.blocks[b]), g.blocks[b].live, entry, k, throws[j].moves)
    {
      if throws[i].at == k {
        ThrowMoves(g, b, entry, i);
        var code := AllocateExceptionHandler(alloc, throws[i].moves, RaiseLive(Head(g.blocks[b]), g.blocks[b].live, k));
        entries := entries[i := HandlerEntry(alloc.pos - 1, code)];
      }
    }
    alloc.sim.ReadState(now);
  }

  ghost function DoneAt(ops: seq<Op>, live: set<int>, entry: seq<int>, k: int): seq<Op>
    requires Covers(entry, live) && OpsOk(ops, live) && 0 <= k <= |ops|
  {
    OpsOkSplit(ops, k, live);
    HandleAll(Alloc(entry, []), ops[..k], live).done
  }

  lemma ThrowMoves(g: Cfg, b: int, entry: seq<int>, i: int)
    requires WfCfg(g) && 0 <= b < |g.blocks| && 0 <= i < |g.blocks[b].throws|
    requires var t := g.blocks[b].throws[i]; RaiseOk(Head(g.blocks[b]), g.blocks[b].live, entry, t.at)
    ensures var blk, t := g.blocks[b], g.blocks[b].throws[i];
      var stack := RaiseAlloc(Head(blk), blk.live, entry, t.at).stack;
      && EntryOk(Head(blk), blk.live, t.at, t.moves)
      && MovesOk(MovesOf(t.moves), stack, RaiseLive(Head(blk), blk.live, t.at))
      && EntryFor(Head(blk), blk.live, entry, t.at, t.moves)
         == HandlerEntry(|DoneAt(Head(blk), blk.live, entry, t.at + 1)| - 1,
                         EntryCode(stack, t.moves, RaiseLive(Head(blk), blk.live, t.at)))
  {
    hide RaiseAlloc, RaiseLive, EntryCode, HandleAll;
    assert ThrowsOk(g, g.blocks[b]);
    RaiseAllocCovers(Head(g.blocks[b]), g.blocks[b].live, entry, g.blocks[b].throws[i].at);
  }

  /** Rewrites one block: its operations in order, with the stack fitted to the successors at
      the first branch to one of them, or at the end. Exception handlers are allocated at the
      operations that raise. */
  method AllocateBlock(g: Cfg, b: int, alloc: FpuStackAllocator, states0: States)
    returns (states: States, entries: seq<HandlerEntry>, ghost merge: seq<Op>)
    requires WfCfg(g) && 0 <= b < |g.blocks| == |states0| && StatesOk(g, states0)
    requires alloc.Valid() && Covers(alloc.sim.Contents(), g.blocks[b].live)
    requires forall s :: s in g.blocks[b].suxs && 0 <= s < |states0| && !NeedsMerge(g, b) ==> states0[s].None?
    modifies alloc, alloc.sim, alloc.sim.regs, alloc.tempSim, alloc.tempSim.regs
    ensures alloc.Valid() && Recorded(g, b, states0, states, alloc.sim.Contents())
    ensures Rewrites(g, b, old(alloc.sim.Contents()), merge, alloc.lir, alloc.sim.Contents())
    ensures EntriesDone(g.blocks[b], old(alloc.sim.Contents()), entries, |Head(g.blocks[b])|)
  {
    hide Carries, Recorded, Rewrites, StatesOk, WfCfg, HandleAll, FirstBranch, Heading, Tailing, OpOk, HandleOp;
    hide EntriesDone;
    ghost var entry := alloc.sim.Contents();
    alloc.lir, alloc.pos := g.blocks[b].ops, 0;
    states, merge := states0, [];
    var processed, k := false, 0;
    entries := seq(|g.blocks[b].throws|, _ => HandlerEntry(0, None));
    BlockStarts(g, b, entry, entries);
    assert alloc.lir[..0] == [] && alloc.lir[0..] == alloc.lir;
    while alloc.pos < |alloc.lir|
      invariant alloc.Valid()
      invariant !processed ==> states == states0 && Heading(g.blocks[b], entry, k, alloc.State(), alloc.Todo())
      invariant !processed ==> EntriesDone(g.blocks[b], entry, entries, k)
      invariant processed ==> Tailing(g, b, entry, k, merge, alloc.State(), alloc.Todo())
      invariant processed ==> Recorded(g, b, states0, states, alloc.sim.Contents())
      invariant processed ==> EntriesDone(g.blocks[b], entry, entries, |Head(g.blocks[b])|)
      decreases |alloc.Todo()|
    {
      var op := alloc.lir[alloc.pos];
      assert op == alloc.Todo()[0];
      if IsBlockBranch(op) && !processed {
        processed := true;
        HeadLength(g.blocks[b], entry, k, alloc.State(), alloc.Todo());
        states, merge := LeaveBlock(g, b, alloc, states0, op, entry, k);
      }
      if processed {
        TailingStep(g, b, entry, k, merge, alloc.State(), alloc.Todo());
        alloc.HandleCurrent();
      } else {
        entries := HandleHead(g, b, alloc, k, entries, entry);
      }
      k := k + 1;
    }
    if !processed {
      HeadLength(g.blocks[b], entry, k, alloc.State(), alloc.Todo());
      states, merge := LeaveBlock(g, b, alloc, states0, OpBranch(true, true), entry, k);
    }
    assert alloc.lir[..alloc.pos] == alloc.lir;
    TailingEnds(g, b, entry, k, merge, alloc.State(), alloc.Todo());
  }

  lemma BlockStarts(g: Cfg, b: int, entry: seq<int>, entries: seq<HandlerEntry>)
    requires WfCfg(g) && 0 <= b < |g.blocks| && Covers(entry, g.blocks[b].live)
    requires |entries| == |g.blocks[b].throws|
    ensures Heading(g.blocks[b], entry, 0, Alloc(entry, []), g.blocks[b].ops)
    ensures EntriesDone(g.blocks[b], entry, entries, 0)
  {
    hide Heading, FirstBranch, EntryOk;
    HeadingStarts(g.blocks[b], entry);
  }

  lemma HeadLength(blk: Block, entry: seq<int>, k: int, st: Alloc, todo: seq<Op>)
    requires Heading(blk, entry, k, st, todo) && (todo != [] ==> IsBlockBranch(todo[0]))
    ensures k == |Head(blk)| == FirstBranch(blk.ops, 0)
  {
    assert k < |blk.ops| ==> todo[0] == blk.ops[k];
  }

  /** One operation before the first branch, and its exception handlers. */
  method HandleHead(g: Cfg, b: int, alloc: FpuStackAllocator, k: nat, entries0: seq<HandlerEntry>,
                    ghost entry: seq<int>)
    returns (entries: seq<HandlerEntry>)
    requires WfCfg(g) && 0 <= b < |g.blocks| && alloc.Valid()
    requires Heading(g.blocks[b], entry, k, alloc.State(), alloc.Todo())
    requires alloc.Todo() != [] && !IsBlockBranch(alloc.Todo()[0])
    requires EntriesDone(g.blocks[b], entry, entries0, k)
    modifies alloc, alloc.sim, alloc.sim.regs
    ensures alloc.Valid() && Heading(g.blocks[b], entry, k + 1, alloc.State(), alloc.Todo())
    ensures alloc.Todo() == old(alloc.Todo())[1..]
    ensures EntriesDone(g.blocks[b], entry, entries, k + 1)
  {
    hide WfCfg, Heading, HandleAll, FirstBranch, OpOk, HandleOp, EntriesDone, RaisePoint;
    HeadingStep(g.blocks[b], entry, k, alloc.State(), alloc.Todo());
    HeadingRaise(g.blocks[b], entry, k, alloc.State(), alloc.Todo());
    assert alloc.lir[alloc.pos] == alloc.Todo()[0];
    alloc.HandleCurrent();
    entries := AllocateHandlers(g, b, alloc, k, entries0, entry);
  }

  lemma HeadingRaise(blk: Block, entry: seq<int>, k: int, st: Alloc, todo: seq<Op>)
    requires Heading(blk, entry, k, st, todo) && todo != [] && !IsBlockBranch(todo[0])
    ensures WfStack(st.stack) && OpOk(todo[0], Elements(st.stack))
    ensures RaiseOk(Head(blk), blk.live, entry, k)
    ensures RaiseAlloc(Head(blk), blk.live, entry, k) == RaisePoint(st, todo[0])
    ensures HandleOp(st, todo[0]).done == DoneAt(Head(blk), blk.live, entry, k + 1)
    ensures |HandleOp(st, todo[0]).done| > 0
  {
    hide OpOk, HandleOp, RaisePoint;
    var n := FirstBranch(blk.ops, 0);
    OpsOkSplit(blk.ops, n, blk.live);
    assert todo[0] == blk.ops[k];
    assert k < n;
    assert Head(blk)[..k] == blk.ops[..k] && Head(blk)[k] == todo[0];
    BeforeRaise(Head(blk), blk.live, entry, k);
    RaiseExtends(st, todo[0]);
    HandledNotEmpty(st, todo[0]);
  }

  /** Fits the stack to the successors in front of the branch `op`. Code is only needed in
      front of an unconditional branch. */
  method LeaveBlock(g: Cfg, b: int, alloc: FpuStackAllocator, states0: States, op: Op,
                    ghost entry: seq<int>, ghost k: int)
    returns (states: States, ghost merge: seq<Op>)
    requires WfCfg(g) && 0 <= b < |g.blocks| == |states0| && StatesOk(g, states0)
    requires alloc.Valid() && Heading(g.blocks[b], entry, k, alloc.State(), alloc.Todo())
    requires if alloc.Todo() == [] then op == OpBranch(true, true) else op == alloc.Todo()[0] && IsBlockBranch(op)
    requires forall s :: s in g.blocks[b].suxs && 0 <= s < |states0| && !NeedsMerge(g, b) ==> states0[s].None?
    modifies alloc, alloc.sim, alloc.sim.regs, alloc.tempSim, alloc.tempSim.regs
    ensures alloc.Valid() && Recorded(g, b, states0, states, alloc.sim.Contents())
    ensures Tailing(g, b, entry, FirstBranch(g.blocks[b].ops, 0), merge, alloc.State(), alloc.Todo())
    ensures alloc.Todo() == old(alloc.Todo())
  {
    hide Carries, Recorded, StatesOk, CanLeave, HandleAll, FirstBranch, Tailing;
    ghost var a, todo := alloc.State(), alloc.Todo();
    HeadingEnds(g, b, states0, entry, k, a, todo);
    var changed;
    changed, states, merge := MergeWithSuccessors(g, b, alloc, states0);
    assert changed ==> op.always by {
      assert BranchesOk(g.blocks[b]);
      assert todo != [] ==> op == g.blocks[b].ops[k];
    }
    TailingStarts(g, b, entry, a, merge, alloc.State(), alloc.Todo());
  }

  // ----- the whole graph -----

  lemma RewritesPreserve(g: Cfg, b: int, entry: seq<int>, merge: seq<Op>, code: seq<Op>, exit: seq<int>)
    requires WfCfg(g) && 0 <= b < |g.blocks| && Rewrites(g, b, entry, merge, code, exit)
    ensures Preserves(g.blocks[b].ops, code, g.blocks[b].live, entry, exit, Keep(g, b))
  {
    HeadTail(g, b);
    assert forall i :: 0 <= i < FirstBranch(g.blocks[b].ops, 0) ==> !IsBlockBranch(g.blocks[b].ops[i]);
    BlockPreserves(g.blocks[b].ops, FirstBranch(g.blocks[b].ops, 0), g.blocks[b].live, entry, merge, exit, Keep(g, b));
  }

  /** Every exception of the block reaches its handler with an empty stack and the right effects. */
  ghost predicate RaisesPreserve(b: Block, entry: seq<int>, bc: BlockCode) {
    && |bc.entries| == |b.throws|
    && forall i :: 0 <= i < |b.throws| ==> RaisePreserves(b, entry, bc, i)
  }

  ghost predicate RaisePreserves(b: Block, entry: seq<int>, bc: BlockCode, i: int)
    requires 0 <= i < |b.throws| == |bc.entries|
  {
    var t := b.throws[i];
    && EntryOk(Head(b), b.live, t.at, t.moves)
    && forall env: map<int, Value>, m: Machine ::
         Passes(Head(b)[..t.at]) && env.Keys == b.live && Holds(entry, m.st, env) ==>
           RunRaise(bc.code, bc.entries[i], Head(b)[t.at], m)
             == Some(Machine([], StepRaise(Head(b), t.at, t.moves, State(env, m.out)).out))
  }

  lemma RewritesRaise(g: Cfg, b: int, entry: seq<int>, merge: seq<Op>, bc: BlockCode, exit: seq<int>)
    requires WfCfg(g) && 0 <= b < |g.blocks| && Rewrites(g, b, entry, merge, bc.code, exit)
    requires EntriesDone(g.blocks[b], entry, bc.entries, |Head(g.blocks[b])|)
    ensures RaisesPreserve(g.blocks[b], entry, bc)
  {
    hide RunRaise, StepRaise, EntryFor, HandleAll, WfCfg;
    var blk := g.blocks[b];
    forall i | 0 <= i < |blk.throws| ensures RaisePreserves(blk, entry, bc, i) {
      var t := blk.throws[i];
      ThrowOk(g, b, i);
      HeadPrefix(g, b, entry, merge, bc.code, exit);
      forall env: map<int, Value>, m: Machine
        | Passes(Head(blk)[..t.at]) && env.Keys == blk.live && Holds(entry, m.st, env)
        ensures RunRaise(bc.code, bc.entries[i], Head(blk)[t.at], m)
             == Some(Machine([], StepRaise(Head(blk), t.at, t.moves, State(env, m.out)).out))
      {
        RaiseRun(Head(blk), blk.live, entry, t.at, t.moves, bc.code, env, m);
      }
    }
  }

  lemma ThrowOk(g: Cfg, b: int, i: int)
    requires WfCfg(g) && 0 <= b < |g.blocks| && 0 <= i < |g.blocks[b].throws|
    ensures var blk, t := g.blocks[b], g.blocks[b].throws[i];
      && EntryOk(Head(blk), blk.live, t.at, t.moves) && t.at < |Head(blk)|
      && t.target < |g.blocks| && g.blocks[t.target].preds == [] && g.blocks[t.target].live == {}
  {
    assert ThrowsOk(g, g.blocks[b]);
  }

  lemma HeadPrefix(g: Cfg, b: int, entry: seq<int>, merge: seq<Op>, code: seq<Op>, exit: seq<int>)
    requires 0 <= b < |g.blocks| && Rewrites(g, b, entry, merge, code, exit)
    ensures HandleAll(Alloc(entry, []), Head(g.blocks[b]), g.blocks[b].live).done <= code
  {
  }

  /** Block `b` is rewritten: entered with its recorded stack it keeps its meaning, and it
      leaves with the stack recorded for each of its successors. */
  ghost predicate BlockDone(g: Cfg, b: int, states: States, bc: BlockCode, exit: seq<int>)
    requires WfCfg(g) && 0 <= b < |g.blocks| == |states| && StatesOk(g, states)
  {
    && Preserves(g.blocks[b].ops, bc.code, g.blocks[b].live, Entry(states, b), exit, Keep(g, b))
    && RaisesPreserve(g.blocks[b], Entry(states, b), bc)
    && forall s :: s in g.blocks[b].suxs && 0 <= s < |states| ==> states[s].Some? && Entry(states, s) == exit
  }

  /** A predecessor of `s` is among the first `n` blocks. */
  ghost predicate ReachedBy(g: Cfg, s: int, n: int)
    requires 0 <= s < |g.blocks|
  {
    exists q :: q in g.blocks[s].preds && q < n
  }

  ghost predicate AllocInv(g: Cfg, n: int, states: States, codes: seq<BlockCode>, exits: seq<seq<int>>) {
    && WfCfg(g) && 0 <= n <= |g.blocks| == |states| && StatesOk(g, states)
    && |codes| == |exits| == n
    && (forall s :: 0 <= s < |states| ==> (states[s].Some? <==> ReachedBy(g, s, n)))
    && (forall b :: 0 <= b < n ==> BlockDone(g, b, states, codes[b], exits[b]))
  }

  lemma AllocStart(g: Cfg, states: States)
    requires WfCfg(g) && |states| == |g.blocks| && forall s :: 0 <= s < |states| ==> states[s].None?
    ensures AllocInv(g, 0, states, [], [])
  {
  }

  /** The next block starts from a stack that covers what it reads, and its successors that
      need no merge have no state yet. */
  lemma AllocReady(g: Cfg, n: int, states: States, codes: seq<BlockCode>, exits: seq<seq<int>>)
    requires AllocInv(g, n, states, codes, exits) && n < |g.blocks|
    ensures states[n].Some? || g.blocks[n].isEntry
    ensures Covers(Entry(states, n), g.blocks[n].live)
    ensures forall s :: s in g.blocks[n].suxs && 0 <= s < |states| && !NeedsMerge(g, n) ==> states[s].None?
  {
    if states[n].None? {
      assert !ReachedBy(g, n, n);
    } else {
      assert StateOk(g, n, states[n]);
    }
    forall s | s in g.blocks[n].suxs && 0 <= s < |states| && !NeedsMerge(g, n)
      ensures states[s].None?
    {
      assert !ReachedBy(g, s, n);
    }
  }

  /** Recording states for later blocks does not disturb the finished ones. */
  lemma EntryStays(g: Cfg, n: int, states: States, codes: seq<BlockCode>, exits: seq<seq<int>>, states': States,
                   exit: seq<int>, b: int)
    requires AllocInv(g, n, states, codes, exits) && n < |g.blocks| && Recorded(g, n, states, states', exit)
    requires 0 <= b <= n
    ensures states'[b] == states[b]
  {
    if states[b].None? && states'[b].Some? {
      assert b in g.blocks[n].suxs;
      assert n in g.blocks[b].preds;
      assert ReachedBy(g, b, n);
    }
  }

  lemma DoneStays(g: Cfg, n: int, states: States, codes: seq<BlockCode>, exits: seq<seq<int>>, states': States,
                  exit: seq<int>, b: int)
    requires AllocInv(g, n, states, codes, exits) && n < |g.blocks| && Recorded(g, n, states, states', exit)
    requires 0 <= b < n
    ensures BlockDone(g, b, states', codes[b], exits[b])
  {
    hide Preserves, RaisesPreserve, WfCfg, StateOk;
    EntryStays(g, n, states, codes, exits, states', exit, b);
    assert BlockDone(g, b, states, codes[b], exits[b]);
  }

  lemma AllocStep(g: Cfg, n: int, states: States, codes: seq<BlockCode>, exits: seq<seq<int>>,
                  states': States, merge: seq<Op>, bc: BlockCode, exit: seq<int>)
    requires AllocInv(g, n, states, codes, exits) && n < |g.blocks| && Recorded(g, n, states, states', exit)
    requires Rewrites(g, n, Entry(states, n), merge, bc.code, exit) && Covers(Entry(states, n), g.blocks[n].live)
    requires EntriesDone(g.blocks[n], Entry(states, n), bc.entries, |Head(g.blocks[n])|)
    ensures AllocInv(g, n + 1, states', codes + [bc], exits + [exit])
  {
    hide Preserves, Rewrites, BlockDone, EntriesDone;
    EntryStays(g, n, states, codes, exits, states', exit, n);
    DoneNow(g, n, states, states', merge, bc, exit);
    forall b | 0 <= b < n + 1
      ensures BlockDone(g, b, states', (codes + [bc])[b], (exits + [exit])[b])
    {
      if b < n {
        DoneStays(g, n, states, codes, exits, states', exit, b);
      }
    }
    forall s | 0 <= s < |states'|
      ensures states'[s].Some? <==> ReachedBy(g, s, n + 1)
    {
      ReachedNext(g, n, states, states', exit, s);
    }
  }

  lemma DoneNow(g: Cfg, n: int, states: States, states': States, merge: seq<Op>, bc: BlockCode, exit: seq<int>)
    requires WfCfg(g) && 0 <= n < |g.blocks| == |states| && StatesOk(g, states)
    requires Recorded(g, n, states, states', exit) && states'[n] == states[n]
    requires Rewrites(g, n, Entry(states, n), merge, bc.code, exit) && Covers(Entry(states, n), g.blocks[n].live)
    requires EntriesDone(g.blocks[n], Entry(states, n), bc.entries, |Head(g.blocks[n])|)
    ensures BlockDone(g, n, states', bc, exit)
  {
    hide Preserves, Rewrites, EntriesDone, RaisesPreserve;
    RewritesPreserve(g, n, Entry(states, n), merge, bc.code, exit);
    RewritesRaise(g, n, Entry(states, n), merge, bc, exit);
  }

  lemma ReachedNext(g: Cfg, n: int, states: States, states': States, exit: seq<int>, s: int)
    requires WfCfg(g) && 0 <= n < |g.blocks| == |states| && 0 <= s < |states| && StatesOk(g, states)
    requires Recorded(g, n, states, states', exit)
    requires states[s].Some? <==> ReachedBy(g, s, n)
    ensures states'[s].Some? <==> ReachedBy(g, s, n + 1)
  {
    if states'[s].Some? && states[s].None? {
      assert n in g.blocks[s].preds;
    }
    if ReachedBy(g, s, n + 1) && !ReachedBy(g, s, n) {
      var q :| q in g.blocks[s].preds && q < n + 1;
      assert q == n && s in g.blocks[n].suxs;
    }
  }

  /** Every block is rewritten in order. A block with a recorded state starts from it, one
      without from the empty stack. */
  method Allocate(g: Cfg) returns (codes: seq<BlockCode>, states: States, ghost exits: seq<seq<int>>)
    requires WfCfg(g)
    ensures AllocInv(g, |g.blocks|, states, codes, exits)
    ensures |codes| == |g.blocks| && Faithful(g, codes)
  {
    hide AllocInv, Recorded, Rewrites, WfCfg, StatesOk, Covers, Faithful, EntriesDone;
    var alloc := new FpuStackAllocator();
    states := seq(|g.blocks|, _ => None);
    codes, exits := [], [];
    AllocStart(g, states);
    for i := 0 to |g.blocks|
      invariant alloc.Valid() && fresh(alloc) && fresh(alloc.sim) && fresh(alloc.sim.regs)
      invariant fresh(alloc.tempSim) && fresh(alloc.tempSim.regs)
      invariant AllocInv(g, i, states, codes, exits)
    {
      AllocFacts(g, i, states, codes, exits);
      AllocReady(g, i, states, codes, exits);
      assert states[i].Some? || g.blocks[i].isEntry;
      if states[i].Some? {
        alloc.sim.ReadState(states[i].value);
      } else {
        alloc.sim.Clear();
      }
      ghost var merge, states0 := [], states;
      var entries;
      states, entries, merge := AllocateBlock(g, i, alloc, states);
      AllocStep(g, i, states0, codes, exits, states, merge, BlockCode(alloc.lir, entries), alloc.sim.Contents());
      codes, exits := codes + [BlockCode(alloc.lir, entries)], exits + [alloc.sim.Contents()];
    }
    AllFaithful(g, states, codes, exits);
  }

  lemma AllocFacts(g: Cfg, n: int, states: States, codes: seq<BlockCode>, exits: seq<seq<int>>)
    requires AllocInv(g, n, states, codes, exits)
    ensures |states| == |g.blocks| && StatesOk(g, states)
    ensures forall b :: 0 <= b < |states| && states[b].Some? ==> IsState(states[b].value)
  {
  }

  // ----- execution along paths -----

  /** All blocks that lead to `s` end with the stack recorded for it. */
  lemma EdgesAgree(g: Cfg, states: States, codes: seq<BlockCode>, exits: seq<seq<int>>, b: int, c: int, s: int)
    requires AllocInv(g, |g.blocks|, states, codes, exits) && 0 <= s < |g.blocks|
    requires 0 <= b < |g.blocks| && s in g.blocks[b].suxs && 0 <= c < |g.blocks| && s in g.blocks[c].suxs
    ensures states[s].Some? && IsState(states[s].value) && StateStack(states[s].value) == exits[b] == exits[c]
  {
    hide Preserves, RaisesPreserve, WfCfg;
    assert BlockDone(g, b, states, codes[b], exits[b]) && BlockDone(g, c, states, codes[c], exits[c]);
    StateOkAt(g, states, s);
  }

  /** How a block is left: by one of its exits, or by one of its exceptions. */
  datatype Out = Through(exit: Exit) | Throwing(i: nat)

  datatype Visit = Visit(block: int, out: Out)

  /** Control gets to the exit or to the operation that raises. */
  ghost predicate VisitOk(g: Cfg, v: Visit) {
    && 0 <= v.block < |g.blocks|
    && var b := g.blocks[v.block];
       match v.out
       case Through(x) => Executed(b.ops, x).Some?
       case Throwing(i) => i < |b.throws| && b.throws[i].at <= |Head(b)| && Passes(Head(b)[..b.throws[i].at])
  }

  /** The exit leads to the successor `s`. */
  ghost predicate GoesTo(g: Cfg, v: Visit, s: int)
    requires VisitOk(g, v)
  {
    v.out.Through? && LeavesBlock(g.blocks[v.block].ops, v.out.exit) && s in g.blocks[v.block].suxs
  }

  /** A path through the graph, which may end by an exception. */
  ghost predicate IsPath(g: Cfg, path: seq<Visit>) {
    && path != []
    && (forall i :: 0 <= i < |path| ==> VisitOk(g, path[i]))
    && (forall i :: 0 <= i < |path| - 1 ==> GoesTo(g, path[i], path[i + 1].block))
  }

  lemma PathTail(g: Cfg, path: seq<Visit>)
    requires IsPath(g, path)
    ensures VisitOk(g, path[0])
    ensures |path| > 1 ==>
      IsPath(g, path[1..]) && GoesTo(g, path[0], path[1].block) && 0 <= path[1].block < |g.blocks|
  {
    if |path| > 1 {
      assert GoesTo(g, path[0], path[0 + 1].block) && VisitOk(g, path[1]);
      forall i | 0 <= i < |path[1..]| - 1
        ensures GoesTo(g, path[1..][i], path[1..][i + 1].block)
      {
        assert GoesTo(g, path[i + 1], path[(i + 1) + 1].block);
      }
    }
  }

  /** Behind the first branch nothing changes what is live. */
  lemma TailLive(g: Cfg, b: int, i: int)
    requires WfCfg(g) && 0 <= b < |g.blocks| && FirstBranch(g.blocks[b].ops, 0) <= i <= |g.blocks[b].ops|
    ensures var blk := g.blocks[b];
      && OpsOk(blk.ops[..i], blk.live)
      && LiveAfterAll(blk.ops[..i], blk.live) == LiveAfterAll(blk.ops, blk.live)
  {
    hide EdgesOk, OrderOk, ThrowsOk, BranchesOk, OpOk, LiveAfter;
    var blk, k := g.blocks[b], FirstBranch(g.blocks[b].ops, 0);
    HeadTail(g, b);
    OpsOkSplit(blk.ops, i, blk.live);
    forall j | 0 <= j < |blk.ops[i..]|
      ensures Neutral(blk.ops[i..][j])
    {
      assert blk.ops[i..][j] == Tail(blk)[i - k + j];
    }
    NeutralLive(blk.ops[i..], LiveAfterAll(blk.ops[..i], blk.live));
  }

  lemma ExitBehind(ops: seq<Op>, x: Exit)
    requires Executed(ops, x).Some? && LeavesBlock(ops, x)
    ensures FirstBranch(ops, 0) <= Executed(ops, x).value <= |ops|
  {
    hide Executed;
    var i := Executed(ops, x).value;
    assert i < |ops| ==> IsBlockBranch(ops[i]);
  }

  lemma SuccessorLive(g: Cfg, b: int, t: int)
    requires WfCfg(g) && 0 <= b < |g.blocks| && 0 <= t < |g.blocks| && t in g.blocks[b].suxs
    ensures OpsOk(g.blocks[b].ops, g.blocks[b].live)
    ensures g.blocks[t].live <= LiveAfterAll(g.blocks[b].ops, g.blocks[b].live)
  {
    hide OrderOk, ThrowsOk, BranchesOk, OpsOk, LiveAfterAll;
  }

  /** The original block. */
  ghost function StepVisit(g: Cfg, v: Visit, s: State): State
    requires WfCfg(g) && VisitOk(g, v) && s.env.Keys == g.blocks[v.block].live
  {
    var b := g.blocks[v.block];
    match v.out
    case Through(x) => StepTo(b.ops, x, s)
    case Throwing(i) =>
      ThrowOk(g, v.block, i);
      StepRaise(Head(b), b.throws[i].at, b.throws[i].moves, s)
  }

  /** The rewritten block, on the machine. */
  ghost function RunVisit(g: Cfg, codes: seq<BlockCode>, v: Visit, m: Machine): Option<Machine>
    requires WfCfg(g) && VisitOk(g, v) && |codes| == |g.blocks|
  {
    var b, bc := g.blocks[v.block], codes[v.block];
    match v.out
    case Through(x) => RunTo(bc.code, x, m)
    case Throwing(i) =>
      ThrowOk(g, v.block, i);
      if i >= |bc.entries| then None else RunRaise(bc.code, bc.entries[i], Head(b)[b.throws[i].at], m)
  }

  /** What a successor reads is live wherever the block is left for it. */
  lemma VisitLive(g: Cfg, v: Visit, t: int, s: State)
    requires WfCfg(g) && VisitOk(g, v) && GoesTo(g, v, t) && 0 <= t < |g.blocks|
    requires s.env.Keys == g.blocks[v.block].live
    ensures g.blocks[t].live <= StepVisit(g, v, s).env.Keys
  {
    hide WfCfg, Executed, OpsOk, LiveAfterAll, LeavesBlock;
    var ops, x := g.blocks[v.block].ops, v.out.exit;
    ExitBehind(ops, x);
    SuccessorLive(g, v.block, t);
    TailLive(g, v.block, Executed(ops, x).value);
  }

  /** The original blocks along a path. On every edge the registers not live in the successor
      lose their values. */
  ghost function StepPath(g: Cfg, path: seq<Visit>, s: State): State
    requires WfCfg(g) && IsPath(g, path) && s.env.Keys == g.blocks[path[0].block].live
    decreases path
  {
    PathTail(g, path);
    var s1 := StepVisit(g, path[0], s);
    if |path| == 1 then s1
    else
      VisitLive(g, path[0], path[1].block, s);
      StepPath(g, path[1..], s1.(env := Restrict(s1.env, g.blocks[path[1].block].live)))
  }

  /** The rewritten blocks along the same path, on the machine. */
  ghost function RunPath(g: Cfg, codes: seq<BlockCode>, path: seq<Visit>, m: Machine): Option<Machine>
    requires WfCfg(g) && IsPath(g, path) && |codes| == |g.blocks|
    decreases path
  {
    PathTail(g, path);
    match RunVisit(g, codes, path[0], m)
    case None => None
    case Some(m') => if |path| == 1 then Some(m') else RunPath(g, codes, path[1..], m')
  }

  /** What a successor needs is among what the block hands on. */
  lemma KeepsLive(g: Cfg, b: int, s: int)
    requires WfCfg(g) && 0 <= b < |g.blocks| && 0 <= s < |g.blocks| && s in g.blocks[b].suxs
    ensures g.blocks[s].live <= Keep(g, b)
  {
    hide EdgesOk, OrderOk, ThrowsOk, OpsOk, LiveAfterAll;
  }

  /** A block that is left by an exit or an exception has the effects of the original. */
  lemma BlockSimulates(g: Cfg, states: States, codes: seq<BlockCode>, exits: seq<seq<int>>, v: Visit, m: Machine,
                       env: map<int, Value>)
    requires AllocInv(g, |g.blocks|, states, codes, exits) && VisitOk(g, v)
    requires env.Keys == g.blocks[v.block].live && Holds(Entry(states, v.block), m.st, env)
    ensures RunVisit(g, codes, v, m).Some?
    ensures RunVisit(g, codes, v, m).value.out == StepVisit(g, v, State(env, m.out)).out
    ensures v.out.Throwing? ==> RunVisit(g, codes, v, m).value.st == []
  {
    hide EdgesOk, OrderOk, ThrowsOk, RunRaise, StepRaise, Head, EntryOk, RunTo, StepTo, Executed;
    assert BlockDone(g, v.block, states, codes[v.block], exits[v.block]);
    match v.out
    case Through(x) =>
      assert PreservesExit(g.blocks[v.block].ops, codes[v.block].code, exits[v.block], Keep(g, v.block), x, env, m);
    case Throwing(i) =>
      assert RaisePreserves(g.blocks[v.block], Entry(states, v.block), codes[v.block], i);
  }

  lemma EdgeHolds(g: Cfg, states: States, codes: seq<BlockCode>, exits: seq<seq<int>>, v: Visit, s: int, m: Machine,
                  env: map<int, Value>)
    requires AllocInv(g, |g.blocks|, states, codes, exits) && VisitOk(g, v) && GoesTo(g, v, s) && 0 <= s < |g.blocks|
    requires env.Keys == g.blocks[v.block].live && Holds(Entry(states, v.block), m.st, env)
    ensures RunVisit(g, codes, v, m).Some?
    ensures var s1, m1 := StepVisit(g, v, State(env, m.out)), RunVisit(g, codes, v, m).value;
            Holds(Entry(states, s), m1.st, Restrict(s1.env, g.blocks[s].live))
  {
    hide RaisesPreserve, Holds, StatesOk, EdgesOk, OrderOk, ThrowsOk, Keep, RunTo, StepTo, Executed;
    AllocFacts(g, |g.blocks|, states, codes, exits);
    var b := v.block;
    assert BlockDone(g, b, states, codes[b], exits[b]);
    assert PreservesExit(g.blocks[b].ops, codes[b].code, exits[b], Keep(g, b), v.out.exit, env, m);
    var s1, m1 := StepVisit(g, v, State(env, m.out)), RunVisit(g, codes, v, m).value;
    KeepsLive(g, b, s);
    HoldsSubmap(exits[b], m1.st, Restrict(s1.env, Keep(g, b)), Restrict(s1.env, g.blocks[s].live));
  }

  /** Along every path through the graph, loops included, the rewritten code runs without a
      stack fault and has exactly the effects of the original code. An exception at the end of the
      path enters its handler with an empty stack. */
  lemma {:induction false} PathSim(g: Cfg, states: States, codes: seq<BlockCode>, exits: seq<seq<int>>,
                                   path: seq<Visit>, m: Machine, env: map<int, Value>)
    requires AllocInv(g, |g.blocks|, states, codes, exits) && IsPath(g, path)
    requires env.Keys == g.blocks[path[0].block].live && Holds(Entry(states, path[0].block), m.st, env)
    ensures RunPath(g, codes, path, m).Some?
    ensures RunPath(g, codes, path, m).value.out == StepPath(g, path, State(env, m.out)).out
    ensures path[|path| - 1].out.Throwing? ==> RunPath(g, codes, path, m).value.st == []
    decreases path
  {
    hide RunVisit, StepVisit, VisitOk, GoesTo, StatesOk, BlockDone, EdgesOk, OrderOk, LivenessOk, Holds;
    PathTail(g, path);
    BlockSimulates(g, states, codes, exits, path[0], m, env);
    if |path| > 1 {
      var s := path[1].block;
      VisitLive(g, path[0], s, State(env, m.out));
      EdgeHolds(g, states, codes, exits, path[0], s, m, env);
      var s1, m1 := StepVisit(g, path[0], State(env, m.out)), RunVisit(g, codes, path[0], m).value;
      PathSim(g, states, codes, exits, path[1..], m1, Restrict(s1.env, g.blocks[s].live));
    }
  }

  // ----- executions -----

  /** An execution follows paths of the graph, and from each exception on the path of its handler. */
  datatype Execution =
    | Completes(path: seq<Visit>)
    | Raises(path: seq<Visit>, rest: Execution)

  ghost predicate IsExecution(g: Cfg, e: Execution) {
    && IsPath(g, e.path)
    && var last := e.path[|e.path| - 1];
       match e
       case Completes(_) => last.out.Through?
       case Raises(_, rest) =>
         && last.out.Throwing? && IsExecution(g, rest)
         && rest.path[0].block == g.blocks[last.block].throws[last.out.i].target
  }

  lemma HandlerBlock(g: Cfg, e: Execution)
    requires WfCfg(g) && IsExecution(g, e) && e.Raises?
    ensures IsExecution(g, e.rest) && 0 <= e.rest.path[0].block < |g.blocks|
    ensures g.blocks[e.rest.path[0].block].preds == [] && g.blocks[e.rest.path[0].block].live == {}
  {
    hide Head;
    var last := e.path[|e.path| - 1];
    assert VisitOk(g, last);
    ThrowOk(g, last.block, last.out.i);
  }

  ghost function StepExecution(g: Cfg, e: Execution, s: State): State
    requires WfCfg(g) && IsExecution(g, e) && s.env.Keys == g.blocks[e.path[0].block].live
    decreases e
  {
    var s1 := StepPath(g, e.path, s);
    if e.Completes? then s1
    else
      HandlerBlock(g, e);
      StepExecution(g, e.rest, State(map[], s1.out))
  }

  ghost function RunExecution(g: Cfg, codes: seq<BlockCode>, e: Execution, m: Machine): Option<Machine>
    requires WfCfg(g) && IsExecution(g, e) && |codes| == |g.blocks|
    decreases e
  {
    match RunPath(g, codes, e.path, m)
    case None => None
    case Some(m') => if e.Completes? then Some(m') else RunExecution(g, codes, e.rest, m')
  }

  /** Blocks without predecessors start with nothing live and an empty stack. */
  lemma EntryStart(g: Cfg, states: States, codes: seq<BlockCode>, exits: seq<seq<int>>, v: Visit)
    requires AllocInv(g, |g.blocks|, states, codes, exits) && VisitOk(g, v) && g.blocks[v.block].preds == []
    ensures g.blocks[v.block].live == {} && (states[v.block].Some? ==> IsState(states[v.block].value))
    ensures Entry(states, v.block) == [] && Holds([], [], map[])
  {
    hide BlockDone, Executed, Head;
    assert !ReachedBy(g, v.block, |g.blocks|);
  }

  /** From an entry of the method, with the empty stack, every execution runs without a stack fault and has
      exactly the effects of the original code, through any number of exceptions. */
  lemma {:induction false} MethodSim(g: Cfg, states: States, codes: seq<BlockCode>, exits: seq<seq<int>>, e: Execution,
                                     out: seq<Event>)
    requires AllocInv(g, |g.blocks|, states, codes, exits) && IsExecution(g, e)
    requires g.blocks[e.path[0].block].preds == []
    ensures g.blocks[e.path[0].block].live == {}
    ensures RunExecution(g, codes, e, Machine([], out)).Some?
    ensures RunExecution(g, codes, e, Machine([], out)).value.out == StepExecution(g, e, State(map[], out)).out
    decreases e
  {
    hide RunPath, StepPath, BlockDone, WfCfg, VisitOk, Holds, StatesOk;
    PathTail(g, e.path);
    EntryStart(g, states, codes, exits, e.path[0]);
    PathSim(g, states, codes, exits, e.path, Machine([], out), map[]);
    if e.Raises? {
      HandlerBlock(g, e);
      var s1 := StepPath(g, e.path, State(map[], out));
      MethodSim(g, states, codes, exits, e.rest, s1.out);
    }
  }

  /** On every execution from an entry, the blocks as rewritten do what the original ones do. */
  ghost predicate Faithful(g: Cfg, codes: seq<BlockCode>)
    requires WfCfg(g) && |codes| == |g.blocks|
  {
    forall e, out :: FaithfulOn(g, codes, e, out)
  }

  ghost predicate FaithfulOn(g: Cfg, codes: seq<BlockCode>, e: Execution, out: seq<Event>)
    requires WfCfg(g) && |codes| == |g.blocks|
  {
    IsExecution(g, e) && VisitOk(g, e.path[0]) && g.blocks[e.path[0].block].preds == [] ==>
      && g.blocks[e.path[0].block].live == {}
      && RunExecution(g, codes, e, Machine([], out)).Some?
      && RunExecution(g, codes, e, Machine([], out)).value.out == StepExecution(g, e, State(map[], out)).out
  }

  lemma AllFaithful(g: Cfg, states: States, codes: seq<BlockCode>, exits: seq<seq<int>>)
    requires AllocInv(g, |g.blocks|, states, codes, exits)
    ensures WfCfg(g) && |codes| == |g.blocks| && Faithful(g, codes)
  {
    hide WfCfg, StatesOk, BlockDone, RunExecution, StepExecution;
    forall e, out ensures FaithfulOn(g, codes, e, out) {
      if IsExecution(g, e) && VisitOk(g, e.path[0]) && g.blocks[e.path[0].block].preds == [] {
        MethodSim(g, states, codes, exits, e, out);
      }
    }
  }
}
