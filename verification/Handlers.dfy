/** Entry code of exception handlers: its moves are rewritten for the stack at the throwing
operation, everything left is popped, and the allocator continues where it was. */
module Handlers {
  import opened Stacks
  import opened Options
  import opened Lir
  import opened X87
  import opened AllocSpec
  import opened Inserted
  import opened Simulation
  import opened Allocator
  import opened BlockSim

  const JUMP := OpBranch(true, true)

  /** Entry code is a list of moves, which read what is live at the throwing operation. The jump to
      the handler follows. */
  ghost predicate MovesOk(moves: seq<Op>, stack: seq<int>, live: set<int>) {
    && Covers(stack, live) && OpsOk(moves, live)
    && forall i :: 0 <= i < |moves| ==> moves[i].Op1? && moves[i].code1.Move?
  }

  /** Missing entry code is empty. */
  function MovesOf(moves: Option<seq<Op>>): seq<Op> {
    if moves.Some? then moves.value else []
  }

  ghost function HandlerCode(stack: seq<int>, moves: seq<Op>, live: set<int>): seq<Op>
    requires MovesOk(moves, stack, live)
  {
    Append(Clear(HandleAll(Alloc(stack, []), moves, live), None), JUMP).done
  }

  /** The entry code after allocation: with an empty stack it stays as it is. */
  ghost function EntryCode(stack: seq<int>, moves: Option<seq<Op>>, live: set<int>): Option<seq<Op>>
    requires MovesOk(MovesOf(moves), stack, live)
  {
    if stack != [] then Some(HandlerCode(stack, MovesOf(moves), live))
    else if moves.Some? then Some(moves.value + [JUMP])
    else None
  }

  /** Control leaves entry code by its first branch. Without entry code it goes directly to the handler. */
  function RunEntry(code: Option<seq<Op>>, m: Machine): Option<Machine> {
    if code.Some? then RunTo(code.value, Taken(0), m) else Some(m)
  }

  lemma JumpEnds(code: seq<Op>, m: Machine)
    requires Branches(code) == []
    ensures RunTo(code + [JUMP], Taken(0), m) == RunOps(code, m)
  {
    hide Executed, RunOps;
    var jump := [JUMP];
    assert Branches(jump[..0]) == [] && Executed(jump, Taken(0)) == Some(0) by { JumpOnly(); }
    assert (code + [JUMP])[..|code|] == code;
    SameExit(jump, code + [JUMP], Taken(0), 0, |code|);
  }

  lemma JumpOnly()
    ensures Branches([JUMP][..0]) == [] && Executed([JUMP], Taken(0)) == Some(0)
  {
    BranchesAppend([], JUMP);
    assert [] + [JUMP] == [JUMP] && [JUMP][..0] == [];
  }

  lemma MovesStraight(moves: seq<Op>, stack: seq<int>, live: set<int>)
    requires MovesOk(moves, stack, live)
    ensures Branches(moves) == []
    ensures Branches(Clear(HandleAll(Alloc(stack, []), moves, live), None).done) == []
  {
    hide HandleAll, Clear, Branches, OpsOk;
    var a := Alloc(stack, []);
    NoBranches(moves);
    NoBranches([]);
    HandleAllBranches(a, moves, live);
    var b := HandleAll(a, moves, live);
    ClearExtends(b, None);
    ExtendsBranches(b, Clear(b, None));
  }

  /** Control leaves the entry code at its jump with an empty FPU stack, after the effects of the moves. */
  lemma HandlerSim(stack: seq<int>, moves: seq<Op>, m: Machine, env: map<int, Value>)
    requires MovesOk(moves, stack, env.Keys) && Holds(stack, m.st, env)
    ensures RunTo(HandlerCode(stack, moves, env.Keys), Taken(0), m)
         == Some(Machine([], StepAll(moves, State(env, m.out)).out))
  {
    var s := State(env, m.out);
    var a0 := Alloc(stack, []);
    CoupledStart(stack, m, env);
    HandleAllSim(a0, moves, m, s);
    var a, s1 := HandleAll(a0, moves, env.Keys), StepAll(moves, s);
    ClearSim(a, None, m, s1);
    MovesStraight(moves, stack, env.Keys);
    JumpEnds(Clear(a, None).done, m);
  }

  /** No move loads an FPU register: handlers start with an empty stack. */
  ghost predicate NoLoads(moves: seq<Op>) {
    forall i :: 0 <= i < |moves| ==> moves[i].Op1? && moves[i].code1.Move? && !moves[i].res.Fpu?
  }

  /** Moves that neither find a live FPU register nor load one are no concern of the FPU. */
  lemma {:induction false} MovesNeutral(moves: seq<Op>)
    requires OpsOk(moves, {}) && NoLoads(moves)
    ensures AllNeutral(moves)
    decreases moves
  {
    if moves != [] {
      assert moves[0].Op1? && moves[0].code1.Move? && !moves[0].res.Fpu?;
      assert Neutral(moves[0]);
      assert forall i :: 0 <= i < |moves[1..]| ==> moves[1..][i] == moves[i + 1];
      MovesNeutral(moves[1..]);
      assert forall i :: 1 <= i < |moves| ==> moves[i] == moves[1..][i - 1];
    }
  }

  /** The same for all stacks, with the entry code as it is after allocation. */
  lemma EntrySim(stack: seq<int>, moves: Option<seq<Op>>, m: Machine, env: map<int, Value>)
    requires MovesOk(MovesOf(moves), stack, env.Keys) && NoLoads(MovesOf(moves)) && Holds(stack, m.st, env)
    ensures RunEntry(EntryCode(stack, moves, env.Keys), m)
         == Some(Machine([], StepAll(MovesOf(moves), State(env, m.out)).out))
  {
    if stack != [] {
      HandlerSim(stack, MovesOf(moves), m, env);
    } else {
      assert env == map[] by { assert forall r :: r in env ==> r in stack; }
      assert env.Keys == {} && m.st == [];
      MovesNeutral(MovesOf(moves));
      NeutralRun(MovesOf(moves), m, State(env, m.out));
      if moves.Some? {
        MovesStraight(moves.value, stack, env.Keys);
        JumpEnds(moves.value, m);
      }
    }
  }

  /** The loop over the entry code, which is all that is left to do. */
  method AllocateMoves(alloc: FpuStackAllocator, entry: seq<Op>, ghost live: set<int>)
    requires alloc.Valid() && MovesOk(entry, alloc.sim.Contents(), live)
    requires alloc.pos == 0 && alloc.lir == entry + [JUMP]
    modifies alloc, alloc.sim, alloc.sim.regs
    ensures alloc.Valid() && alloc.lir == HandlerCode(old(alloc.sim.Contents()), entry, live)
  {
    hide HandleAll, Clear, OpsOk, OpOk, HandleOp;
    ghost var a0 := Alloc(alloc.sim.Contents(), []);
    ghost var k := 0;
    MovesStart(a0, entry, live);
    ghost var jumped := false;
    while alloc.pos < |alloc.lir|
      invariant alloc.Valid() && 0 <= k <= |entry| && OpsOk(entry[..k], live)
      invariant !jumped ==> alloc.Todo() == entry[k..] + [JUMP] && alloc.State() == HandleAll(a0, entry[..k], live)
      invariant jumped ==> k == |entry| && alloc.Todo() == []
                           && alloc.State() == Append(Clear(HandleAll(a0, entry, live), None), JUMP)
      decreases |alloc.Todo()|
    {
      assert alloc.lir[alloc.pos] == alloc.Todo()[0];
      if alloc.lir[alloc.pos].Op1? {
        HandleNext(a0, entry, k, live);
        alloc.HandleCurrent();
        k := k + 1;
      } else {
        assert entry[..k] == entry;
        MovesCover(a0, entry, live);
        alloc.ClearFpuStack(None);
        assert alloc.lir[alloc.pos] == alloc.Todo()[0];
        JumpHandled(alloc.State());
        alloc.HandleCurrent();
        jumped := true;
      }
    }
    assert alloc.lir[..alloc.pos] == alloc.lir;
  }

  /** Allocates the entry code of a handler in the middle of a block. Handlers of operations
      with an empty stack are left alone. */
  method AllocateExceptionHandler(alloc: FpuStackAllocator, moves: Option<seq<Op>>, ghost live: set<int>)
    returns (code: Option<seq<Op>>)
    requires alloc.Valid() && MovesOk(MovesOf(moves), alloc.sim.Contents(), live)
    modifies alloc, alloc.sim, alloc.sim.regs
    ensures alloc.Valid() && alloc.sim.Contents() == old(alloc.sim.Contents())
    ensures alloc.lir == old(alloc.lir) && alloc.pos == old(alloc.pos)
    ensures code == EntryCode(old(alloc.sim.Contents()), moves, live)
  {
    hide MovesOk, HandlerCode;
    if alloc.sim.stackSize == 0 {
      return if moves.Some? then Some(moves.value + [JUMP]) else None;
    }
    var oldLir, oldPos := alloc.lir, alloc.pos;
    var oldState := alloc.sim.WriteState();
    var entry := MovesOf(moves);
    alloc.lir, alloc.pos := entry + [JUMP], 0;
    AllocateMoves(alloc, entry, live);
    code := Some(alloc.lir);
    alloc.lir, alloc.pos := oldLir, oldPos;
    alloc.sim.ReadState(oldState);
  }

  lemma JumpHandled(a: Alloc)
    requires a.stack == []
    ensures OpOk(JUMP, Elements(a.stack)) && HandleOp(a, JUMP) == Append(a, JUMP)
  {
  }

  lemma MovesCover(a: Alloc, ops: seq<Op>, live: set<int>)
    requires Covers(a.stack, live) && OpsOk(ops, live)
    ensures WfStack(HandleAll(a, ops, live).stack)
  {
  }

  lemma MovesStart(a: Alloc, ops: seq<Op>, live: set<int>)
    requires Covers(a.stack, live)
    ensures OpsOk(ops[..0], live) && HandleAll(a, ops[..0], live) == a && ops[0..] == ops
  {
    assert ops[..0] == [];
  }
}
