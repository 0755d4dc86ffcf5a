/** Exceptions: what holds where an operation raises one, and that the code up to there is part of the
rewritten block. */
module Raising {
  import opened Stacks
  import opened Options
  import opened Lir
  import opened X87
  import opened AllocSpec
  import opened Inserted
  import opened Simulation
  import opened BlockSim
  import opened Handlers

  /** The live registers hold their values where the operation raises. */
  lemma RaiseSim(a: Alloc, op: Op, m0: Machine, s: State)
    requires Coupled(a, m0, s) && OpOk(op, s.env.Keys)
    ensures OpOk(op, Elements(a.stack))
    ensures Coupled(RaisePoint(a, op), m0, AtRaise(op, s))
  {
    hide Coupled, HandleOp, Step, ExchangeReg, FreeIfDead, Clear;
    CoupledOk(a, op, m0, s);
    if Neutral(op) {
    } else if IsStore(op) {
      ExchangeRegSim(a, op.arg.reg, m0, s);
    } else if op.OpCall? {
      ClearSim(a, None, m0, s);
    } else if IsLoad(op) {
      FreeIfDeadSim(a, op.res.reg, m0, s);
    } else {
      OpSim(a, op, m0, s);
    }
  }

  lemma CoupledOk(a: Alloc, op: Op, m0: Machine, s: State)
    requires Coupled(a, m0, s) && OpOk(op, s.env.Keys)
    ensures WfStack(a.stack) && OpOk(op, Elements(a.stack))
    ensures forall r :: r in s.env ==> r in a.stack
  {
    hide OpOk;
    OkOnStack(op, s.env.Keys, a.stack);
  }

  lemma RaiseCovers(a: Alloc, op: Op, live: set<int>)
    requires OpOk(op, live) && Covers(a.stack, live)
    ensures OpOk(op, Elements(a.stack))
    ensures Covers(RaisePoint(a, op).stack, LiveAtRaise(op, live))
  {
    hide HandleOp, LiveAfter, ExchangeReg, FreeIfDead, Clear;
    OpCovers(a, op, live);
  }

  /** Operations that raise before they take effect. */
  predicate RaisesBefore(op: Op) { Neutral(op) || IsStore(op) || op.OpCall? || IsLoad(op) }

  /** The code up to the point where an operation raises is all the operation leaves, apart from
      the operation itself where it has no effect yet. */
  lemma RaiseExtends(a: Alloc, op: Op)
    requires WfStack(a.stack) && OpOk(op, Elements(a.stack))
    ensures RaisePoint(a, op).done <= HandleOp(a, op).done
    ensures |HandleOp(a, op).done| == |RaisePoint(a, op).done| + if RaisesBefore(op) then 1 else 0
  {
    hide ExchangeReg, FreeIfDead, Clear;
  }

  /** Every operation leaves at least itself. */
  lemma HandledNotEmpty(a: Alloc, op: Op)
    requires WfStack(a.stack) && OpOk(op, Elements(a.stack))
    ensures |HandleOp(a, op).done| > 0
  {
    hide ExchangeReg, FreeIfDead, FreeUnless, Clear, CopyReg, BothToTop, OffsetFromTos, PopReg, PushReg, Rename;
  }

  /** Where an operation raises, no branch has been added since the operation before it. */
  lemma RaiseStraight(a: Alloc, op: Op)
    requires WfStack(a.stack) && OpOk(op, Elements(a.stack))
    ensures Branches(RaisePoint(a, op).done) == Branches(a.done)
  {
    hide HandleOp, ExchangeReg, FreeIfDead, Clear, Branches;
    var b := RaisePoint(a, op);
    assert Extends(a, b) by {
      if Neutral(op) {
      } else if IsStore(op) {
        FreeExtends(a, op.arg.reg);
      } else if op.OpCall? {
        ClearExtends(a, None);
      } else if IsLoad(op) {
        FreeExtends(a, op.res.reg);
      } else {
        OpExtends(a, op);
      }
    }
    ExtendsBranches(a, b);
  }

  // ----- raising in the middle of a list -----

  ghost predicate RaiseOk(ops: seq<Op>, live: set<int>, entry: seq<int>, k: int) {
    Covers(entry, live) && OpsOk(ops, live) && 0 <= k < |ops|
  }

  /** What is live where operation `k` raises. */
  ghost function RaiseLive(ops: seq<Op>, live: set<int>, k: int): set<int>
    requires OpsOk(ops, live) && 0 <= k < |ops|
  {
    OpsOkSplit(ops, k, live);
    LiveAtRaise(ops[k], LiveAfterAll(ops[..k], live))
  }

  lemma BeforeRaise(ops: seq<Op>, live: set<int>, entry: seq<int>, k: int)
    requires RaiseOk(ops, live, entry, k)
    ensures OpsOk(ops[..k], live) && OpsOk(ops[..k + 1], live) && OpOk(ops[k], LiveAfterAll(ops[..k], live))
    ensures var a := HandleAll(Alloc(entry, []), ops[..k], live);
      && Covers(a.stack, LiveAfterAll(ops[..k], live)) && OpOk(ops[k], Elements(a.stack))
      && HandleAll(Alloc(entry, []), ops[..k + 1], live) == HandleOp(a, ops[k])
  {
    hide OpOk, HandleOp;
    OpsOkSplit(ops, k, live);
    assert ops[k..][0] == ops[k];
    HandleNext(Alloc(entry, []), ops, k, live);
  }

  /** The stack and the code up to the point where operation `k` raises. */
  ghost function RaiseAlloc(ops: seq<Op>, live: set<int>, entry: seq<int>, k: int): Alloc
    requires RaiseOk(ops, live, entry, k)
  {
    BeforeRaise(ops, live, entry, k);
    RaisePoint(HandleAll(Alloc(entry, []), ops[..k], live), ops[k])
  }

  lemma RaiseAllocCovers(ops: seq<Op>, live: set<int>, entry: seq<int>, k: int)
    requires RaiseOk(ops, live, entry, k)
    ensures Covers(RaiseAlloc(ops, live, entry, k).stack, RaiseLive(ops, live, k))
  {
    hide OpOk, RaisePoint, LiveAtRaise, HandleAll;
    BeforeRaise(ops, live, entry, k);
    RaiseCovers(HandleAll(Alloc(entry, []), ops[..k], live), ops[k], LiveAfterAll(ops[..k], live));
  }

  /** An exception handler of an operation: the index of the operation in the rewritten code, and the
      entry code. */
  datatype HandlerEntry = HandlerEntry(pc: int, code: Option<seq<Op>>)

  ghost predicate EntryOk(ops: seq<Op>, live: set<int>, k: int, moves: Option<seq<Op>>) {
    && OpsOk(ops, live) && 0 <= k < |ops|
    && OpsOk(MovesOf(moves), RaiseLive(ops, live, k)) && NoLoads(MovesOf(moves))
  }

  ghost function EntryFor(ops: seq<Op>, live: set<int>, entry: seq<int>, k: int, moves: Option<seq<Op>>): HandlerEntry
    requires RaiseOk(ops, live, entry, k) && EntryOk(ops, live, k, moves)
  {
    BeforeRaise(ops, live, entry, k);
    RaiseAllocCovers(ops, live, entry, k);
    HandlerEntry(|HandleAll(Alloc(entry, []), ops[..k + 1], live).done| - 1,
                 EntryCode(RaiseAlloc(ops, live, entry, k).stack, moves, RaiseLive(ops, live, k)))
  }

  /** Operation `k` raises, and the moves to the handler follow. */
  ghost function StepRaise(ops: seq<Op>, k: int, moves: Option<seq<Op>>, s: State): State
    requires EntryOk(ops, s.env.Keys, k, moves)
  {
    OpsOkSplit(ops, k, s.env.Keys);
    var s1 := StepAll(ops[..k], s);
    RaiseKeys(ops[k], s1);
    var s2 := AtRaise(ops[k], s1);
    StepAll(MovesOf(moves), s2.(out := s2.out + [Raised(ops[k])]))
  }

  /** The rewritten code up to the operation, or behind it where it is complete, and the entry code. */
  function RunRaise(code: seq<Op>, h: HandlerEntry, op: Op, m: Machine): Option<Machine> {
    var cut := if RaisesBefore(op) then h.pc else h.pc + 1;
    if !(0 <= cut <= |code| && Passes(code[..cut])) then None
    else match RunOps(code[..cut], m)
      case None => None
      case Some(m') => RunEntry(h.code, m'.(out := m'.out + [Raised(op)]))
  }

  /** Where the rewritten operation stands. */
  lemma CutInside(ops: seq<Op>, live: set<int>, entry: seq<int>, k: int, moves: Option<seq<Op>>, code: seq<Op>)
    requires RaiseOk(ops, live, entry, k) && EntryOk(ops, live, k, moves)
    requires HandleAll(Alloc(entry, []), ops, live).done <= code
    ensures
      var h, done := EntryFor(ops, live, entry, k, moves), RaiseAlloc(ops, live, entry, k).done;
      var cut := if RaisesBefore(ops[k]) then h.pc else h.pc + 1;
      0 <= cut <= |code| && code[..cut] == done
  {
    hide OpOk, HandleOp, RaisePoint, EntryCode, RaisesBefore;
    var a := Alloc(entry, []);
    BeforeRaise(ops, live, entry, k);
    RaiseExtends(HandleAll(a, ops[..k], live), ops[k]);
    HandleAllPrefix(a, ops, k + 1, live);
    PrefixOf(RaiseAlloc(ops, live, entry, k).done, HandleAll(a, ops[..k + 1], live).done,
             HandleAll(a, ops, live).done, code);
  }

  lemma PrefixOf(a: seq<Op>, b: seq<Op>, c: seq<Op>, d: seq<Op>)
    requires a <= b <= c <= d
    ensures |a| <= |d| && d[..|a|] == a
  {
  }

  /** Control gets to the operation if it does so in the original code. */
  lemma RaisePasses(ops: seq<Op>, live: set<int>, entry: seq<int>, k: int)
    requires RaiseOk(ops, live, entry, k)
    ensures Branches(RaiseAlloc(ops, live, entry, k).done) == Branches(ops[..k])
  {
    hide OpOk, HandleAll, RaisePoint, HandleOp, Branches;
    BeforeRaise(ops, live, entry, k);
    RaiseStraight(HandleAll(Alloc(entry, []), ops[..k], live), ops[k]);
    NoBranches([]);
    HandleAllBranches(Alloc(entry, []), ops[..k], live);
  }

  /** The exceptional exit: the rewritten code enters the handler with an empty stack, after exactly the
      effects of the original code. */
  lemma RaiseRun(ops: seq<Op>, live: set<int>, entry: seq<int>, k: int, moves: Option<seq<Op>>, code: seq<Op>,
                 env: map<int, Value>, m: Machine)
    requires RaiseOk(ops, live, entry, k) && EntryOk(ops, live, k, moves)
    requires HandleAll(Alloc(entry, []), ops, live).done <= code && Passes(ops[..k])
    requires env.Keys == live && Holds(entry, m.st, env)
    ensures RunRaise(code, EntryFor(ops, live, entry, k, moves), ops[k], m)
         == Some(Machine([], StepRaise(ops, k, moves, State(env, m.out)).out))
  {
    hide OpOk, HandleAll, RaisePoint, AtRaise, EntryCode, RaisesBefore, RunEntry, RunOps, Branches;
    var s := State(env, m.out);
    var a0 := Alloc(entry, []);
    BeforeRaise(ops, live, entry, k);
    CoupledStart(entry, m, env);
    HandleAllSim(a0, ops[..k], m, s);
    var a, s1 := HandleAll(a0, ops[..k], live), StepAll(ops[..k], s);
    RaiseSim(a, ops[k], m, s1);
    var ra, s2 := RaiseAlloc(ops, live, entry, k), AtRaise(ops[k], s1);
    RaiseKeys(ops[k], s1);
    CutInside(ops, live, entry, k, moves, code);
    RaisePasses(ops, live, entry, k);
    var m1 := RunOps(ra.done, m).value;
    RaiseAllocCovers(ops, live, entry, k);
    EntrySim(ra.stack, moves, m1.(out := m1.out + [Raised(ops[k])]), s2.env);
  }
}
