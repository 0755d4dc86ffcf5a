/** From single operations to whole blocks. */
module BlockSim {
  import opened Stacks
  import opened Options
  import opened Lir
  import opened X87
  import opened AllocSpec
  import opened Inserted
  import opened Simulation
  import opened Shuffle

  ghost predicate Covers(stack: seq<int>, live: set<int>) {
    WfStack(stack) && forall r :: r in live ==> r in stack
  }

  lemma OkOnStack(op: Op, live: set<int>, stack: seq<int>)
    requires OpOk(op, live) && Covers(stack, live)
    ensures OpOk(op, Elements(stack))
  {
  }

  lemma Op1Covers(a: Alloc, code: Code1, arg: Opr, res: Opr, live: set<int>)
    requires Op1Ok(code, arg, res, live) && Covers(a.stack, live)
    ensures Op1Ok(code, arg, res, Elements(a.stack))
    ensures Covers(HandleOp1(a, code, arg, res).stack, LiveAfter1(code, arg, res, live))
  {
    hide Exchange, ExchangeReg, Free, FreeIfDead, FreeUnless, Rename, PushReg, PopReg, Clear;
  }

  lemma ArithCovers(a: Alloc, op: Op, live: set<int>)
    requires op.Op2? && op.code2.Arith? && IsLive(op.left, live) && Covers(a.stack, live)
    requires Op2Ok(op.code2, op.left, op.right, op.res, op.tmp1, op.tmp2, live)
    ensures Op2Ok(op.code2, op.left, op.right, op.res, op.tmp1, op.tmp2, Elements(a.stack))
    ensures Covers(HandleArith(a, op).stack, LiveAfter2(op.code2, op.left, op.right, op.res, op.tmp1, op.tmp2, live))
  {
    hide Exchange, ExchangeReg, Free, FreeIfDead, FreeUnless, Rename, PushReg, PopReg, BothToTop;
    var strict := op.code2.strictness != Relaxed;
    var b := if strict then FreeIfDead(a, op.tmp1.reg) else a;
    if op.right.Fpu? {
      ArithRegCovers(b, op, if strict then live - {op.tmp1.reg} else live);
    }
  }

  lemma ArithRegCovers(a: Alloc, op: Op, live: set<int>)
    requires op.Op2? && IsLive(op.left, live) && IsLive(op.right, live) && Covers(a.stack, live) && op.res == op.left
    requires op.right.lastUse ==> op.right.reg != op.left.reg
    ensures Covers(HandleArithReg(a, op).stack, Without(live, op.right))
  {
    hide Exchange, ExchangeReg, Free, FreeIfDead, FreeUnless, Rename, PushReg, PopReg, BothToTop;
  }

  lemma PowCovers(a: Alloc, op: Op, live: set<int>)
    requires op.Op2? && op.code2.Pow? && IsLive(op.left, live) && Covers(a.stack, live)
    requires Op2Ok(op.code2, op.left, op.right, op.res, op.tmp1, op.tmp2, live)
    ensures Op2Ok(op.code2, op.left, op.right, op.res, op.tmp1, op.tmp2, Elements(a.stack))
    ensures Covers(HandlePow(a, op).stack, LiveAfter2(op.code2, op.left, op.right, op.res, op.tmp1, op.tmp2, live))
  {
    hide Exchange, ExchangeReg, Free, FreeIfDead, FreeUnless, Rename, PushReg, PopReg, BothToTop;
  }

  lemma Op2Covers(a: Alloc, op: Op, live: set<int>)
    requires op.Op2? && IsLive(op.left, live) && Covers(a.stack, live)
    requires Op2Ok(op.code2, op.left, op.right, op.res, op.tmp1, op.tmp2, live)
    ensures IsLive(op.left, Elements(a.stack))
    ensures Op2Ok(op.code2, op.left, op.right, op.res, op.tmp1, op.tmp2, Elements(a.stack))
    ensures Covers(HandleOp2(a, op).stack, LiveAfter2(op.code2, op.left, op.right, op.res, op.tmp1, op.tmp2, live))
  {
    hide HandleArith, HandlePow, Exchange, ExchangeReg, Free, FreeIfDead, FreeUnless, Rename, PushReg, PopReg;
    hide BothToTop;
    if op.code2.Arith? {
      ArithCovers(a, op, live);
    } else if op.code2.Pow? {
      PowCovers(a, op, live);
    }
  }

  /** The registers live after an operation are on the stack after it. */
  lemma OpCovers(a: Alloc, op: Op, live: set<int>)
    requires OpOk(op, live) && Covers(a.stack, live)
    ensures OpOk(op, Elements(a.stack))
    ensures Covers(HandleOp(a, op).stack, LiveAfter(op, live))
  {
    OkOnStack(op, live, a.stack);
    if !Neutral(op) {
      match op
      case Op1(code, arg, res, _) => Op1Covers(a, code, arg, res, live);
      case Op2(_, _, _, _, _, _, _, _) => Op2Covers(a, op, live);
      case OpCall(id, res) =>
    }
  }

  // ----- nothing else stays on the stack -----

  ghost predicate IsReturn(op: Op) { op.Op1? && op.code1.Return? }

  lemma Op1Tight(a: Alloc, code: Code1, arg: Opr, res: Opr)
    requires WfStack(a.stack) && Op1Ok(code, arg, res, Elements(a.stack)) && !code.Return?
    ensures Elements(HandleOp1(a, code, arg, res).stack) == LiveAfter1(code, arg, res, Elements(a.stack))
  {
    hide Exchange, ExchangeReg, Free, FreeIfDead, FreeUnless, Rename, PushReg, PopReg, Clear;
  }

  lemma ArithTight(a: Alloc, op: Op)
    requires WfStack(a.stack) && op.Op2? && op.code2.Arith? && IsLive(op.left, Elements(a.stack))
    requires Op2Ok(op.code2, op.left, op.right, op.res, op.tmp1, op.tmp2, Elements(a.stack))
    ensures Elements(HandleArith(a, op).stack)
         == LiveAfter2(op.code2, op.left, op.right, op.res, op.tmp1, op.tmp2, Elements(a.stack))
  {
    hide Exchange, ExchangeReg, Free, FreeIfDead, HandleArithReg;
    var b := if op.code2.strictness != Relaxed then FreeIfDead(a, op.tmp1.reg) else a;
    if op.right.Fpu? {
      ArithRegTight(b, op);
    }
  }

  lemma ArithRegTight(a: Alloc, op: Op)
    requires ArithRegs(a, op)
    ensures Elements(HandleArithReg(a, op).stack) == Without(Elements(a.stack), op.right)
  {
    hide Exchange, ExchangeReg, Free, FreeIfDead, FreeUnless, Rename, PushReg, PopReg, BothToTop;
  }

  lemma PowTight(a: Alloc, op: Op)
    requires WfStack(a.stack) && op.Op2? && op.code2.Pow? && IsLive(op.left, Elements(a.stack))
    requires Op2Ok(op.code2, op.left, op.right, op.res, op.tmp1, op.tmp2, Elements(a.stack))
    ensures Elements(HandlePow(a, op).stack)
         == LiveAfter2(op.code2, op.left, op.right, op.res, op.tmp1, op.tmp2, Elements(a.stack))
  {
    hide Exchange, ExchangeReg, Free, FreeIfDead, FreeUnless, Rename, PushReg, PopReg, BothToTop;
  }

  lemma Op2Tight(a: Alloc, op: Op)
    requires WfStack(a.stack) && op.Op2? && IsLive(op.left, Elements(a.stack))
    requires Op2Ok(op.code2, op.left, op.right, op.res, op.tmp1, op.tmp2, Elements(a.stack))
    ensures Elements(HandleOp2(a, op).stack)
         == LiveAfter2(op.code2, op.left, op.right, op.res, op.tmp1, op.tmp2, Elements(a.stack))
  {
    hide HandleArith, HandlePow, Exchange, ExchangeReg, Free, FreeIfDead, FreeUnless, Rename, PushReg, PopReg;
    hide BothToTop;
    if op.code2.Arith? {
      ArithTight(a, op);
    } else if op.code2.Pow? {
      PowTight(a, op);
    }
  }

  /** Values leave the stack at their last use: if everything on it was live before an operation, everything
      on it is live afterwards. Only a return leaves its result. */
  lemma OpTight(a: Alloc, op: Op)
    requires WfStack(a.stack) && OpOk(op, Elements(a.stack))
    ensures IsReturn(op) || Elements(HandleOp(a, op).stack) == LiveAfter(op, Elements(a.stack))
    ensures IsReturn(op) && !Neutral(op) ==> HandleOp(a, op).stack == if op.arg.Fpu? then [op.arg.reg] else []
  {
    hide HandleOp2, LiveAfter2, Clear;
    if !Neutral(op) {
      match op
      case Op1(code, arg, res, _) =>
        if !code.Return? {
          Op1Tight(a, code, arg, res);
        }
      case Op2(_, _, _, _, _, _, _, _) => Op2Tight(a, op);
      case OpCall(id, res) =>
    }
  }

  /** A list of operations, one after the other. */
  function HandleAll(a: Alloc, ops: seq<Op>, live: set<int>): (r: Alloc)
    requires Covers(a.stack, live) && OpsOk(ops, live)
    ensures Covers(r.stack, LiveAfterAll(ops, live))
    decreases ops
  {
    if ops == [] then a
    else
      OpCovers(a, ops[0], live);
      HandleAll(HandleOp(a, ops[0]), ops[1..], LiveAfter(ops[0], live))
  }

  /** Straight-line code that starts with just the live registers on the stack ends with just them. */
  lemma {:induction false} HandleAllTight(a: Alloc, ops: seq<Op>, live: set<int>)
    requires Covers(a.stack, live) && Elements(a.stack) == live && OpsOk(ops, live)
    requires forall i :: 0 <= i < |ops| ==> !IsReturn(ops[i])
    ensures Elements(HandleAll(a, ops, live).stack) == LiveAfterAll(ops, live)
    decreases ops
  {
    hide OpOk, LiveAfter, HandleOp;
    if ops != [] {
      OpCovers(a, ops[0], live);
      OpTight(a, ops[0]);
      assert !IsReturn(ops[0]);
      HandleAllTight(HandleOp(a, ops[0]), ops[1..], LiveAfter(ops[0], live));
    }
  }

  lemma CoupledStart(entry: seq<int>, m: Machine, env: map<int, Value>)
    requires WfStack(entry) && Holds(entry, m.st, env)
    ensures Coupled(Alloc(entry, []), m, State(env, m.out))
  {
  }

  /** Straight-line code of any length keeps its meaning. */
  lemma {:induction false} HandleAllSim(a: Alloc, ops: seq<Op>, m0: Machine, s: State)
    requires Coupled(a, m0, s) && OpsOk(ops, s.env.Keys)
    ensures Covers(a.stack, s.env.Keys)
    ensures Coupled(HandleAll(a, ops, s.env.Keys), m0, StepAll(ops, s))
    decreases ops
  {
    hide OpOk, LiveAfter, HandleOp, Step, RunOps;
    if ops != [] {
      OpSim(a, ops[0], m0, s);
      StepKeys(ops[0], s);
      HandleAllSim(HandleOp(a, ops[0]), ops[1..], m0, Step(ops[0], s));
    }
  }

  lemma {:induction false} HandleAllAppend(a: Alloc, ops: seq<Op>, op: Op, live: set<int>)
    requires Covers(a.stack, live) && OpsOk(ops, live) && OpOk(op, LiveAfterAll(ops, live))
    ensures OpsOk(ops + [op], live)
    ensures LiveAfterAll(ops + [op], live) == LiveAfter(op, LiveAfterAll(ops, live))
    ensures OpOk(op, Elements(HandleAll(a, ops, live).stack))
    ensures HandleAll(a, ops + [op], live) == HandleOp(HandleAll(a, ops, live), op)
    decreases ops
  {
    hide OpOk, LiveAfter, HandleOp, WfStack;
    if ops == [] {
      assert ops + [op] == [op] && [op][1..] == [];
      OpCovers(a, op, live);
    } else {
      OpCovers(a, ops[0], live);
      assert (ops + [op])[1..] == ops[1..] + [op];
      HandleAllAppend(HandleOp(a, ops[0]), ops[1..], op, LiveAfter(ops[0], live));
    }
  }

  lemma {:induction false} OpsOkSplit(ops: seq<Op>, k: int, live: set<int>)
    requires OpsOk(ops, live) && 0 <= k <= |ops|
    ensures OpsOk(ops[..k], live) && OpsOk(ops[k..], LiveAfterAll(ops[..k], live))
    ensures LiveAfterAll(ops, live) == LiveAfterAll(ops[k..], LiveAfterAll(ops[..k], live))
    decreases k
  {
    hide OpOk, LiveAfter;
    if k == 0 {
      assert ops[..0] == [] && ops[0..] == ops;
    } else {
      assert ops[..k][0] == ops[0] && ops[..k][1..] == ops[1..][..k - 1] && ops[k..] == ops[1..][k - 1..];
      OpsOkSplit(ops[1..], k - 1, LiveAfter(ops[0], live));
    }
  }

  /** The next operation of a list. */
  lemma HandleNext(a: Alloc, ops: seq<Op>, k: int, live: set<int>)
    requires Covers(a.stack, live) && OpsOk(ops, live) && 0 <= k < |ops|
    ensures OpsOk(ops[..k], live) && OpsOk(ops[..k + 1], live)
    ensures Covers(HandleAll(a, ops[..k], live).stack, LiveAfterAll(ops[..k], live))
    ensures OpOk(ops[k], Elements(HandleAll(a, ops[..k], live).stack))
    ensures HandleAll(a, ops[..k + 1], live) == HandleOp(HandleAll(a, ops[..k], live), ops[k])
  {
    hide OpOk, LiveAfter, HandleOp, WfStack;
    OpsOkSplit(ops, k, live);
    assert ops[..k] + [ops[k]] == ops[..k + 1];
    assert ops[k..][0] == ops[k];
    HandleAllAppend(a, ops[..k], ops[k], live);
  }

  lemma {:induction false} StepAllSplit(ops: seq<Op>, k: int, s: State)
    requires OpsOk(ops, s.env.Keys) && 0 <= k <= |ops|
    ensures OpsOk(ops[..k], s.env.Keys) && OpsOk(ops[k..], StepAll(ops[..k], s).env.Keys)
    ensures StepAll(ops, s) == StepAll(ops[k..], StepAll(ops[..k], s))
    decreases k
  {
    hide OpOk, LiveAfter, Step;
    OpsOkSplit(ops, k, s.env.Keys);
    if k == 0 {
      assert ops[..0] == [] && ops[0..] == ops;
    } else {
      assert ops[..k][0] == ops[0] && ops[..k][1..] == ops[1..][..k - 1] && ops[k..] == ops[1..][k - 1..];
      StepKeys(ops[0], s);
      StepAllSplit(ops[1..], k - 1, Step(ops[0], s));
    }
  }

  ghost predicate AllNeutral(ops: seq<Op>) {
    forall i :: 0 <= i < |ops| ==> Neutral(ops[i])
  }

  /** What CPU-only code adds to the history. */
  lemma {:induction false} NeutralRun(ops: seq<Op>, m: Machine, s: State)
    requires AllNeutral(ops) && OpsOk(ops, s.env.Keys) && m.out == s.out
    ensures StepAll(ops, s).env == s.env
    ensures RunOps(ops, m) == Some(m.(out := StepAll(ops, s).out))
    decreases ops
  {
    if ops != [] {
      var op := ops[0];
      StepKeys(op, s);
      var m1 := m.(out := Step(op, s).out);
      if !op.OpBranch? {
        ExecSingle(Cpu(op), m);
      }
      assert RunOps([op], m) == Some(m1) by {
        RunAppend([], op, m);
        assert [] + [op] == [op];
      }
      NeutralRun(ops[1..], m1, Step(op, s));
      RunConcat([op], ops[1..], m);
      assert [op] + ops[1..] == ops;
    }
  }

  function Restrict(env: map<int, Value>, keep: set<int>): (r: map<int, Value>)
    ensures r.Keys == env.Keys * keep
    ensures forall x :: x in r ==> r[x] == env[x]
  {
    map x | x in env && x in keep :: env[x]
  }

  /** The branches of the original code are those of the rewritten one, and each stands where the code
      before it has been rewritten. */
  lemma {:induction false} HandleAllBranches(a: Alloc, ops: seq<Op>, live: set<int>)
    requires Covers(a.stack, live) && OpsOk(ops, live)
    ensures a.done <= HandleAll(a, ops, live).done
    ensures Branches(HandleAll(a, ops, live).done) == Branches(a.done) + Branches(ops)
    decreases ops
  {
    hide OpOk, LiveAfter, HandleOp, Branches;
    if ops == [] {
      NoBranches(ops);
    } else {
      OpCovers(a, ops[0], live);
      OpBranches(a, ops[0]);
      HandleAllBranches(HandleOp(a, ops[0]), ops[1..], LiveAfter(ops[0], live));
      FirstBranches(ops);
    }
  }

  lemma FirstBranches(ops: seq<Op>)
    requires ops != []
    ensures Branches(ops) == (if ops[0].OpBranch? then [ops[0]] else []) + Branches(ops[1..])
  {
    assert ops == [ops[0]] + ops[1..] && [] + [ops[0]] == [ops[0]];
    BranchesConcat([ops[0]], ops[1..]);
    BranchesAppend([], ops[0]);
  }

  lemma {:induction false} HandleAllPrefix(a: Alloc, ops: seq<Op>, k: int, live: set<int>)
    requires Covers(a.stack, live) && OpsOk(ops, live) && 0 <= k <= |ops|
    ensures OpsOk(ops[..k], live) && HandleAll(a, ops[..k], live).done <= HandleAll(a, ops, live).done
    decreases |ops| - k
  {
    hide OpOk, HandleOp;
    if k == |ops| {
      assert ops[..k] == ops;
    } else {
      HandleNext(a, ops, k, live);
      OpBranches(HandleAll(a, ops[..k], live), ops[k]);
      HandleAllPrefix(a, ops, k + 1, live);
    }
  }

  /** The original operations up to an exit. */
  function StepTo(ops: seq<Op>, x: Exit, s: State): State
    requires OpsOk(ops, s.env.Keys) && Executed(ops, x).Some?
  {
    OpsOkSplit(ops, Executed(ops, x).value, s.env.Keys);
    StepAll(ops[..Executed(ops, x).value], s)
  }

  /** The rewritten block, entered with the stack laid out as `entry`, has up to each of its exits the
      effects of the original. To its successors it leaves with the stack laid out as `exit`, holding the
      values of the registers in `keep`. */
  ghost predicate Preserves(ops: seq<Op>, code: seq<Op>, live: set<int>, entry: seq<int>, exit: seq<int>,
                            keep: set<int>)
    requires OpsOk(ops, live)
  {
    forall x: Exit, env: map<int, Value>, m: Machine ::
      Executed(ops, x).Some? && env.Keys == live && Holds(entry, m.st, env) ==>
        PreservesExit(ops, code, exit, keep, x, env, m)
  }

  ghost predicate PreservesExit(ops: seq<Op>, code: seq<Op>, exit: seq<int>, keep: set<int>, x: Exit,
                                env: map<int, Value>, m: Machine)
    requires OpsOk(ops, env.Keys) && Executed(ops, x).Some?
  {
    var s, m' := StepTo(ops, x, State(env, m.out)), RunTo(code, x, m);
    && m'.Some? && m'.value.out == s.out
    && (x.Taken? ==> code[Executed(code, x).value] == ops[Executed(ops, x).value])
    && (LeavesBlock(ops, x) ==> Holds(exit, m'.value.st, Restrict(s.env, keep)))
  }

  lemma CarryHolds(from: seq<int>, st: seq<Value>, to: seq<int>, st': seq<Value>, env: map<int, Value>, keep: set<int>)
    requires Holds(from, st, env) && CarriesValues(from, st, to, st')
    requires forall r :: r in keep && r in env ==> r in to
    ensures Holds(to, st', Restrict(env, keep))
  {
    forall j | 0 <= j < |to| && to[j] in Restrict(env, keep)
      ensures st'[j] == env[to[j]]
    {
      var i := IndexOf(from, to[j]);
      assert from[i] == to[j];
    }
  }

  /** A block is its handled operations, the code that fits its stack to the successor's, and
      CPU-only operations after its first branch to a successor. */
  lemma BlockPreserves(ops: seq<Op>, k: int, live: set<int>, entry: seq<int>, merge: seq<Op>, exit: seq<int>,
                       keep: set<int>)
    requires OpsOk(ops, live) && 0 <= k <= |ops| && AllNeutral(ops[k..]) && Covers(entry, live)
    requires forall i :: 0 <= i < k && ops[i].OpBranch? ==> !ops[i].toBlock
    requires OpsOk(ops[..k], live)
    requires Carries(merge, HandleAll(Alloc(entry, []), ops[..k], live).stack, exit)
    requires forall r :: r in keep && r in LiveAfterAll(ops[..k], live) ==> r in exit
    ensures Preserves(ops, HandleAll(Alloc(entry, []), ops[..k], live).done + merge + ops[k..], live, entry, exit, keep)
  {
    hide HandleAll, Carries, PreservesExit, Executed, Holds, AllNeutral, OpsOk;
    var code := HandleAll(Alloc(entry, []), ops[..k], live).done + merge + ops[k..];
    forall x: Exit, env: map<int, Value>, m: Machine
      | Executed(ops, x).Some? && env.Keys == live && Holds(entry, m.st, env)
      ensures PreservesExit(ops, code, exit, keep, x, env, m)
    {
      if Executed(ops, x).value < k {
        HeadExit(ops, k, live, entry, merge + ops[k..], exit, keep, x, env, m);
        assert code == HandleAll(Alloc(entry, []), ops[..k], live).done + (merge + ops[k..]);
      } else {
        TailExit(ops, k, live, entry, merge, exit, keep, x, env, m);
      }
    }
  }

  /** In the code of the first operations an exit, to a code stub, stands behind what was handled before it. */
  lemma HeadExit(ops: seq<Op>, k: int, live: set<int>, entry: seq<int>, more: seq<Op>, exit: seq<int>, keep: set<int>,
                 x: Exit, env: map<int, Value>, m: Machine)
    requires OpsOk(ops, live) && 0 <= k <= |ops| && Covers(entry, live) && OpsOk(ops[..k], live)
    requires forall i :: 0 <= i < k && ops[i].OpBranch? ==> !ops[i].toBlock
    requires Executed(ops, x).Some? && Executed(ops, x).value < k
    requires env.Keys == live && Holds(entry, m.st, env)
    ensures PreservesExit(ops, HandleAll(Alloc(entry, []), ops[..k], live).done + more, exit, keep, x, env, m)
  {
    hide HandleAll, OpOk, HandleOp, Branches, Executed, Holds;
    var i, a0, s := Executed(ops, x).value, Alloc(entry, []), State(env, m.out);
    var code := HandleAll(a0, ops[..k], live).done + more;
    assert ops[..k][..i] == ops[..i] && ops[..k][i] == ops[i] && ops[..k][..i + 1] == ops[..i + 1];
    HandleNext(a0, ops[..k], i, live);
    var a := HandleAll(a0, ops[..i], live);
    OpBranches(a, ops[i]);
    HandleAllPrefix(a0, ops[..k], i + 1, live);
    HandleAllBranches(a0, ops[..i], live);
    NoBranches([]);
    PrefixBranch(a.done, ops[i], HandleAll(a0, ops[..k], live).done, more);
    SameExit(ops, code, x, i, |a.done|);
    CoupledStart(entry, m, env);
    HandleAllSim(a0, ops[..i], m, s);
  }

  lemma PrefixBranch(a: seq<Op>, op: Op, b: seq<Op>, more: seq<Op>)
    requires a + [op] <= b
    ensures |a| < |b + more| && (b + more)[..|a|] == a && (b + more)[|a|] == op
  {
  }

  lemma TailExit(ops: seq<Op>, k: int, live: set<int>, entry: seq<int>, merge: seq<Op>, exit: seq<int>, keep: set<int>,
                 x: Exit, env: map<int, Value>, m: Machine)
    requires OpsOk(ops, live) && 0 <= k <= |ops| && AllNeutral(ops[k..]) && Covers(entry, live)
    requires OpsOk(ops[..k], live)
    requires Carries(merge, HandleAll(Alloc(entry, []), ops[..k], live).stack, exit)
    requires forall r :: r in keep && r in LiveAfterAll(ops[..k], live) ==> r in exit
    requires Executed(ops, x).Some? && Executed(ops, x).value >= k
    requires env.Keys == live && Holds(entry, m.st, env)
    ensures PreservesExit(ops, HandleAll(Alloc(entry, []), ops[..k], live).done + merge + ops[k..], exit, keep,
                          x, env, m)
  {
    hide HandleAll, OpOk, Executed, Holds, RunOps, StepAll;
    var i, a := Executed(ops, x).value, HandleAll(Alloc(entry, []), ops[..k], live);
    var code, done := a.done + merge + ops[k..], a.done + merge + ops[k..i];
    OpsOkSplit(ops, i, live);
    assert ops[..i][..k] == ops[..k] && ops[..i][k..] == ops[k..i];
    TailBranches(ops, k, live, entry, merge, exit, i);
    assert |done| <= |code| && code[..|done|] == done;
    assert i < |ops| ==> |done| < |code| && code[|done|] == ops[i];
    SameExit(ops, code, x, i, |done|);
    BlockRun(ops[..i], k, live, entry, merge, exit, keep, env, m);
  }

  lemma TailBranches(ops: seq<Op>, k: int, live: set<int>, entry: seq<int>, merge: seq<Op>, exit: seq<int>, i: int)
    requires 0 <= k <= i <= |ops| && OpsOk(ops[..k], live) && Covers(entry, live)
    requires Carries(merge, HandleAll(Alloc(entry, []), ops[..k], live).stack, exit)
    ensures Branches(HandleAll(Alloc(entry, []), ops[..k], live).done + merge + ops[k..i]) == Branches(ops[..i])
  {
    hide HandleAll, OpsOk, Branches;
    var a := HandleAll(Alloc(entry, []), ops[..k], live);
    NoBranches([]);
    HandleAllBranches(Alloc(entry, []), ops[..k], live);
    BranchesConcat(a.done, merge);
    BranchesConcat(a.done + merge, ops[k..i]);
    BranchesConcat(ops[..k], ops[k..i]);
    assert ops[..k] + ops[k..i] == ops[..i];
  }

  lemma BlockRun(ops: seq<Op>, k: int, live: set<int>, entry: seq<int>, merge: seq<Op>, exit: seq<int>, keep: set<int>,
                 env: map<int, Value>, m: Machine)
    requires OpsOk(ops, live) && 0 <= k <= |ops| && AllNeutral(ops[k..]) && Covers(entry, live)
    requires OpsOk(ops[..k], live)
    requires Carries(merge, HandleAll(Alloc(entry, []), ops[..k], live).stack, exit)
    requires forall r :: r in keep && r in LiveAfterAll(ops[..k], live) ==> r in exit
    requires env.Keys == live && Holds(entry, m.st, env)
    ensures var code := HandleAll(Alloc(entry, []), ops[..k], live).done + merge + ops[k..];
            && RunOps(code, m).Some?
            && RunOps(code, m).value.out == StepAll(ops, State(env, m.out)).out
            && Holds(exit, RunOps(code, m).value.st, Restrict(StepAll(ops, State(env, m.out)).env, keep))
  {
    var s := State(env, m.out);
    var a0 := Alloc(entry, []);
    CoupledStart(entry, m, env);
    HandleAllSim(a0, ops[..k], m, s);
    var a, s1 := HandleAll(a0, ops[..k], live), StepAll(ops[..k], s);
    var m1 := Reached(a, m);
    RunConcat(a.done, merge, m);
    var m2 := RunOps(merge, m1).value;
    CarryHolds(a.stack, m1.st, exit, m2.st, s1.env, keep);
    StepAllSplit(ops, k, s);
    NeutralRun(ops[k..], m2, s1);
    RunConcat(a.done + merge, ops[k..], m);
  }
}
