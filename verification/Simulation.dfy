/** The allocator preserves meaning: running the rewritten code on the x87 stack computes,
register by register and effect by effect, what the original code computes on registers. */
module Simulation {
  import opened Stacks
  import opened Options
  import opened Lir
  import opened X87
  import opened AllocSpec

  /** Every register with a value is on the simulated stack, and its physical slot holds that
      value. Slots of other registers may hold anything. */
  ghost predicate Holds(stack: seq<int>, st: seq<Value>, env: map<int, Value>) {
    && |stack| == |st|
    && (forall r :: r in env ==> r in stack)
    && (forall i :: 0 <= i < |stack| && stack[i] in env ==> st[i] == env[stack[i]])
  }

  /** Running the operations placed so far from `m0` succeeds and reaches the register state
      `s`, as the simulated stack describes it. */
  ghost predicate Coupled(a: Alloc, m0: Machine, s: State) {
    && WfStack(a.stack)
    && RunOps(a.done, m0).Some?
    && RunOps(a.done, m0).value.out == s.out
    && Holds(a.stack, RunOps(a.done, m0).value.st, s.env)
  }

  ghost function Reached(a: Alloc, m0: Machine): Machine
    requires RunOps(a.done, m0).Some?
  {
    RunOps(a.done, m0).value
  }

  // ----- inserted operations -----

  lemma LiveInStack(a: Alloc, r: int, m0: Machine, s: State)
    requires Coupled(a, m0, s) && r in s.env
    ensures r in a.stack
  {
  }

  lemma HoldsSwap(stack: seq<int>, st: seq<Value>, env: map<int, Value>, k: int)
    requires Holds(stack, st, env) && WfStack(stack) && 0 <= k < |stack|
    ensures Holds(SwapTop(stack, k), SwapTop(st, k), env)
  {
    SwapKeepsWf(stack, k);
  }

  lemma HoldsPop(stack: seq<int>, st: seq<Value>, env: map<int, Value>)
    requires Holds(stack, st, env) && WfStack(stack) && stack != []
    ensures Holds(Pop(stack), Pop(st), env - {Slot(stack, 0)})
  {
    forall r | r in env - {Slot(stack, 0)}
      ensures r in Pop(stack)
    {
      assert Pop(stack)[IndexOf(stack, r)] == r;
    }
  }

  lemma HoldsPush(stack: seq<int>, st: seq<Value>, env: map<int, Value>, r: int, v: Value)
    requires Holds(stack, st, env) && r !in stack
    ensures Holds(stack + [r], st + [v], env[r := v])
  {
  }

  lemma ExchangeSim(a: Alloc, k: int, m0: Machine, s: State)
    requires Coupled(a, m0, s) && 0 <= k < |a.stack|
    ensures Coupled(Exchange(a, k), m0, s)
    ensures Reached(Exchange(a, k), m0).st == SwapTop(Reached(a, m0).st, k)
  {
    var m := Reached(a, m0);
    if k > 0 {
      FreeSlots(a.stack, {});
      RunAppend(a.done, Fxch(k), m0);
      RunFxch(k, m);
      HoldsSwap(a.stack, m.st, s.env, k);
    } else {
      assert SwapTop(m.st, 0) == m.st;
    }
  }

  lemma ExchangeRegSim(a: Alloc, r: int, m0: Machine, s: State)
    requires Coupled(a, m0, s) && r in a.stack
    ensures Coupled(ExchangeReg(a, r), m0, s)
  {
    ExchangeSim(a, OffsetFromTos(a.stack, r), m0, s);
  }

  lemma FreeSim(a: Alloc, k: int, m0: Machine, s: State)
    requires Coupled(a, m0, s) && 0 <= k < |a.stack|
    ensures Coupled(Free(a, k), m0, s.(env := s.env - {Slot(a.stack, k)}))
  {
    ExchangeSim(a, k, m0, s);
    var b := Exchange(a, k);
    RunAppend(b.done, FpopRaw, m0);
    RunFpop(Reached(b, m0));
    HoldsPop(b.stack, Reached(b, m0).st, s.env);
  }

  lemma FreeIfDeadSim(a: Alloc, r: int, m0: Machine, s: State)
    requires Coupled(a, m0, s)
    ensures Coupled(FreeIfDead(a, r), m0, s.(env := s.env - {r}))
  {
    if r in a.stack {
      FreeSim(a, OffsetFromTos(a.stack, r), m0, s);
    }
  }

  lemma FreeUnlessSim(a: Alloc, r: int, ignore: int, m0: Machine, s: State)
    requires Coupled(a, m0, s)
    ensures Coupled(FreeUnless(a, r, ignore), m0, s.(env := if r == ignore then s.env else s.env - {r}))
  {
    if r != ignore {
      FreeIfDeadSim(a, r, m0, s);
    }
  }

  lemma {:induction false} ClearSim(a: Alloc, preserve: Option<int>, m0: Machine, s: State)
    requires Coupled(a, m0, s) && (preserve.Some? ==> preserve.value in s.env)
    ensures preserve.Some? ==> preserve.value in a.stack
    ensures Coupled(Clear(a, preserve), m0,
                    s.(env := if preserve.Some? then map[preserve.value := s.env[preserve.value]] else map[]))
    decreases |a.stack|, if preserve.Some? && a.stack != [] && Slot(a.stack, 0) == preserve.value then 1 else 0
  {
    if preserve.Some? {
      LiveInStack(a, preserve.value, m0, s);
    }
    if |a.stack| <= (if preserve.Some? then 1 else 0) {
    } else if preserve.None? || Slot(a.stack, 0) != preserve.value {
      FreeSim(a, 0, m0, s);
      ClearSim(Free(a, 0), preserve, m0, s.(env := s.env - {Slot(a.stack, 0)}));
    } else {
      ExchangeSim(a, |a.stack| - 1, m0, s);
      ClearSim(Exchange(a, |a.stack| - 1), preserve, m0, s);
    }
  }

  /** Renaming moves a value from one register to another without touching the machine. */
  lemma RenameSim(a: Alloc, from: int, to: int, m0: Machine, s: State)
    requires Coupled(a, m0, s) && IsReg(to) && from in s.env && (to == from || to !in a.stack)
    ensures Coupled(Rename(a, from, to), m0, s.(env := (s.env - {from})[to := s.env[from]]))
  {
    var b := Rename(a, from, to);
    forall i | 0 <= i < |b.stack| && b.stack[i] in (s.env - {from})[to := s.env[from]]
      ensures Reached(b, m0).st[i] == (s.env - {from})[to := s.env[from]][b.stack[i]]
    {
      if a.stack[i] == from {
      } else {
        assert b.stack[i] == a.stack[i] && a.stack[i] != to;
      }
    }
  }

  /** The value on top of the machine stack is that of the register on top. */
  lemma TopValue(a: Alloc, r: int, m0: Machine, s: State)
    requires Coupled(a, m0, s) && r in s.env && a.stack != [] && Slot(a.stack, 0) == r
    ensures |Reached(a, m0).st| > 0 && St(Reached(a, m0), 0) == s.env[r]
  {
  }

  /** The value of any live register, read at its offset. */
  lemma ValueAt(a: Alloc, r: int, m0: Machine, s: State)
    requires Coupled(a, m0, s) && r in s.env
    ensures r in a.stack && |Reached(a, m0).st| == |a.stack| <= NOF_FPU_REGS
    ensures St(Reached(a, m0), OffsetFromTos(a.stack, r)) == s.env[r]
  {
    FreeSlots(a.stack, {});
  }

  /** The rewritten operation itself completes the step. */
  lemma Finish(a: Alloc, op: Op, stack: seq<int>, m0: Machine, m: Machine, s: State)
    requires RunOps(a.done, m0).Some? && RunOp(op, Reached(a, m0)) == Some(m)
    requires WfStack(stack) && m.out == s.out && Holds(stack, m.st, s.env)
    ensures Coupled(Alloc(stack, a.done + [op]), m0, s)
  {
    RunAppend(a.done, op, m0);
  }

  lemma HoldsSet(stack: seq<int>, m: Machine, env: map<int, Value>, k: int, v: Value)
    requires Holds(stack, m.st, env) && WfStack(stack) && 0 <= k < |stack|
    ensures Holds(stack, SetSt(m, k, v).st, env[Slot(stack, k) := v])
  {
  }

  lemma HoldsRename(stack: seq<int>, st: seq<Value>, env: map<int, Value>, from: int, to: int)
    requires Holds(stack, st, env) && from in env && (to == from || to !in stack)
    ensures Holds(RenameAll(stack, from, to), st, (env - {from})[to := env[from]])
  {
    var t := RenameAll(stack, from, to);
    forall r | r in (env - {from})[to := env[from]]
      ensures r in t
    {
      assert t[IndexOf(stack, if r == to then from else r)] == r;
    }
  }

  lemma HoldsSubmap(stack: seq<int>, st: seq<Value>, env: map<int, Value>, env': map<int, Value>)
    requires Holds(stack, st, env)
    requires forall r :: r in env' ==> r in env && env'[r] == env[r]
    ensures Holds(stack, st, env')
  {
    forall r | r in env'
      ensures r in env && r in stack && env'[r] == env[r]
    {
    }
  }

  /** Two environments with the same registers and values are equal. */
  lemma SameEnv(a: map<int, Value>, b: map<int, Value>)
    requires forall r :: r in a <==> r in b
    requires forall r :: r in a && r in b ==> a[r] == b[r]
    ensures a == b
  {
    forall r | r in a.Keys
      ensures r in b.Keys
    {
    }
    forall r | r in b.Keys
      ensures r in a.Keys
    {
    }
    assert a.Keys == b.Keys;
    forall r | r in a
      ensures a[r] == b[r]
    {
    }
  }

  // ----- one-operand operations -----

  lemma ReturnSim(a: Alloc, arg: Opr, res: Opr, m0: Machine, s: State)
    requires Coupled(a, m0, s) && Op1Ok(Return, arg, res, s.env.Keys)
    ensures Coupled(HandleReturn(a, arg, res), m0, Step1(Return, arg, res, s))
  {
    var preserve := if arg.Fpu? then Some(arg.reg) else None;
    ClearSim(a, preserve, m0, s);
    var b := Clear(a, preserve);
    var op := Op1(Return, if arg.Fpu? then Offset(0) else arg, res, false);
    RunRet(op, Reached(b, m0));
    Finish(b, op, b.stack, m0, RunOp(op, Reached(b, m0)).value, Step1(Return, arg, res, s));
  }

  lemma FldSim(f: Alloc, from: int, to: int, m0: Machine, s: State)
    requires Coupled(f, m0, s) && from in s.env && IsReg(to) && to !in f.stack
    ensures Coupled(PushReg(Append(f, Fld(OffsetFromTos(f.stack, from))), to), m0,
                    s.(env := s.env[to := s.env[from]]))
  {
    FreeSlots(f.stack, {to});
    ValueAt(f, from, m0, s);
    var k, m := OffsetFromTos(f.stack, from), Reached(f, m0);
    RunFld(k, m);
    HoldsPush(f.stack, m.st, s.env, to, St(m, k));
    Finish(f, Fld(k), f.stack + [to], m0, m.(st := m.st + [St(m, k)]), s.(env := s.env[to := s.env[from]]));
  }

  lemma CopyEnv(arg: Opr, res: Opr, s: State)
    requires IsLive(arg, s.env.Keys) && IsFpu(res) && arg.reg != res.reg
    ensures arg.lastUse ==>
              StepCopy(arg, res, s).env == ((s.env - {res.reg}) - {arg.reg})[res.reg := (s.env - {res.reg})[arg.reg]]
    ensures !arg.lastUse ==>
              StepCopy(arg, res, s).env == (s.env - {res.reg})[res.reg := (s.env - {res.reg})[arg.reg]]
  {
  }

  lemma CopySim(a: Alloc, arg: Opr, res: Opr, m0: Machine, s: State)
    requires Coupled(a, m0, s) && IsLive(arg, s.env.Keys) && IsFpu(res)
    ensures Coupled(CopyReg(a, arg, res), m0, StepCopy(arg, res, s))
  {
    if arg.reg != res.reg {
      var f := FreeIfDead(a, res.reg);
      var sf := s.(env := s.env - {res.reg});
      FreeIfDeadSim(a, res.reg, m0, s);
      CopyEnv(arg, res, s);
      if arg.lastUse {
        RenameSim(f, arg.reg, res.reg, m0, sf);
      } else {
        FldSim(f, arg.reg, res.reg, m0, sf);
      }
    }
  }

  lemma HandleCopySim(a: Alloc, code: Code1, arg: Opr, res: Opr, m0: Machine, s: State)
    requires Coupled(a, m0, s) && IsLive(arg, s.env.Keys) && IsFpu(res)
    requires code.Move? || code.ConvertFloat?
    ensures Coupled(HandleCopy(a, code, arg, res), m0, StepCopy(arg, res, s))
  {
    CopySim(a, arg, res, m0, s);
    var b := CopyReg(a, arg, res);
    var op := Op1(code, OffsetOf(b, res.reg), OffsetOf(b, res.reg), false);
    Finish(b, op, b.stack, m0, Reached(b, m0), StepCopy(arg, res, s));
  }

  /** Store, round, or convert the register on top, popping it or not. */
  lemma TopUseSim(a: Alloc, code: Code1, arg: Opr, res: Opr, pop: bool, m0: Machine, s: State)
    requires Coupled(a, m0, s) && IsLive(arg, s.env.Keys) && Op1Ok(code, arg, res, s.env.Keys)
    requires (code.Move? && !res.Fpu?) || code.RoundFp? || code.ConvertToInt? || code.ConvertToLong?
    requires pop == (if code.ConvertToInt? then false else code.ConvertToLong? || res.Xmm? || arg.lastUse)
    ensures Coupled(HandleTopUse(a, code, arg, res, pop, pop), m0, Step1(code, arg, res, s))
  {
    var b := ExchangeReg(a, arg.reg);
    ExchangeRegSim(a, arg.reg, m0, s);
    var m := Reached(b, m0);
    TopValue(b, arg.reg, m0, s);
    HoldsPop(b.stack, m.st, s.env);
    var op := Op1(code, Offset(0), res, pop);
    if code.ConvertToInt? {
      RunToInt(op, m);
    } else if code.ConvertToLong? {
      RunToLong(op, m);
    } else {
      RunStore(op, m);
    }
    Finish(b, op, if pop then Pop(b.stack) else b.stack, m0, RunOp(op, m).value, Step1(code, arg, res, s));
  }

  lemma PushSim(a: Alloc, code: Code1, arg: Opr, res: Opr, m0: Machine, s: State)
    requires Coupled(a, m0, s) && Op1Ok(code, arg, res, s.env.Keys)
    requires (code.Move? && !arg.Fpu?) || code.ConvertFromInt?
    ensures Coupled(HandlePush(a, code, arg, res), m0, Step1(code, arg, res, s))
  {
    var f := FreeIfDead(a, res.reg);
    var sf := s.(env := s.env - {res.reg});
    FreeIfDeadSim(a, res.reg, m0, s);
    FreeSlots(f.stack, {res.reg});
    var m := Reached(f, m0);
    var op := Op1(code, arg, Offset(0), false);
    var v := if code.Move? then Content(arg, s.out) else FromInt(arg.addr, s.out);
    if code.Move? {
      RunLoad(op, m);
    } else {
      RunFromInt(op, m);
    }
    HoldsPush(f.stack, m.st, sf.env, res.reg, v);
    assert sf.env[res.reg := v] == s.env[res.reg := v];
    Finish(f, op, f.stack + [res.reg], m0, m.(st := m.st + [v]), Step1(code, arg, res, s));
  }

  /** A value on top is overwritten by `v` and renamed from `from` to `to`. */
  lemma ReplaceTop(b: Alloc, op: Op, from: int, to: int, v: Value, m0: Machine, s: State, env': map<int, Value>)
    requires Coupled(b, m0, s) && from in s.env && IsReg(to) && (to == from || to !in b.stack)
    requires b.stack != [] && Slot(b.stack, 0) == from
    requires |Reached(b, m0).st| > 0 && RunOp(op, Reached(b, m0)) == Some(SetSt(Reached(b, m0), 0, v))
    requires forall r :: r in env' <==> r == to || (r in s.env && r != from)
    requires env'[to] == v && forall r :: r in env' && r != to ==> env'[r] == s.env[r]
    ensures Coupled(Append(Rename(b, from, to), op), m0, s.(env := env'))
  {
    var m := Reached(b, m0);
    HoldsSet(b.stack, m, s.env, 0, v);
    HoldsRename(b.stack, SetSt(m, 0, v).st, s.env[from := v], from, to);
    SameEnv((s.env[from := v] - {from})[to := v], env');
    Finish(b, op, Rename(b, from, to).stack, m0, SetSt(m, 0, v), s.(env := env'));
  }

  lemma NegSim(a: Alloc, arg: Opr, res: Opr, m0: Machine, s: State)
    requires Coupled(a, m0, s) && Op1Ok(Neg, arg, res, s.env.Keys)
    ensures Coupled(HandleNeg(a, arg, res), m0, Step1(Neg, arg, res, s))
  {
    hide RunOp, Holds, Rename;
    LiveInStack(a, arg.reg, m0, s);
    var f := FreeUnless(a, res.reg, arg.reg);
    var sf := s.(env := if res.reg == arg.reg then s.env else s.env - {res.reg});
    FreeUnlessSim(a, res.reg, arg.reg, m0, s);
    var b := ExchangeReg(f, arg.reg);
    ExchangeRegSim(f, arg.reg, m0, sf);
    var m := Reached(b, m0);
    TopValue(b, arg.reg, m0, sf);
    var op := Op1(Neg, Offset(0), Offset(0), false);
    RunNeg(op, m);
    ReplaceTop(b, op, arg.reg, res.reg, Negated(s.env[arg.reg]), m0, sf, Step1(Neg, arg, res, s).env);
  }

  lemma Op1Sim(a: Alloc, code: Code1, arg: Opr, res: Opr, m0: Machine, s: State)
    requires Coupled(a, m0, s) && Op1Ok(code, arg, res, s.env.Keys)
    ensures Op1Ok(code, arg, res, Elements(a.stack))
    ensures Coupled(HandleOp1(a, code, arg, res), m0, Step1(code, arg, res, s))
  {
    match code
    case Return => ReturnSim(a, arg, res, m0, s);
    case Move =>
      if !arg.Fpu? {
        PushSim(a, code, arg, res, m0, s);
      } else if res.Fpu? {
        HandleCopySim(a, code, arg, res, m0, s);
      } else {
        TopUseSim(a, code, arg, res, res.Xmm? || arg.lastUse, m0, s);
      }
    case Neg => NegSim(a, arg, res, m0, s);
    case ConvertFloat => HandleCopySim(a, code, arg, res, m0, s);
    case ConvertFromInt => PushSim(a, code, arg, res, m0, s);
    case ConvertToInt => TopUseSim(a, code, arg, res, false, m0, s);
    case ConvertToLong => TopUseSim(a, code, arg, res, true, m0, s);
    case RoundFp => TopUseSim(a, code, arg, res, arg.lastUse, m0, s);
  }

  // ----- two-operand operations -----

  lemma CompareSim(a: Alloc, op: Op, m0: Machine, s: State)
    requires Coupled(a, m0, s) && op.Op2? && op.code2.Compare? && !op.pop
    requires IsLive(op.left, s.env.Keys) && IsLive(op.right, s.env.Keys)
    ensures Coupled(HandleCompare(a, op), m0, Step2(op.code2, op.left, op.right, op.res, op.tmp1, op.tmp2, s))
  {
    var b := ExchangeReg(a, op.left.reg);
    ExchangeRegSim(a, op.left.reg, m0, s);
    TopValue(b, op.left.reg, m0, s);
    ValueAt(b, op.right.reg, m0, s);
    var m := Reached(b, m0);
    HoldsPop(b.stack, m.st, s.env);
    var op' := op.(left := Offset(0), right := OffsetOf(b, op.right.reg), pop := op.left.lastUse);
    RunCompare(op', m);
    Finish(b, op', if op.left.lastUse then Pop(b.stack) else b.stack, m0, RunOp(op', m).value,
           Step2(op.code2, op.left, op.right, op.res, op.tmp1, op.tmp2, s));
  }

  /** What strict operations free beforehand. */
  lemma StrictTempSim(a: Alloc, op: Op, m0: Machine, s: State)
    requires Coupled(a, m0, s) && op.Op2? && op.code2.Arith? && IsLive(op.left, s.env.Keys)
    requires Op2Ok(op.code2, op.left, op.right, op.res, op.tmp1, op.tmp2, s.env.Keys)
    ensures var strict := op.code2.strictness != Relaxed;
            var b := if strict then FreeIfDead(a, op.tmp1.reg) else a;
            && Coupled(b, m0, if strict then s.(env := s.env - {op.tmp1.reg}) else s)
            && (strict ==> |b.stack| < NOF_FPU_REGS)
  {
    if op.code2.strictness != Relaxed {
      FreeIfDeadSim(a, op.tmp1.reg, m0, s);
      FreeSlots(FreeIfDead(a, op.tmp1.reg).stack, {op.tmp1.reg});
    }
  }

  lemma ArithMemSim(a: Alloc, op: Op, m0: Machine, s: State)
    requires Coupled(a, m0, s) && op.Op2? && op.code2.Arith? && !op.pop
    requires IsLive(op.left, s.env.Keys) && op.res == op.left && op.right.Mem?
    requires op.code2.strictness == StrictDouble ==> |a.stack| < NOF_FPU_REGS
    ensures Coupled(HandleArithMem(a, op), m0, s.(env := s.env[op.left.reg :=
              ArithResult(op.code2.op, op.code2.strictness, s.env[op.left.reg], Content(op.right, s.out))]))
  {
    var b := ExchangeReg(a, op.left.reg);
    ExchangeRegSim(a, op.left.reg, m0, s);
    TopValue(b, op.left.reg, m0, s);
    FreeSlots(b.stack, {});
    var m := Reached(b, m0);
    var op' := op.(left := Offset(0), res := OffsetOf(b, op.res.reg));
    RunArith(op', m);
    var v := ArithResult(op.code2.op, op.code2.strictness, s.env[op.left.reg], Content(op.right, s.out));
    HoldsSet(b.stack, m, s.env, 0, v);
    Finish(b, op', b.stack, m0, SetSt(m, 0, v), s.(env := s.env[op.left.reg := v]));
  }

  ghost function RegResult(op: Op, s: State): Value
    requires op.Op2? && op.code2.Arith? && IsLive(op.left, s.env.Keys) && IsLive(op.right, s.env.Keys)
  {
    ArithResult(op.code2.op, op.code2.strictness, s.env[op.left.reg], s.env[op.right.reg])
  }

  ghost predicate ArithRegOk(a: Alloc, op: Op, m0: Machine, s: State) {
    && Coupled(a, m0, s) && op.Op2? && op.code2.Arith? && !op.pop
    && IsLive(op.left, s.env.Keys) && op.res == op.left && IsLive(op.right, s.env.Keys)
    && (op.right.lastUse ==> op.right.reg != op.left.reg)
    && (op.code2.strictness == StrictDouble ==> |a.stack| < NOF_FPU_REGS && op.right.reg != op.left.reg)
  }

  lemma ArithRightTopSim(a: Alloc, op: Op, m0: Machine, s: State)
    requires ArithRegOk(a, op, m0, s) && OffsetFromTos(a.stack, op.right.reg) == 0
    ensures Coupled(HandleArithReg(a, op), m0,
                    s.(env := AfterUse(s.env, op.right)[op.left.reg := RegResult(op, s)]))
  {
    hide RunOp, Holds, ArithResult;
    var l, r, v := op.left.reg, op.right.reg, RegResult(op, s);
    LiveInStack(a, l, m0, s);
    LiveInStack(a, r, m0, s);
    var m := Reached(a, m0);
    var k := OffsetFromTos(a.stack, l);
    ValueAt(a, l, m0, s);
    ValueAt(a, r, m0, s);
    HoldsSet(a.stack, m, s.env, k, v);
    var b := if op.right.lastUse then PopReg(a) else a;
    if op.right.lastUse {
      SameSlot(a.stack, l);
      HoldsPop(a.stack, SetSt(m, k, v).st, s.env[l := v]);
      assert s.env[l := v] - {r} == (s.env - {r})[l := v];
    }
    var op' := op.(left := OffsetOf(a, l), right := Offset(0), res := OffsetOf(b, l), pop := op.right.lastUse);
    RunArith(op', m);
    Finish(a, op', b.stack, m0, RunOp(op', m).value, s.(env := AfterUse(s.env, op.right)[l := v]));
  }

  /** Popping the top moves every other register one slot up. */
  lemma SameSlot(stack: seq<int>, r: int)
    requires WfStack(stack) && r in stack && Slot(stack, 0) != r
    ensures r in Pop(stack) && OffsetFromTos(Pop(stack), r) == OffsetFromTos(stack, r) - 1
  {
    assert Pop(stack)[IndexOf(stack, r)] == r;
  }

  lemma ArithLeftTopSim(a: Alloc, op: Op, m0: Machine, s: State)
    requires ArithRegOk(a, op, m0, s) && OffsetFromTos(a.stack, op.right.reg) != 0
    ensures Coupled(HandleArithReg(a, op), m0,
                    s.(env := AfterUse(s.env, op.right)[op.left.reg := RegResult(op, s)]))
  {
    var e := ExchangeReg(a, op.left.reg);
    ExchangeRegSim(a, op.left.reg, m0, s);
    if op.right.lastUse {
      ArithConsumeSim(e, op, m0, s);
    } else {
      ArithKeepSim(e, op, m0, s);
    }
  }

  lemma ArithKeepSim(e: Alloc, op: Op, m0: Machine, s: State)
    requires ArithRegOk(e, op, m0, s) && Slot(e.stack, 0) == op.left.reg && !op.right.lastUse
    ensures Coupled(Append(e, op.(left := Offset(0), right := OffsetOf(e, op.right.reg),
                                  res := OffsetOf(e, op.left.reg), pop := false)),
                    m0, s.(env := s.env[op.left.reg := RegResult(op, s)]))
  {
    var l, r, v := op.left.reg, op.right.reg, RegResult(op, s);
    var m := Reached(e, m0);
    ValueAt(e, l, m0, s);
    ValueAt(e, r, m0, s);
    var op' := op.(left := Offset(0), right := OffsetOf(e, r), res := OffsetOf(e, l), pop := false);
    RunArith(op', m);
    HoldsSet(e.stack, m, s.env, 0, v);
    Finish(e, op', e.stack, m0, SetSt(m, 0, v), s.(env := s.env[l := v]));
  }

  lemma ArithConsumeSim(e: Alloc, op: Op, m0: Machine, s: State)
    requires ArithRegOk(e, op, m0, s) && Slot(e.stack, 0) == op.left.reg && op.right.lastUse
    ensures var b := Rename(PopReg(e), op.right.reg, op.left.reg);
            Coupled(Append(b, op.(left := Offset(0), right := OffsetOf(e, op.right.reg),
                                  res := OffsetOf(b, op.left.reg), pop := true)),
                    m0, s.(env := (s.env - {op.right.reg})[op.left.reg := RegResult(op, s)]))
  {
    hide RunOp, ArithResult, Holds;
    var l, r, v := op.left.reg, op.right.reg, RegResult(op, s);
    ValueAt(e, l, m0, s);
    ValueAt(e, r, m0, s);
    var m, k := Reached(e, m0), OffsetFromTos(e.stack, r);
    SameSlot(e.stack, r);
    RenamedSlot(Pop(e.stack), r, l);
    var b := Rename(PopReg(e), r, l);
    var op' := op.(left := Offset(0), right := OffsetOf(e, r), res := OffsetOf(b, l), pop := true);
    RunArith(op', m);
    ConsumedBelowTop(e.stack, m, s.env, k, l, v);
    assert (s.env - {r, l})[l := v] == (s.env - {r})[l := v];
    Finish(e, op', b.stack, m0, Drop(SetSt(m, k, v)), s.(env := (s.env - {r})[l := v]));
  }

  lemma RenamedSlot(stack: seq<int>, from: int, to: int)
    requires WfStack(stack) && from in stack && to !in stack
    ensures to in RenameAll(stack, from, to)
    ensures OffsetFromTos(RenameAll(stack, from, to), to) == OffsetFromTos(stack, from)
  {
    assert RenameAll(stack, from, to)[IndexOf(stack, from)] == to;
  }

  /** The result is written over the register `k` below the top, the top is popped, and the
      overwritten slot takes the name `to`. */
  lemma ConsumedBelowTop(stack: seq<int>, m: Machine, env: map<int, Value>, k: int, to: int, v: Value)
    requires Holds(stack, m.st, env) && WfStack(stack) && 0 < k < |stack|
    requires to == Slot(stack, 0) || to !in stack
    requires Slot(stack, k) in env
    ensures Holds(RenameAll(Pop(stack), Slot(stack, k), to), Drop(SetSt(m, k, v)).st,
                  (env - {Slot(stack, k), Slot(stack, 0)})[to := v])
  {
    var l, r := Slot(stack, 0), Slot(stack, k);
    HoldsSet(stack, m, env, k, v);
    HoldsPop(stack, SetSt(m, k, v).st, env[r := v]);
    assert r in env[r := v] - {l};
    HoldsRename(Pop(stack), Drop(SetSt(m, k, v)).st, env[r := v] - {l}, r, to);
    assert ((env[r := v] - {l}) - {r})[to := v] == (env - {r, l})[to := v];
  }

  lemma ArithSim(a: Alloc, op: Op, m0: Machine, s: State)
    requires Coupled(a, m0, s) && op.Op2? && op.code2.Arith? && !op.pop && IsLive(op.left, s.env.Keys)
    requires Op2Ok(op.code2, op.left, op.right, op.res, op.tmp1, op.tmp2, s.env.Keys)
    ensures Op2Ok(op.code2, op.left, op.right, op.res, op.tmp1, op.tmp2, Elements(a.stack))
    ensures Coupled(HandleArith(a, op), m0, Step2(op.code2, op.left, op.right, op.res, op.tmp1, op.tmp2, s))
  {
    hide RunOp, ArithResult, HandleArithReg, HandleArithMem;
    StrictTempSim(a, op, m0, s);
    var strict := op.code2.strictness != Relaxed;
    var b := if strict then FreeIfDead(a, op.tmp1.reg) else a;
    var sb := if strict then s.(env := s.env - {op.tmp1.reg}) else s;
    var goal := Step2(op.code2, op.left, op.right, op.res, op.tmp1, op.tmp2, s);
    if op.right.Fpu? {
      assert AfterUse(sb.env, op.right)[op.left.reg := RegResult(op, sb)] == goal.env;
      if OffsetFromTos(b.stack, op.right.reg) == 0 {
        ArithRightTopSim(b, op, m0, sb);
      } else {
        ArithLeftTopSim(b, op, m0, sb);
      }
    } else {
      ArithMemSim(b, op, m0, sb);
    }
  }

  lemma BothToTopSim(a: Alloc, l: int, r: int, m0: Machine, s: State)
    requires Coupled(a, m0, s) && l in a.stack && r in a.stack && l != r
    ensures Coupled(BothToTop(a, l, r), m0, s)
  {
    assert IndexOf(a.stack, l) != IndexOf(a.stack, r);
    if OffsetFromTos(a.stack, r) != 1 {
      ExchangeRegSim(a, r, m0, s);
      ExchangeSim(ExchangeReg(a, r), 1, m0, s);
      ExchangeRegSim(Exchange(ExchangeReg(a, r), 1), l, m0, s);
    } else {
      ExchangeRegSim(a, l, m0, s);
    }
  }

  lemma TopTwoValues(e: Alloc, l: int, r: int, m0: Machine, s: State)
    requires Coupled(e, m0, s) && l in s.env && r in s.env
    requires |e.stack| >= 2 && Slot(e.stack, 0) == l && Slot(e.stack, 1) == r
    ensures |Reached(e, m0).st| >= 2
    ensures St(Reached(e, m0), 0) == s.env[l] && St(Reached(e, m0), 1) == s.env[r]
  {
  }

  /** Left on top and right below it are replaced by one result. */
  lemma BinaryTopSim(e: Alloc, op: Op, l: int, r: int, to: int, v: Value, m0: Machine, s: State, env': map<int, Value>)
    requires Coupled(e, m0, s) && l in s.env && r in s.env && l != r && IsReg(to)
    requires |e.stack| >= 2 && Slot(e.stack, 0) == l && Slot(e.stack, 1) == r
    requires to == l || to !in e.stack
    requires |Reached(e, m0).st| >= 2
    requires RunOp(op, Reached(e, m0)) == Some(Drop(SetSt(Reached(e, m0), 1, v)))
    requires forall x :: x in env' <==> x == to || (x in s.env && x != l && x != r)
    requires env'[to] == v && forall x :: x in env' && x != to ==> env'[x] == s.env[x]
    ensures Coupled(Append(Rename(PopReg(e), r, to), op), m0, s.(env := env'))
  {
    var m := Reached(e, m0);
    ConsumedBelowTop(e.stack, m, s.env, 1, to, v);
    SameEnv((s.env - {r, l})[to := v], env');
    Finish(e, op, Rename(PopReg(e), r, to).stack, m0, Drop(SetSt(m, 1, v)), s.(env := env'));
  }

  lemma RemSim(a: Alloc, op: Op, m0: Machine, s: State)
    requires Coupled(a, m0, s) && op.Op2? && op.code2.Rem? && IsLive(op.left, s.env.Keys)
    requires Op2Ok(op.code2, op.left, op.right, op.res, op.tmp1, op.tmp2, s.env.Keys)
    ensures Coupled(HandleRem(a, op), m0, Step2(op.code2, op.left, op.right, op.res, op.tmp1, op.tmp2, s))
  {
    hide RunOp, BothToTop, Holds;
    var l, r := op.left.reg, op.right.reg;
    LiveInStack(a, l, m0, s);
    LiveInStack(a, r, m0, s);
    var e := BothToTop(a, l, r);
    BothToTopSim(a, l, r, m0, s);
    TopTwoValues(e, l, r, m0, s);
    var m := Reached(e, m0);
    var op' := op.(left := Offset(0), right := Offset(1), res := Offset(0), pop := true);
    RunRem(op', m);
    var v := Remainder(s.env[l], s.env[r]);
    BinaryTopSim(e, op', l, r, l, v, m0, s, (s.env - {r})[l := v]);
  }

  lemma PowSim(a: Alloc, op: Op, m0: Machine, s: State)
    requires Coupled(a, m0, s) && op.Op2? && op.code2.Pow? && IsLive(op.left, s.env.Keys)
    requires Op2Ok(op.code2, op.left, op.right, op.res, op.tmp1, op.tmp2, s.env.Keys)
    ensures Op2Ok(op.code2, op.left, op.right, op.res, op.tmp1, op.tmp2, Elements(a.stack))
    ensures Coupled(HandlePow(a, op), m0, Step2(op.code2, op.left, op.right, op.res, op.tmp1, op.tmp2, s))
  {
    var f := FreeUnless(FreeIfDead(FreeIfDead(a, op.tmp1.reg), op.tmp2.reg), op.res.reg, op.right.reg);
    var sf := s.(env := s.env - {op.tmp1.reg, op.tmp2.reg, op.res.reg});
    PowFreeSim(a, op, m0, s);
    PowTopSim(f, op, m0, sf, Step2(op.code2, op.left, op.right, op.res, op.tmp1, op.tmp2, s).env);
  }

  lemma PowFreeSim(a: Alloc, op: Op, m0: Machine, s: State)
    requires Coupled(a, m0, s) && op.Op2? && op.code2.Pow? && IsLive(op.left, s.env.Keys)
    requires Op2Ok(op.code2, op.left, op.right, op.res, op.tmp1, op.tmp2, s.env.Keys)
    ensures Coupled(FreeUnless(FreeIfDead(FreeIfDead(a, op.tmp1.reg), op.tmp2.reg), op.res.reg, op.right.reg), m0,
                    s.(env := s.env - {op.tmp1.reg, op.tmp2.reg, op.res.reg}))
  {
    var t := op.res.reg;
    FreeTwoSim(a, op.tmp1.reg, op.tmp2.reg, m0, s);
    FreeUnlessSim(FreeIfDead(FreeIfDead(a, op.tmp1.reg), op.tmp2.reg), t, op.right.reg, m0,
                  s.(env := s.env - {op.tmp1.reg, op.tmp2.reg}));
    assert (s.env - {op.tmp1.reg, op.tmp2.reg}) - {t} == s.env - {op.tmp1.reg, op.tmp2.reg, t};
  }

  lemma PowTopSim(f: Alloc, op: Op, m0: Machine, s: State, env': map<int, Value>)
    requires Coupled(f, m0, s) && op.Op2? && op.code2.Pow? && IsLive(op.left, s.env.Keys)
    requires Op2Ok(op.code2, op.left, op.right, op.res, op.tmp1, op.tmp2, s.env.Keys)
    requires op.tmp1.reg !in f.stack && op.tmp2.reg !in f.stack && op.res.reg !in f.stack
    requires forall x :: x in env' <==> x == op.res.reg || (x in s.env && x != op.left.reg && x != op.right.reg)
    requires env'[op.res.reg] == Power(s.env[op.left.reg], s.env[op.right.reg])
    requires forall x :: x in env' && x != op.res.reg ==> env'[x] == s.env[x]
    ensures var e := BothToTop(f, op.left.reg, op.right.reg);
            Coupled(Append(Rename(PopReg(e), op.right.reg, op.res.reg),
                           op.(left := Offset(0), right := Offset(1), res := Offset(0), stackSize := |e.stack|)),
                    m0, s.(env := env'))
  {
    var l, r, t := op.left.reg, op.right.reg, op.res.reg;
    var e := BothToTop(f, l, r);
    BothToTopSim(f, l, r, m0, s);
    TopTwoValues(e, l, r, m0, s);
    TwoFreeSlots(e.stack, op.tmp1.reg, op.tmp2.reg);
    var m := Reached(e, m0);
    var op' := op.(left := Offset(0), right := Offset(1), res := Offset(0), stackSize := |e.stack|);
    RunPow(op', m);
    var v := Power(s.env[l], s.env[r]);
    BinaryTopSim(e, op', l, r, t, v, m0, s, env');
  }

  lemma UnarySim(a: Alloc, op: Op, m0: Machine, s: State, temps: set<int>, env': map<int, Value>)
    requires Coupled(a, m0, s) && op.Op2? && IsLive(op.left, s.env.Keys) && IsFpu(op.res)
    requires op.code2.Abs? || op.code2.Sqrt? || op.code2.Log? || op.code2.Log10? || op.code2.Intrinsic?
    requires Scratch(op.code2) <= |temps|
    requires forall t :: t in temps ==> IsReg(t) && t !in a.stack && t != op.res.reg
    requires forall x :: x in env' <==> x == op.res.reg || (x in s.env && x != op.left.reg)
    requires env'[op.res.reg] == UnaryValue(op.code2, s.env[op.left.reg])
    requires forall x :: x in env' && x != op.res.reg ==> env'[x] == s.env[x]
    ensures Coupled(HandleUnary(a, op), m0, s.(env := env'))
  {
    var l, t := op.left.reg, op.res.reg;
    var f := FreeUnless(a, t, l);
    var sf := s.(env := if t == l then s.env else s.env - {t});
    FreeUnlessSim(a, t, l, m0, s);
    var e := ExchangeReg(f, l);
    ExchangeRegSim(f, l, m0, sf);
    TopValue(e, l, m0, sf);
    FreeSlots(e.stack, temps);
    var op' := op.(left := Offset(0), res := Offset(0), stackSize := |e.stack|);
    RunUnary(op', Reached(e, m0));
    ReplaceTop(e, op', l, t, UnaryValue(op.code2, s.env[l]), m0, sf, env');
  }

  lemma LogSim(a: Alloc, op: Op, m0: Machine, s: State)
    requires Coupled(a, m0, s) && op.Op2? && IsLive(op.left, s.env.Keys)
    requires op.code2.Log? || op.code2.Log10?
    requires Op2Ok(op.code2, op.left, op.right, op.res, op.tmp1, op.tmp2, s.env.Keys)
    ensures Coupled(HandleUnary(FreeIfDead(a, op.tmp1.reg), op), m0,
                    Step2(op.code2, op.left, op.right, op.res, op.tmp1, op.tmp2, s))
  {
    var sf := s.(env := s.env - {op.tmp1.reg});
    FreeIfDeadSim(a, op.tmp1.reg, m0, s);
    UnarySim(FreeIfDead(a, op.tmp1.reg), op, m0, sf, {op.tmp1.reg},
             Step2(op.code2, op.left, op.right, op.res, op.tmp1, op.tmp2, s).env);
  }

  lemma FreeTwoSim(a: Alloc, r: int, t: int, m0: Machine, s: State)
    requires Coupled(a, m0, s)
    ensures Coupled(FreeIfDead(FreeIfDead(a, r), t), m0, s.(env := s.env - {r, t}))
  {
    FreeIfDeadSim(a, r, m0, s);
    FreeIfDeadSim(FreeIfDead(a, r), t, m0, s.(env := s.env - {r}));
    assert (s.env - {r}) - {t} == s.env - {r, t};
  }

  lemma IntrinsicSim(a: Alloc, op: Op, m0: Machine, s: State)
    requires Coupled(a, m0, s) && op.Op2? && op.code2.Intrinsic? && IsLive(op.left, s.env.Keys)
    requires Op2Ok(op.code2, op.left, op.right, op.res, op.tmp1, op.tmp2, s.env.Keys)
    ensures Coupled(HandleUnary(FreeIfDead(FreeIfDead(a, op.right.reg), op.tmp1.reg), op), m0,
                    Step2(op.code2, op.left, op.right, op.res, op.tmp1, op.tmp2, s))
  {
    FreeTwoSim(a, op.right.reg, op.tmp1.reg, m0, s);
    var sf := s.(env := s.env - {op.right.reg, op.tmp1.reg});
    UnarySim(FreeIfDead(FreeIfDead(a, op.right.reg), op.tmp1.reg), op, m0, sf, {op.right.reg, op.tmp1.reg},
             Step2(op.code2, op.left, op.right, op.res, op.tmp1, op.tmp2, s).env);
  }

  lemma Op2Sim(a: Alloc, op: Op, m0: Machine, s: State)
    requires Coupled(a, m0, s) && op.Op2? && !op.pop && IsLive(op.left, s.env.Keys)
    requires Op2Ok(op.code2, op.left, op.right, op.res, op.tmp1, op.tmp2, s.env.Keys)
    ensures IsLive(op.left, Elements(a.stack))
    ensures Op2Ok(op.code2, op.left, op.right, op.res, op.tmp1, op.tmp2, Elements(a.stack))
    ensures Coupled(HandleOp2(a, op), m0, Step2(op.code2, op.left, op.right, op.res, op.tmp1, op.tmp2, s))
  {
    match op.code2
    case Compare(_) => CompareSim(a, op, m0, s);
    case Arith(_, _) => ArithSim(a, op, m0, s);
    case Rem => RemSim(a, op, m0, s);
    case Abs => UnarySim(a, op, m0, s, {}, Step2(op.code2, op.left, op.right, op.res, op.tmp1, op.tmp2, s).env);
    case Sqrt => UnarySim(a, op, m0, s, {}, Step2(op.code2, op.left, op.right, op.res, op.tmp1, op.tmp2, s).env);
    case Log => LogSim(a, op, m0, s);
    case Log10 => LogSim(a, op, m0, s);
    case Intrinsic(_) => IntrinsicSim(a, op, m0, s);
    case Pow => PowSim(a, op, m0, s);
  }

  // ----- any operation -----

  lemma CallSim(a: Alloc, id: int, res: Opr, m0: Machine, s: State)
    requires Coupled(a, m0, s) && (IsFpu(res) || !(res.Fpu? || res.Offset?))
    ensures Coupled(HandleCall(a, id, res), m0, Step(OpCall(id, res), s))
  {
    ClearSim(a, None, m0, s);
    var b := Clear(a, None);
    var m := Reached(b, m0);
    var op := OpCall(id, if res.Fpu? then Offset(0) else res);
    RunCall(op, m);
    Finish(b, op, if res.Fpu? then b.stack + [res.reg] else b.stack, m0, RunOp(op, m).value,
           Step(OpCall(id, res), s));
  }

  lemma NeutralSim(a: Alloc, op: Op, m0: Machine, s: State)
    requires Coupled(a, m0, s) && Neutral(op)
    ensures Coupled(Append(a, op), m0, Step(op, s))
  {
    var m := Reached(a, m0);
    if !op.OpBranch? {
      ExecSingle(Cpu(op), m);
    }
    Finish(a, op, a.stack, m0, if op.OpBranch? then m else Emits(m, CpuWork(op)), Step(op, s));
  }

  /** One operation: whatever the stack looked like, the inserted exchanges, copies and pops
      together with the rewritten operation do on the machine what the operation does on
      registers. */
  lemma OpSim(a: Alloc, op: Op, m0: Machine, s: State)
    requires Coupled(a, m0, s) && OpOk(op, s.env.Keys)
    ensures OpOk(op, Elements(a.stack))
    ensures Coupled(HandleOp(a, op), m0, Step(op, s))
  {
    if Neutral(op) {
      NeutralSim(a, op, m0, s);
    } else {
      match op
      case Op1(code, arg, res, _) => Op1Sim(a, code, arg, res, m0, s);
      case Op2(_, _, _, _, _, _, _, _) => Op2Sim(a, op, m0, s);
      case OpCall(id, res) => CallSim(a, id, res, m0, s);
    }
  }
}
