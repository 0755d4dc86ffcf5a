/** The FPU stack allocator, working in place on the simulated stack and the LIR list of one
block. Every method is proved to do what the functions of `AllocSpec` say. */
module Allocator {
  import opened Stacks
  import opened Options
  import opened Lir
  import opened AllocSpec
  import opened StackSim

  class FpuStackAllocator {
    const sim: FpuStackSim
    const tempSim: FpuStackSim
    var lir: seq<Op>
    var pos: int
    /** The stack at the point of the current operation where debug information is computed. */
    var info: Option<seq<int>>

    ghost predicate Valid()
      reads this, sim, sim.regs, tempSim, tempSim.regs
    {
      && sim.Valid() && tempSim.Valid() && sim != tempSim && sim.regs != tempSim.regs
      && 0 <= pos <= |lir|
    }

    /** The simulated stack, and what stands before the current position. */
    ghost function State(): Alloc
      requires Valid()
      reads this, sim, sim.regs, tempSim, tempSim.regs
    {
      Alloc(sim.Contents(), lir[..pos])
    }

    ghost function Todo(): seq<Op>
      requires Valid()
      reads this, sim, sim.regs, tempSim, tempSim.regs
    {
      lir[pos..]
    }

    constructor ()
      ensures Valid() && sim.Contents() == [] && fresh(sim) && fresh(sim.regs) && fresh(tempSim) && fresh(tempSim.regs)
    {
      sim := new FpuStackSim();
      tempSim := new FpuStackSim();
      lir := [];
      pos := 0;
      info := None;
    }

    ghost predicate InfoIs(stack: seq<int>)
      reads this
    {
      info.Some? && IsState(info.value) && StateStack(info.value) == stack
    }

    /** Debug information is computed once for every operation. Exception handlers are allocated from
        the stack recorded here. */
    method ComputeDebugInformation()
      requires Valid()
      modifies this`info
      ensures if old(info).None? then InfoIs(sim.Contents()) else info == old(info)
    {
      if info.None? {
        var state := sim.WriteState();
        info := Some(state);
      }
    }

    // ----- inserted operations -----

    method InsertOp(op: Op)
      requires Valid()
      modifies this`lir, this`pos
      ensures Valid() && sim.Contents() == old(sim.Contents())
      ensures State() == Append(old(State()), op) && Todo() == old(Todo())
    {
      lir := lir[..pos] + [op] + lir[pos..];
      pos := pos + 1;
      assert lir[..pos] == old(lir[..pos]) + [op] && lir[pos..] == old(lir[pos..]);
    }

    method InsertExchange(k: int)
      requires Valid() && WfStack(sim.Contents()) && 0 <= k < |sim.Contents()|
      modifies this`lir, this`pos, sim, sim.regs
      ensures Valid() && State() == Exchange(old(State()), k) && Todo() == old(Todo())
    {
      if k > 0 {
        InsertOp(Fxch(k));
        sim.Swap(k);
      }
    }

    method InsertExchangeReg(r: int)
      requires Valid() && WfStack(sim.Contents()) && r in sim.Contents()
      modifies this`lir, this`pos, sim, sim.regs
      ensures Valid() && State() == ExchangeReg(old(State()), r) && Todo() == old(Todo())
    {
      var k := sim.TosOffset(r);
      InsertExchange(k);
    }

    method InsertFree(k: int)
      requires Valid() && WfStack(sim.Contents()) && 0 <= k < |sim.Contents()|
      modifies this`lir, this`pos, sim, sim.regs
      ensures Valid() && State() == Free(old(State()), k) && Todo() == old(Todo())
    {
      InsertExchange(k);
      InsertOp(FpopRaw);
      sim.PopTop();
    }

    method InsertFreeIfDead(r: int)
      requires Valid() && WfStack(sim.Contents())
      modifies this`lir, this`pos, sim, sim.regs
      ensures Valid() && State() == FreeIfDead(old(State()), r) && Todo() == old(Todo())
    {
      var found := sim.Contains(r);
      if found {
        var k := sim.TosOffset(r);
        InsertFree(k);
      }
    }

    method InsertFreeUnless(r: int, ignore: int)
      requires Valid() && WfStack(sim.Contents())
      modifies this`lir, this`pos, sim, sim.regs
      ensures Valid() && State() == FreeUnless(old(State()), r, ignore) && Todo() == old(Todo())
    {
      if r != ignore {
        InsertFreeIfDead(r);
      }
    }

    method InsertCopy(from: int, to: int)
      requires Valid() && WfStack(sim.Contents()) && from in sim.Contents() && IsReg(to) && to !in sim.Contents()
      modifies this`lir, this`pos, sim, sim.regs
      ensures Valid() && Todo() == old(Todo())
      ensures State() == PushReg(Append(old(State()), Fld(OffsetFromTos(old(sim.Contents()), from))), to)
    {
      var k := sim.TosOffset(from);
      InsertOp(Fld(k));
      FreeSlots(sim.Contents(), {to});
      sim.Push(to);
    }

    method DoRename(from: int, to: int)
      requires Valid() && WfStack(sim.Contents()) && IsReg(to)
      requires from in sim.Contents() && (to == from || to !in sim.Contents())
      modifies sim.regs
      ensures Valid() && State() == Rename(old(State()), from, to) && Todo() == old(Todo())
    {
      sim.Rename(from, to);
    }

    method DoPush(r: int)
      requires Valid() && WfStack(sim.Contents()) && IsReg(r) && r !in sim.Contents()
      modifies sim, sim.regs
      ensures Valid() && State() == PushReg(old(State()), r) && Todo() == old(Todo())
    {
      FreeSlots(sim.Contents(), {r});
      sim.Push(r);
    }

    method DoPop()
      requires Valid() && WfStack(sim.Contents()) && sim.Contents() != []
      modifies sim, sim.regs
      ensures Valid() && State() == PopReg(old(State())) && Todo() == old(Todo())
    {
      sim.PopTop();
    }

    method ToFpuStack(r: int) returns (o: Opr)
      requires Valid() && r in sim.Contents()
      ensures o == OffsetOf(State(), r)
    {
      var k := sim.TosOffset(r);
      o := Offset(k);
    }

    /** Clears the stack before a call, a return or an exception handler. */
    method ClearFpuStack(preserve: Option<int>)
      requires Valid() && WfStack(sim.Contents()) && (preserve.Some? ==> preserve.value in sim.Contents())
      modifies this`lir, this`pos, sim, sim.regs
      ensures Valid() && State() == Clear(old(State()), preserve) && Todo() == old(Todo())
    {
      var resultSize := if preserve.Some? then 1 else 0;
      while sim.stackSize > resultSize
        invariant Valid() && WfStack(sim.Contents()) && (preserve.Some? ==> preserve.value in sim.Contents())
        invariant Clear(State(), preserve) == Clear(old(State()), preserve) && Todo() == old(Todo())
        decreases sim.stackSize,
                  if preserve.Some? && sim.stackSize > 0 && sim.GetSlot(0) == preserve.value then 1 else 0
      {
        if resultSize == 0 || sim.GetSlot(0) != preserve.value {
          InsertFree(0);
        } else {
          InsertExchange(sim.stackSize - 1);
        }
      }
    }

    // ----- rewritten operations -----

    /** The state once the operation at the current position is rewritten. */
    ghost function Rewritten(): Alloc
      requires Valid() && pos < |lir|
      reads this, sim, sim.regs, tempSim, tempSim.regs
    {
      Alloc(sim.Contents(), lir[..pos + 1])
    }

    ghost function Rest(): seq<Op>
      requires Valid() && pos < |lir|
      reads this, sim, sim.regs, tempSim, tempSim.regs
    {
      lir[pos + 1..]
    }

    method SetOp(op: Op)
      requires Valid() && pos < |lir|
      modifies this`lir
      ensures Valid() && pos < |lir| && sim.Contents() == old(sim.Contents())
      ensures Rewritten() == Append(old(State()), op) && Rest() == old(Todo())[1..]
    {
      lir := lir[pos := op];
      assert lir[..pos + 1] == old(lir[..pos]) + [op] && lir[pos + 1..] == old(lir[pos..])[1..];
    }

    /** Nothing for one register, a renaming at the last use, and a copy otherwise. */
    method CopyToReg(arg: Opr, res: Opr)
      requires Valid() && WfStack(sim.Contents()) && pos < |lir|
      requires arg.Fpu? && arg.reg in sim.Contents() && IsFpu(res)
      modifies this`lir, this`pos, sim, sim.regs
      ensures Valid() && State() == CopyReg(old(State()), arg, res) && Todo() == old(Todo())
    {
      hide FreeIfDead, PushReg, Rename, OffsetFromTos;
      if arg.reg != res.reg {
        InsertFreeIfDead(res.reg);
        if arg.lastUse {
          DoRename(arg.reg, res.reg);
        } else {
          InsertCopy(arg.reg, res.reg);
        }
      }
    }

    method HandleCopyOp(code: Code1, arg: Opr, res: Opr)
      requires Valid() && WfStack(sim.Contents()) && pos < |lir|
      requires arg.Fpu? && arg.reg in sim.Contents() && IsFpu(res)
      modifies this`lir, this`pos, sim, sim.regs
      ensures Valid() && pos < |lir| && Rest() == old(Todo())[1..]
      ensures Rewritten() == HandleCopy(old(State()), code, arg, res)
    {
      hide CopyReg, OffsetFromTos;
      CopyToReg(arg, res);
      var newOpr := ToFpuStack(res.reg);
      SetOp(Op1(code, newOpr, newOpr, false));
    }

    /** `early` is set for moves to memory, whose debug information describes the stack before the pop. */
    method HandleTopUseOp(code: Code1, arg: Opr, res: Opr, popIt: bool, early: bool)
      requires Valid() && WfStack(sim.Contents()) && pos < |lir| && info.None?
      requires arg.Fpu? && arg.reg in sim.Contents()
      modifies this, sim, sim.regs
      ensures Valid() && pos < |lir| && Rest() == old(Todo())[1..]
      ensures Rewritten() == HandleTopUse(old(State()), code, arg, res, popIt, popIt)
      ensures if early then InfoIs(ExchangeReg(old(State()), arg.reg).stack) else info.None?
    {
      InsertExchangeReg(arg.reg);
      if early {
        ComputeDebugInformation();
      }
      if popIt {
        DoPop();
      }
      SetOp(Op1(code, Offset(0), res, popIt));
    }

    /** `early` is set for moves from memory, whose debug information describes the stack before the push. */
    method HandlePushOp(code: Code1, arg: Opr, res: Opr, early: bool)
      requires Valid() && WfStack(sim.Contents()) && pos < |lir| && IsFpu(res) && info.None?
      modifies this, sim, sim.regs
      ensures Valid() && pos < |lir| && Rest() == old(Todo())[1..]
      ensures Rewritten() == HandlePush(old(State()), code, arg, res)
      ensures if early then InfoIs(FreeIfDead(old(State()), res.reg).stack) else info.None?
    {
      InsertFreeIfDead(res.reg);
      if early {
        ComputeDebugInformation();
      }
      DoPush(res.reg);
      SetOp(Op1(code, arg, Offset(0), false));
    }

    method HandleNegOp(arg: Opr, res: Opr)
      requires Valid() && WfStack(sim.Contents()) && pos < |lir|
      requires arg.Fpu? && arg.reg in sim.Contents() && IsFpu(res)
      modifies this`lir, this`pos, sim, sim.regs
      ensures Valid() && pos < |lir| && Rest() == old(Todo())[1..]
      ensures Rewritten() == HandleNeg(old(State()), arg, res)
    {
      InsertFreeUnless(res.reg, arg.reg);
      InsertExchangeReg(arg.reg);
      DoRename(arg.reg, res.reg);
      SetOp(Op1(Neg, Offset(0), Offset(0), false));
    }

    method HandleReturnOp(arg: Opr, res: Opr)
      requires Valid() && WfStack(sim.Contents()) && pos < |lir|
      requires arg.Fpu? ==> arg.reg in sim.Contents()
      modifies this`lir, this`pos, sim, sim.regs
      ensures Valid() && pos < |lir| && Rest() == old(Todo())[1..]
      ensures Rewritten() == HandleReturn(old(State()), arg, res)
    {
      ClearFpuStack(if arg.Fpu? then Some(arg.reg) else None);
      SetOp(Op1(Return, if arg.Fpu? then Offset(0) else arg, res, false));
    }

    method HandleOp1()
      requires Valid() && WfStack(sim.Contents()) && pos < |lir| && lir[pos].Op1? && info.None?
      requires Neutral(lir[pos]) || Op1Ok(lir[pos].code1, lir[pos].arg, lir[pos].res, Elements(sim.Contents()))
      modifies this, sim, sim.regs
      ensures Valid() && pos < |lir| && Rest() == old(Todo())[1..]
      ensures Rewritten() == if Neutral(old(lir[pos])) then Append(old(State()), old(lir[pos]))
                             else AllocSpec.HandleOp1(old(State()), old(lir[pos]).code1, old(lir[pos]).arg,
                                                      old(lir[pos]).res)
      ensures if !Neutral(old(lir[pos])) && (IsStore(old(lir[pos])) || IsLoad(old(lir[pos])))
              then InfoIs(if IsStore(old(lir[pos])) then ExchangeReg(old(State()), old(lir[pos]).arg.reg).stack
                          else FreeIfDead(old(State()), old(lir[pos]).res.reg).stack)
              else info.None?
    {
      var Op1(code, arg, res, popFlag) := lir[pos];
      match code {
        case Return =>
          HandleReturnOp(arg, res);
        case Move =>
          if arg.Fpu? {
            if res.Xmm? {
              HandleTopUseOp(Move, arg, res, true, false);
            } else if res.Fpu? {
              HandleCopyOp(Move, arg, res);
            } else {
              HandleTopUseOp(Move, arg, res, arg.lastUse, true);
            }
          } else if res.Fpu? {
            HandlePushOp(Move, arg, res, true);
          } else {
            SetOp(lir[pos]);
          }
        case Neg =>
          if arg.Fpu? { HandleNegOp(arg, res); } else { SetOp(lir[pos]); }
        case ConvertFloat =>
          if arg.Fpu? && res.Fpu? { HandleCopyOp(ConvertFloat, arg, res); } else { SetOp(lir[pos]); }
        case ConvertFromInt =>
          if res.Fpu? { HandlePushOp(ConvertFromInt, arg, res, false); } else { SetOp(lir[pos]); }
        case ConvertToInt =>
          if arg.Fpu? { HandleTopUseOp(ConvertToInt, arg, res, false, false); } else { SetOp(lir[pos]); }
        case ConvertToLong =>
          if arg.Fpu? { HandleTopUseOp(ConvertToLong, arg, res, true, false); } else { SetOp(lir[pos]); }
        case RoundFp =>
          if arg.Fpu? { HandleTopUseOp(RoundFp, arg, res, arg.lastUse, false); } else { SetOp(lir[pos]); }
        case CpuOnly1 =>
          SetOp(lir[pos]);
      }
    }

    // ----- two-operand operations -----

    ghost predicate AtOp2()
      reads this, sim, sim.regs, tempSim, tempSim.regs
    {
      && Valid() && WfStack(sim.Contents()) && pos < |lir| && lir[pos].Op2?
      && IsLive(lir[pos].left, Elements(sim.Contents()))
      && Op2Ok(lir[pos].code2, lir[pos].left, lir[pos].right, lir[pos].res, lir[pos].tmp1, lir[pos].tmp2,
               Elements(sim.Contents()))
    }

    method HandleCompareOp()
      requires AtOp2() && lir[pos].code2.Compare?
      modifies this`lir, this`pos, sim, sim.regs
      ensures Valid() && pos < |lir| && Rest() == old(Todo())[1..]
      ensures Rewritten() == HandleCompare(old(State()), old(lir[pos]))
    {
      var op := lir[pos];
      InsertExchangeReg(op.left.reg);
      var newRight := ToFpuStack(op.right.reg);
      if op.left.lastUse {
        DoPop();
      }
      SetOp(op.(left := Offset(0), right := newRight, pop := op.left.lastUse));
    }

    method HandleArithOp()
      requires AtOp2() && lir[pos].code2.Arith?
      modifies this`lir, this`pos, sim, sim.regs
      ensures Valid() && pos < |lir| && Rest() == old(Todo())[1..]
      ensures Rewritten() == HandleArith(old(State()), old(lir[pos]))
    {
      hide HandleArithReg, FreeIfDead, ExchangeReg, OffsetFromTos;
      var op := lir[pos];
      if op.code2.strictness != Relaxed {
        InsertFreeIfDead(op.tmp1.reg);
        FreeSlots(sim.Contents(), {op.tmp1.reg});
        assert sim.stackSize <= 7;
      }
      if !op.right.Fpu? {
        InsertExchangeReg(op.left.reg);
        var newRes := ToFpuStack(op.res.reg);
        SetOp(op.(left := Offset(0), res := newRes));
      } else {
        HandleArithRegOp(op);
      }
    }

    method HandleArithRegOp(op: Op)
      requires Valid() && WfStack(sim.Contents()) && pos < |lir| && op.Op2?
      requires IsFpu(op.left) && op.left.reg in sim.Contents() && op.res == op.left
      requires op.right.Fpu? && op.right.reg in sim.Contents()
      requires op.right.lastUse ==> op.right.reg != op.left.reg
      modifies this`lir, this`pos, sim, sim.regs
      ensures Valid() && pos < |lir| && Rest() == old(Todo())[1..]
      ensures Rewritten() == HandleArithReg(old(State()), op)
    {
      hide ArithRightTop, ArithLeftTop;
      var k := sim.TosOffset(op.right.reg);
      if k == 0 {
        HandleArithRightTop(op);
      } else {
        HandleArithLeftTop(op);
      }
    }

    method HandleArithRightTop(op: Op)
      requires Valid() && WfStack(sim.Contents()) && pos < |lir| && op.Op2?
      requires IsFpu(op.left) && op.left.reg in sim.Contents() && op.res == op.left
      requires op.right.Fpu? && op.right.reg in sim.Contents() && OffsetFromTos(sim.Contents(), op.right.reg) == 0
      requires op.right.lastUse ==> op.right.reg != op.left.reg
      modifies this`lir, this`pos, sim, sim.regs
      ensures Valid() && pos < |lir| && Rest() == old(Todo())[1..]
      ensures Rewritten() == ArithRightTop(old(State()), op)
    {
      hide PopReg;
      var newLeft := ToFpuStack(op.left.reg);
      if op.right.lastUse {
        DoPop();
      }
      var newRes := ToFpuStack(op.res.reg);
      SetOp(op.(left := newLeft, right := Offset(0), res := newRes, pop := op.right.lastUse));
    }

    method HandleArithLeftTop(op: Op)
      requires Valid() && WfStack(sim.Contents()) && pos < |lir| && op.Op2?
      requires IsFpu(op.left) && op.left.reg in sim.Contents() && op.res == op.left
      requires op.right.Fpu? && op.right.reg in sim.Contents()
      requires op.right.lastUse ==> op.right.reg != op.left.reg
      modifies this`lir, this`pos, sim, sim.regs
      ensures Valid() && pos < |lir| && Rest() == old(Todo())[1..]
      ensures Rewritten() == ArithLeftTop(old(State()), op)
    {
      hide ExchangeReg, PopReg, Rename, OffsetFromTos;
      InsertExchangeReg(op.left.reg);
      var newRight := ToFpuStack(op.right.reg);
      if op.right.lastUse {
        // the result is placed in the slot of the right operand
        DoPop();
        DoRename(op.right.reg, op.res.reg);
      }
      var newRes := ToFpuStack(op.res.reg);
      SetOp(op.(left := Offset(0), right := newRight, res := newRes, pop := op.right.lastUse));
    }

    method BringBothToTop(l: int, r: int)
      requires Valid() && WfStack(sim.Contents()) && l in sim.Contents() && r in sim.Contents() && l != r
      modifies this`lir, this`pos, sim, sim.regs
      ensures Valid() && State() == BothToTop(old(State()), l, r) && Todo() == old(Todo())
    {
      assert IndexOf(sim.Contents(), l) != IndexOf(sim.Contents(), r);
      var k := sim.TosOffset(r);
      if k != 1 {
        InsertExchangeReg(r);
        InsertExchange(1);
      }
      InsertExchangeReg(l);
    }

    method HandleRemOp()
      requires AtOp2() && lir[pos].code2.Rem?
      modifies this`lir, this`pos, sim, sim.regs
      ensures Valid() && pos < |lir| && Rest() == old(Todo())[1..]
      ensures Rewritten() == HandleRem(old(State()), old(lir[pos]))
    {
      var op := lir[pos];
      BringBothToTop(op.left.reg, op.right.reg);
      var newRight := ToFpuStack(op.right.reg);
      assert newRight == Offset(1);
      DoPop();
      DoRename(op.right.reg, op.res.reg);
      SetOp(op.(left := Offset(0), right := newRight, res := Offset(0), pop := true));
    }

    method HandleUnaryOp(op: Op)
      requires Valid() && WfStack(sim.Contents()) && pos < |lir| && op.Op2?
      requires op.left.Fpu? && op.left.reg in sim.Contents() && IsFpu(op.res)
      modifies this`lir, this`pos, sim, sim.regs
      ensures Valid() && pos < |lir| && Rest() == old(Todo())[1..]
      ensures Rewritten() == HandleUnary(old(State()), op)
    {
      InsertFreeUnless(op.res.reg, op.left.reg);
      InsertExchangeReg(op.left.reg);
      DoRename(op.left.reg, op.res.reg);
      SetOp(op.(left := Offset(0), res := Offset(0), stackSize := sim.stackSize));
    }

    method HandlePowOp()
      requires AtOp2() && lir[pos].code2.Pow?
      modifies this`lir, this`pos, sim, sim.regs
      ensures Valid() && pos < |lir| && Rest() == old(Todo())[1..]
      ensures Rewritten() == HandlePow(old(State()), old(lir[pos]))
    {
      hide FreeIfDead, FreeUnless, BothToTop, PopReg, Rename;
      var op := lir[pos];
      InsertFreeIfDead(op.tmp1.reg);
      InsertFreeIfDead(op.tmp2.reg);
      InsertFreeUnless(op.res.reg, op.right.reg);
      BringBothToTop(op.left.reg, op.right.reg);
      var newRight := ToFpuStack(op.right.reg);
      assert newRight == Offset(1);
      var size := sim.stackSize;
      TwoFreeSlots(sim.Contents(), op.tmp1.reg, op.tmp2.reg);
      assert size <= 6;
      DoPop();
      DoRename(op.right.reg, op.res.reg);
      SetOp(op.(left := Offset(0), right := newRight, res := Offset(0), stackSize := size));
    }

    /** Logarithms need one free slot. */
    method HandleLogOp()
      requires AtOp2() && (lir[pos].code2.Log? || lir[pos].code2.Log10?)
      modifies this`lir, this`pos, sim, sim.regs
      ensures Valid() && pos < |lir| && Rest() == old(Todo())[1..]
      ensures Rewritten() == HandleUnary(FreeIfDead(old(State()), old(lir[pos]).tmp1.reg), old(lir[pos]))
    {
      hide FreeIfDead, FreeUnless, ExchangeReg, Rename;
      var op := lir[pos];
      InsertFreeIfDead(op.tmp1.reg);
      HandleUnaryOp(op);
      FreeSlots(sim.Contents(), {op.tmp1.reg});
      assert sim.stackSize <= 7;
    }

    /** Trigonometric functions and exp need two. */
    method HandleIntrinsicOp()
      requires AtOp2() && lir[pos].code2.Intrinsic?
      modifies this`lir, this`pos, sim, sim.regs
      ensures Valid() && pos < |lir| && Rest() == old(Todo())[1..]
      ensures var op := old(lir[pos]);
        Rewritten() == HandleUnary(FreeIfDead(FreeIfDead(old(State()), op.right.reg), op.tmp1.reg), op)
    {
      hide FreeIfDead, FreeUnless, ExchangeReg, Rename;
      var op := lir[pos];
      InsertFreeIfDead(op.right.reg);
      InsertFreeIfDead(op.tmp1.reg);
      HandleUnaryOp(op);
      TwoFreeSlots(sim.Contents(), op.right.reg, op.tmp1.reg);
      assert sim.stackSize <= 6;
    }

    method HandleOp2()
      requires Valid() && WfStack(sim.Contents()) && pos < |lir| && lir[pos].Op2?
      requires Neutral(lir[pos]) || AtOp2()
      modifies this`lir, this`pos, sim, sim.regs
      ensures Valid() && pos < |lir| && Rest() == old(Todo())[1..]
      ensures Rewritten() == if Neutral(old(lir[pos])) then Append(old(State()), old(lir[pos]))
                             else AllocSpec.HandleOp2(old(State()), old(lir[pos]))
    {
      hide HandleCompare, HandleArith, HandleRem, HandlePow, HandleUnary, FreeIfDead;
      var op := lir[pos];
      if !op.left.Fpu? {
        SetOp(op);
        return;
      }
      match op.code2 {
        case Compare(_) => HandleCompareOp();
        case Arith(_, _) => HandleArithOp();
        case Rem => HandleRemOp();
        case Abs => HandleUnaryOp(op);
        case Sqrt => HandleUnaryOp(op);
        case Log => HandleLogOp();
        case Log10 => HandleLogOp();
        case Intrinsic(_) => HandleIntrinsicOp();
        case Pow => HandlePowOp();
      }
    }

    method HandleOpCall()
      requires Valid() && WfStack(sim.Contents()) && pos < |lir| && lir[pos].OpCall? && info.None?
      requires IsFpu(lir[pos].res) || !lir[pos].res.Fpu?
      modifies this, sim, sim.regs
      ensures Valid() && pos < |lir| && Rest() == old(Todo())[1..]
      ensures Rewritten() == HandleCall(old(State()), old(lir[pos]).id, old(lir[pos]).res)
      ensures InfoIs([])
    {
      var OpCall(id, res) := lir[pos];
      ClearFpuStack(None);
      assert sim.stackSize == 0;
      ComputeDebugInformation();
      if res.Fpu? {
        DoPush(res.reg);
        SetOp(OpCall(id, Offset(0)));
      } else {
        SetOp(OpCall(id, res));
      }
    }

    /** Handles the operation at the current position and moves on. */
    method HandleCurrent()
      requires Valid() && WfStack(sim.Contents()) && pos < |lir| && OpOk(lir[pos], Elements(sim.Contents()))
      modifies this, sim, sim.regs
      ensures Valid() && State() == HandleOp(old(State()), old(lir[pos])) && Todo() == old(Todo())[1..]
      ensures InfoIs(RaisePoint(old(State()), old(lir[pos])).stack)
    {
      hide AllocSpec.HandleOp1, AllocSpec.HandleOp2, ExchangeReg, FreeIfDead, Clear;
      var op := lir[pos];
      info := None;
      if op.Op1? {
        HandleOp1();
      } else if op.Op2? {
        HandleOp2();
      } else if op.OpCall? {
        HandleOpCall();
      } else {
        SetOp(op);
      }
      ComputeDebugInformation();
      pos := pos + 1;
    }
  }
}
