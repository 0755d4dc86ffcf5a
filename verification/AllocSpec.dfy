/** What the FPU stack allocator does to one operation, as functions on values.

`Alloc` pairs the simulated stack with the operations already placed before the current
position of the LIR list. The methods of `FpuStackAllocator` refine these functions.
*/
module AllocSpec {
  import opened Stacks
  import opened Options
  import opened Lir

  datatype Alloc = Alloc(stack: seq<int>, done: seq<Op>)

  function Append(a: Alloc, op: Op): Alloc {
    a.(done := a.done + [op])
  }

  /** fxch, unless the entry is on top already. */
  function Exchange(a: Alloc, k: int): (r: Alloc)
    requires WfStack(a.stack) && 0 <= k < |a.stack|
    ensures WfStack(r.stack) && |r.stack| == |a.stack|
    ensures Slot(r.stack, 0) == Slot(a.stack, k)
    ensures forall x :: x in r.stack <==> x in a.stack
  {
    if k > 0 then
      SwapKeepsWf(a.stack, k);
      Alloc(SwapTop(a.stack, k), a.done + [Fxch(k)])
    else a
  }

  function ExchangeReg(a: Alloc, r: int): (b: Alloc)
    requires WfStack(a.stack) && r in a.stack
    ensures WfStack(b.stack) && |b.stack| == |a.stack|
    ensures Slot(b.stack, 0) == r
    ensures forall x :: x in b.stack <==> x in a.stack
  {
    Exchange(a, OffsetFromTos(a.stack, r))
  }

  /** Removes the entry at distance `k` from the top. */
  function Free(a: Alloc, k: int): (r: Alloc)
    requires WfStack(a.stack) && 0 <= k < |a.stack|
    ensures WfStack(r.stack) && |r.stack| == |a.stack| - 1
    ensures forall x :: x in r.stack <==> x in a.stack && x != Slot(a.stack, k)
  {
    var b := Exchange(a, k);
    Alloc(Pop(b.stack), b.done + [FpopRaw])
  }

  function FreeIfDead(a: Alloc, r: int): (b: Alloc)
    requires WfStack(a.stack)
    ensures WfStack(b.stack) && |b.stack| <= |a.stack|
    ensures forall x :: x in b.stack <==> x in a.stack && x != r
  {
    if r in a.stack then Free(a, OffsetFromTos(a.stack, r)) else a
  }

  function FreeUnless(a: Alloc, r: int, ignore: int): (b: Alloc)
    requires WfStack(a.stack)
    ensures WfStack(b.stack) && |b.stack| <= |a.stack|
    ensures forall x :: x in b.stack <==> x in a.stack && (x != r || r == ignore)
  {
    if r != ignore then FreeIfDead(a, r) else a
  }

  function Rename(a: Alloc, from: int, to: int): (b: Alloc)
    requires WfStack(a.stack) && IsReg(to)
    requires from in a.stack && (to == from || to !in a.stack)
    ensures WfStack(b.stack) && |b.stack| == |a.stack|
    ensures forall x :: x in b.stack <==> x == to || (x in a.stack && x != from)
  {
    var s := RenameAll(a.stack, from, to);
    assert forall x :: x in a.stack && x != from ==> s[IndexOf(a.stack, x)] == x;
    assert s[IndexOf(a.stack, from)] == to;
    a.(stack := s)
  }

  function PushReg(a: Alloc, r: int): (b: Alloc)
    requires WfStack(a.stack) && IsReg(r) && r !in a.stack
    ensures WfStack(b.stack) && |b.stack| == |a.stack| + 1 <= NOF_FPU_REGS
    ensures forall x :: x in b.stack <==> x in a.stack || x == r
  {
    FreeSlots(a.stack, {r});
    a.(stack := a.stack + [r])
  }

  function PopReg(a: Alloc): (b: Alloc)
    requires WfStack(a.stack) && a.stack != []
    ensures WfStack(b.stack) && |b.stack| == |a.stack| - 1
    ensures forall x :: x in b.stack <==> x in a.stack && x != Slot(a.stack, 0)
  {
    a.(stack := Pop(a.stack))
  }

  /** Pops everything but `preserve`, which is first moved to the bottom when it is met on
      top of other entries. */
  function Clear(a: Alloc, preserve: Option<int>): (r: Alloc)
    requires WfStack(a.stack) && (preserve.Some? ==> preserve.value in a.stack)
    ensures r.stack == if preserve.Some? then [preserve.value] else []
    decreases |a.stack|, if preserve.Some? && a.stack != [] && Slot(a.stack, 0) == preserve.value then 1 else 0
  {
    if |a.stack| <= (if preserve.Some? then 1 else 0) then a
    else if preserve.None? || Slot(a.stack, 0) != preserve.value then Clear(Free(a, 0), preserve)
    else Clear(Exchange(a, |a.stack| - 1), preserve)
  }

  function OffsetOf(a: Alloc, r: int): Opr
    requires r in a.stack
  {
    Offset(OffsetFromTos(a.stack, r))
  }

  // ----- one-operand operations -----

  function HandleReturn(a: Alloc, arg: Opr, res: Opr): Alloc
    requires WfStack(a.stack) && (arg.Fpu? ==> arg.reg in a.stack)
  {
    var b := Clear(a, if arg.Fpu? then Some(arg.reg) else None);
    Append(b, Op1(Return, if arg.Fpu? then Offset(0) else arg, res, false))
  }

  /** Frees the destination and makes it name a copy of the source, or the source itself at
      its last use. */
  function CopyReg(a: Alloc, arg: Opr, res: Opr): (b: Alloc)
    requires WfStack(a.stack) && arg.Fpu? && arg.reg in a.stack && IsFpu(res)
    ensures WfStack(b.stack) && res.reg in b.stack
  {
    if arg.reg == res.reg then a
    else
      var f := FreeIfDead(a, res.reg);
      if arg.lastUse then Rename(f, arg.reg, res.reg)
      else PushReg(Append(f, Fld(OffsetFromTos(f.stack, arg.reg))), res.reg)
  }

  function HandleCopy(a: Alloc, code: Code1, arg: Opr, res: Opr): Alloc
    requires WfStack(a.stack) && arg.Fpu? && arg.reg in a.stack && IsFpu(res)
  {
    var b := CopyReg(a, arg, res);
    Append(b, Op1(code, OffsetOf(b, res.reg), OffsetOf(b, res.reg), false))
  }

  /** The operand is brought to the top, read there, and popped or not. */
  function HandleTopUse(a: Alloc, code: Code1, arg: Opr, res: Opr, pop: bool, popFlag: bool): Alloc
    requires WfStack(a.stack) && arg.Fpu? && arg.reg in a.stack
  {
    var b := ExchangeReg(a, arg.reg);
    Append(if pop then PopReg(b) else b, Op1(code, Offset(0), res, popFlag))
  }

  /** A new value is pushed under the name of the destination. */
  function HandlePush(a: Alloc, code: Code1, arg: Opr, res: Opr): Alloc
    requires WfStack(a.stack) && IsFpu(res)
  {
    Append(PushReg(FreeIfDead(a, res.reg), res.reg), Op1(code, arg, Offset(0), false))
  }

  function HandleNeg(a: Alloc, arg: Opr, res: Opr): Alloc
    requires WfStack(a.stack) && arg.Fpu? && arg.reg in a.stack && IsFpu(res)
  {
    var b := ExchangeReg(FreeUnless(a, res.reg, arg.reg), arg.reg);
    Append(Rename(b, arg.reg, res.reg), Op1(Neg, Offset(0), Offset(0), false))
  }

  function HandleOp1(a: Alloc, code: Code1, arg: Opr, res: Opr): Alloc
    requires WfStack(a.stack) && Op1Ok(code, arg, res, Elements(a.stack))
  {
    match code
    case Return => HandleReturn(a, arg, res)
    case Move =>
      if arg.Fpu? then
        if res.Xmm? then HandleTopUse(a, Move, arg, res, true, true)
        else if res.Fpu? then HandleCopy(a, Move, arg, res)
        else HandleTopUse(a, Move, arg, res, arg.lastUse, arg.lastUse)
      else HandlePush(a, Move, arg, res)
    case Neg => HandleNeg(a, arg, res)
    case ConvertFloat => HandleCopy(a, ConvertFloat, arg, res)
    case ConvertFromInt => HandlePush(a, ConvertFromInt, arg, res)
    case ConvertToInt => HandleTopUse(a, ConvertToInt, arg, res, false, false)
    case ConvertToLong => HandleTopUse(a, ConvertToLong, arg, res, true, true)
    case RoundFp => HandleTopUse(a, RoundFp, arg, res, arg.lastUse, arg.lastUse)
  }

  // ----- two-operand operations -----

  function HandleCompare(a: Alloc, op: Op): Alloc
    requires WfStack(a.stack) && op.Op2?
    requires op.left.Fpu? && op.left.reg in a.stack && op.right.Fpu? && op.right.reg in a.stack
  {
    var b := ExchangeReg(a, op.left.reg);
    var op' := op.(left := Offset(0), right := OffsetOf(b, op.right.reg), pop := op.left.lastUse);
    Append(if op.left.lastUse then PopReg(b) else b, op')
  }

  function HandleArithMem(a: Alloc, op: Op): Alloc
    requires WfStack(a.stack) && op.Op2? && op.left.Fpu? && op.left.reg in a.stack && op.res == op.left
  {
    var b := ExchangeReg(a, op.left.reg);
    Append(b, op.(left := Offset(0), res := OffsetOf(b, op.res.reg)))
  }

  ghost predicate ArithRegs(a: Alloc, op: Op) {
    && WfStack(a.stack) && op.Op2? && IsFpu(op.left) && op.left.reg in a.stack && op.res == op.left
    && op.right.Fpu? && op.right.reg in a.stack
    && (op.right.lastUse ==> op.right.reg != op.left.reg)
  }

  /** The right operand is on top, and popped at its last use. */
  function ArithRightTop(a: Alloc, op: Op): Alloc
    requires ArithRegs(a, op) && OffsetFromTos(a.stack, op.right.reg) == 0
  {
    var l, b := op.left.reg, if op.right.lastUse then PopReg(a) else a;
    Append(b, op.(left := OffsetOf(a, l), right := Offset(0), res := OffsetOf(b, l), pop := op.right.lastUse))
  }

  /** The left operand is brought to the top. At the last use of the right one the result takes its slot. */
  function ArithLeftTop(a: Alloc, op: Op): Alloc
    requires ArithRegs(a, op)
  {
    var l, r := op.left.reg, op.right.reg;
    var e := ExchangeReg(a, l);
    var b := if op.right.lastUse then Rename(PopReg(e), r, l) else e;
    Append(b, op.(left := Offset(0), right := OffsetOf(e, r), res := OffsetOf(b, l), pop := op.right.lastUse))
  }

  /** No exchange is needed when the right operand is already on top. */
  function HandleArithReg(a: Alloc, op: Op): Alloc
    requires ArithRegs(a, op)
  {
    if OffsetFromTos(a.stack, op.right.reg) == 0 then ArithRightTop(a, op) else ArithLeftTop(a, op)
  }

  function HandleArith(a: Alloc, op: Op): Alloc
    requires WfStack(a.stack) && op.Op2? && op.code2.Arith? && IsLive(op.left, Elements(a.stack))
    requires Op2Ok(op.code2, op.left, op.right, op.res, op.tmp1, op.tmp2, Elements(a.stack))
  {
    var b := if op.code2.strictness != Relaxed then FreeIfDead(a, op.tmp1.reg) else a;
    if op.right.Fpu? then HandleArithReg(b, op) else HandleArithMem(b, op)
  }

  /** Brings the right operand directly below the left one, which is on top. */
  function BothToTop(a: Alloc, l: int, r: int): (b: Alloc)
    requires WfStack(a.stack) && l in a.stack && r in a.stack && l != r
    ensures WfStack(b.stack) && |b.stack| == |a.stack| >= 2
    ensures Slot(b.stack, 0) == l && Slot(b.stack, 1) == r
    ensures forall x :: x in b.stack <==> x in a.stack
  {
    assert |a.stack| >= 2 by {
      assert IndexOf(a.stack, l) != IndexOf(a.stack, r);
    }
    var e := if OffsetFromTos(a.stack, r) != 1 then Exchange(ExchangeReg(a, r), 1) else a;
    assert Slot(e.stack, 1) == r;
    ExchangeReg(e, l)
  }

  function HandleRem(a: Alloc, op: Op): Alloc
    requires WfStack(a.stack) && op.Op2? && IsFpu(op.left) && op.left.reg in a.stack && op.res == op.left
    requires op.right.Fpu? && op.right.reg in a.stack && op.right.reg != op.left.reg
  {
    var e := BothToTop(a, op.left.reg, op.right.reg);
    var b := Rename(PopReg(e), op.right.reg, op.res.reg);
    Append(b, op.(left := Offset(0), right := Offset(1), res := Offset(0), pop := true))
  }

  /** The operand, on top, is replaced by the result. */
  function HandleUnary(a: Alloc, op: Op): Alloc
    requires WfStack(a.stack) && op.Op2? && op.left.Fpu? && op.left.reg in a.stack && IsFpu(op.res)
  {
    var e := ExchangeReg(FreeUnless(a, op.res.reg, op.left.reg), op.left.reg);
    var b := Rename(e, op.left.reg, op.res.reg);
    Append(b, op.(left := Offset(0), res := Offset(0), stackSize := |b.stack|))
  }

  function HandlePow(a: Alloc, op: Op): Alloc
    requires WfStack(a.stack) && op.Op2? && op.code2.Pow? && IsLive(op.left, Elements(a.stack))
    requires Op2Ok(op.code2, op.left, op.right, op.res, op.tmp1, op.tmp2, Elements(a.stack))
  {
    var f := FreeUnless(FreeIfDead(FreeIfDead(a, op.tmp1.reg), op.tmp2.reg), op.res.reg, op.right.reg);
    var e := BothToTop(f, op.left.reg, op.right.reg);
    var b := Rename(PopReg(e), op.right.reg, op.res.reg);
    Append(b, op.(left := Offset(0), right := Offset(1), res := Offset(0), stackSize := |e.stack|))
  }

  function HandleOp2(a: Alloc, op: Op): Alloc
    requires WfStack(a.stack) && op.Op2? && IsLive(op.left, Elements(a.stack))
    requires Op2Ok(op.code2, op.left, op.right, op.res, op.tmp1, op.tmp2, Elements(a.stack))
  {
    match op.code2
    case Compare(_) => HandleCompare(a, op)
    case Arith(_, _) => HandleArith(a, op)
    case Rem => HandleRem(a, op)
    case Abs => HandleUnary(a, op)
    case Sqrt => HandleUnary(a, op)
    case Log => HandleUnary(FreeIfDead(a, op.tmp1.reg), op)
    case Log10 => HandleUnary(FreeIfDead(a, op.tmp1.reg), op)
    case Intrinsic(_) => HandleUnary(FreeIfDead(FreeIfDead(a, op.right.reg), op.tmp1.reg), op)
    case Pow => HandlePow(a, op)
  }

  function HandleCall(a: Alloc, id: int, res: Opr): Alloc
    requires WfStack(a.stack) && (res.Fpu? ==> IsFpu(res))
  {
    var b := Clear(a, None);
    if res.Fpu? then Append(PushReg(b, res.reg), OpCall(id, Offset(0))) else Append(b, OpCall(id, res))
  }

  function HandleOp(a: Alloc, op: Op): Alloc
    requires WfStack(a.stack) && OpOk(op, Elements(a.stack))
  {
    if Neutral(op) then Append(a, op)
    else match op
      case Op1(code, arg, res, _) => HandleOp1(a, code, arg, res)
      case Op2(_, _, _, _, _, _, _, _) => HandleOp2(a, op)
      case OpCall(id, res) => HandleCall(a, id, res)
  }

  /** Where the allocator computes debug information and allocates exception handlers: before the pop of
      a store, before the push of a load or of the result of a call, and behind any other operation. */
  function RaisePoint(a: Alloc, op: Op): Alloc
    requires WfStack(a.stack) && OpOk(op, Elements(a.stack))
  {
    if Neutral(op) then a
    else if IsStore(op) then ExchangeReg(a, op.arg.reg)
    else if op.OpCall? then Clear(a, None)
    else if IsLoad(op) then FreeIfDead(a, op.res.reg)
    else HandleOp(a, op)
  }
}
